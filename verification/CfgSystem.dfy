/**
 The reconciler among everything that drives it: the 1 Hz tick, tracker events, chunks,
 heartbeats, the operator's writes, pushes and clears, and forwarded console lines. Any
 sequence of these steps is a run; every state of every run satisfies the invariant.
 */
module CfgSystem {
  import opened Wrappers
  import opened CfgEnvelope
  import opened RingTracker
  import opened CfgState
  import opened CfgInvariant
  import Forward

  datatype Action =
    | TickAct(now: bv32, expired: bool, sub: Option<nat>, clock: bv32)
    | CfgEvent(q: nat, ev: TrkEv, clock: bv32)
    | CmdEvent(q: nat, ev: TrkEv)
    | ChunkIn(src: nat, feed: Feed, clock: bv32)
    | FreshHb(zone: nat)
    | NodeRow(zone: nat, node: Node)
    | SetReq(zone: nat, cfg: Payload)
    | PushReq(zone: nat)
    | ClearReq(zone: nat)
    | FrameSent(q: nat)
    | CmdSubmit(q: nat, zone: nat)
    | CmdArm(q: nat, zone: nat, line: string)
    | CmdGiveUp

  predicate Enabled(s: State, a: Action) {
    Wf(s) &&
    match a
    case TickAct(_, _, sub, _) => Free(AfterClears(s), sub)
    case CfgEvent(q, _, _) => q in s.trk && !s.trk[q].frame.Cmd?
    case CmdEvent(q, _) => q in s.trk && s.trk[q].frame.Cmd?
    case NodeRow(zone, _) => IsZone(zone)
    case FrameSent(q) => q in s.trk
    case CmdSubmit(q, _) => q !in s.trk
    case _ => true
  }

  /** nmgr_fwd_on_ev on the node_mgr task: the hand-over, then the adoption of an edit it confirms. */
  function OnCmdEvent(s: State, q: nat, ev: TrkEv): State
    requires |s.zones| == ZONES
  {
    var t := Answered(s, q).(fwd := Forward.OnEv(s.fwd, q, ev));
    match Forward.Adopt(s.fwd, q, ev)
    case Some(z) => if IsZone(z) then Invalidate(t, z) else t
    case None => t
  }

  function MarkSent(s: State, q: nat): State
    requires q in s.trk
  {
    s.(trk := s.trk[q := s.trk[q].(sent := true)])
  }

  function Step(s: State, a: Action): State
    requires Enabled(s, a)
  {
    match a
    case TickAct(now, expired, sub, clock) => Tick(s, now, expired, sub, clock).0
    case CfgEvent(q, ev, clock) => OnEv(Answered(s, q), q, ev, clock)
    case CmdEvent(q, ev) => OnCmdEvent(s, q, ev)
    case ChunkIn(src, feed, clock) => OnChunk(s, src, feed, clock)
    case FreshHb(zone) => NoteFreshHb(s, zone)
    case NodeRow(zone, node) => Put(s, zone, At(s, zone).(node := node))
    case SetReq(zone, cfg) => CfgSet(s, zone, cfg).0
    case PushReq(zone) => PushCfg(s, zone).0
    case ClearReq(zone) => RequestClear(s, zone)
    case FrameSent(q) => MarkSent(s, q)
    case CmdSubmit(q, zone) => Submitted(s, q, Cmd(zone))
    case CmdArm(q, zone, line) => s.(fwd := Forward.Arm(s.fwd, q, zone, line))
    case CmdGiveUp => s.(fwd := Forward.GiveUp(s.fwd))
  }

  // ---------------- the invariant over every step ----------------

  lemma FwdInv(s: State, f: Forward.Fwd)
    requires Inv(s)
    ensures Inv(s.(fwd := f))
  {
    hide ZoneOk, PushWire, SlotFrame, SlotOk;
  }

  lemma CmdAnsweredInv(s: State, q: nat)
    requires Inv(s) && q in s.trk && s.trk[q].frame.Cmd?
    ensures Inv(Answered(s, q))
  {
    hide ZoneOk, PushWire, SlotOk;
  }

  lemma CmdEventInv(s: State, q: nat, ev: TrkEv)
    requires Inv(s) && q in s.trk && s.trk[q].frame.Cmd?
    ensures |s.zones| == ZONES && Inv(OnCmdEvent(s, q, ev))
  {
    hide Inv, Forward.OnEv, Forward.Adopt, Invalidate;
    InvWf(s);
    CmdAnsweredInv(s, q);
    var t := Answered(s, q).(fwd := Forward.OnEv(s.fwd, q, ev));
    FwdInv(Answered(s, q), Forward.OnEv(s.fwd, q, ev));
    match Forward.Adopt(s.fwd, q, ev)
    case Some(z) => if IsZone(z) { InvalidateInv(t, z); }
    case None =>
  }

  lemma SentInv(s: State, q: nat)
    requires Inv(s) && q in s.trk
    ensures Inv(MarkSent(s, q))
  {
    hide ZoneOk, PushWire, SlotOk;
  }

  lemma CmdSubmitInv(s: State, q: nat, zone: nat)
    requires Inv(s) && q !in s.trk
    ensures Inv(Submitted(s, q, Cmd(zone)))
  {
    hide ZoneOk, PushWire, SlotOk;
  }

  lemma PushReqInv(s: State, zone: nat)
    requires Inv(s) && zone <= ZONES
    ensures Inv(s.(pushReq := zone))
  {
    hide ZoneOk, PushWire, SlotOk, SlotFrame;
  }

  lemma InvStep(s: State, a: Action)
    requires Inv(s) && Enabled(s, a)
    ensures Inv(Step(s, a))
  {
    hide Inv, Tick, AfterClears, OnEv, OnChunk, OnCmdEvent, MarkSent, Submitted, Forward.Arm, Forward.GiveUp, Free;
    InvWf(s);
    match a
    case TickAct(now, expired, sub, clock) => TickInv(s, now, expired, sub, clock);
    case CfgEvent(q, ev, clock) => EventInv(s, q, ev, clock);
    case CmdEvent(q, ev) => CmdEventInv(s, q, ev);
    case ChunkIn(src, feed, clock) => ChunkInv(s, src, feed, clock);
    case FreshHb(zone) => if IsZone(zone) { PutInv(s, zone, At(s, zone).(isFresh := true)); }
    case NodeRow(zone, node) => PutInv(s, zone, At(s, zone).(node := node));
    case SetReq(zone, cfg) => if IsZone(zone) { PutInv(s, zone, At(s, zone).(write := Some(cfg))); }
    case PushReq(zone) => if IsZone(zone) { PushReqInv(s, zone); }
    case ClearReq(zone) => if IsZone(zone) { PutInv(s, zone, At(s, zone).(clear := true)); }
    case FrameSent(q) => SentInv(s, q);
    case CmdSubmit(q, zone) => CmdSubmitInv(s, q, zone);
    case CmdArm(q, zone, line) => FwdInv(s, Forward.Arm(s.fwd, q, zone, line));
    case CmdGiveUp => FwdInv(s, Forward.GiveUp(s.fwd));
  }

  // ---------------- runs ----------------

  function EmptyZone(nd: Node): Zone {
    Zone(nd, ZeroCache(), ZeroCache(), false, false, None, None, None, 0)
  }

  /** nmgr_cfg_init, with an empty tracker and any node table. */
  predicate Init(s: State) {
    && |s.zones| == ZONES && s.rr == 1 && s.pushReq == 0 && s.cx == IDLE_SLOT && |s.wire| == BLOB_LEN
    && s.trk == map[] && !s.fwd.active
    && forall i :: 0 <= i < ZONES ==> s.zones[i] == EmptyZone(s.zones[i].node)
  }

  lemma InitInv(s: State)
    requires Init(s)
    ensures Inv(s)
  {
    hide PushWire, SlotFrame, SlotOk, CfgCacheOk, HwCacheOk;
    ZeroOk();
  }

  ghost predicate IsRun(ss: seq<State>, acts: seq<Action>) {
    && |ss| == |acts| + 1 && Inv(ss[0])
    && forall k :: 0 <= k < |acts| ==> Enabled(ss[k], acts[k]) && ss[k + 1] == Step(ss[k], acts[k])
  }

  lemma RunStep(ss: seq<State>, acts: seq<Action>, k: nat)
    requires IsRun(ss, acts) && k < |acts|
    ensures Enabled(ss[k], acts[k]) && ss[k + 1] == Step(ss[k], acts[k])
  {
    hide Inv, Step, Enabled;
  }

  /** Every state a run reaches keeps the invariant. */
  lemma {:induction false} RunInv(ss: seq<State>, acts: seq<Action>, k: nat)
    requires IsRun(ss, acts) && k < |ss|
    ensures Inv(ss[k]) && Wf(ss[k])
  {
    hide Step, Inv, Enabled;
    if k > 0 {
      RunInv(ss, acts, k - 1);
      RunStep(ss, acts, k - 1);
      InvStep(ss[k - 1], acts[k - 1]);
    }
    InvWf(ss[k]);
  }
}
