/**
 Which reply makes the reconciler adopt a zone's edit (components/node_mgr/node_mgr_fwd.c),
 told from the run's actions alone: what was forwarded, to whom, and what came back.
 */
module CfgConfirm {
  import opened Wrappers
  import opened Bytes
  import opened CfgEnvelope
  import opened RingTracker
  import opened CfgState
  import opened CfgInvariant
  import opened CfgSystem
  import opened CfgMoves
  import Forward

  // ---------------- the forward in flight ----------------

  /** The forward armed at step m is still the one waited for when step k comes. */
  predicate StillArmed(acts: seq<Action>, m: nat, k: nat)
    requires k <= |acts|
  {
    && m < k && acts[m].CmdArm?
    && forall n :: m < n < k ==>
         !acts[n].CmdArm? && !acts[n].CmdGiveUp? && !(acts[n].CmdEvent? && acts[n].q == acts[m].q)
  }

  /** Step k brings the zone's OK to the SET line forwarded to zone z that is still waited for. */
  ghost predicate Confirms(acts: seq<Action>, k: nat, z: nat) {
    && k < |acts| && acts[k].CmdEvent? && acts[k].ev.Done? && acts[k].ev.status == 0 && Forward.SaysOk(acts[k].ev.detail)
    && exists m: nat :: Awaits(acts, m, k, z)
  }

  predicate Awaits(acts: seq<Action>, m: nat, k: nat, z: nat)
    requires k < |acts| && acts[k].CmdEvent?
  {
    StillArmed(acts, m, k) && acts[m].q == acts[k].q && acts[m].zone == z && Forward.IsSetLine(acts[m].line)
  }

  /** Only the forwarder's own steps touch its state. */
  lemma FwdStep(s: State, a: Action)
    requires Enabled(s, a)
    ensures Step(s, a).fwd ==
      match a
      case CmdEvent(q, ev) => Forward.OnEv(s.fwd, q, ev)
      case CmdArm(q, z, line) => Forward.Arm(s.fwd, q, z, line)
      case CmdGiveUp => Forward.GiveUp(s.fwd)
      case _ => s.fwd
  {
    hide AfterClears, Tick, StoreCfg, StoreHw, UnwrapPlane, PushWire, Forward.OnEv, Forward.Adopt, Forward.Arm,
      TerminalReply, ZeroCache, Cancel;
    if a.TickAct? { TickFwd(s, a.now, a.expired, a.sub, a.clock); }
  }

  lemma TickFwd(s: State, now: bv32, expired: bool, sub: Option<nat>, clock: bv32)
    requires Wf(s)
    ensures Tick(s, now, expired, sub, clock).0.fwd == s.fwd
  {
    hide ClearMasked, Wf, CxTick, StartSet, Scan, StartPush, PushGenFor, PushIdent, FirstWrite;
    ClearMaskedCx(s, 1);
    var t := AfterClears(s);
    InvWfLength(s);
    InvWfLength(t);
    match TickBranch(t, s.pushReq)
    case Transfer => SlotFwd(t, now, expired, sub, clock);
    case Write => WriteFwd(t, sub, clock);
    case Manual => PushFwd(t, s.pushReq, PushGenFor(At(t, s.pushReq)), PushIdent(At(t, s.pushReq)), sub, clock);
    case Auto => ScanFwd(t, 0, now, sub, clock);
  }

  lemma SlotFwd(t: State, now: bv32, expired: bool, sub: Option<nat>, clock: bv32)
    requires Wf(t) && t.cx.st != IDLE
    ensures CxTick(t, now, expired, sub, clock).fwd == t.fwd
  {
    hide PushWire, Before;
  }

  lemma WriteFwd(t: State, sub: Option<nat>, clock: bv32)
    requires Wf(t) && FirstWrite(t.zones, 1) != 0
    ensures var z := FirstWrite(t.zones, 1);
      StartSet(TakeWrite(t), z, At(t, z).write.value, sub, clock).fwd == t.fwd
  {
    hide PushWire, FirstWrite, StoreCfg, Stamp, PushGenFor;
  }

  lemma PushFwd(t: State, z: nat, gen: u32, id: Ident, sub: Option<nat>, clock: bv32)
    requires Wf(t) && IsZone(z)
    ensures StartPush(t, z, gen, 1, id, sub, clock).fwd == t.fwd
  {
    hide PushWire;
  }

  lemma {:induction false} ScanFwd(t: State, i: nat, now: bv32, sub: Option<nat>, clock: bv32)
    requires Wf(t) && i <= ZONES
    ensures Scan(t, i, now, sub, clock).0.fwd == t.fwd
    decreases ZONES - i
  {
    hide Gate, TryStart, Wf, ScanId;
    if i < ZONES {
      WfRr(t);
      var id := ScanId(t.rr, i);
      InvWfLength(t);
      GateWf(t, id, now);
      GateMove(t, id, now, id);
      var u := Gate(t, id, now).0;
      StartFwd(u, id, sub, clock);
      ScanFwd(u, i + 1, now, sub, clock);
    }
  }

  lemma StartFwd(t: State, z: nat, sub: Option<nat>, clock: bv32)
    requires Wf(t) && IsZone(z)
    ensures TryStart(t, z, sub, clock).0.fwd == t.fwd
  {
    hide PushWire, PushGenFor;
  }

  /** The armed forward's state is that of the arming step. */
  predicate ArmedAs(f: Forward.Fwd, a: Action)
    requires a.CmdArm?
  {
    f.active && f.seqNo == a.q && f.zone == a.zone && (f.verbSet <==> Forward.IsSetLine(a.line))
  }

  lemma ArmsAs(f: Forward.Fwd, a: Action)
    requires a.CmdArm?
    ensures ArmedAs(Forward.Arm(f, a.q, a.zone, a.line), a)
  {
    hide Forward.VerbIsSet, Forward.IsSetLine;
    Forward.VerbIsFirstWord(a.line);
    SetLineIs(a.line);
  }

  lemma SetLineIs(line: string)
    ensures Forward.IsSetLine(line) <==> Forward.SameWord(Forward.FirstWord(line), "SET")
  {
  }

  /** What is waited for when step k comes: nothing, or what some step before armed. */
  lemma {:induction false} WaitedFor(ss: seq<State>, acts: seq<Action>, k: nat)
    requires IsRun(ss, acts) && !ss[0].fwd.active && k <= |acts|
    ensures forall m: nat :: StillArmed(acts, m, k) ==> ArmedAs(ss[k].fwd, acts[m])
    ensures ss[k].fwd.active ==> exists m: nat :: StillArmed(acts, m, k)
  {
    hide Inv, Enabled, Step, ArmedAs, Forward.Arm, Forward.VerbIsSet, Forward.Trunc;
    if k > 0 {
      WaitedFor(ss, acts, k - 1);
      RunStep(ss, acts, k - 1);
      FwdStep(ss[k - 1], acts[k - 1]);
      var p, a := ss[k - 1].fwd, acts[k - 1];
      if a.CmdArm? {
        ArmsAs(p, a);
        assert StillArmed(acts, k - 1, k);
      } else {
        forall m: nat | StillArmed(acts, m, k) ensures ArmedAs(ss[k].fwd, acts[m]) {
          assert StillArmed(acts, m, k - 1);
          OwnEventOnly(p, acts[m], a);
        }
        if ss[k].fwd.active {
          assert p.active;
          var m: nat :| StillArmed(acts, m, k - 1);
          OwnEventOnly(p, acts[m], a);
          assert StillArmed(acts, m, k);
        }
      }
    }
  }

  /** An event ends the wait exactly if it carries the armed number. */
  lemma OwnEventOnly(f: Forward.Fwd, arm: Action, a: Action)
    requires arm.CmdArm? && ArmedAs(f, arm)
    ensures a.CmdEvent? ==>
      if a.q == arm.q then !Forward.OnEv(f, a.q, a.ev).active else Forward.OnEv(f, a.q, a.ev) == f
    ensures !Forward.GiveUp(f).active
  {
  }

  /** Zone z's OK, seen by the forwarder's state, is the OK told from the actions. */
  lemma ConfirmedIff(ss: seq<State>, acts: seq<Action>, k: nat, z: nat)
    requires IsRun(ss, acts) && !ss[0].fwd.active && k < |acts| && acts[k].CmdEvent?
    ensures Forward.Confirmed(ss[k].fwd, acts[k].q, acts[k].ev, z) <==> Confirms(acts, k, z)
  {
    hide Inv, Enabled, Step, StillArmed, Forward.SaysOk, Forward.IsSetLine;
    WaitedFor(ss, acts, k);
    var a := acts[k];
    if Forward.Confirmed(ss[k].fwd, a.q, a.ev, z) {
      var m: nat :| StillArmed(acts, m, k);
      ArmIs(acts, m, k);
      assert ArmedAs(ss[k].fwd, acts[m]);
      assert Awaits(acts, m, k, z);
    }
    if Confirms(acts, k, z) {
      var m: nat :| Awaits(acts, m, k, z);
      ArmIs(acts, m, k);
      assert ArmedAs(ss[k].fwd, acts[m]);
    }
  }

  lemma ArmIs(acts: seq<Action>, m: nat, k: nat)
    requires k <= |acts| && StillArmed(acts, m, k)
    ensures m < k && acts[m].CmdArm?
  {
  }

  // ---------------- what the reply does ----------------

  predicate SlotFor(s: State, z: nat) { s.cx.st != IDLE && s.cx.zone == z }

  /** Nothing of zone z's config is left at the master: caches, failure memory, transfer, unsent frames. */
  predicate Forgotten(s: State, z: nat)
    requires |s.zones| == ZONES && IsZone(z)
  {
    && !At(s, z).cfg.valid && !At(s, z).hw.valid && At(s, z).latch.None? && At(s, z).hwLatch.None?
    && At(s, z).cooldown == 0 && !SlotFor(s, z)
    && forall q :: q in s.trk && !s.trk[q].sent && !s.trk[q].frame.Cmd? ==> s.trk[q].frame.zone != z
  }

  lemma UnsentIsSlots(s: State, z: nat)
    requires Inv(s) && IsZone(z) && !SlotFor(s, z)
    ensures forall q :: q in s.trk && !s.trk[q].sent && !s.trk[q].frame.Cmd? ==> s.trk[q].frame.zone != z
  {
    hide ZoneOk, PushWire, SlotOk;
  }

  lemma EventForgets(s: State, q: nat, ev: TrkEv, z: nat)
    requires Inv(s) && q in s.trk && s.trk[q].frame.Cmd? && IsZone(z) && Forward.Confirmed(s.fwd, q, ev, z)
    ensures |s.zones| == ZONES && |OnCmdEvent(s, q, ev).zones| == ZONES
    ensures Forgotten(OnCmdEvent(s, q, ev), z)
  {
    hide Inv, Forward.Adopt, Forward.Confirmed, Forward.OnEv, Abort, TrkOk;
    InvWf(s);
    CmdZone(s, q, ev, z);
    Forward.AdoptIff(s.fwd, q, ev, z);
    CmdEventInv(s, q, ev);
    CmdAnsweredInv(s, q);
    var t := Answered(s, q).(fwd := Forward.OnEv(s.fwd, q, ev));
    FwdInv(Answered(s, q), Forward.OnEv(s.fwd, q, ev));
    AbortInv(t, z);
    ForgetAborts(t, z);
    UnsentIsSlots(OnCmdEvent(s, q, ev), z);
  }

  lemma EventSpares(s: State, q: nat, ev: TrkEv, z: nat)
    requires |s.zones| == ZONES && IsZone(z) && !Forward.Confirmed(s.fwd, q, ev, z)
    ensures var r := OnCmdEvent(s, q, ev);
      && |r.zones| == ZONES && At(r, z) == At(s, z) && (SlotFor(s, z) ==> r.cx == s.cx)
  {
    hide Forward.OnEv, Forward.Adopt, Forward.Confirmed, ZeroCache;
    CmdZone(s, q, ev, z);
    Forward.AdoptIff(s.fwd, q, ev, z);
  }

  /**
   Exactly which reply drops zone z's caches, in any run from a boot: the OK to a SET line
   that the console forwarded to that zone and still waits for. Any other leaves the zone
   and its transfer as they were.
   */
  lemma ReplyForgetsIff(ss: seq<State>, acts: seq<Action>, k: nat, z: nat)
    requires IsRun(ss, acts) && !ss[0].fwd.active && k < |acts| && acts[k].CmdEvent? && IsZone(z)
    ensures |ss[k].zones| == |ss[k + 1].zones| == ZONES
    ensures if Confirms(acts, k, z) then Forgotten(ss[k + 1], z)
            else At(ss[k + 1], z) == At(ss[k], z) && (SlotFor(ss[k], z) ==> ss[k + 1].cx == ss[k].cx)
  {
    hide Inv, Confirms, Forward.Confirmed, OnCmdEvent, Forgotten, Tick, OnEv, OnChunk;
    RunInv(ss, acts, k);
    InvWf(ss[k]);
    RunStep(ss, acts, k);
    ConfirmedIff(ss, acts, k, z);
    if Confirms(acts, k, z) {
      EventForgets(ss[k], acts[k].q, acts[k].ev, z);
    } else {
      EventSpares(ss[k], acts[k].q, acts[k].ev, z);
    }
  }

  // ---------------- the clears ----------------

  /** A clear of z has been asked for since the last tick. */
  ghost predicate ClearAsked(acts: seq<Action>, k: nat, z: nat)
    requires k <= |acts|
  {
    exists m: nat :: ClearAskedAt(acts, m, k, z)
  }

  predicate ClearAskedAt(acts: seq<Action>, m: nat, k: nat, z: nat)
    requires k <= |acts|
  {
    m < k && acts[m] == ClearReq(z) && forall n :: m < n < k ==> !acts[n].TickAct?
  }

  /** Whether step k drops zone z's caches, told from the actions. */
  ghost predicate Dropped(acts: seq<Action>, k: nat, z: nat)
    requires k < |acts|
  {
    (acts[k].TickAct? && ClearAsked(acts, k, z)) || Confirms(acts, k, z)
  }

  lemma ClearFlag(s: State, a: Action, z: nat)
    requires Inv(s) && Enabled(s, a) && IsZone(z)
    ensures |s.zones| == |Step(s, a).zones| == ZONES
    ensures At(Step(s, a), z).clear <==> a == ClearReq(z) || (!a.TickAct? && At(s, z).clear)
  {
    hide Inv, Tick, AfterClears, OnEv, OnChunk, OnCmdEvent, Submitted, MarkSent, Forward.Arm, Forward.GiveUp, PushWire,
      SetLatch, StoreCfg, StoreHw, PushedZone, PulledZone, Pulled, TooNew, PushAcked, Refused, ZeroCache, Forward.Confirmed;
    InvWf(s);
    if a.TickAct? {
      TickClears(s, a.now, a.expired, a.sub, a.clock, z);
    } else if a.CfgEvent? {
      EventZone(s, a.q, a.ev, a.clock, z);
      PushedClear(At(s, z), s.cx.pushGen);
    } else if a.CmdEvent? {
      CmdZone(s, a.q, a.ev, z);
    } else if a.ChunkIn? {
      ChunkZone(s, a.src, a.feed, a.clock, z);
      LatchClear(At(s, z), s.cx.kind, Some(s.cx.id));
      if Pulled(s, a.src, a.feed) { PulledClear(s, a.src, a.feed, z); }
    } else {
      RequestFlag(s, a, z);
    }
  }

  lemma RequestFlag(s: State, a: Action, z: nat)
    requires Enabled(s, a) && IsZone(z) && !a.TickAct? && !a.CfgEvent? && !a.CmdEvent? && !a.ChunkIn?
    ensures |s.zones| == |Step(s, a).zones| == ZONES
    ensures At(Step(s, a), z).clear <==> a == ClearReq(z) || At(s, z).clear
  {
    hide Tick, AfterClears, OnEv, OnChunk, OnCmdEvent, Forward.Arm;
  }

  lemma PushedClear(zn: Zone, gen: u32)
    requires |zn.cfg.blob| == BLOB_LEN
    ensures PushedZone(zn, gen).clear == zn.clear
  {
  }

  lemma PulledClear(s: State, src: nat, feed: Feed, z: nat)
    requires Wf(s) && IsZone(z) && Pulled(s, src, feed)
    ensures PulledZone(At(s, z), s.cx.kind, UnwrapPlane(s.cx.kind, feed.bytes)).clear == At(s, z).clear
  {
    hide UnwrapPlane;
  }

  lemma LatchClear(zn: Zone, kind: nat, l: Option<Ident>)
    ensures SetLatch(zn, kind, l).clear == zn.clear
  {
  }

  lemma TickClears(s: State, now: bv32, expired: bool, sub: Option<nat>, clock: bv32, z: nat)
    requires Wf(s) && IsZone(z)
    ensures |Tick(s, now, expired, sub, clock).0.zones| == ZONES
    ensures !At(Tick(s, now, expired, sub, clock).0, z).clear
  {
    hide Tick, TakesWrite, StoreCfg, PushGenFor, Stamp, ZeroCache;
    TickZone(s, now, expired, sub, clock, z);
  }

  lemma {:induction false} ClearTold(ss: seq<State>, acts: seq<Action>, k: nat, z: nat)
    requires IsRun(ss, acts) && k <= |acts| && IsZone(z) && |ss[0].zones| == ZONES && !At(ss[0], z).clear
    ensures |ss[k].zones| == ZONES && (At(ss[k], z).clear <==> ClearAsked(acts, k, z))
  {
    hide Inv, Enabled, Step;
    if k > 0 {
      ClearTold(ss, acts, k - 1, z);
      RunInv(ss, acts, k - 1);
      RunStep(ss, acts, k - 1);
      ClearFlag(ss[k - 1], acts[k - 1], z);
      AskedNext(acts, k - 1, z);
    }
  }

  lemma AskedNext(acts: seq<Action>, k: nat, z: nat)
    requires k < |acts|
    ensures ClearAsked(acts, k + 1, z) <==> acts[k] == ClearReq(z) || (!acts[k].TickAct? && ClearAsked(acts, k, z))
  {
    if acts[k] == ClearReq(z) { assert ClearAskedAt(acts, k, k + 1, z); }
    if !acts[k].TickAct? && ClearAsked(acts, k, z) {
      var m: nat :| ClearAskedAt(acts, m, k, z);
      assert ClearAskedAt(acts, m, k + 1, z);
    }
    if ClearAsked(acts, k + 1, z) && acts[k] != ClearReq(z) {
      var m: nat :| ClearAskedAt(acts, m, k + 1, z);
      assert ClearAskedAt(acts, m, k, z);
    }
  }

  /** The drops that the run theorems speak of are these, and no others. */
  lemma DropsIff(ss: seq<State>, acts: seq<Action>, k: nat, z: nat)
    requires IsRun(ss, acts) && !ss[0].fwd.active && k < |acts| && IsZone(z)
    requires |ss[0].zones| == ZONES && !At(ss[0], z).clear
    ensures |ss[k].zones| == ZONES && (Drops(ss[k], acts[k], z) <==> Dropped(acts, k, z))
  {
    hide Inv, Enabled, Step, Forward.Confirmed;
    ClearTold(ss, acts, k, z);
    if acts[k].CmdEvent? { ConfirmedIff(ss, acts, k, z); }
  }
}
