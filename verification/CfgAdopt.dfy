/**
 What becomes of a zone's cached settings over whole runs: they change only by an
 operator's write or after the cache was dropped; an accepted write is not lost; and after
 a forwarded SET the old settings are gone for good.
 */
module CfgAdopt {
  import opened Wrappers
  import opened Bytes
  import opened CfgEnvelope
  import opened RingTracker
  import opened CfgState
  import opened CfgInvariant
  import opened CfgSystem
  import opened CfgMoves
  import opened CfgConfirm
  import Forward

  // ---------------- one step, seen from one zone ----------------

  predicate PullsCfg(s: State, a: Action, z: nat) {
    a.ChunkIn? && Pulled(s, a.src, a.feed) && s.cx.zone == z && s.cx.kind == 1
  }

  predicate WritesIn(s: State, a: Action, z: nat)
    requires Wf(s)
  {
    a.TickAct? && TakesWrite(s, z)
  }

  function CfgAfter(s: State, a: Action, z: nat): Cache
    requires Enabled(s, a) && IsZone(z)
  {
    var zn := At(s, z);
    if WritesIn(s, a, z) then
      if zn.clear || zn.write.None? then ZeroCache() else Written(zn, zn.write.value).cfg
    else if Drops(s, a, z) then ZeroCache()
    else if PullsCfg(s, a, z) then
      var u := UnwrapPlane(1, a.feed.bytes); StoreCfg(u.gen, u.payload)
    else if a.CfgEvent? && PushAcked(s, a.q, a.ev) && s.cx.zone == z then PushedZone(zn, s.cx.pushGen).cfg
    else zn.cfg
  }

  function WriteAfter(s: State, a: Action, z: nat): Option<Payload>
    requires Enabled(s, a) && IsZone(z)
  {
    if WritesIn(s, a, z) || (a.TickAct? && At(s, z).clear) then None
    else if a.SetReq? && a.zone == z && CfgSet(s, z, a.cfg).1 == 0 then Some(a.cfg)
    else At(s, z).write
  }

  lemma TickCfg(s: State, a: Action, z: nat)
    requires Inv(s) && Enabled(s, a) && IsZone(z) && a.TickAct?
    ensures |Step(s, a).zones| == ZONES
    ensures At(Step(s, a), z).cfg == CfgAfter(s, a, z) && At(Step(s, a), z).write == WriteAfter(s, a, z)
    ensures WritesIn(s, a, z) ==> At(s, z).write.Some? && !At(s, z).clear
  {
    hide Inv, Tick, AfterClears, TickBranch, FirstWrite, StoreCfg, Stamp, PushGenFor, TakesWrite, ZeroCache, Pulled,
      PushAcked;
    TickZone(s, a.now, a.expired, a.sub, a.clock, z);
  }

  /** The steps that only leave a request, a heartbeat or a frame behind. */
  predicate IsRequest(a: Action) {
    !a.TickAct? && !a.CfgEvent? && !a.CmdEvent? && !a.ChunkIn?
  }

  /** What a request may change of its zone. */
  predicate RequestMove(zn: Zone, zn': Zone) {
    zn' == zn.(node := zn'.node, isFresh := zn'.isFresh, write := zn'.write, clear := zn'.clear)
  }

  predicate OnZone(a: Action) { a.FreshHb? || a.NodeRow? || a.SetReq? || a.ClearReq? }

  lemma ZoneRequest(s: State, a: Action, z: nat)
    requires Enabled(s, a) && IsZone(z) && OnZone(a)
    ensures var r := Step(s, a);
      && |r.zones| == ZONES && r.(zones := s.zones) == s && RequestMove(At(s, z), At(r, z))
      && (!a.NodeRow? ==> At(r, z).node == At(s, z).node)
      && (At(r, z).write == if a.SetReq? && a.zone == z && CfgSet(s, z, a.cfg).1 == 0 then Some(a.cfg)
                            else At(s, z).write)
  {
    hide AfterClears, Tick, OnEv, OnChunk, OnCmdEvent, Wf, PushCfg, MarkSent, Submitted, Forward.Arm, Forward.GiveUp;
    InvWfLength(s);
  }

  lemma RequestZone(s: State, a: Action, z: nat)
    requires Enabled(s, a) && IsZone(z) && IsRequest(a)
    ensures var r := Step(s, a);
      && |r.zones| == ZONES && r.cx == s.cx && r.wire == s.wire && RequestMove(At(s, z), At(r, z))
      && (!a.NodeRow? ==> At(r, z).node == At(s, z).node)
      && (At(r, z).write == if a.SetReq? && a.zone == z && CfgSet(s, z, a.cfg).1 == 0 then Some(a.cfg)
                            else At(s, z).write)
  {
    hide AfterClears, Forward.Arm, Forward.GiveUp, Tick, OnEv, OnChunk, OnCmdEvent, CfgSet;
    if OnZone(a) { ZoneRequest(s, a, z); }
  }

  lemma OtherCfg(s: State, a: Action, z: nat)
    requires Inv(s) && Enabled(s, a) && IsZone(z) && !a.TickAct?
    ensures |Step(s, a).zones| == ZONES
    ensures At(Step(s, a), z).cfg == CfgAfter(s, a, z) && At(Step(s, a), z).write == WriteAfter(s, a, z)
  {
    hide Inv, OnEv, OnChunk, OnCmdEvent, AfterClears, StoreCfg, StoreHw, Stamp, UnwrapPlane, ZeroCache, PushAcked,
      Refused, Pulled, TooNew, TakesWrite, Forward.Arm, Forward.GiveUp, Forward.Adopt, CfgSet, Enabled;
    InvWf(s);
    if IsRequest(a) {
      hide Step;
      RequestZone(s, a, z);
    } else {
      hide NoteFreshHb, RequestClear, PushCfg, MarkSent, Submitted;
      TrackedEvent(s, a);
      match a
      case CfgEvent(q, ev, clock) => EventZone(s, q, ev, clock, z);
      case CmdEvent(q, ev) => CmdZone(s, q, ev, z);
      case ChunkIn(src, feed, clock) => ChunkZone(s, src, feed, clock, z);
    }
  }

  lemma TrackedEvent(s: State, a: Action)
    requires Enabled(s, a)
    ensures a.CfgEvent? ==> a.q in s.trk
    ensures a.CmdEvent? ==> a.q in s.trk && s.trk[a.q].frame.Cmd?
  {
    hide AfterClears;
  }

  lemma StepCfg(s: State, a: Action, z: nat)
    requires Inv(s) && Enabled(s, a) && IsZone(z)
    ensures |Step(s, a).zones| == ZONES
    ensures At(Step(s, a), z).cfg == CfgAfter(s, a, z) && At(Step(s, a), z).write == WriteAfter(s, a, z)
    ensures WritesIn(s, a, z) ==> At(s, z).write.Some? && !At(s, z).clear
  {
    hide Inv, Enabled, Step, CfgAfter, WriteAfter, TakesWrite;
    InvWf(s);
    if a.TickAct? { TickCfg(s, a, z); } else { OtherCfg(s, a, z); }
  }

  function CachedSettings(s: State, z: nat): seq<bv8>
    requires Wf(s) && IsZone(z)
  {
    Settings(Inner(At(s, z).cfg.blob))
  }

  lemma StoredSettings(gen: u32, p: Payload)
    ensures Settings(Inner(StoreCfg(gen, p).blob)) == Settings(p)
    ensures Settings(Inner(StoreCfg(gen, Stamp(p, gen)).blob)) == Settings(p)
  {
  }

  /** While a zone's CFG cache is valid, no CFG pull for it is in the slot. */
  lemma PullMeansEmpty(ss: seq<State>, acts: seq<Action>, k: nat)
    requires IsRun(ss, acts) && k < |ss|
    ensures Wf(ss[k])
    ensures Pulling(ss[k].cx.st) && ss[k].cx.kind == 1 ==> !At(ss[k], ss[k].cx.zone).cfg.valid
    ensures Pushing(ss[k].cx.st) ==>
              At(ss[k], ss[k].cx.zone).cfg.valid
              && ss[k].wire == PushWire(At(ss[k], ss[k].cx.zone).cfg, ss[k].cx.pushGen)
  {
    hide ZoneOk, PushWire, SlotFrame, IsRun;
    RunInv(ss, acts, k);
  }

  /** Neither a drop nor a write: what the step leaves in a valid cache has the same settings. */
  lemma CfgAfterKeeps(s: State, a: Action, z: nat)
    requires Inv(s) && Enabled(s, a) && IsZone(z) && |s.zones| == ZONES && At(s, z).cfg.valid
    requires !Drops(s, a, z) && !WritesIn(s, a, z)
    ensures Wf(s) && |CfgAfter(s, a, z).blob| == BLOB_LEN && CfgAfter(s, a, z).valid
    ensures Settings(Inner(CfgAfter(s, a, z).blob)) == CachedSettings(s, z)
  {
    hide ZoneOk, PushWire, SlotFrame, Drops, TakesWrite, UnwrapPlane, Settings, StoreCfg, Stamp, TrkOk, PushAcked, Enabled;
    InvWf(s);
    WfZones(s);
    StoredSettings(s.cx.pushGen, Inner(At(s, z).cfg.blob));
  }

  lemma SettingsStep(s: State, a: Action, z: nat)
    requires Inv(s) && Enabled(s, a) && IsZone(z) && At(s, z).cfg.valid
    requires !Drops(s, a, z) && !WritesIn(s, a, z)
    ensures Wf(Step(s, a)) && At(Step(s, a), z).cfg.valid
    ensures CachedSettings(Step(s, a), z) == CachedSettings(s, z)
  {
    hide Inv, Step, Drops, WritesIn, Settings, Inner, CfgAfter, Enabled;
    InvWf(s);
    StepCfg(s, a, z);
    InvStep(s, a);
    InvWf(Step(s, a));
    CfgAfterKeeps(s, a, z);
  }

  /** In every run the cached settings stay what they are until an operator's write or a drop. */
  lemma {:induction false} SettingsKept(ss: seq<State>, acts: seq<Action>, i: nat, j: nat, z: nat)
    requires IsRun(ss, acts) && i <= j < |ss| && IsZone(z) && |ss[i].zones| == ZONES && At(ss[i], z).cfg.valid
    requires forall n :: i <= n < j ==> Wf(ss[n]) && !Drops(ss[n], acts[n], z) && !WritesIn(ss[n], acts[n], z)
    ensures Wf(ss[i]) && Wf(ss[j]) && At(ss[j], z).cfg.valid
    ensures CachedSettings(ss[j], z) == CachedSettings(ss[i], z)
  {
    hide Inv, Step, Enabled, Drops, WritesIn, CachedSettings, Wf;
    RunInv(ss, acts, i);
    if i < j {
      SettingsKept(ss, acts, i, j - 1, z);
      RunInv(ss, acts, j - 1);
      RunStep(ss, acts, j - 1);
      SettingsStep(ss[j - 1], acts[j - 1], z);
    }
  }

  // ---------------- an accepted write ----------------

  /** The tick at step n carried write w of zone z out: cached, and a push of it in the slot. */
  ghost predicate CarriedOut(ss: seq<State>, acts: seq<Action>, n: nat, z: nat, w: Payload)
    requires IsZone(z)
  {
    && n + 1 < |ss| && n < |acts| && Wf(ss[n]) && WritesIn(ss[n], acts[n], z) && At(ss[n], z).write == Some(w)
    && Wf(ss[n + 1]) && At(ss[n + 1], z).cfg.valid && CachedSettings(ss[n + 1], z) == Settings(w)
    && Pushing(ss[n + 1].cx.st) && ss[n + 1].cx.zone == z
  }

  lemma TickWrites(s: State, a: Action, z: nat)
    requires Inv(s) && Enabled(s, a) && IsZone(z) && WritesIn(s, a, z) && At(s, z).write.Some?
    ensures Wf(Step(s, a)) && At(Step(s, a), z).cfg.valid
    ensures CachedSettings(Step(s, a), z) == Settings(At(s, z).write.value)
    ensures Pushing(Step(s, a).cx.st) && Step(s, a).cx.zone == z
  {
    hide Inv, Step, Settings, StoreCfg, Stamp, PushGenFor, TakesWrite, UnwrapPlane, Drops, PushAcked, Pulled;
    InvWf(s);
    StepCfg(s, a, z);
    InvStep(s, a);
    InvWf(Step(s, a));
    StoredSettings(PushGenFor(At(s, z)), At(s, z).write.value);
    TickWriteSlot(s, a, z);
  }

  lemma TickWriteSlot(s: State, a: Action, z: nat)
    requires Enabled(s, a) && IsZone(z) && WritesIn(s, a, z)
    ensures Pushing(Step(s, a).cx.st) && Step(s, a).cx.zone == z
  {
    hide AfterClears, StoreCfg, PushWire, PushGenFor, Stamp, FirstWrite, TakeWrite, CxTick, Scan, OnEv, OnChunk,
      OnCmdEvent, TakesWrite, TakesPush, TakesScan, SlotFree;
    BranchIs(s);
    var t := AfterClears(s);
    var zn := At(TakeWrite(t), z);
    var gen := PushGenFor(zn);
  }

  /** An accepted write waits in the inbox until a tick carries it out, or its id is retired. */
  lemma {:induction false} WriteNotLost(ss: seq<State>, acts: seq<Action>, i: nat, j: nat, z: nat, w: Payload)
    requires IsRun(ss, acts) && i <= j < |ss| && IsZone(z) && |ss[i].zones| == ZONES && At(ss[i], z).write == Some(w)
    requires forall n :: i <= n < j ==> |ss[n].zones| == ZONES && !(acts[n].TickAct? && At(ss[n], z).clear)
    ensures |ss[j].zones| == ZONES
    ensures At(ss[j], z).write == Some(w) || exists n: nat :: i <= n < j && CarriedOut(ss, acts, n, z, w)
    decreases j
  {
    hide Inv, Step, Enabled, WritesIn, CachedSettings, Settings, Wf;
    RunInv(ss, acts, j);
    InvWf(ss[j]);
    if i < j {
      WriteNotLost(ss, acts, i, j - 1, z, w);
      if At(ss[j - 1], z).write == Some(w) {
        WriteStep(ss, acts, j - 1, z, w);
        if At(ss[j], z).write != Some(w) { assert CarriedOut(ss, acts, j - 1, z, w); }
      } else {
        var n: nat :| i <= n < j - 1 && CarriedOut(ss, acts, n, z, w);
        assert i <= n < j && CarriedOut(ss, acts, n, z, w);
      }
    }
  }

  lemma WriteStep(ss: seq<State>, acts: seq<Action>, n: nat, z: nat, w: Payload)
    requires IsRun(ss, acts) && n < |acts| && IsZone(z) && |ss[n].zones| == |ss[n + 1].zones| == ZONES
    requires At(ss[n], z).write == Some(w) && !(acts[n].TickAct? && At(ss[n], z).clear)
    ensures At(ss[n + 1], z).write == Some(w) || CarriedOut(ss, acts, n, z, w)
  {
    hide Inv, Step, WritesIn, CachedSettings, Settings;
    RunInv(ss, acts, n);
    RunStep(ss, acts, n);
    StepCfg(ss[n], acts[n], z);
    if WritesIn(ss[n], acts[n], z) { TickWrites(ss[n], acts[n], z); }
  }

  // ---------------- a forwarded SET ----------------

  /**
   The zone's OK to a SET line forwarded to it, while that forward is waited for, drops the
   zone's caches and withdraws whatever push or pull for it was queued, awaiting its ACK or
   backing off.
   */
  lemma ConfirmedSetForgets(ss: seq<State>, acts: seq<Action>, i: nat, z: nat)
    requires IsRun(ss, acts) && !ss[0].fwd.active && Confirms(acts, i, z) && IsZone(z)
    ensures |ss[i].zones| == |ss[i + 1].zones| == ZONES && Forgotten(ss[i + 1], z)
  {
    hide Inv, Enabled, Step, Forgotten;
    ConfirmsIsEvent(acts, i, z);
    ReplyForgetsIff(ss, acts, i, z);
  }

  lemma ConfirmsIsEvent(acts: seq<Action>, k: nat, z: nat)
    requires Confirms(acts, k, z)
    ensures k < |acts| && acts[k].CmdEvent?
  {
  }

  /** The tick's decision for zone z, if it starts a transfer for z at all. */
  predicate Starts(s: State, a: Action, z: nat)
    requires Wf(s)
  {
    a.TickAct? && Tick(s, a.now, a.expired, a.sub, a.clock).1.Began?
    && Tick(s, a.now, a.expired, a.sub, a.clock).1.zone == z
  }

  function StartedAs(s: State, a: Action, z: nat): Did
    requires Wf(s) && Starts(s, a, z)
  {
    Tick(s, a.now, a.expired, a.sub, a.clock).1
  }

  predicate Empty(zn: Zone) { !zn.cfg.valid && zn.latch.None? }

  /** From a forgotten zone a tick starts either a CFG pull or the push of a queued write. */
  lemma FirstStart(s: State, a: Action, z: nat)
    requires Inv(s) && Enabled(s, a) && IsZone(z) && Empty(At(s, z)) && Starts(s, a, z)
    ensures WritesIn(s, a, z) || StartedAs(s, a, z) == Began(z, 1, false)
  {
    hide Inv, AfterClears, CxTick, StartSet, Scan, StartPush, PushGenFor, FirstWrite, TakeWrite, Reachable, ZeroCache,
      TakesPush, SlotFree;
    InvWf(s);
    var t := AfterClears(s);
    InvWfLength(t);
    AfterClearsAt(s, z);
    BranchIs(s);
    if TakesScan(s) { ScanOutcome(t, 0, a.now, a.sub, a.clock); }
  }

  lemma EmptyTick(s: State, a: Action, z: nat)
    requires Inv(s) && Enabled(s, a) && IsZone(z) && a.TickAct? && Empty(At(s, z)) && !SlotFor(s, z) && !Starts(s, a, z)
    ensures |Step(s, a).zones| == ZONES && Empty(At(Step(s, a), z)) && !SlotFor(Step(s, a), z)
  {
    hide Inv, AfterClears, StartSet, Scan, StartPush, StartPull, PushGenFor, FirstWrite, TakeWrite, Reachable, ZeroCache,
      FailOrRetry, Before, FinishFailed, TakesWrite, TakesPush, TakesScan, SlotFree;
    InvWf(s);
    var t := AfterClears(s);
    InvWfLength(t);
    AfterClearsAt(s, z);
    AfterClearsCx(s);
    BranchIs(s);
    TickZone(s, a.now, a.expired, a.sub, a.clock, z);
    match TickBranch(t, s.pushReq)
    case Transfer => CxTickSlot(t, a.now, a.expired, a.sub, a.clock);
    case Write => TickWriteSlot(s, a, FirstWrite(t.zones, 1));
    case Manual => ManualSlot(t, s.pushReq, PushGenFor(At(t, s.pushReq)), PushIdent(At(t, s.pushReq)), a.sub, a.clock);
    case Auto =>
      ScanOutcome(t, 0, a.now, a.sub, a.clock);
      var (u, did) := Scan(t, 0, a.now, a.sub, a.clock);
      assert did == Nothing || u.cx.zone == did.zone;
  }

  /**
   What a start is, told from the slot: it was free when the tick came, and it is the zone's
   afterwards, with the first attempt of a pull or a push of one plane.
   */
  lemma StartsIff(s: State, a: Action, z: nat)
    requires Inv(s) && Enabled(s, a) && a.TickAct?
    ensures Wf(s) && |s.zones| == ZONES
    ensures Starts(s, a, z) <==> SlotFree(s) && SlotFor(Step(s, a), z)
    ensures Starts(s, a, z) ==>
      var cx := Step(s, a).cx; StartedAs(s, a, z) == Began(z, cx.kind, Pushing(cx.st)) && cx.attempt == 1
  {
    hide Inv, AfterClears, StartSet, Scan, PushGenFor, PushIdent, FirstWrite, TakeWrite, Reachable, ZeroCache,
      CxTick, TakesWrite, TakesPush, TakesScan, SlotFree, CxPush;
    InvWf(s);
    var t := AfterClears(s);
    InvWfLength(t);
    BranchIs(s);
    AfterClearsSlot(s);
    match TickBranch(t, s.pushReq)
    case Transfer =>
    case Write => WriteSlot(t, a.sub, a.clock);
    case Manual => ManualSlot(t, s.pushReq, PushGenFor(At(t, s.pushReq)), PushIdent(At(t, s.pushReq)), a.sub, a.clock);
    case Auto => ScanOutcome(t, 0, a.now, a.sub, a.clock);
  }

  lemma EmptyStep(s: State, a: Action, z: nat)
    requires Inv(s) && Enabled(s, a) && IsZone(z) && Empty(At(s, z)) && !SlotFor(s, z) && !Starts(s, a, z)
    ensures |Step(s, a).zones| == ZONES && Empty(At(Step(s, a), z)) && !SlotFor(Step(s, a), z)
  {
    hide Inv, Enabled, Step, Starts;
    if a.TickAct? { EmptyTick(s, a, z); } else { EmptyOther(s, a, z); }
  }

  lemma EmptyOther(s: State, a: Action, z: nat)
    requires Inv(s) && Enabled(s, a) && IsZone(z) && !a.TickAct? && Empty(At(s, z)) && !SlotFor(s, z)
    ensures |Step(s, a).zones| == ZONES && Empty(At(Step(s, a), z)) && !SlotFor(Step(s, a), z)
  {
    hide Inv, OnEv, OnChunk, OnCmdEvent, StoreCfg, StoreHw, Stamp, UnwrapPlane, ZeroCache, PushAcked, Pulled, TooNew,
      Refused, Forward.Adopt, Enabled;
    InvWf(s);
    if IsRequest(a) {
      hide Step;
      RequestZone(s, a, z);
    } else {
      hide NoteFreshHb, RequestClear, PushCfg, MarkSent, Submitted;
      TrackedEvent(s, a);
      SlotZone(s, a);
      match a
      case CfgEvent(q, ev, clock) => EventZone(s, q, ev, clock, z);
      case CmdEvent(q, ev) => CmdZone(s, q, ev, z);
      case ChunkIn(src, feed, clock) => ChunkZone(s, src, feed, clock, z);
    }
  }

  lemma {:induction false} StaysEmpty(ss: seq<State>, acts: seq<Action>, i: nat, k: nat, z: nat)
    requires IsRun(ss, acts) && i <= k < |ss| && IsZone(z)
    requires |ss[i].zones| == ZONES && Forgotten(ss[i], z)
    requires forall n :: i <= n < k ==> Wf(ss[n]) && !Starts(ss[n], acts[n], z)
    ensures |ss[k].zones| == ZONES && Empty(At(ss[k], z)) && !SlotFor(ss[k], z)
    decreases k
  {
    hide Inv, Step, Enabled, Starts, Wf;
    if i < k {
      StaysEmpty(ss, acts, i, k - 1, z);
      RunInv(ss, acts, k - 1);
      RunStep(ss, acts, k - 1);
      EmptyStep(ss[k - 1], acts[k - 1], z);
    }
  }

  /**
   After a confirmed SET the first transfer the reconciler starts for the zone is a config
   pull, unless an operator's own queued write comes first.
   */
  lemma NextIsAdoption(ss: seq<State>, acts: seq<Action>, i: nat, k: nat, z: nat)
    requires IsRun(ss, acts) && i < k < |acts| && IsZone(z)
    requires !ss[0].fwd.active && Confirms(acts, i, z)
    requires forall n :: i < n < k ==> Wf(ss[n]) && !Starts(ss[n], acts[n], z)
    requires Wf(ss[k]) && Starts(ss[k], acts[k], z)
    ensures WritesIn(ss[k], acts[k], z) || StartedAs(ss[k], acts[k], z) == Began(z, 1, false)
  {
    hide Inv, Starts, StartedAs, WritesIn, Forgotten, Step, Enabled, Confirms;
    ConfirmedSetForgets(ss, acts, i, z);
    StaysEmpty(ss, acts, i + 1, k, z);
    RunInv(ss, acts, k);
    RunStep(ss, acts, k);
    FirstStart(ss[k], acts[k], z);
  }

  /** Step n put payload p into zone z's cache: pulled from the zone itself, or written by the operator. */
  predicate Feeds(s: State, a: Action, z: nat, p: Payload)
    requires Wf(s) && IsZone(z)
  {
    (WritesIn(s, a, z) && At(s, z).write == Some(p))
    || (PullsCfg(s, a, z) && UnwrapPlane(1, a.feed.bytes).payload == p)
  }

  ghost predicate FedAt(ss: seq<State>, acts: seq<Action>, n: nat, z: nat, settings: seq<bv8>)
    requires n < |acts| && n < |ss| && IsZone(z)
  {
    Wf(ss[n]) && exists p :: Feeds(ss[n], acts[n], z, p) && Settings(p) == settings
  }

  lemma FeedStep(s: State, a: Action, z: nat)
    requires Inv(s) && Enabled(s, a) && IsZone(z)
    requires |Step(s, a).zones| == ZONES && At(Step(s, a), z).cfg.valid
    ensures Wf(s) && Wf(Step(s, a))
    ensures (exists p :: Feeds(s, a, z, p) && Settings(p) == CachedSettings(Step(s, a), z))
         || (At(s, z).cfg.valid && CachedSettings(Step(s, a), z) == CachedSettings(s, z))
  {
    hide Inv, Step, Drops, TakesWrite, UnwrapPlane, Settings, StoreCfg, Stamp, PushGenFor;
    InvWf(s);
    InvStep(s, a);
    InvWf(Step(s, a));
    StepCfg(s, a, z);
    if WritesIn(s, a, z) {
      var w := At(s, z).write.value;
      StoredSettings(PushGenFor(At(s, z)), w);
      assert Feeds(s, a, z, w);
    } else if PullsCfg(s, a, z) && !Drops(s, a, z) {
      var u := UnwrapPlane(1, a.feed.bytes);
      StoredSettings(u.gen, u.payload);
      assert Feeds(s, a, z, u.payload);
    } else if a.CfgEvent? && PushAcked(s, a.q, a.ev) && s.cx.zone == z {
      StoredSettings(s.cx.pushGen, Inner(At(s, z).cfg.blob));
      PushedWasValid(s);
    }
  }

  lemma PushedWasValid(s: State)
    requires Inv(s) && s.cx.st == PUSH_COMMIT
    ensures Wf(s) && At(s, s.cx.zone).cfg.valid
  {
    hide ZoneOk, PushWire, SlotFrame;
  }

  /** Where a valid cache came from, once it had been empty. */
  lemma {:induction false} CacheHasSource(ss: seq<State>, acts: seq<Action>, i: nat, k: nat, z: nat)
    requires IsRun(ss, acts) && i <= k < |ss| && IsZone(z)
    requires |ss[i].zones| == |ss[k].zones| == ZONES && !At(ss[i], z).cfg.valid && At(ss[k], z).cfg.valid
    ensures Wf(ss[k])
    ensures exists n: nat :: i <= n < k && FedAt(ss, acts, n, z, CachedSettings(ss[k], z))
    decreases k
  {
    hide Inv, Step, Enabled, Feeds, CachedSettings, Settings, Wf;
    RunInv(ss, acts, k);
    RunInv(ss, acts, k - 1);
    RunStep(ss, acts, k - 1);
    InvWf(ss[k - 1]);
    FeedStep(ss[k - 1], acts[k - 1], z);
    if p :| Feeds(ss[k - 1], acts[k - 1], z, p) && Settings(p) == CachedSettings(ss[k], z) {
      assert FedAt(ss, acts, k - 1, z, CachedSettings(ss[k], z));
    } else {
      CacheHasSource(ss, acts, i, k - 1, z);
      var n: nat :| i <= n < k - 1 && FedAt(ss, acts, n, z, CachedSettings(ss[k - 1], z));
      assert FedAt(ss, acts, n, z, CachedSettings(ss[k], z));
    }
  }

  /**
   No CFG_COMMIT built from the pre-SET cache is ever submitted again: every push found in
   the slot for the zone after the SET carries settings that came into the cache after it,
   pulled from the zone or by an operator's write carried out then, though the write may
   have been accepted before.
   */
  lemma NoStalePush(ss: seq<State>, acts: seq<Action>, i: nat, k: nat, z: nat)
    requires IsRun(ss, acts) && i < k < |ss| && IsZone(z)
    requires !ss[0].fwd.active && Confirms(acts, i, z)
    requires Pushing(ss[k].cx.st) && ss[k].cx.zone == z
    ensures |ss[k].wire| == BLOB_LEN
    ensures exists n: nat :: i < n < k && FedAt(ss, acts, n, z, Settings(Inner(ss[k].wire)))
  {
    hide Inv, Forgotten, Step, Enabled, Confirms, FedAt, Settings, PushWire;
    ConfirmedSetForgets(ss, acts, i, z);
    PullMeansEmpty(ss, acts, k);
    ForgottenIsEmpty(ss[i + 1], z);
    CacheHasSource(ss, acts, i + 1, k, z);
    WireSettings(At(ss[k], z).cfg, ss[k].cx.pushGen);
  }

  lemma ForgottenIsEmpty(s: State, z: nat)
    requires |s.zones| == ZONES && IsZone(z) && Forgotten(s, z)
    ensures !At(s, z).cfg.valid
  {
  }

  lemma WireSettings(c: Cache, gen: u32)
    requires |c.blob| == BLOB_LEN
    ensures Settings(Inner(PushWire(c, gen))) == Settings(Inner(c.blob))
  {
  }
}
