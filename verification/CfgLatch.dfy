/**
 The terminal-failure memory over whole runs (components/node_mgr/node_mgr_cfg_latch.c):
 what a plane's latch holds back, and the two ways it is lost early.
 */
module CfgLatch {
  import opened Wrappers
  import opened Bytes
  import opened CfgEnvelope
  import opened RingTracker
  import opened CfgState
  import opened CfgInvariant
  import opened CfgSystem
  import opened CfgMoves
  import opened CfgConfirm
  import opened CfgAdopt
  import Forward

  const GEN_MAX: u32 := 0xFFFF_FFFF

  /** The identity the decision compares for a plane: 1 is CFG, 2 is HW. */
  function PlaneIdent(zn: Zone, kind: nat): Ident { if kind == 1 then CfgIdent(zn) else HwIdent(zn) }

  /** The row is in use and heartbeat and cache show exactly this identity. */
  predicate Shows(zn: Zone, kind: nat, id: Ident) { zn.node.used && PlaneIdent(zn, kind) == id }

  /** An automatic decision of the reconciler, as opposed to an operator's write or push. */
  predicate AutoStarts(s: State, a: Action, z: nat, kind: nat)
    requires Wf(s)
  {
    Starts(s, a, z) && StartedAs(s, a, z).kind == kind && TakesScan(s)
  }

  /** The one identity a new push does not move: the generation after the heartbeat's wraps to the cache's. */
  predicate Wraps(id: Ident) { id.hbGen == GEN_MAX && id.cacheGen == 0 }

  /** The plane is latched on the identity, and at most a push that froze the same identity is under way. */
  predicate Held(s: State, z: nat, kind: nat, id: Ident)
    requires |s.zones| == ZONES && IsZone(z)
  {
    && LatchOf(At(s, z), kind) == Some(id)
    && (SlotFor(s, z) && s.cx.kind == kind ==>
          Pushing(s.cx.st) && s.cx.id == id && (s.cx.pushGen == id.cacheGen ==> Wraps(id)))
  }

  /** The zone acknowledges a config push, which counts as success and clears the config latch. */
  predicate Syncs(s: State, a: Action, z: nat, kind: nat) {
    kind == 1 && a.CfgEvent? && PushAcked(s, a.q, a.ev) && s.cx.zone == z
  }

  predicate Loses(s: State, a: Action, z: nat, kind: nat)
    requires |s.zones| == ZONES && IsZone(z)
  {
    Drops(s, a, z) || Syncs(s, a, z, kind)
  }

  /** A new push reuses the cache's generation only at that wrap. */
  lemma PushGenMoves(zn: Zone)
    ensures PushGenFor(zn) == zn.cfg.gen <==> HbGen(zn.node) == GEN_MAX && zn.cfg.gen == 0
  {
  }

  lemma HeldTick(s: State, a: Action, z: nat, kind: nat, id: Ident)
    requires Inv(s) && Enabled(s, a) && IsZone(z) && 1 <= kind <= 2 && a.TickAct?
    requires Held(s, z, kind, id) && Shows(At(s, z), kind, id) && !Drops(s, a, z)
    requires |Step(s, a).zones| == ZONES && Shows(At(Step(s, a), z), kind, id)
    ensures Held(Step(s, a), z, kind, id) && !AutoStarts(s, a, z, kind)
  {
    hide Inv, AfterClears, StartSet, Scan, CxTick, StartPush, PushGenFor, FirstWrite, TakeWrite, Reachable, ZeroCache,
      StoreCfg, Stamp, CxPush, TakesWrite, TakesPush, TakesScan, SlotFree;
    InvWf(s);
    var t := AfterClears(s);
    InvWfLength(t);
    AfterClearsAt(s, z);
    AfterClearsCx(s);
    BranchIs(s);
    TickZone(s, a.now, a.expired, a.sub, a.clock, z);
    var zn := At(s, z);
    PushGenMoves(zn);
    match TickBranch(t, s.pushReq)
    case Transfer => CxTickSlot(t, a.now, a.expired, a.sub, a.clock);
    case Write => WriteSlot(t, a.sub, a.clock);
    case Manual => ManualSlot(t, s.pushReq, PushGenFor(At(t, s.pushReq)), PushIdent(At(t, s.pushReq)), a.sub, a.clock);
    case Auto => HeldScan(t, a.now, a.sub, a.clock, z, kind, id);
  }

  /** The scan starts nothing for a plane latched on what heartbeat and cache show. */
  lemma HeldScan(t: State, now: bv32, sub: Option<nat>, clock: bv32, z: nat, kind: nat, id: Ident)
    requires Wf(t) && t.cx.st == IDLE && IsZone(z) && 1 <= kind <= 2
    requires LatchOf(At(t, z), kind) == Some(id) && PlaneIdent(At(t, z), kind) == id
    ensures var (u, did) := Scan(t, 0, now, sub, clock);
      && !(did.Began? && did.zone == z && did.kind == kind)
      && !(SlotFor(u, z) && u.cx.kind == kind)
  {
    hide Scan, Reachable;
    ScanOutcome(t, 0, now, sub, clock);
  }

  lemma HeldRequest(s: State, a: Action, z: nat, kind: nat, id: Ident)
    requires Inv(s) && Enabled(s, a) && IsZone(z) && 1 <= kind <= 2 && IsRequest(a)
    requires |s.zones| == ZONES && Held(s, z, kind, id)
    ensures |Step(s, a).zones| == ZONES && Held(Step(s, a), z, kind, id)
  {
    hide Inv, Step, Enabled;
    RequestZone(s, a, z);
  }

  lemma HeldEvent(s: State, a: Action, z: nat, kind: nat, id: Ident)
    requires Inv(s) && Enabled(s, a) && IsZone(z) && 1 <= kind <= 2 && a.CfgEvent?
    requires |s.zones| == ZONES && Held(s, z, kind, id) && !Syncs(s, a, z, kind)
    ensures |Step(s, a).zones| == ZONES && Held(Step(s, a), z, kind, id)
  {
    hide Inv, OnEv, TerminalReply, StoreCfg, Stamp, AfterClears;
    InvWf(s);
    SlotZone(s, a);
    EventZone(s, a.q, a.ev, a.clock, z);
  }

  lemma HeldCmd(s: State, a: Action, z: nat, kind: nat, id: Ident)
    requires Inv(s) && Enabled(s, a) && IsZone(z) && 1 <= kind <= 2 && a.CmdEvent?
    requires |s.zones| == ZONES && Held(s, z, kind, id) && !Drops(s, a, z)
    ensures |Step(s, a).zones| == ZONES && Held(Step(s, a), z, kind, id)
  {
    hide Inv, OnCmdEvent, Forward.Confirmed, AfterClears;
    SlotZone(s, a);
    CmdZone(s, a.q, a.ev, z);
  }

  lemma HeldChunk(s: State, a: Action, z: nat, kind: nat, id: Ident)
    requires Inv(s) && Enabled(s, a) && IsZone(z) && 1 <= kind <= 2 && a.ChunkIn?
    requires |s.zones| == ZONES && Held(s, z, kind, id)
    ensures |Step(s, a).zones| == ZONES && Held(Step(s, a), z, kind, id)
  {
    hide Inv, OnChunk, UnwrapPlane, StoreCfg, StoreHw, AfterClears;
    InvWf(s);
    SlotZone(s, a);
    ChunkZone(s, a.src, a.feed, a.clock, z);
  }

  lemma HeldOther(s: State, a: Action, z: nat, kind: nat, id: Ident)
    requires Inv(s) && Enabled(s, a) && IsZone(z) && 1 <= kind <= 2 && !a.TickAct?
    requires |s.zones| == ZONES && Held(s, z, kind, id) && !Loses(s, a, z, kind)
    ensures |Step(s, a).zones| == ZONES && Held(Step(s, a), z, kind, id)
  {
    hide Inv, Held, Syncs, Drops, Step, Enabled;
    if a.CfgEvent? {
      HeldEvent(s, a, z, kind, id);
    } else if a.CmdEvent? {
      HeldCmd(s, a, z, kind, id);
    } else if a.ChunkIn? {
      HeldChunk(s, a, z, kind, id);
    } else {
      HeldRequest(s, a, z, kind, id);
    }
  }

  lemma HeldStep(s: State, a: Action, z: nat, kind: nat, id: Ident)
    requires Inv(s) && Enabled(s, a) && IsZone(z) && 1 <= kind <= 2
    requires Held(s, z, kind, id) && Shows(At(s, z), kind, id) && !Loses(s, a, z, kind)
    requires |Step(s, a).zones| == ZONES && Shows(At(Step(s, a), z), kind, id)
    ensures Held(Step(s, a), z, kind, id) && !AutoStarts(s, a, z, kind)
  {
    hide Inv, Step, Held, Enabled, Drops, Shows;
    InvWf(s);
    if a.TickAct? { HeldTick(s, a, z, kind, id); } else { HeldOther(s, a, z, kind, id); }
  }

  /** A drop leaves the plane unlatched and its cache without an identity. */
  lemma DropForgets(s: State, a: Action, z: nat, kind: nat)
    requires Inv(s) && Enabled(s, a) && IsZone(z) && 1 <= kind <= 2 && |s.zones| == ZONES && Drops(s, a, z)
    ensures |Step(s, a).zones| == ZONES && LatchOf(At(Step(s, a), z), kind).None?
    ensures PlaneIdent(At(Step(s, a), z), kind).cacheGen == 0 && PlaneIdent(At(Step(s, a), z), kind).cacheCrc == 0
  {
    hide Inv, AfterClears, TakesWrite, Tick, OnCmdEvent, Forward.Confirmed, Written;
    InvWf(s);
    if a.TickAct? {
      TickZone(s, a.now, a.expired, a.sub, a.clock, z);
    } else {
      CmdZone(s, a.q, a.ev, z);
    }
  }

  /** An acknowledged config push leaves the plane unlatched and its cache with the push's generation. */
  lemma SyncForgets(s: State, a: Action, z: nat, kind: nat)
    requires Inv(s) && Enabled(s, a) && IsZone(z) && Syncs(s, a, z, kind)
    ensures Wf(s) && s.cx.kind == 1 && |Step(s, a).zones| == ZONES && At(Step(s, a), z).latch.None?
    ensures CfgIdent(At(Step(s, a), z)).cacheGen == s.cx.pushGen
  {
    hide Inv, OnEv, Stamp, StoreCfg, TerminalReply;
    InvWf(s);
    EventZone(s, a.q, a.ev, a.clock, z);
  }

  /** The identity of an empty cache. */
  predicate IsEmpty(id: Ident) { id.cacheGen == 0 && id.cacheCrc == 0 }

  /**
   Exactly: while the identity shows, the step keeps the latch if and only if it is neither a
   drop nor an acknowledged config push. The one leaves the identity showing only if it is
   that of an empty cache, the other only at the wrap.
   */
  lemma HeldIff(s: State, a: Action, z: nat, kind: nat, id: Ident)
    requires Inv(s) && Enabled(s, a) && IsZone(z) && 1 <= kind <= 2
    requires |s.zones| == ZONES && Held(s, z, kind, id) && Shows(At(s, z), kind, id)
    requires |Step(s, a).zones| == ZONES && Shows(At(Step(s, a), z), kind, id)
    ensures Held(Step(s, a), z, kind, id) <==> !Loses(s, a, z, kind)
    ensures Drops(s, a, z) ==> IsEmpty(id)
    ensures Syncs(s, a, z, kind) ==> Wraps(id)
  {
    hide Inv, Step, Enabled, Drops, Syncs;
    if Drops(s, a, z) { DropForgets(s, a, z, kind); }
    if Syncs(s, a, z, kind) {
      SyncForgets(s, a, z, kind);
      SyncIsConfig(s, a, z, kind);
    }
    if !Loses(s, a, z, kind) { HeldStep(s, a, z, kind, id); }
  }

  lemma SyncIsConfig(s: State, a: Action, z: nat, kind: nat)
    requires Syncs(s, a, z, kind)
    ensures kind == 1 && Pushing(s.cx.st) && SlotFor(s, z)
  {
  }

  /** A refusal the ladder never retries, or an envelope from a newer layout. */
  predicate FailsTerminally(s: State, a: Action, z: nat, kind: nat)
    requires Wf(s)
  {
    s.cx.zone == z && s.cx.kind == kind
    && ((a.CfgEvent? && Refused(s, a.q, a.ev)) || (a.ChunkIn? && TooNew(s, a.src, a.feed)))
  }

  lemma FailureHolds(s: State, a: Action, z: nat, kind: nat)
    requires Inv(s) && Enabled(s, a) && IsZone(z) && 1 <= kind <= 2 && FailsTerminally(s, a, z, kind)
    ensures |Step(s, a).zones| == ZONES && Held(Step(s, a), z, kind, s.cx.id) && Step(s, a).cx == IDLE_SLOT
  {
    hide Inv, StoreCfg, StoreHw, Stamp, UnwrapPlane, ZeroCache, TerminalReply, NeverRetried, OnCmdEvent, AfterClears,
      Tick, BackoffMs;
    InvWf(s);
    if a.CfgEvent? && a.ev.Done? { NeverRetriedIff(a.ev.detail); }
    match a
    case CfgEvent(q, ev, clock) => EventZone(s, q, ev, clock, z);
    case ChunkIn(src, feed, clock) => ChunkZone(s, src, feed, clock, z);
  }

  lemma {:induction false} HeldRun(ss: seq<State>, acts: seq<Action>, i: nat, j: nat, z: nat, kind: nat, id: Ident)
    requires IsRun(ss, acts) && i <= j < |ss| && IsZone(z) && 1 <= kind <= 2
    requires forall n :: i <= n <= j ==> |ss[n].zones| == ZONES && Shows(At(ss[n], z), kind, id)
    requires IsEmpty(id) ==> forall n :: i <= n < j ==> !Drops(ss[n], acts[n], z)
    requires Wraps(id) ==> forall n :: i <= n < j ==> !Syncs(ss[n], acts[n], z, kind)
    requires Held(ss[i], z, kind, id)
    ensures Held(ss[j], z, kind, id)
    ensures forall n :: i <= n < j ==> Wf(ss[n]) && !AutoStarts(ss[n], acts[n], z, kind)
    decreases j
  {
    hide Inv, Step, Held, Enabled, Drops, Syncs, Shows, AutoStarts, Wf;
    if i < j {
      HeldRun(ss, acts, i, j - 1, z, kind, id);
      RunInv(ss, acts, j - 1);
      RunStep(ss, acts, j - 1);
      HeldIff(ss[j - 1], acts[j - 1], z, kind, id);
      HeldStep(ss[j - 1], acts[j - 1], z, kind, id);
    }
  }

  /**
   Over a stretch in which the identity shows, the latch holds throughout if and only if
   nothing drops the caches and no config push is acknowledged.
   */
  lemma HeldThroughoutIff(ss: seq<State>, acts: seq<Action>, i: nat, j: nat, z: nat, kind: nat, id: Ident)
    requires IsRun(ss, acts) && i <= j < |ss| && IsZone(z) && 1 <= kind <= 2
    requires forall n :: i <= n <= j ==> |ss[n].zones| == ZONES && Shows(At(ss[n], z), kind, id)
    requires Held(ss[i], z, kind, id)
    ensures (forall n :: i <= n <= j ==> Held(ss[n], z, kind, id)) <==>
      forall n :: i <= n < j ==> !Loses(ss[n], acts[n], z, kind)
  {
    hide Inv, Step, Held, Enabled, Loses, Shows, AutoStarts, Wf;
    if forall n :: i <= n < j ==> !Loses(ss[n], acts[n], z, kind) {
      forall n | i <= n < j ensures !Drops(ss[n], acts[n], z) && !Syncs(ss[n], acts[n], z, kind) {
        LosesEither(ss[n], acts[n], z, kind);
      }
      forall n | i <= n <= j ensures Held(ss[n], z, kind, id) { HeldRun(ss, acts, i, n, z, kind, id); }
    }
    if forall n :: i <= n <= j ==> Held(ss[n], z, kind, id) {
      forall n | i <= n < j ensures !Loses(ss[n], acts[n], z, kind) {
        RunInv(ss, acts, n);
        RunStep(ss, acts, n);
        HeldIff(ss[n], acts[n], z, kind, id);
      }
    }
  }

  lemma LosesEither(s: State, a: Action, z: nat, kind: nat)
    requires |s.zones| == ZONES && IsZone(z)
    ensures Loses(s, a, z, kind) <==> Drops(s, a, z) || Syncs(s, a, z, kind)
  {
  }

  /**
   After a terminal failure of one plane no automatic transfer of that plane starts while
   heartbeat and cache keep showing the identity frozen when it began, whatever the other
   plane, the other zones and the operator's pushes do. Two identities need a proviso: that
   of an empty cache, that the zone's caches are not dropped meanwhile; and that of the
   wrap, that no config push is acknowledged. For any other, both change what shows.
   */
  lemma NoAutomaticRetry(ss: seq<State>, acts: seq<Action>, i: nat, j: nat, z: nat, kind: nat)
    requires IsRun(ss, acts) && i < j < |ss| && IsZone(z) && 1 <= kind <= 2
    requires Wf(ss[i]) && FailsTerminally(ss[i], acts[i], z, kind)
    requires forall n :: i < n <= j ==> |ss[n].zones| == ZONES && Shows(At(ss[n], z), kind, ss[i].cx.id)
    requires IsEmpty(ss[i].cx.id) ==> forall n :: i < n < j ==> !Drops(ss[n], acts[n], z)
    requires Wraps(ss[i].cx.id) ==> forall n :: i < n < j ==> !Syncs(ss[n], acts[n], z, kind)
    ensures forall n :: i < n < j ==> Wf(ss[n]) && !AutoStarts(ss[n], acts[n], z, kind)
  {
    hide Inv, Step, Held, Enabled, Drops, Syncs, Shows, AutoStarts, Wf, FailsTerminally;
    RunInv(ss, acts, i);
    RunStep(ss, acts, i);
    FailureHolds(ss[i], acts[i], z, kind);
    HeldRun(ss, acts, i + 1, j, z, kind, ss[i].cx.id);
  }

  // ---------------- what the latch holds back, and what not ----------------

  /** Config failed for good under just the numbers heartbeat and cache show now. */
  predicate CfgBlocked(zn: Zone) {
    zn.latch == Some(Ident(zn.node.cfgGen, zn.node.cfgCrc, zn.cfg.gen, zn.cfg.crc))
  }

  /** The same of the hardware plane, which has no generations. */
  predicate HwBlocked(zn: Zone) { zn.hwLatch == Some(Ident(0, zn.node.hwCrc, 0, zn.hw.crc)) }

  predicate HwWanting(zn: Zone) { !zn.hw.valid || zn.node.hwCrc != zn.hw.crc }

  /**
   The decision for one zone: a config that is not there is pulled, then hardware that is not
   there or another than the zone's, then a config that differs from the zone's is pushed one
   generation past both. A plane that failed for good is left out, and only while none of the
   numbers it failed under has changed.
   */
  lemma DecisionIff(s: State, z: nat, sub: Option<nat>, clock: bv32)
    requires Wf(s) && IsZone(z) && s.cx.st == IDLE
    ensures var zn, r := At(s, z), TryStart(s, z, sub, clock);
            var differs := zn.node.cfgGen != zn.cfg.gen || zn.node.cfgCrc != zn.cfg.crc;
      && (r.1 == Began(z, 1, false) <==> !zn.cfg.valid && !CfgBlocked(zn))
      && (r.1 == Began(z, 2, false) <==> (zn.cfg.valid || CfgBlocked(zn)) && HwWanting(zn) && !HwBlocked(zn))
      && (r.1 == Began(z, 1, true) <==>
            zn.cfg.valid && !(HwWanting(zn) && !HwBlocked(zn)) && differs && !CfgBlocked(zn))
      && (r.1 == Nothing || r.1 == Began(z, 1, false) || r.1 == Began(z, 2, false) || r.1 == Began(z, 1, true))
  {
    hide PushWire, PushGenFor;
  }

  // ---------------- the two ways the latch is lost early ----------------

  /**
   Dropping the caches always clears the latch. The identity it guarded still shows exactly
   when the dropped cache had none of its own: generation and CRC both zero.
   */
  lemma DropLosesLatch(s: State, z: nat, kind: nat, id: Ident)
    requires |s.zones| == ZONES && IsZone(z) && 1 <= kind <= 2 && Shows(At(s, z), kind, id)
    ensures |Invalidate(s, z).zones| == ZONES && LatchOf(At(Invalidate(s, z), z), kind).None?
    ensures Shows(At(Invalidate(s, z), z), kind, id) <==> id.cacheGen == 0 && id.cacheCrc == 0
  {
  }

  /**
   So the retry comes back for a zone whose config was refused as too new before the master
   ever had a copy: its latch names an empty cache, a confirmed forwarded SET drops it, and
   the next tick that reaches the zone pulls the same identity again.
   */
  lemma DroppedPullsAgain(s: State, z: nat, sub: Option<nat>, clock: bv32)
    requires Inv(s) && IsZone(z) && s.cx.st == IDLE && At(s, z).node.used
    requires !At(s, z).cfg.valid && Latched(At(s, z), 1, CfgIdent(At(s, z)))
    ensures Wf(s) && TryStart(s, z, sub, clock).1 != Began(z, 1, false)
    ensures Wf(Invalidate(s, z)) && CfgIdent(At(Invalidate(s, z), z)) == CfgIdent(At(s, z))
    ensures TryStart(Invalidate(s, z), z, sub, clock).1 == Began(z, 1, false)
  {
    hide PushWire, ZoneOk, CxPull, CxPush;
    InvalidateInv(s, z);
    EmptyIdent(s, z);
  }

  /**
   The hardware plane likewise, one decision later: a drop takes the config cache along, so
   the config is pulled first, and as soon as a config is in the cache again the refused
   hardware blob is pulled too, still under the identity its latch had named.
   */
  lemma DroppedPullsHardwareAgain(s: State, z: nat, c: Cache, sub: Option<nat>, clock: bv32)
    requires Inv(s) && IsZone(z) && s.cx.st == IDLE && At(s, z).node.used
    requires !At(s, z).hw.valid && Latched(At(s, z), 2, HwIdent(At(s, z)))
    requires c.valid && |c.blob| == BLOB_LEN
    ensures Wf(s) && TryStart(s, z, sub, clock).1 != Began(z, 2, false)
    ensures Wf(Invalidate(s, z)) && TryStart(Invalidate(s, z), z, sub, clock).1 == Began(z, 1, false)
    ensures var u := Put(Invalidate(s, z), z, At(Invalidate(s, z), z).(cfg := c));
      Wf(u) && HwIdent(At(u, z)) == HwIdent(At(s, z)) && TryStart(u, z, sub, clock).1 == Began(z, 2, false)
  {
    hide PushWire, ZoneOk, CxPull, CxPush;
    InvalidateInv(s, z);
    EmptyHwIdent(s, z);
  }

  lemma EmptyHwIdent(s: State, z: nat)
    requires Inv(s) && IsZone(z) && !At(s, z).hw.valid
    ensures Wf(s) && At(s, z).hw == ZeroCache()
  {
    hide PushWire, CfgCacheOk, SlotFrame, SlotOk;
    assert ZoneOk(s.zones[z - 1]);
  }

  lemma EmptyIdent(s: State, z: nat)
    requires Inv(s) && IsZone(z) && !At(s, z).cfg.valid
    ensures Wf(s) && At(s, z).cfg == ZeroCache()
  {
    hide PushWire, HwCacheOk, SlotFrame, SlotOk;
    assert ZoneOk(s.zones[z - 1]);
  }

  // ---------------- at the wrap ----------------

  /**
   The OK of a config push always clears the config latch. What it guarded still shows
   exactly when the push carried the cache's own generation and its stamped payload has the
   cache's CRC; by HeldIff that takes a heartbeat at generation 2^32 - 1 and a cache at 0.
   */
  lemma AckLosesLatch(s: State, q: nat, ev: TrkEv, clock: bv32, z: nat, id: Ident)
    requires Inv(s) && q in s.trk && IsZone(z) && PushAcked(s, q, ev) && s.cx.zone == z
    requires |s.zones| == ZONES && Shows(At(s, z), 1, id)
    ensures |At(s, z).cfg.blob| == BLOB_LEN && |OnEv(Answered(s, q), q, ev, clock).zones| == ZONES
    ensures var zn := At(OnEv(Answered(s, q), q, ev, clock), z);
      && zn.latch.None?
      && (Shows(zn, 1, id) <==>
            s.cx.pushGen == id.cacheGen && PayloadCrc(Stamp(Inner(At(s, z).cfg.blob), s.cx.pushGen)) == id.cacheCrc)
  {
    hide Inv, OnEv, Stamp, TerminalReply, PayloadCrc, CfgBlob, Inner;
    InvWf(s);
    WfZones(s);
    EventZone(s, q, ev, clock, z);
  }

  /**
   And then the refused push comes back by itself: an operator's manual push of the latched
   config, at the wrap, is acknowledged, and until the next heartbeat the decision pushes the
   same identity again, which it would not have done before.
   */
  lemma AckedPushesAgain(s: State, q: nat, ev: TrkEv, clock: bv32, z: nat, id: Ident, sub: Option<nat>)
    requires Inv(s) && q in s.trk && IsZone(z) && PushAcked(s, q, ev) && s.cx.zone == z
    requires |s.zones| == ZONES && Shows(At(s, z), 1, id) && Wraps(id) && Latched(At(s, z), 1, id)
    requires s.cx.pushGen == 0 && PayloadCrc(Stamp(Inner(At(s, z).cfg.blob), 0)) == id.cacheCrc
    requires (At(s, z).hw.valid && At(s, z).node.hwCrc == At(s, z).hw.crc) || Latched(At(s, z), 2, HwIdent(At(s, z)))
    ensures Wf(s) && TryStart(s, z, sub, clock).1 != Began(z, 1, true)
    ensures var r := OnEv(Answered(s, q), q, ev, clock);
      && Wf(r) && r.cx == IDLE_SLOT && Shows(At(r, z), 1, id)
      && TryStart(r, z, sub, clock).1 == Began(z, 1, true)
  {
    hide Inv, OnEv, Stamp, TerminalReply, PayloadCrc, CfgBlob, Inner, CxPull, CxPush;
    InvWf(s);
    AckLosesLatch(s, q, ev, clock, z, id);
    EventZone(s, q, ev, clock, z);
    TrackedPush(s, q);
    EventInv(s, q, ev, clock);
    InvWf(OnEv(Answered(s, q), q, ev, clock));
    AckEndsSlot(s, q, ev, clock);
  }

  /**
   The whole course: a zone at heartbeat generation 2^32 - 1, its cache at 0 and latched on
   just that, is left alone; the operator pushes the config by hand; and on the zone's OK
   the decision pushes it again unasked.
   */
  lemma ManualPushAtWrap(s: State, z: nat, p: Payload, q: nat, sub: Option<nat>, clock: bv32)
    requires Inv(s) && s.cx.st == IDLE && q !in s.trk && IsZone(z)
    requires var zn := At(s, z);
      && zn.node.used && zn.node.cfgGen == GEN_MAX
      && zn.cfg == StoreCfg(0, Stamp(p, 0)) && Latched(zn, 1, CfgIdent(zn))
      && ((zn.hw.valid && zn.node.hwCrc == zn.hw.crc) || Latched(zn, 2, HwIdent(zn)))
    ensures Wf(s) && TryStart(s, z, sub, clock).1 == Nothing
    ensures var t := CxPush(s, z, PushGenFor(At(s, z)), PushIdent(At(s, z)), Some(q), clock);
            var r := OnEv(Answered(t, q), q, Done(0, ""), clock);
      && t.cx.pushGen == 0 && Inv(t) && PushAcked(t, q, Done(0, ""))
      && Wf(r) && TryStart(r, z, sub, clock).1 == Began(z, 1, true)
  {
    hide Inv, Stamp, PayloadCrc, CfgBlob, Inner, CxPull, PushWire, TerminalReply, OnEv, TryStart;
    InvWf(s);
    LatchedStops(s, z, sub, clock);
    var id := CfgIdent(At(s, z));
    var t := CxPush(s, z, PushGenFor(At(s, z)), PushIdent(At(s, z)), Some(q), clock);
    ManualInv(s, z, Some(q), clock);
    InnerOfBlob(0, Stamp(p, 0));
    StampTwice(p, 0);
    AckedPushesAgain(t, q, Done(0, ""), clock, z, id, sub);
  }

  lemma LatchedStops(s: State, z: nat, sub: Option<nat>, clock: bv32)
    requires Wf(s) && IsZone(z) && At(s, z).cfg.valid && Latched(At(s, z), 1, CfgIdent(At(s, z)))
    requires var zn := At(s, z); (zn.hw.valid && zn.node.hwCrc == zn.hw.crc) || Latched(zn, 2, HwIdent(zn))
    ensures TryStart(s, z, sub, clock).1 == Nothing
  {
    hide CxPull, CxPush;
  }

  lemma StampTwice(p: Payload, gen: u32)
    ensures Stamp(Stamp(p, gen), gen) == Stamp(p, gen)
  {
    hide Stamp;
    StampKeeps(p, gen);
    StampIs(Stamp(p, gen), gen);
    StampIs(p, gen);
  }

  lemma StampIs(p: Payload, gen: u32)
    ensures Stamp(p, gen) == Le32Nat(gen) + [SRC_MASTER] + Settings(p)
  {
  }

  /** What the slot waits for is a config frame. */
  lemma TrackedPush(s: State, q: nat)
    requires Inv(s) && s.cx.st == PUSH_COMMIT && q == s.cx.seqNo && q in s.trk
    ensures !s.trk[q].frame.Cmd?
  {
    hide ZoneOk, PushWire;
  }

  lemma AckEndsSlot(s: State, q: nat, ev: TrkEv, clock: bv32)
    requires Wf(s) && PushAcked(s, q, ev)
    ensures OnEv(Answered(s, q), q, ev, clock).cx == IDLE_SLOT
  {
    hide PayloadCrc, Inner, TerminalReply;
  }
}
