/**
 What each step can do to one zone and to the transfer slot, function by function. These
 are the facts the run theorems are built from.
 */
module CfgMoves {
  import opened Wrappers
  import opened Bytes
  import opened CfgEnvelope
  import opened RingTracker
  import opened CfgState
  import opened CfgInvariant
  import opened CfgSystem
  import Forward
  import Blob

  // ---------------- the clears at the head of a tick ----------------

  function Cleared(zn: Zone): Zone { Forget(zn).(clear := false, isFresh := false, write := None) }

  function AfterClear(zn: Zone): Zone { if zn.clear then Cleared(zn) else zn }

  lemma ClearAt(s: State, id: nat)
    requires |s.zones| == ZONES && IsZone(id)
    ensures Clear(s, id).zones == s.zones[id - 1 := Forget(At(s, id)).(isFresh := false, write := None)]
  {
  }

  lemma {:induction false} ClearMaskedAt(s: State, id: nat, z: nat)
    requires |s.zones| == ZONES && 1 <= id <= ZONES + 1 && IsZone(z)
    ensures At(ClearMasked(s, id), z) == if id <= z then AfterClear(At(s, z)) else At(s, z)
    decreases ZONES + 1 - id
  {
    hide Clear, ZeroCache;
    if id <= ZONES {
      var t := Put(s, id, At(s, id).(clear := false));
      ClearAt(t, id);
      ClearMaskedAt(if At(s, id).clear then Clear(t, id) else s, id + 1, z);
    }
  }

  lemma AfterClearsAt(s: State, z: nat)
    requires Wf(s) && IsZone(z)
    ensures At(AfterClears(s), z) == AfterClear(At(s, z))
  {
    hide ClearMasked, AfterClear, Wf;
    InvWfLength(s);
    ClearMaskedAt(s, 1, z);
  }

  lemma InvWfLength(s: State)
    requires Wf(s)
    ensures |s.zones| == ZONES && s.pushReq <= ZONES
  {
  }

  /** A clear aborts the slot of its own zone and leaves any other transfer alone. */
  predicate ClearMoves(s: State, r: State) {
    && r.wire == s.wire && r.fwd == s.fwd && r.rr == s.rr && r.pushReq == s.pushReq
    && (r.cx == s.cx || r.cx == IDLE_SLOT)
  }

  lemma ClearCx(s: State, id: nat)
    requires Wf(s) && IsZone(id)
    ensures ClearMoves(s, Clear(s, id))
    ensures Clear(s, id).cx == if s.cx.st != IDLE && s.cx.zone == id then IDLE_SLOT else s.cx
  {
  }

  lemma {:induction false} ClearMaskedCx(s: State, id: nat)
    requires Wf(s) && 1 <= id <= ZONES + 1
    ensures var r := ClearMasked(s, id);
      && ClearMoves(s, r)
      && (r.cx != s.cx ==> id <= s.cx.zone <= ZONES && At(s, s.cx.zone).clear)
      && (s.cx.st != IDLE && id <= s.cx.zone && At(s, s.cx.zone).clear ==> r.cx == IDLE_SLOT)
    decreases ZONES + 1 - id
  {
    hide Clear;
    if id <= ZONES {
      var t := Put(s, id, At(s, id).(clear := false));
      var u := if At(s, id).clear then Clear(t, id) else s;
      ClearWf(t, id);
      ClearCx(t, id);
      ClearAt(t, id);
      ClearMaskedCx(u, id + 1);
    }
  }

  // ---------------- the tick ----------------

  /** The scan and the retry ladder touch nothing but these two fields. */
  predicate ScanMove(zn: Zone, zn': Zone) {
    zn' == zn.(isFresh := zn'.isFresh, cooldown := zn'.cooldown)
  }

  lemma GateMove(s: State, id: nat, now: bv32, z: nat)
    requires |s.zones| == ZONES && IsZone(id) && IsZone(z)
    ensures |Gate(s, id, now).0.zones| == ZONES
    ensures ScanMove(At(s, z), At(Gate(s, id, now).0, z))
    ensures Gate(s, id, now).0.(zones := s.zones, rr := s.rr) == s
    ensures Gate(s, id, now).1 ==> Reachable(At(s, id).node) && At(s, id).isFresh
  {
  }

  /** The decision a scan may take for zone `id`, and the slot it leaves. */
  predicate Decides(zn: Zone, id: nat, did: Did, cx: Slot, accepted: bool) {
    && did.Began? && did.zone == id && cx.zone == id && cx.kind == did.kind && cx.attempt == 1
    && Reachable(zn.node)
    && (did.kind == 1 ==>
          !Latched(zn, 1, CfgIdent(zn)) && cx.id == CfgIdent(zn)
          && (if did.push then zn.cfg.valid && !CfgInSync(zn) && cx.pushGen == PushGenFor(zn) else !zn.cfg.valid))
    && (did.kind == 2 ==>
          !did.push && !Latched(zn, 2, HwIdent(zn)) && cx.id == HwIdent(zn)
          && (zn.cfg.valid || Latched(zn, 1, CfgIdent(zn))))
    && (did.kind == 1 || did.kind == 2)
    && cx.st == (if did.push then (if accepted then PUSH_COMMIT else RETRY_PUSH)
                 else if accepted then PULL_ACK else RETRY_PULL)
  }

  lemma TryStartDecides(s: State, id: nat, sub: Option<nat>, clock: bv32)
    requires Wf(s) && IsZone(id) && Reachable(At(s, id).node)
    ensures var r := TryStart(s, id, sub, clock);
      && r.0.zones == s.zones
      && (r.1 == Nothing ==> r.0 == s)
      && (r.1 != Nothing ==> Decides(At(s, id), id, r.1, r.0.cx, sub.Some?))
  {
  }

  lemma DecidesAlike(zn: Zone, zn': Zone, id: nat, did: Did, cx: Slot, accepted: bool)
    requires ScanMove(zn, zn') && Decides(zn', id, did, cx, accepted)
    ensures Decides(zn, id, did, cx, accepted)
  {
  }

  lemma {:induction false} ScanOutcome(s: State, i: nat, now: bv32, sub: Option<nat>, clock: bv32)
    requires Wf(s) && i <= ZONES
    ensures var r := Scan(s, i, now, sub, clock);
      && |r.0.zones| == ZONES && (forall z :: IsZone(z) ==> ScanMove(At(s, z), At(r.0, z)))
      && (r.1 == Nothing ==> r.0.cx == s.cx && r.0.trk == s.trk && r.0.wire == s.wire)
      && (r.1 != Nothing ==> IsZone(r.1.zone) && Decides(At(s, r.1.zone), r.1.zone, r.1, r.0.cx, sub.Some?))
    decreases ZONES - i, 0
  {
    hide TryStart, Gate, Decides, Reachable, Wf;
    InvWfLength(s);
    if i < ZONES {
      WfRr(s);
      var id := ScanId(s.rr, i);
      GateWf(s, id, now);
      var (t, decide) := Gate(s, id, now);
      InvWfLength(t);
      forall z | IsZone(z) ensures ScanMove(At(s, z), At(t, z)) { GateMove(s, id, now, z); }
      GateMove(s, id, now, id);
      if decide {
        TryStartDecides(t, id, sub, clock);
        var (u, did) := TryStart(t, id, sub, clock);
        if did != Nothing {
          DecidesAlike(At(s, id), At(t, id), id, did, u.cx, sub.Some?);
          assert did.zone == id by { DecidesZone(At(s, id), id, did, u.cx, sub.Some?); }
        } else {
          ScanOutcomeRest(s, t, i, now, sub, clock);
        }
      } else {
        ScanOutcomeRest(s, t, i, now, sub, clock);
      }
    }
  }

  lemma DecidesZone(zn: Zone, id: nat, did: Did, cx: Slot, accepted: bool)
    requires Decides(zn, id, did, cx, accepted)
    ensures did.Began? && did.zone == id
  {
  }

  lemma WfRr(s: State)
    requires Wf(s)
    ensures IsZone(s.rr)
  {
  }

  /** The rest of a scan, seen from before the turn that decided nothing. */
  lemma {:induction false} ScanOutcomeRest(s: State, t: State, i: nat, now: bv32, sub: Option<nat>, clock: bv32)
    requires Wf(s) && Wf(t) && i < ZONES && t.(zones := s.zones, rr := s.rr) == s
    requires |s.zones| == |t.zones| == ZONES && forall z :: IsZone(z) ==> ScanMove(At(s, z), At(t, z))
    ensures var r := Scan(t, i + 1, now, sub, clock);
      && |r.0.zones| == ZONES && (forall z :: IsZone(z) ==> ScanMove(At(s, z), At(r.0, z)))
      && (r.1 == Nothing ==> r.0.cx == s.cx && r.0.trk == s.trk && r.0.wire == s.wire)
      && (r.1 != Nothing ==> IsZone(r.1.zone) && Decides(At(s, r.1.zone), r.1.zone, r.1, r.0.cx, sub.Some?))
    decreases ZONES - i - 1, 1
  {
    hide Scan, Decides, Wf;
    ScanOutcome(t, i + 1, now, sub, clock);
    var r := Scan(t, i + 1, now, sub, clock);
    forall z | IsZone(z) ensures ScanMove(At(s, z), At(r.0, z)) {
      assert ScanMove(At(s, z), At(t, z)) && ScanMove(At(t, z), At(r.0, z));
    }
    if r.1 != Nothing {
      DecidesAlike(At(s, r.1.zone), At(t, r.1.zone), r.1.zone, r.1, r.0.cx, sub.Some?);
    }
  }

  lemma CxTickZones(s: State, now: bv32, expired: bool, sub: Option<nat>, clock: bv32, z: nat)
    requires Wf(s) && s.cx.st != IDLE && IsZone(z)
    ensures |CxTick(s, now, expired, sub, clock).zones| == ZONES
    ensures ScanMove(At(s, z), At(CxTick(s, now, expired, sub, clock), z))
  {
    hide PushWire, Before, FailOrRetry;
    FailZone(s, false, false, clock, z);
  }

  /** A write's zone: the cache is the stamped payload, the inbox empty, the cooldown lifted. */
  function Written(zn: Zone, want: Payload): Zone {
    var gen := PushGenFor(zn);
    zn.(write := None, cooldown := 0, cfg := StoreCfg(gen, Stamp(want, gen)))
  }

  lemma StartSetZones(t: State, z: nat, sub: Option<nat>, clock: bv32)
    requires Wf(t) && z == FirstWrite(t.zones, 1) && z != 0
    ensures var r := StartSet(TakeWrite(t), z, At(t, z).write.value, sub, clock);
      r.zones == t.zones[z - 1 := Written(At(t, z), At(t, z).write.value)]
  {
    hide StoreCfg, PushGenFor, Stamp, PushWire, FirstWrite;
    SameGen(At(t, z));
    WrittenWf(t, z);
    StartPushKeepsZones(Put(TakeWrite(t), z, Written(At(t, z), At(t, z).write.value)), z,
      PushGenFor(At(t, z)), 1, PushIdent(Written(At(t, z), At(t, z).write.value)), sub, clock);
  }

  lemma WrittenWf(t: State, z: nat)
    requires Wf(t) && z == FirstWrite(t.zones, 1) && z != 0
    ensures Wf(Put(TakeWrite(t), z, Written(At(t, z), At(t, z).write.value)))
  {
    hide Wf, StoreCfg, PushGenFor, Stamp, FirstWrite;
    InvWfLength(t);
    WfZones(t);
    PutWf(TakeWrite(t), z, Written(At(t, z), At(t, z).write.value));
  }

  lemma SameGen(zn: Zone)
    ensures PushGenFor(zn.(write := None)) == PushGenFor(zn)
  {
  }

  lemma StartPushKeepsZones(s: State, z: nat, gen: u32, attempt: nat, id: Ident, sub: Option<nat>, clock: bv32)
    requires Wf(s) && IsZone(z)
    ensures StartPush(s, z, gen, attempt, id, sub, clock).zones == s.zones
  {
    hide PushWire;
  }

  // ---------------- what a tick goes about, told from the state before it ----------------

  /** No transfer is under way, or only that of a zone this tick clears. */
  predicate SlotFree(s: State)
    requires |s.zones| == ZONES
  {
    s.cx.st == IDLE || (IsZone(s.cx.zone) && At(s, s.cx.zone).clear)
  }

  /** A write waits in zone z's inbox, and this tick does not clear it away. */
  predicate Queued(s: State, z: nat)
    requires |s.zones| == ZONES
  {
    IsZone(z) && At(s, z).write.Some? && !At(s, z).clear
  }

  predicate NoneQueued(s: State, below: nat)
    requires |s.zones| == ZONES
  {
    forall y: nat :: y < below ==> !Queued(s, y)
  }

  /** A manual push is asked for, of a config that is there and stays. */
  predicate Asked(s: State, z: nat)
    requires |s.zones| == ZONES
  {
    IsZone(z) && s.pushReq == z && At(s, z).cfg.valid && !At(s, z).clear
  }

  /** The tick carries out zone z's write: the slot is free, and no lower zone has one. */
  predicate TakesWrite(s: State, z: nat)
    requires Wf(s)
  {
    InvWfLength(s);
    SlotFree(s) && Queued(s, z) && NoneQueued(s, z)
  }

  /** The tick carries out the manual push of zone z: the slot is free, and no write waits. */
  predicate TakesPush(s: State, z: nat)
    requires Wf(s)
  {
    InvWfLength(s);
    SlotFree(s) && NoneQueued(s, ZONES + 1) && Asked(s, z)
  }

  /** The tick is left with the automatic decision. */
  predicate TakesScan(s: State)
    requires Wf(s)
  {
    InvWfLength(s);
    SlotFree(s) && NoneQueued(s, ZONES + 1) && !Asked(s, s.pushReq)
  }

  lemma AfterClearsSlot(s: State)
    requires Wf(s)
    ensures |s.zones| == ZONES && (AfterClears(s).cx.st == IDLE <==> SlotFree(s))
  {
    hide ClearMasked;
    ClearMaskedCx(s, 1);
  }

  lemma AfterClearsWrite(s: State, z: nat)
    requires Wf(s) && IsZone(z)
    ensures |s.zones| == |AfterClears(s).zones| == ZONES
    ensures AfterClears(s).zones[z - 1].write.Some? <==> Queued(s, z)
    ensures AfterClears(s).zones[z - 1].cfg.valid <==> At(s, z).cfg.valid && !At(s, z).clear
    ensures Queued(s, z) ==> AfterClears(s).zones[z - 1] == At(s, z)
  {
    hide AfterClears;
    InvWfLength(s);
    InvWfLength(AfterClears(s));
    AfterClearsAt(s, z);
  }

  lemma FirstIsLowest(s: State)
    requires Wf(s)
    ensures |s.zones| == |AfterClears(s).zones| == ZONES
    ensures var w := FirstWrite(AfterClears(s).zones, 1);
      if w == 0 then NoneQueued(s, ZONES + 1) else Queued(s, w) && NoneQueued(s, w)
  {
    hide AfterClears, Queued;
    InvWfLength(s);
    InvWfLength(AfterClears(s));
    var w := FirstWrite(AfterClears(s).zones, 1);
    forall y: nat | y < (if w == 0 then ZONES + 1 else w) ensures !Queued(s, y) {
      if IsZone(y) { AfterClearsWrite(s, y); } else { OnlyZonesQueue(s, y); }
    }
    if w != 0 { AfterClearsWrite(s, w); }
  }

  lemma OnlyZonesQueue(s: State, y: nat)
    requires |s.zones| == ZONES && !IsZone(y)
    ensures !Queued(s, y)
  {
  }

  lemma QueuedIsZone(s: State, z: nat)
    requires |s.zones| == ZONES && Queued(s, z)
    ensures 1 <= z <= ZONES
  {
  }

  lemma AskedIff(s: State)
    requires Wf(s)
    ensures |s.zones| == |AfterClears(s).zones| == ZONES && s.pushReq <= ZONES
    ensures Asked(s, s.pushReq) <==> s.pushReq != 0 && At(AfterClears(s), s.pushReq).cfg.valid
  {
    hide AfterClears;
    InvWfLength(s);
    InvWfLength(AfterClears(s));
    if s.pushReq != 0 { AfterClearsWrite(s, s.pushReq); }
  }

  /** The four branches of the tick are these. */
  lemma BranchIs(s: State)
    requires Wf(s)
    ensures |s.zones| == |AfterClears(s).zones| == ZONES && s.pushReq <= ZONES
    ensures var b := TickBranch(AfterClears(s), s.pushReq);
      && (b == Transfer <==> !SlotFree(s))
      && (b == Manual <==> TakesPush(s, s.pushReq))
      && (b == Auto <==> TakesScan(s))
      && forall z: nat :: TakesWrite(s, z) <==> b == Write && z == FirstWrite(AfterClears(s).zones, 1)
  {
    hide AfterClears, Queued, FirstWrite, Asked;
    InvWfLength(s);
    InvWfLength(AfterClears(s));
    AfterClearsSlot(s);
    FirstIsLowest(s);
    AskedIff(s);
    AskedOnly(s);
    var w := FirstWrite(AfterClears(s).zones, 1);
    if w != 0 { QueuedIsZone(s, w); }
    forall z: nat | TakesWrite(s, z) ensures w != 0 && z == w {
      QueuedIsZone(s, z);
      assert z < ZONES + 1;
    }
  }

  lemma AskedOnly(s: State)
    requires |s.zones| == ZONES
    ensures forall z: nat :: Asked(s, z) ==> z == s.pushReq
  {
  }

  lemma TickZone(s: State, now: bv32, expired: bool, sub: Option<nat>, clock: bv32, z: nat)
    requires Wf(s) && IsZone(z)
    ensures var r := Tick(s, now, expired, sub, clock).0;
            var zn := AfterClear(At(s, z));
      && |r.zones| == ZONES
      && if TakesWrite(s, z) then zn.write.Some? && At(r, z) == Written(zn, zn.write.value)
         else ScanMove(zn, At(r, z))
  {
    hide Wf, AfterClears, AfterClear, CxTick, StartSet, Scan, StartPush, PushGenFor, Written, FirstWrite, TakeWrite,
      TakesWrite, TakesPush, TakesScan, SlotFree;
    InvWfLength(s);
    var t := AfterClears(s);
    InvWfLength(t);
    AfterClearsAt(s, z);
    BranchIs(s);
    match TickBranch(t, s.pushReq)
    case Transfer => CxTickZones(t, now, expired, sub, clock, z);
    case Write => StartSetZones(t, FirstWrite(t.zones, 1), sub, clock);
    case Manual =>
      var p := At(t, s.pushReq);
      StartPushKeepsZones(t, s.pushReq, PushGenFor(p), 1, PushIdent(p), sub, clock);
    case Auto => ScanOutcome(t, 0, now, sub, clock);
  }

  // ---------------- tracker events and chunks ----------------

  function PushedZone(zn: Zone, gen: u32): Zone
    requires |zn.cfg.blob| == BLOB_LEN
  {
    zn.(cfg := StoreCfg(gen, Stamp(Inner(zn.cfg.blob), gen)), latch := None)
  }

  /** The ACK of the slot's current CFG_COMMIT, with status 0. */
  predicate PushAcked(s: State, q: nat, ev: TrkEv) {
    s.cx.st == PUSH_COMMIT && q == s.cx.seqNo && ev.Done? && ev.status == 0
  }

  /** The two replies a push is never retried after. */
  predicate NeverRetried(detail: string) { "ERR CFG_VERSION" <= detail || "ERR INVALID_FIELD" <= detail }

  lemma NeverRetriedIff(detail: string)
    ensures TerminalReply(detail) <==> NeverRetried(detail)
  {
  }

  predicate Refused(s: State, q: nat, ev: TrkEv) {
    s.cx.st == PUSH_COMMIT && q == s.cx.seqNo && ev.Done? && ev.status != 0 && NeverRetried(ev.detail)
  }

  lemma EventZone(s: State, q: nat, ev: TrkEv, clock: bv32, z: nat)
    requires Inv(s) && q in s.trk && IsZone(z)
    ensures Wf(s)
    ensures var r := OnEv(Answered(s, q), q, ev, clock);
      && |r.zones| == ZONES
      && if PushAcked(s, q, ev) && s.cx.zone == z then At(r, z) == PushedZone(At(s, z), s.cx.pushGen)
         else if Refused(s, q, ev) && s.cx.zone == z then At(r, z) == At(s, z).(latch := Some(s.cx.id))
         else At(r, z) == At(s, z).(cooldown := At(r, z).cooldown)
  {
    hide ZoneOk, PushWire, SlotFrame, StoreCfg, Stamp, TerminalReply, NeverRetried, PayloadCrc, FailOrRetry;
    if ev.Done? { NeverRetriedIff(ev.detail); }
    if PushAcked(s, q, ev) {
      PushedCache(At(s, s.cx.zone).cfg, s.cx.pushGen);
    } else if s.cx.st != IDLE {
      FailZone(Answered(s, q), s.cx.st == PUSH_COMMIT, Refused(s, q, ev), clock, z);
    }
  }

  /** A complete, well-formed envelope for the slot's pull. */
  predicate Pulled(s: State, src: nat, feed: Feed) {
    s.cx.st == PULL_STREAM && src == s.cx.zone && feed.Complete? && UnwrapPlane(s.cx.kind, feed.bytes).Accepted()
  }

  predicate TooNew(s: State, src: nat, feed: Feed) {
    s.cx.st == PULL_STREAM && src == s.cx.zone && feed.Complete? && UnwrapPlane(s.cx.kind, feed.bytes).EVersionNewer?
  }

  function PulledZone(zn: Zone, kind: nat, u: Blob.Unwrapped): Zone
    requires u.Accepted() && |u.payload| == (if kind == 1 then CFG_LEN else HW_LEN) && |zn.hw.blob| == BLOB_LEN
  {
    if kind == 1 then zn.(cfg := StoreCfg(u.gen, u.payload), latch := None)
    else zn.(hw := StoreHw(zn.hw, u.gen, u.payload), hwLatch := None)
  }

  lemma AcceptPullZone(s: State, bytes: seq<bv8>, clock: bv32, z: nat)
    requires Wf(s) && IsZone(z) && s.cx.st == PULL_STREAM
    ensures var r, u := AcceptPull(s, bytes, clock), UnwrapPlane(s.cx.kind, bytes);
      && |r.zones| == ZONES
      && if s.cx.zone == z && u.Accepted() then At(r, z) == PulledZone(At(s, z), s.cx.kind, u)
         else if s.cx.zone == z && u.EVersionNewer? then At(r, z) == SetLatch(At(s, z), s.cx.kind, Some(s.cx.id))
         else At(r, z) == At(s, z).(cooldown := At(r, z).cooldown)
  {
    hide StoreCfg, StoreHw, UnwrapPlane, FailOrRetry, SetLatch;
    SetLatchSame(At(s, s.cx.zone), s.cx.kind);
    FailZone(s, false, true, clock, z);
    FailZone(s, false, false, clock, z);
  }

  lemma SetLatchSame(zn: Zone, kind: nat)
    ensures SetLatch(zn, 1, None) == zn.(latch := None)
    ensures kind != 1 ==> SetLatch(zn, kind, None) == zn.(hwLatch := None)
    ensures forall c :: SetLatch(zn.(cfg := c), 1, None) == zn.(cfg := c, latch := None)
    ensures forall c :: kind != 1 ==> SetLatch(zn.(hw := c), kind, None) == zn.(hw := c, hwLatch := None)
  {
  }

  /** Only a terminal failure writes a latch; any other can only start a cooldown. */
  lemma FailZone(s: State, isPush: bool, terminal: bool, clock: bv32, z: nat)
    requires Wf(s) && s.cx.st != IDLE && IsZone(z)
    ensures var r := FailOrRetry(s, isPush, terminal, clock);
      && |r.zones| == ZONES
      && if terminal && s.cx.zone == z then At(r, z) == SetLatch(At(s, z), s.cx.kind, Some(s.cx.id))
         else At(r, z) == At(s, z).(cooldown := At(r, z).cooldown)
  {
    hide SetLatch;
  }

  lemma ChunkZone(s: State, src: nat, feed: Feed, clock: bv32, z: nat)
    requires Wf(s) && IsZone(z)
    ensures var r := OnChunk(s, src, feed, clock);
      && |r.zones| == ZONES
      && if Pulled(s, src, feed) && s.cx.zone == z then
           At(r, z) == PulledZone(At(s, z), s.cx.kind, UnwrapPlane(s.cx.kind, feed.bytes))
         else if TooNew(s, src, feed) && s.cx.zone == z then
           At(r, z) == SetLatch(At(s, z), s.cx.kind, Some(s.cx.id))
         else At(r, z) == At(s, z).(cooldown := At(r, z).cooldown)
  {
    hide StoreCfg, StoreHw, UnwrapPlane, SetLatch, AcceptPull, FailOrRetry;
    if s.cx.st == PULL_STREAM && src == s.cx.zone {
      FailZone(s, false, false, clock, z);
      if feed.Complete? { AcceptPullZone(s, feed.bytes, clock, z); }
    }
  }

  // ---------------- the cases in which a zone's caches go away ----------------

  /** The step retires the zone's caches: an operator clear, or a forwarded SET its zone confirmed. */
  predicate Drops(s: State, a: Action, z: nat)
    requires |s.zones| == ZONES && IsZone(z)
  {
    (a.TickAct? && At(s, z).clear) || (a.CmdEvent? && Forward.Confirmed(s.fwd, a.q, a.ev, z))
  }

  lemma CmdZone(s: State, q: nat, ev: TrkEv, z: nat)
    requires |s.zones| == ZONES && IsZone(z)
    ensures var r := OnCmdEvent(s, q, ev);
      && |r.zones| == ZONES
      && At(r, z) == if Forward.Confirmed(s.fwd, q, ev, z) then Forget(At(s, z)) else At(s, z)
  {
    hide Forward.OnEv, Forward.Adopt, Forward.Confirmed, ZeroCache;
    Forward.AdoptIff(s.fwd, q, ev, z);
  }

  // ---------------- the slot ----------------

  predicate SameTransfer(cx: Slot, cx': Slot) {
    && cx'.zone == cx.zone && cx'.kind == cx.kind && cx'.id == cx.id && cx'.pushGen == cx.pushGen
    && Pushing(cx'.st) == Pushing(cx.st) && cx.st != IDLE && cx'.st != IDLE
  }

  lemma FailSlot(s: State, isPush: bool, terminal: bool, clock: bv32)
    requires Wf(s) && s.cx.st != IDLE && isPush == Pushing(s.cx.st)
    ensures var cx := FailOrRetry(s, isPush, terminal, clock).cx;
      && (cx.st == IDLE || SameTransfer(s.cx, cx))
      && (if terminal || s.cx.attempt == MAX_ATTEMPT then cx == IDLE_SLOT
          else cx.attempt == s.cx.attempt + 1 && cx.st == (if isPush then RETRY_PUSH else RETRY_PULL))
  {
  }

  lemma AcceptPullSlot(s: State, bytes: seq<bv8>, clock: bv32)
    requires Wf(s) && s.cx.st == PULL_STREAM
    ensures var cx := AcceptPull(s, bytes, clock).cx;
      cx.st == IDLE || (SameTransfer(s.cx, cx) && cx.st == RETRY_PULL && cx.attempt == s.cx.attempt + 1)
  {
    hide StoreCfg, StoreHw, UnwrapPlane, NoteSynced, FailOrRetry;
    FailSlot(s, false, true, clock);
    FailSlot(s, false, false, clock);
  }

  /** Only a tick gives the slot to another transfer; a running one keeps its identity and generation. */
  lemma SlotZone(s: State, a: Action)
    requires Enabled(s, a) && !a.TickAct?
    ensures var cx := Step(s, a).cx; cx.st == IDLE || SameTransfer(s.cx, cx)
  {
    hide AfterClears, StoreCfg, AcceptPull, FailOrRetry, ZeroCache, Tick, TerminalReply, Forward.Arm,
      Forward.GiveUp, Forward.Adopt, Forward.OnEv, NoteSynced, Cancel;
    if s.cx.st != IDLE {
      if a.CfgEvent? {
        FailSlot(Answered(s, a.q), Pushing(s.cx.st), a.ev.Done? && Pushing(s.cx.st) && TerminalReply(a.ev.detail), a.clock);
      } else if a.ChunkIn? && s.cx.st == PULL_STREAM {
        FailSlot(s, false, false, a.clock);
        if a.feed.Complete? { AcceptPullSlot(s, a.feed.bytes, a.clock); }
      }
    }
  }

  lemma CxTickSlot(s: State, now: bv32, expired: bool, sub: Option<nat>, clock: bv32)
    requires Wf(s) && s.cx.st != IDLE
    ensures var cx := CxTick(s, now, expired, sub, clock).cx; cx.st == IDLE || SameTransfer(s.cx, cx)
  {
    hide PushWire, Before;
  }

  lemma AfterClearsCx(s: State)
    requires Wf(s)
    ensures AfterClears(s).cx == s.cx || AfterClears(s).cx == IDLE_SLOT
  {
    hide ClearMasked, Wf;
    ClearMaskedCx(s, 1);
  }

  lemma WriteSlot(t: State, sub: Option<nat>, clock: bv32)
    requires Wf(t) && FirstWrite(t.zones, 1) != 0
    ensures var z := FirstWrite(t.zones, 1);
            var cx := StartSet(TakeWrite(t), z, At(t, z).write.value, sub, clock).cx;
      && cx.zone == z && cx.kind == 1 && cx.attempt == 1 && cx.pushGen == PushGenFor(At(t, z))
      && cx.id == PushIdent(Written(At(t, z), At(t, z).write.value))
      && cx.st == if sub.Some? then PUSH_COMMIT else RETRY_PUSH
  {
    hide PushWire, StoreCfg, Stamp, PushGenFor;
    SameGen(At(t, FirstWrite(t.zones, 1)));
  }

  lemma ManualSlot(s: State, z: nat, gen: u32, id: Ident, sub: Option<nat>, clock: bv32)
    requires Wf(s) && IsZone(z)
    ensures var cx := CxPush(s, z, gen, id, sub, clock).cx;
      && cx.zone == z && cx.kind == 1 && cx.id == id && cx.pushGen == gen && cx.attempt == 1
      && cx.st == if sub.Some? then PUSH_COMMIT else RETRY_PUSH
  {
    hide PushWire;
  }
}
