/**
 What every step of the config reconciler keeps: each valid cache is a well-formed
 envelope with the recorded generation and CRC, the transfer slot agrees with the cache
 it works for, and the tracker holds no unsent config frame but the slot's own.
 */
module CfgInvariant {
  import opened Wrappers
  import opened Bytes
  import opened CfgEnvelope
  import opened RingTracker
  import opened CfgState
  import Blob

  // ---------------- the caches ----------------

  predicate CfgCacheOk(c: Cache) {
    |c.blob| == BLOB_LEN && if c.valid then c == StoreCfg(c.gen, Inner(c.blob)) else c == ZeroCache()
  }

  predicate IsHw(c: Cache, gen: u32, p: seq<bv8>) {
    |p| == HW_LEN && |c.blob| == BLOB_LEN && c.gen == 0 && c.crc == PayloadCrc(p)
    && c.blob[..Blob.HDR_LEN + HW_LEN] == HwBlob(gen, p)
  }

  ghost predicate HwCacheOk(c: Cache) {
    if c.valid then exists gen, p :: IsHw(c, gen, p) else c == ZeroCache()
  }

  ghost predicate ZoneOk(zn: Zone) { CfgCacheOk(zn.cfg) && HwCacheOk(zn.hw) }

  lemma StoredHwOk(c: Cache, gen: u32, p: seq<bv8>)
    requires |c.blob| == BLOB_LEN && |p| == HW_LEN
    ensures HwCacheOk(StoreHw(c, gen, p)) && |StoreHw(c, gen, p).blob| == BLOB_LEN
  {
    hide HwBlob, PayloadCrc;
    assert IsHw(StoreHw(c, gen, p), gen, p);
  }

  lemma ZeroOk()
    ensures CfgCacheOk(ZeroCache()) && HwCacheOk(ZeroCache())
  {
  }

  /** Every valid CFG cache entry unwraps to its recorded generation and to a payload of its recorded CRC. */
  lemma CfgCacheUnwraps(c: Cache)
    requires CfgCacheOk(c) && c.valid
    ensures UnwrapPlane(1, c.blob) == Blob.Ok(Inner(c.blob), c.gen)
    ensures c.crc == PayloadCrc(Inner(c.blob))
  {
    hide CfgBlob, UnwrapPlane, PayloadCrc;
    CfgUnwraps(c.gen, Inner(c.blob));
  }

  /** A valid HW entry's envelope unwraps too; its recorded generation is 0, the envelope's is the zone's. */
  lemma HwCacheUnwraps(c: Cache)
    requires HwCacheOk(c) && c.valid
    ensures |c.blob| == BLOB_LEN && c.gen == 0
    ensures var u := UnwrapPlane(2, c.blob[..Blob.HDR_LEN + HW_LEN]); u.Ok? && c.crc == PayloadCrc(u.payload)
  {
    hide HwBlob, UnwrapPlane, PayloadCrc;
    var gen, p :| IsHw(c, gen, p);
    HwUnwraps(gen, p);
  }

  // ---------------- the slot and the tracker ----------------

  predicate Pulling(st: CxSt) { st == PULL_ACK || st == PULL_STREAM || st == RETRY_PULL }

  predicate Pushing(st: CxSt) { st == PUSH_COMMIT || st == RETRY_PUSH }

  predicate Awaiting(st: CxSt) { st == PULL_ACK || st == PUSH_COMMIT }

  /**
   A CFG pull in the slot means an empty CFG cache; a push in the slot means a valid one,
   whose settings are on the wire; and either transfer froze the cache's present identity.
   */
  predicate SlotOk(cx: Slot, zn: Zone, wire: seq<bv8>)
    requires |zn.cfg.blob| == BLOB_LEN
  {
    && (Pulling(cx.st) && cx.kind == 1 ==> !zn.cfg.valid)
    && (Pulling(cx.st) && cx.kind == 2 ==> cx.id.hbGen == 0 && cx.id.cacheGen == 0 && cx.id.cacheCrc == zn.hw.crc)
    && (cx.kind == 1 ==> cx.id.cacheGen == zn.cfg.gen && cx.id.cacheCrc == zn.cfg.crc)
    && (Pushing(cx.st) ==> zn.cfg.valid && wire == PushWire(zn.cfg, cx.pushGen))
  }

  function SlotFrame(cx: Slot, wire: seq<bv8>): Frame {
    if cx.st == PULL_ACK then Get(cx.zone, cx.kind) else Commit(cx.zone, cx.pushGen, wire)
  }

  predicate TrkOk(s: State) {
    && (Awaiting(s.cx.st) ==> s.cx.seqNo in s.trk && s.trk[s.cx.seqNo].frame == SlotFrame(s.cx, s.wire))
    && (forall q :: q in s.trk && !s.trk[q].sent && !s.trk[q].frame.Cmd? ==>
          Awaiting(s.cx.st) && q == s.cx.seqNo)
  }

  ghost predicate ZonesOk(zones: seq<Zone>) { forall i :: 0 <= i < |zones| ==> ZoneOk(zones[i]) }

  ghost predicate Inv(s: State) {
    && Wf(s) && ZonesOk(s.zones) && TrkOk(s)
    && (s.cx.st != IDLE ==> SlotOk(s.cx, At(s, s.cx.zone), s.wire))
  }

  // ---------------- one lemma a function ----------------

  /** Everything about a zone that the caches and the slot do not read. */
  predicate SameCaches(a: Zone, b: Zone) { a.cfg == b.cfg && a.hw == b.hw }

  lemma PutInv(s: State, z: nat, zn: Zone)
    requires Inv(s) && IsZone(z) && SameCaches(At(s, z), zn)
    ensures Inv(Put(s, z, zn))
  {
    hide ZoneOk, PushWire, SlotFrame;
    PutWf(s, z, zn);
    assert ZoneOk(At(s, z)) ==> ZoneOk(zn) by { ZoneOkCaches(At(s, z), zn); }
  }

  lemma ZoneOkCaches(a: Zone, b: Zone)
    requires SameCaches(a, b)
    ensures ZoneOk(a) <==> ZoneOk(b)
  {
  }

  /** When the slot waits for no ACK, every unsent frame is a forwarded line. */
  lemma QuietTracker(s: State)
    requires Inv(s) && !Awaiting(s.cx.st)
    ensures forall q :: q in s.trk && !s.trk[q].sent ==> s.trk[q].frame.Cmd?
  {
    hide ZoneOk, PushWire, SlotFrame;
  }

  /** The slot as it is once its frame's event has been taken out of the tracker. */
  predicate OnlyCmdsUnsent(s: State) {
    forall q :: q in s.trk && !s.trk[q].sent ==> s.trk[q].frame.Cmd?
  }

  /** Inv, but for the slot's awaited frame, which has just left the tracker. */
  ghost predicate InvAnswered(s: State) {
    && Wf(s) && ZonesOk(s.zones) && OnlyCmdsUnsent(s)
    && s.cx.st != IDLE && SlotOk(s.cx, At(s, s.cx.zone), s.wire)
  }

  lemma FinishFailedInv(s: State, terminal: bool, clock: bv32)
    requires InvAnswered(s)
    ensures Inv(FinishFailed(s, terminal, clock))
  {
    hide ZoneOk, PushWire, SlotFrame;
    var z := s.cx.zone;
    ZoneOkCaches(At(s, z), NoteFailed(At(s, z), s.cx.kind, terminal, s.cx.id, clock));
  }

  lemma FailOrRetryInv(s: State, isPush: bool, terminal: bool, clock: bv32)
    requires InvAnswered(s) && isPush == Pushing(s.cx.st)
    ensures Inv(FailOrRetry(s, isPush, terminal, clock))
  {
    hide ZoneOk, PushWire, SlotFrame, FinishFailed;
    if terminal || s.cx.attempt >= MAX_ATTEMPT { FinishFailedInv(s, terminal, clock); }
  }

  /** A zone's caches replaced and the slot emptied. */
  lemma StoredInv(s: State, zn: Zone)
    requires InvAnswered(s) && ZoneOk(zn)
    ensures Inv(Put(s, s.cx.zone, zn).(cx := IDLE_SLOT))
  {
    hide PushWire, SlotFrame, PayloadCrc, CfgBlob, HwBlob;
    PutWf(s, s.cx.zone, zn);
  }

  lemma AcceptPullInv(s: State, bytes: seq<bv8>, clock: bv32)
    requires InvAnswered(s) && Pulling(s.cx.st)
    ensures Inv(AcceptPull(s, bytes, clock))
  {
    hide ZoneOk, PushWire, SlotFrame, FailOrRetry, UnwrapPlane, StoreCfg, StoreHw;
    var u := UnwrapPlane(s.cx.kind, bytes);
    if u.EVersionNewer? {
      FailOrRetryInv(s, false, true, clock);
    } else if !u.Accepted() {
      FailOrRetryInv(s, false, false, clock);
    } else {
      var zn := At(s, s.cx.zone);
      if s.cx.kind == 1 {
        CfgReplaced(zn, u.gen, u.payload);
        StoredInv(s, NoteSynced(zn.(cfg := StoreCfg(u.gen, u.payload)), 1));
      } else {
        HwReplaced(zn, u.gen, u.payload);
        StoredInv(s, NoteSynced(zn.(hw := StoreHw(zn.hw, u.gen, u.payload)), 2));
      }
    }
  }

  lemma CfgReplaced(zn: Zone, gen: u32, p: Payload)
    requires ZoneOk(zn)
    ensures ZoneOk(NoteSynced(zn.(cfg := StoreCfg(gen, p)), 1))
  {
  }

  lemma HwReplaced(zn: Zone, gen: u32, p: seq<bv8>)
    requires ZoneOk(zn) && |p| == HW_LEN && |zn.hw.blob| == BLOB_LEN
    ensures ZoneOk(NoteSynced(zn.(hw := StoreHw(zn.hw, gen, p)), 2))
  {
    hide CfgCacheOk, HwCacheOk, StoreHw;
    StoredHwOk(zn.hw, gen, p);
  }

  /** What the zone ACKed becomes the cache: the stamped payload under the pushed generation. */
  lemma PushedCache(c: Cache, gen: u32)
    requires |c.blob| == BLOB_LEN
    ensures Cache(true, PushWire(c, gen), gen, PayloadCrc(Inner(PushWire(c, gen))))
         == StoreCfg(gen, Stamp(Inner(c.blob), gen))
  {
  }

  lemma AcceptPushInv(s: State)
    requires InvAnswered(s) && s.cx.st == PUSH_COMMIT
    ensures Inv(AcceptPush(s))
  {
    hide ZoneOk, PushWire, SlotFrame, StoreCfg, PayloadCrc;
    var zn, gen := At(s, s.cx.zone), s.cx.pushGen;
    PushedCache(zn.cfg, gen);
    CfgReplaced(zn, gen, Stamp(Inner(zn.cfg.blob), gen));
    StoredInv(s, NoteSynced(zn.(cfg := StoreCfg(gen, Stamp(Inner(zn.cfg.blob), gen))), 1));
  }

  // starting a transfer

  predicate PullReady(zn: Zone, kind: nat, id: Ident) {
    if kind == 1 then !zn.cfg.valid && id.cacheGen == zn.cfg.gen && id.cacheCrc == zn.cfg.crc
    else kind == 2 && id.hbGen == 0 && id.cacheGen == 0 && id.cacheCrc == zn.hw.crc
  }

  lemma StartPullInv(s: State, z: nat, kind: nat, attempt: nat, sub: Option<nat>, clock: bv32)
    requires Wf(s.(cx := IDLE_SLOT)) && ZonesOk(s.zones) && OnlyCmdsUnsent(s) && IsZone(z)
    requires PullReady(At(s, z), kind, s.cx.id) && 1 <= attempt <= MAX_ATTEMPT && Free(s, sub)
    ensures Inv(StartPull(s, z, kind, attempt, sub, clock))
  {
    hide ZoneOk, PushWire;
  }

  predicate PushReady(zn: Zone, id: Ident) {
    zn.cfg.valid && id.cacheGen == zn.cfg.gen && id.cacheCrc == zn.cfg.crc
  }

  lemma StartPushInv(s: State, z: nat, gen: u32, attempt: nat, id: Ident, sub: Option<nat>, clock: bv32)
    requires Wf(s) && ZonesOk(s.zones) && OnlyCmdsUnsent(s) && IsZone(z)
    requires PushReady(At(s, z), id) && 1 <= attempt <= MAX_ATTEMPT && Free(s, sub)
    ensures Inv(StartPush(s, z, gen, attempt, id, sub, clock))
  {
    hide ZoneOk, PushWire;
  }

  lemma AbortInv(s: State, z: nat)
    requires Inv(s)
    ensures Inv(Abort(s, z))
    ensures Abort(s, z).cx.st == IDLE || Abort(s, z).cx.zone != z
    ensures Abort(s, z).zones == s.zones
  {
    hide ZoneOk, PushWire, SlotFrame, SlotOk;
  }

  /** Forgetting the caches comes before the abort; the two commute. */
  lemma ForgetAborts(s: State, z: nat)
    requires |s.zones| == ZONES && IsZone(z)
    ensures Invalidate(s, z) == Put(Abort(s, z), z, Forget(At(s, z)))
  {
  }

  lemma InvalidateInv(s: State, z: nat)
    requires Inv(s) && IsZone(z)
    ensures Inv(Invalidate(s, z))
  {
    hide ZoneOk, PushWire, SlotFrame, Abort, ZeroCache;
    ForgetAborts(s, z);
    AbortInv(s, z);
    ForgottenOk(At(s, z));
    PutWf(Abort(s, z), z, Forget(At(s, z)));
  }

  lemma ForgottenOk(zn: Zone)
    ensures ZoneOk(Forget(zn)) && |ZeroCache().blob| == BLOB_LEN
  {
  }

  lemma ClearInv(s: State, z: nat)
    requires Inv(s) && IsZone(z)
    ensures Inv(Clear(s, z))
  {
    hide Inv, Invalidate;
    InvWf(s);
    InvalidateInv(s, z);
    InvWf(Invalidate(s, z));
    PutInv(Invalidate(s, z), z, At(Invalidate(s, z), z).(isFresh := false, write := None));
  }

  lemma InvWf(s: State)
    requires Inv(s)
    ensures Wf(s) && |s.zones| == ZONES && (s.cx.st != IDLE ==> InvShape(s))
  {
    hide ZoneOk, PushWire, SlotFrame;
  }

  predicate InvShape(s: State) { IsZone(s.cx.zone) && 1 <= s.cx.kind <= 2 && 1 <= s.cx.attempt <= MAX_ATTEMPT }

  lemma {:induction false} ClearMaskedInv(s: State, id: nat)
    requires Inv(s) && 1 <= id <= ZONES + 1
    ensures Inv(ClearMasked(s, id))
    decreases ZONES + 1 - id
  {
    hide Inv, Clear;
    InvWf(s);
    if id <= ZONES {
      var t := Put(s, id, At(s, id).(clear := false));
      PutInv(s, id, At(s, id).(clear := false));
      ClearInv(t, id);
      ClearMaskedInv(if At(s, id).clear then Clear(t, id) else s, id + 1);
    }
  }

  lemma AfterClearsInv(s: State)
    requires Inv(s)
    ensures Inv(AfterClears(s))
  {
    hide ZoneOk, PushWire, SlotFrame, ClearMasked;
    ClearMaskedInv(s, 1);
  }

  lemma GateInv(s: State, id: nat, now: bv32)
    requires Inv(s) && IsZone(id)
    ensures Inv(Gate(s, id, now).0) && Gate(s, id, now).0.trk == s.trk && Gate(s, id, now).0.cx == s.cx
  {
    hide Inv, Reachable, Before, Cooling;
    InvWf(s);
    GateWf(s, id, now);
    var zn := At(s, id);
    var seen := zn.(isFresh := false);
    PutInv(s, id, seen);
    PutInv(s, id, Cooling(seen, now).1);
    RrInv(Put(s, id, Cooling(seen, now).1), id % ZONES + 1);
  }

  lemma RrInv(s: State, rr: nat)
    requires Inv(s) && IsZone(rr)
    ensures Inv(s.(rr := rr))
  {
    hide ZoneOk, PushWire, SlotFrame;
  }

  lemma TryStartInv(s: State, z: nat, sub: Option<nat>, clock: bv32)
    requires Inv(s) && s.cx.st == IDLE && IsZone(z) && Free(s, sub)
    ensures Inv(TryStart(s, z, sub, clock).0)
    ensures TryStart(s, z, sub, clock).1 == Nothing ==> TryStart(s, z, sub, clock).0 == s
  {
    hide ZoneOk, PushWire, SlotFrame, SlotOk, StartPull, StartPush, PushGenFor;
    QuietTracker(s);
    var zn := At(s, z);
    IdCxWf(s, CfgIdent(zn));
    IdCxWf(s, HwIdent(zn));
    var (t, did) := TryStart(s, z, sub, clock);
    if did == Began(z, 1, false) {
      StartPullInv(s.(cx := s.cx.(id := CfgIdent(zn))), z, 1, 1, sub, clock);
    } else if did == Began(z, 2, false) {
      StartPullInv(s.(cx := s.cx.(id := HwIdent(zn))), z, 2, 1, sub, clock);
    } else if did == Began(z, 1, true) {
      StartPushInv(s, z, PushGenFor(zn), 1, CfgIdent(zn), sub, clock);
    }
  }

  lemma IdCxWf(s: State, id: Ident)
    requires Wf(s) && s.cx.st == IDLE
    ensures Wf(s.(cx := s.cx.(id := id)).(cx := IDLE_SLOT))
  {
  }

  lemma {:induction false} ScanInv(s: State, i: nat, now: bv32, sub: Option<nat>, clock: bv32)
    requires Inv(s) && s.cx.st == IDLE && i <= ZONES && Free(s, sub)
    ensures Wf(s) && Inv(Scan(s, i, now, sub, clock).0)
    decreases ZONES - i
  {
    hide Inv, Gate, TryStart;
    InvWf(s);
    if i < ZONES {
      var id := ScanId(s.rr, i);
      GateInv(s, id, now);
      var (t, decide) := Gate(s, id, now);
      InvWf(t);
      TryStartInv(t, id, sub, clock);
      ScanInv(t, i + 1, now, sub, clock);
    }
  }

  lemma CxTickInv(s: State, now: bv32, expired: bool, sub: Option<nat>, clock: bv32)
    requires Inv(s) && s.cx.st != IDLE && Free(s, sub)
    ensures Inv(CxTick(s, now, expired, sub, clock))
  {
    hide ZoneOk, PushWire, SlotFrame, StartPull, StartPush, FailOrRetry, ZonesOk;
    if !Awaiting(s.cx.st) {
      QuietTracker(s);
      if s.cx.st == PULL_STREAM {
        FailOrRetryInv(s, false, false, clock);
      } else if s.cx.st == RETRY_PULL {
        StartPullInv(s, s.cx.zone, s.cx.kind, s.cx.attempt, sub, clock);
      } else {
        StartPushInv(s, s.cx.zone, s.cx.pushGen, s.cx.attempt, s.cx.id, sub, clock);
      }
    }
  }

  lemma StartSetInv(s: State, z: nat, want: Payload, sub: Option<nat>, clock: bv32)
    requires Inv(s) && s.cx.st == IDLE && IsZone(z) && Free(s, sub)
    ensures Inv(StartSet(s, z, want, sub, clock))
  {
    hide ZoneOk, PushWire, SlotFrame, SlotOk, StartPush, StoreCfg, PushGenFor, Stamp;
    QuietTracker(s);
    var zn := At(s, z);
    var gen := PushGenFor(zn);
    var zn' := zn.(cfg := StoreCfg(gen, Stamp(want, gen)), cooldown := 0);
    WrittenOk(zn, gen, Stamp(want, gen));
    PutWf(s, z, zn');
    StartPushInv(Put(s, z, zn'), z, gen, 1, PushIdent(zn'), sub, clock);
  }

  lemma WrittenOk(zn: Zone, gen: u32, p: Payload)
    requires ZoneOk(zn)
    ensures ZoneOk(zn.(cfg := StoreCfg(gen, p), cooldown := 0))
    ensures StoreCfg(gen, p).valid && |StoreCfg(gen, p).blob| == BLOB_LEN
  {
  }

  lemma TickInv(s: State, now: bv32, expired: bool, sub: Option<nat>, clock: bv32)
    requires Inv(s) && Free(AfterClears(s), sub)
    ensures Inv(Tick(s, now, expired, sub, clock).0)
  {
    hide Inv, AfterClears, CxTick, StartSet, Scan, StartPush, PushGenFor;
    InvWf(s);
    var t := AfterClears(s);
    AfterClearsInv(s);
    InvWf(t);
    match TickBranch(t, s.pushReq)
    case Transfer => CxTickInv(t, now, expired, sub, clock);
    case Write =>
      var z := FirstWrite(t.zones, 1);
      PutInv(t, z, At(t, z).(write := None));
      StartSetInv(TakeWrite(t), z, At(t, z).write.value, sub, clock);
    case Manual => ManualInv(t, s.pushReq, sub, clock);
    case Auto => ScanInv(t, 0, now, sub, clock);
  }

  lemma ManualInv(t: State, z: nat, sub: Option<nat>, clock: bv32)
    requires Inv(t) && t.cx.st == IDLE && IsZone(z) && Free(t, sub) && At(t, z).cfg.valid
    ensures Inv(CxPush(t, z, PushGenFor(At(t, z)), PushIdent(At(t, z)), sub, clock))
  {
    hide ZoneOk, PushWire, SlotFrame, SlotOk, StartPush, PushGenFor;
    QuietTracker(t);
    StartPushInv(t, z, PushGenFor(At(t, z)), 1, PushIdent(At(t, z)), sub, clock);
  }

  /** The tracker hands out the event of frame q and forgets the frame. */
  function Answered(s: State, q: nat): State { s.(trk := s.trk - {q}) }

  lemma EventInv(s: State, q: nat, ev: TrkEv, clock: bv32)
    requires Inv(s) && q in s.trk && !s.trk[q].frame.Cmd?
    ensures Inv(OnEv(Answered(s, q), q, ev, clock))
  {
    hide ZoneOk, PushWire, SlotFrame, AcceptPush, FailOrRetry, TerminalReply;
    var t := Answered(s, q);
    if Awaiting(s.cx.st) && q == s.cx.seqNo {
      if s.cx.st == PULL_ACK {
        if !(ev.Done? && ev.status == 0) { FailOrRetryInv(t, false, false, clock); }
      } else if ev.Done? && ev.status == 0 {
        AcceptPushInv(t);
      } else {
        FailOrRetryInv(t, true, ev.Done? && TerminalReply(ev.detail), clock);
      }
    }
  }

  lemma ChunkInv(s: State, src: nat, feed: Feed, clock: bv32)
    requires Inv(s)
    ensures Inv(OnChunk(s, src, feed, clock))
  {
    hide ZoneOk, PushWire, SlotFrame, FailOrRetry, AcceptPull;
    if s.cx.st == PULL_STREAM && src == s.cx.zone {
      QuietTracker(s);
      match feed
      case Partial =>
      case Complete(bytes) => AcceptPullInv(s, bytes, clock);
      case Bad => FailOrRetryInv(s, false, false, clock);
    }
  }
}
