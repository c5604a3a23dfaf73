/**
 The config reconciler of components/node_mgr as one state and one function per C
 function: node_mgr_cfg_latch.c, node_mgr_cfgx.c, node_mgr_cfg.c, node_mgr_cfg_api.c.

 `clock` is what nmgr_now_ms() answers during the step.
 */
module CfgState {
  import opened Wrappers
  import opened Bytes
  import opened CfgEnvelope
  import opened RingTracker
  import Forward
  import Blob

  const ZONES: nat := 8
  const COOLDOWN_MS: bv32 := 30000
  const TRACKER_FULL_MS: bv32 := 1000
  const MAX_ATTEMPT: nat := 4

  datatype Cache = Cache(valid: bool, blob: seq<bv8>, gen: u32, crc: bv32)

  /** The (heartbeat, cache) pair a transfer freezes when it begins. */
  datatype Ident = Ident(hbGen: u32, hbCrc: bv32, cacheGen: u32, cacheCrc: bv32)

  datatype Health = ONLINE | DEGRADED | OFFLINE | UPDATING | EMPTY

  /** The node-table row: what the last heartbeat said. */
  datatype Node = Node(used: bool, health: Health, cfgGen: u32, cfgCrc: bv32, hwCrc: bv32)

  /** One index of every per-zone array. */
  datatype Zone = Zone(
    node: Node, cfg: Cache, hw: Cache, isFresh: bool, clear: bool, write: Option<Payload>,
    latch: Option<Ident>, hwLatch: Option<Ident>, cooldown: bv32)

  datatype CxSt = IDLE | PULL_ACK | PULL_STREAM | PUSH_COMMIT | RETRY_PULL | RETRY_PUSH

  datatype Slot = Slot(
    st: CxSt, zone: nat, kind: nat, attempt: nat, retryAt: bv32, seqNo: nat, pushGen: u32, id: Ident)

  datatype State = State(
    zones: seq<Zone>, rr: nat, pushReq: nat, cx: Slot, wire: seq<bv8>,
    trk: map<nat, Track>, fwd: Forward.Fwd)

  /** What a tick set going. */
  datatype Did = Nothing | Began(zone: nat, kind: nat, push: bool)

  /** What feeding a chunk to the assembler came to. */
  datatype Feed = Partial | Complete(bytes: seq<bv8>) | Bad

  const NO_IDENT := Ident(0, 0, 0, 0)
  const IDLE_SLOT := Slot(IDLE, 0, 0, 0, 0, 0, 0, NO_IDENT)

  function ZeroCache(): (c: Cache)
    ensures !c.valid && c.gen == 0 && c.crc == 0 && |c.blob| == BLOB_LEN
  {
    Cache(false, Fill(0, BLOB_LEN), 0, 0)
  }

  predicate IsZone(z: nat) { 1 <= z <= ZONES }

  predicate Wf(s: State) {
    && |s.zones| == ZONES && IsZone(s.rr) && s.pushReq <= ZONES
    && (s.cx.st == IDLE || (IsZone(s.cx.zone) && 1 <= s.cx.kind <= 2 && 1 <= s.cx.attempt <= MAX_ATTEMPT))
    && (s.cx.st == IDLE ==> s.cx == IDLE_SLOT)
    && (s.cx.st == PUSH_COMMIT || s.cx.st == RETRY_PUSH ==> s.cx.kind == 1)
    && |s.wire| == BLOB_LEN
    && forall i :: 0 <= i < ZONES ==> |s.zones[i].cfg.blob| == BLOB_LEN && |s.zones[i].hw.blob| == BLOB_LEN
  }

  function At(s: State, z: nat): Zone
    requires |s.zones| == ZONES && IsZone(z)
  {
    s.zones[z - 1]
  }

  function Put(s: State, z: nat, zn: Zone): (r: State)
    requires |s.zones| == ZONES && IsZone(z)
    ensures |r.zones| == ZONES
  {
    s.(zones := s.zones[z - 1 := zn])
  }

  /** (int32_t)(now - t) < 0 */
  predicate Before(now: bv32, t: bv32) { now - t >= 0x8000_0000 }

  function Plus(a: bv32, b: bv32): bv32 { a + b }

  /** A generation plus one, as 32 bits hold it. */
  function OneUp(g: u32): u32 { if g == 0xFFFF_FFFF then 0 else g + 1 }

  // ---------------- node_mgr_cfg_latch.c ----------------

  function LatchOf(zn: Zone, kind: nat): Option<Ident> { if kind == 1 then zn.latch else zn.hwLatch }

  predicate Latched(zn: Zone, kind: nat, id: Ident) { LatchOf(zn, kind) == Some(id) }

  function SetLatch(zn: Zone, kind: nat, l: Option<Ident>): Zone {
    if kind == 1 then zn.(latch := l) else zn.(hwLatch := l)
  }

  /** nmgr_cfg_cooling_down: the verdict, and the zone with an expired cooldown cleared. */
  function Cooling(zn: Zone, now: bv32): (r: (bool, Zone))
    ensures r.1 == zn.(cooldown := r.1.cooldown)
  {
    if zn.cooldown == 0 then (false, zn)
    else if Before(now, zn.cooldown) then (true, zn)
    else (false, zn.(cooldown := 0))
  }

  function NoteSynced(zn: Zone, kind: nat): Zone { SetLatch(zn, kind, None) }

  function NoteFailed(zn: Zone, kind: nat, terminal: bool, id: Ident, clock: bv32): Zone {
    if terminal then SetLatch(zn, kind, Some(id)) else zn.(cooldown := Plus(clock, COOLDOWN_MS))
  }

  // ---------------- node_mgr_cfgx.c ----------------

  function BackoffMs(attempt: nat): bv32
    requires 1 <= attempt < MAX_ATTEMPT
  {
    if attempt == 1 then 1000 else if attempt == 2 then 2000 else 4000
  }

  function FinishFailed(s: State, terminal: bool, clock: bv32): State
    requires Wf(s) && s.cx.st != IDLE
  {
    Put(s, s.cx.zone, NoteFailed(At(s, s.cx.zone), s.cx.kind, terminal, s.cx.id, clock)).(cx := IDLE_SLOT)
  }

  function FailOrRetry(s: State, isPush: bool, terminal: bool, clock: bv32): State
    requires Wf(s) && s.cx.st != IDLE
  {
    if terminal || s.cx.attempt >= MAX_ATTEMPT then FinishFailed(s, terminal, clock)
    else s.(cx := s.cx.(st := if isPush then RETRY_PUSH else RETRY_PULL, attempt := s.cx.attempt + 1,
                        retryAt := Plus(clock, BackoffMs(s.cx.attempt))))
  }

  /** nmgr_submit, answered by `sub`. */
  predicate Free(s: State, sub: Option<nat>) { sub.Some? ==> sub.value !in s.trk }

  function Submitted(s: State, q: nat, f: Frame): State {
    s.(trk := s.trk[q := Track(f, false)])
  }

  function StartPull(s: State, zone: nat, kind: nat, attempt: nat, sub: Option<nat>, clock: bv32): State {
    var cx := s.cx.(zone := zone, kind := kind, attempt := attempt);
    if sub.None? then s.(cx := cx.(st := RETRY_PULL, retryAt := Plus(clock, TRACKER_FULL_MS)))
    else Submitted(s, sub.value, Get(zone, kind)).(cx := cx.(st := PULL_ACK, seqNo := sub.value))
  }

  function StoreHw(c: Cache, gen: u32, p: seq<bv8>): (r: Cache)
    requires |c.blob| == BLOB_LEN && |p| == HW_LEN
    ensures |r.blob| == BLOB_LEN
  {
    Cache(true, HwBlob(gen, p) + c.blob[Blob.HDR_LEN + HW_LEN..], 0, PayloadCrc(p))
  }

  function StoreCfg(gen: u32, p: Payload): (c: Cache)
    ensures c.valid && c.gen == gen && c.crc == PayloadCrc(p) && |c.blob| == BLOB_LEN
  {
    Cache(true, CfgBlob(gen, p), gen, PayloadCrc(p))
  }

  function AcceptPull(s: State, bytes: seq<bv8>, clock: bv32): State
    requires Wf(s) && s.cx.st != IDLE
  {
    var u := UnwrapPlane(s.cx.kind, bytes);
    if u.EVersionNewer? then FailOrRetry(s, false, true, clock)
    else if !u.Accepted() then FailOrRetry(s, false, false, clock)
    else
      var zn := At(s, s.cx.zone);
      var stored := if s.cx.kind == 1 then zn.(cfg := StoreCfg(u.gen, u.payload))
                    else zn.(hw := StoreHw(zn.hw, u.gen, u.payload));
      Put(s, s.cx.zone, NoteSynced(stored, s.cx.kind)).(cx := IDLE_SLOT)
  }

  /** The bytes a push of the zone's cache carries. */
  function PushWire(c: Cache, gen: u32): (w: seq<bv8>)
    requires |c.blob| == BLOB_LEN
    ensures |w| == BLOB_LEN
  {
    CfgBlob(gen, Stamp(Inner(c.blob), gen))
  }

  function StartPush(s: State, zone: nat, gen: u32, attempt: nat, id: Ident, sub: Option<nat>, clock: bv32): State
    requires Wf(s) && IsZone(zone)
  {
    var w := PushWire(At(s, zone).cfg, gen);
    var cx := s.cx.(zone := zone, kind := 1, attempt := attempt, pushGen := gen, id := id, seqNo := 0);
    if sub.None? then s.(wire := w, cx := cx.(st := RETRY_PUSH, retryAt := Plus(clock, TRACKER_FULL_MS)))
    else Submitted(s, sub.value, Commit(zone, gen, w)).(wire := w, cx := cx.(st := PUSH_COMMIT, seqNo := sub.value))
  }

  function AcceptPush(s: State): State
    requires Wf(s) && s.cx.st == PUSH_COMMIT
  {
    var c := Cache(true, s.wire, s.cx.pushGen, PayloadCrc(Inner(s.wire)));
    Put(s, s.cx.zone, NoteSynced(At(s, s.cx.zone).(cfg := c), 1)).(cx := IDLE_SLOT)
  }

  function CxPull(s: State, zone: nat, kind: nat, id: Ident, sub: Option<nat>, clock: bv32): State {
    StartPull(s.(cx := s.cx.(id := id)), zone, kind, 1, sub, clock)
  }

  function CxPush(s: State, zone: nat, gen: u32, id: Ident, sub: Option<nat>, clock: bv32): State
    requires Wf(s) && IsZone(zone)
  {
    StartPush(s, zone, gen, 1, id, sub, clock)
  }

  function Abort(s: State, zone: nat): State {
    if s.cx.st == IDLE || s.cx.zone != zone then s
    else
      s.(trk := if s.cx.st == PULL_ACK || s.cx.st == PUSH_COMMIT then Cancel(s.trk, s.cx.seqNo) else s.trk,
         cx := IDLE_SLOT)
  }

  /** nmgr_cx_tick_1s for a slot that is not idle; `expired` is the assembler's idle timeout. */
  function CxTick(s: State, now: bv32, expired: bool, sub: Option<nat>, clock: bv32): State
    requires Wf(s) && s.cx.st != IDLE
  {
    match s.cx.st
    case PULL_STREAM => if expired then FailOrRetry(s, false, false, clock) else s
    case RETRY_PULL =>
      if Before(now, s.cx.retryAt) then s else StartPull(s, s.cx.zone, s.cx.kind, s.cx.attempt, sub, clock)
    case RETRY_PUSH =>
      if Before(now, s.cx.retryAt) then s
      else StartPush(s, s.cx.zone, s.cx.pushGen, s.cx.attempt, s.cx.id, sub, clock)
    case _ => s
  }

  function OnChunk(s: State, src: nat, feed: Feed, clock: bv32): State
    requires Wf(s)
  {
    if s.cx.st != PULL_STREAM || src != s.cx.zone then s
    else
      match feed
      case Partial => s
      case Complete(bytes) => AcceptPull(s, bytes, clock)
      case Bad => FailOrRetry(s, false, false, clock)
  }

  predicate HasPrefix(text: string, prefix: string) {
    |prefix| <= |text| && text[..|prefix|] == prefix
  }

  predicate TerminalReply(detail: string) {
    HasPrefix(detail, "ERR CFG_VERSION") || HasPrefix(detail, "ERR INVALID_FIELD")
  }

  function OnEv(s: State, q: nat, ev: TrkEv, clock: bv32): State
    requires Wf(s)
  {
    if s.cx.st != PULL_ACK && s.cx.st != PUSH_COMMIT then s
    else if q != s.cx.seqNo then s
    else if s.cx.st == PULL_ACK then
      if ev.Done? && ev.status == 0 then s.(cx := s.cx.(st := PULL_STREAM)) else FailOrRetry(s, false, false, clock)
    else if ev.Done? && ev.status == 0 then AcceptPush(s)
    else if ev.Done? then FailOrRetry(s, true, TerminalReply(ev.detail), clock)
    else FailOrRetry(s, true, false, clock)
  }

  // ---------------- node_mgr_cfg.c ----------------

  function HbGen(nd: Node): u32 { if nd.used then nd.cfgGen else 0 }

  function HbCrc(nd: Node): bv32 { if nd.used then nd.cfgCrc else 0 }

  /** One past whichever side is ahead. */
  function PushGenFor(zn: Zone): u32 {
    OneUp(if HbGen(zn.node) > zn.cfg.gen then HbGen(zn.node) else zn.cfg.gen)
  }

  /** The identities the decision compares and a transfer freezes, per plane. */
  function CfgIdent(zn: Zone): Ident { Ident(zn.node.cfgGen, zn.node.cfgCrc, zn.cfg.gen, zn.cfg.crc) }

  function HwIdent(zn: Zone): Ident { Ident(0, zn.node.hwCrc, 0, zn.hw.crc) }

  predicate CfgInSync(zn: Zone) { zn.node.cfgGen == zn.cfg.gen && zn.node.cfgCrc == zn.cfg.crc }

  function TryStart(s: State, zone: nat, sub: Option<nat>, clock: bv32): (State, Did)
    requires Wf(s) && IsZone(zone)
  {
    var zn := At(s, zone);
    if !zn.cfg.valid && !Latched(zn, 1, CfgIdent(zn)) then
      (CxPull(s, zone, 1, CfgIdent(zn), sub, clock), Began(zone, 1, false))
    else if (!zn.hw.valid || zn.node.hwCrc != zn.hw.crc) && !Latched(zn, 2, HwIdent(zn)) then
      (CxPull(s, zone, 2, HwIdent(zn), sub, clock), Began(zone, 2, false))
    else if !zn.cfg.valid || CfgInSync(zn) || Latched(zn, 1, CfgIdent(zn)) then (s, Nothing)
    else (CxPush(s, zone, PushGenFor(zn), CfgIdent(zn), sub, clock), Began(zone, 1, true))
  }

  function Forget(zn: Zone): Zone {
    zn.(cfg := ZeroCache(), hw := ZeroCache(), latch := None, hwLatch := None, cooldown := 0)
  }

  function Invalidate(s: State, zone: nat): State
    requires |s.zones| == ZONES && IsZone(zone)
  {
    Abort(Put(s, zone, Forget(At(s, zone))), zone)
  }

  function Clear(s: State, zone: nat): (r: State)
    requires |s.zones| == ZONES && IsZone(zone)
    ensures |r.zones| == ZONES
  {
    var t := Invalidate(s, zone);
    Put(t, zone, At(t, zone).(isFresh := false, write := None))
  }

  /** The identity a manual or operator push freezes: a row that is gone counts as generation 0. */
  function PushIdent(zn: Zone): Ident { Ident(HbGen(zn.node), HbCrc(zn.node), zn.cfg.gen, zn.cfg.crc) }

  /** The cache becomes the operator's payload, one generation up, and is pushed from there. */
  function StartSet(s: State, zone: nat, want: Payload, sub: Option<nat>, clock: bv32): State
    requires Wf(s) && IsZone(zone)
  {
    var zn := At(s, zone);
    var gen := PushGenFor(zn);
    var zn' := zn.(cfg := StoreCfg(gen, Stamp(want, gen)), cooldown := 0);
    CxPush(Put(s, zone, zn'), zone, gen, PushIdent(zn'), sub, clock)
  }

  /** The clear requests, in id order from `id` on; the mask is emptied first. */
  function ClearMasked(s: State, id: nat): (r: State)
    requires |s.zones| == ZONES && 1 <= id <= ZONES + 1
    ensures |r.zones| == ZONES
    decreases ZONES + 1 - id
  {
    if id == ZONES + 1 then s
    else ClearMasked(if At(s, id).clear then Clear(Put(s, id, At(s, id).(clear := false)), id) else s, id + 1)
  }

  /** The lowest zone with a queued write, 0 if none. */
  function FirstWrite(zones: seq<Zone>, z: nat): (r: nat)
    requires |zones| == ZONES && 1 <= z <= ZONES + 1
    ensures r != 0 ==> z <= r <= ZONES && zones[r - 1].write.Some?
    ensures forall k :: z - 1 <= k < (if r == 0 then ZONES else r - 1) ==> zones[k].write.None?
    decreases ZONES + 1 - z
  {
    if z == ZONES + 1 then 0 else if zones[z - 1].write.Some? then z else FirstWrite(zones, z + 1)
  }

  function ScanId(rr: nat, i: nat): (id: nat)
    requires IsZone(rr)
    ensures IsZone(id)
  {
    (rr - 1 + i) % ZONES + 1
  }

  predicate Reachable(nd: Node) { nd.used && nd.health != OFFLINE && nd.health != UPDATING }

  /** One turn of the scan at `id`: the state after the gates, and whether it gets a decision. */
  function Gate(s: State, id: nat, now: bv32): (State, bool)
    requires |s.zones| == ZONES && IsZone(id)
  {
    var zn := At(s, id);
    if !zn.isFresh then (s, false)
    else
      var seen := zn.(isFresh := false);
      if !Reachable(zn.node) then (Put(s, id, seen), false)
      else
        var (cool, zn') := Cooling(seen, now);
        if cool then (Put(s, id, zn'), false) else (Put(s, id, zn').(rr := id % ZONES + 1), true)
  }

  lemma PutWf(s: State, id: nat, zn: Zone)
    requires Wf(s) && IsZone(id) && |zn.cfg.blob| == BLOB_LEN && |zn.hw.blob| == BLOB_LEN
    ensures Wf(Put(s, id, zn))
  {
  }

  lemma GateWf(s: State, id: nat, now: bv32)
    requires Wf(s) && IsZone(id)
    ensures Wf(Gate(s, id, now).0) && Gate(s, id, now).0.trk == s.trk && Gate(s, id, now).0.cx == s.cx
  {
    hide Wf, Cooling, Before, Reachable;
    WfZones(s);
    var seen := At(s, id).(isFresh := false);
    PutWf(s, id, seen);
    PutWf(s, id, Cooling(seen, now).1);
    RrWf(Put(s, id, Cooling(seen, now).1), id % ZONES + 1);
  }

  lemma WfZones(s: State)
    requires Wf(s)
    ensures |s.zones| == ZONES
    ensures forall z :: IsZone(z) ==> |At(s, z).cfg.blob| == BLOB_LEN && |At(s, z).hw.blob| == BLOB_LEN
  {
  }

  lemma RrWf(s: State, rr: nat)
    requires Wf(s) && IsZone(rr)
    ensures Wf(s.(rr := rr))
  {
  }

  /** The round-robin scan from turn i on; it re-reads the moving start as it goes. */
  function Scan(s: State, i: nat, now: bv32, sub: Option<nat>, clock: bv32): (State, Did)
    requires Wf(s) && i <= ZONES
    decreases ZONES - i
  {
    if i == ZONES then (s, Nothing)
    else
      var id := ScanId(s.rr, i);
      GateWf(s, id, now);
      var (t, decide) := Gate(s, id, now);
      if !decide then Scan(t, i + 1, now, sub, clock)
      else
        var (u, did) := TryStart(t, id, sub, clock);
        if did != Nothing then (u, did) else Scan(t, i + 1, now, sub, clock)
  }

  lemma ClearWf(s: State, id: nat)
    requires Wf(s) && IsZone(id)
    ensures Wf(Clear(s, id))
  {
  }

  lemma {:induction false} ClearMaskedWf(s: State, id: nat)
    requires Wf(s) && 1 <= id <= ZONES + 1
    ensures Wf(ClearMasked(s, id))
    decreases ZONES + 1 - id
  {
    hide Clear;
    if id <= ZONES {
      var t := Put(s, id, At(s, id).(clear := false));
      ClearWf(t, id);
      ClearMaskedWf(if At(s, id).clear then Clear(t, id) else s, id + 1);
    }
  }

  datatype Origin = Transfer | Write | Manual | Auto

  /** Which of its four branches the tick takes once the clears are done. */
  function TickBranch(s: State, pushZone: nat): Origin
    requires |s.zones| == ZONES && pushZone <= ZONES
  {
    if s.cx.st != IDLE then Transfer
    else if FirstWrite(s.zones, 1) != 0 then Write
    else if pushZone != 0 && At(s, pushZone).cfg.valid then Manual
    else Auto
  }

  function AfterClears(s: State): (t: State)
    requires Wf(s)
    ensures Wf(t)
  {
    ClearMaskedWf(s, 1);
    ClearMasked(s, 1).(pushReq := 0)
  }

  function TakeWrite(s: State): (r: State)
    requires Wf(s) && FirstWrite(s.zones, 1) != 0
    ensures Wf(r)
  {
    var z := FirstWrite(s.zones, 1);
    PutWf(s, z, At(s, z).(write := None));
    Put(s, z, At(s, z).(write := None))
  }

  function Tick(s: State, now: bv32, expired: bool, sub: Option<nat>, clock: bv32): (State, Did)
    requires Wf(s)
  {
    var t := AfterClears(s);
    match TickBranch(t, s.pushReq)
    case Transfer => (CxTick(t, now, expired, sub, clock), Nothing)
    case Write =>
      var z := FirstWrite(t.zones, 1);
      (StartSet(TakeWrite(t), z, At(t, z).write.value, sub, clock), Began(z, 1, true))
    case Manual =>
      var zn := At(t, s.pushReq);
      (CxPush(t, s.pushReq, PushGenFor(zn), PushIdent(zn), sub, clock), Began(s.pushReq, 1, true))
    case Auto => Scan(t, 0, now, sub, clock)
  }

  // ---------------- node_mgr_cfg_api.c and the request flags ----------------

  /** node_mgr_cfg_set: the inbox afterwards and the return code. */
  function CfgSet(s: State, zone: nat, cfg: Payload): (State, int)
    requires |s.zones| == ZONES
  {
    if !IsZone(zone) || !At(s, zone).node.used then (s, -1)
    else if At(s, zone).node.health != ONLINE then (s, -3)
    else if s.cx.st != IDLE && s.cx.zone == zone then (s, -2)
    else if At(s, zone).write.Some? then (s, -2)
    else (Put(s, zone, At(s, zone).(write := Some(cfg))), 0)
  }

  function PushCfg(s: State, zone: nat): (State, int)
    requires |s.zones| == ZONES
  {
    if !IsZone(zone) || !At(s, zone).cfg.valid then (s, -1) else (s.(pushReq := zone), 0)
  }

  function RequestClear(s: State, zone: nat): State
    requires |s.zones| == ZONES
  {
    if !IsZone(zone) then s else Put(s, zone, At(s, zone).(clear := true))
  }

  function NoteFreshHb(s: State, zone: nat): State
    requires |s.zones| == ZONES
  {
    if !IsZone(zone) then s else Put(s, zone, At(s, zone).(isFresh := true))
  }
}
