/**
 The statics of node_mgr_cfg.c, node_mgr_cfgx.c, node_mgr_cfg_latch.c and
 node_mgr_cfg_api.c and the functions that update them in place, each proved to do to the
 whole state what the functions of CfgState say. The C arrays indexed by zone are one
 sequence of records here. `sub` is what nmgr_submit answers if the call gets that far.
 */
module CfgReconciler {
  import opened Wrappers
  import opened Bytes
  import opened CfgEnvelope
  import opened RingTracker
  import opened CfgState
  import opened CfgInvariant
  import opened CfgMoves
  import Forward
  import Blob

  /** What node_mgr_cfg_get fills in. */
  datatype Got = Got(rc: int, cfg: Option<Payload>, gen: u32, hw: Option<seq<bv8>>)

  class Reconciler {
    var zones: seq<Zone>
    var rr: nat
    var pushReq: nat
    var cx: Slot
    var wire: seq<bv8>
    var trk: map<nat, Track>
    var fwd: Forward.Fwd

    ghost function Abs(): State
      reads this
    {
      State(zones, rr, pushReq, cx, wire, trk, fwd)
    }

    ghost predicate Valid()
      reads this
    {
      Wf(Abs())
    }

    // ---- the failure memory ----

    method NoteSyncedAt(zone: nat, kind: nat)
      requires Valid() && IsZone(zone)
      modifies this`zones
      ensures |zones| == ZONES && Abs() == Put(old(Abs()), zone, NoteSynced(old(zones)[zone - 1], kind))
    {
      var zn := zones[zone - 1];
      zn := if kind == 1 then zn.(latch := None) else zn.(hwLatch := None);
      zones := zones[zone - 1 := zn];
    }

    method NoteFailedAt(zone: nat, kind: nat, terminal: bool, id: Ident, clock: bv32)
      requires Valid() && IsZone(zone)
      modifies this`zones
      ensures |zones| == ZONES && Abs() == Put(old(Abs()), zone, NoteFailed(old(zones)[zone - 1], kind, terminal, id, clock))
    {
      var zn := zones[zone - 1];
      if !terminal {
        zones := zones[zone - 1 := zn.(cooldown := Plus(clock, COOLDOWN_MS))];
        return;
      }
      zn := if kind == 1 then zn.(latch := Some(id)) else zn.(hwLatch := Some(id));
      zones := zones[zone - 1 := zn];
    }

    method CoolingDown(zone: nat, now: bv32) returns (skip: bool)
      requires |zones| == ZONES && IsZone(zone)
      modifies this`zones
      ensures |zones| == ZONES && (skip, zones[zone - 1]) == Cooling(old(zones)[zone - 1], now)
      ensures zones == old(zones)[zone - 1 := zones[zone - 1]]
    {
      hide Before;
      var zn := zones[zone - 1];
      if zn.cooldown == 0 { return false; }
      if Before(now, zn.cooldown) { return true; }
      zones := zones[zone - 1 := zn.(cooldown := 0)];
      return false;
    }

    // ---- the transfer half ----

    method FailOrRetryNow(isPush: bool, terminal: bool, clock: bv32)
      requires Valid() && cx.st != IDLE
      modifies this
      ensures Abs() == FailOrRetry(old(Abs()), isPush, terminal, clock)
    {
      hide Wf;
      WfSlotZone();
      if terminal || cx.attempt >= MAX_ATTEMPT {
        NoteFailedAt(cx.zone, cx.kind, terminal, cx.id, clock);
        cx := IDLE_SLOT;
        return;
      }
      var wait := BackoffMs(cx.attempt);
      cx := cx.(attempt := cx.attempt + 1, st := if isPush then RETRY_PUSH else RETRY_PULL, retryAt := Plus(clock, wait));
    }

    lemma WfSlotZone()
      requires Valid()
      ensures |zones| == ZONES
      ensures cx.st != IDLE ==> IsZone(cx.zone) && 1 <= cx.kind <= 2 && 1 <= cx.attempt <= MAX_ATTEMPT
      ensures forall z :: IsZone(z) ==> |zones[z - 1].cfg.blob| == BLOB_LEN && |zones[z - 1].hw.blob| == BLOB_LEN
    {
    }

    method StartPullNow(zone: nat, kind: nat, attempt: nat, sub: Option<nat>, clock: bv32)
      modifies this`cx, this`trk
      ensures Abs() == StartPull(old(Abs()), zone, kind, attempt, sub, clock)
    {
      cx := cx.(zone := zone, kind := kind, attempt := attempt);
      if sub.None? {
        cx := cx.(st := RETRY_PULL, retryAt := Plus(clock, TRACKER_FULL_MS));
        return;
      }
      trk := trk[sub.value := Track(Get(zone, kind), false)];
      cx := cx.(st := PULL_ACK, seqNo := sub.value);
    }

    /** The cache update of accept_pull, one plane or the other. */
    method StorePulled(zone: nat, kind: nat, gen: u32, p: seq<bv8>)
      requires Valid() && IsZone(zone) && |p| == (if kind == 1 then CFG_LEN else HW_LEN)
      modifies this`zones
      ensures Valid() && |old(zones)| == ZONES && |old(zones)[zone - 1].hw.blob| == BLOB_LEN
      ensures var was := old(zones)[zone - 1];
        Abs() == Put(old(Abs()), zone,
          if kind == 1 then was.(cfg := StoreCfg(gen, p)) else was.(hw := StoreHw(was.hw, gen, p)))
    {
      hide Wf, StoreCfg, StoreHw;
      WfSlotZone();
      var zn := zones[zone - 1];
      zn := if kind == 1 then zn.(cfg := StoreCfg(gen, p)) else zn.(hw := StoreHw(zn.hw, gen, p));
      PutWf(Abs(), zone, zn);
      zones := zones[zone - 1 := zn];
    }

    method AcceptPullNow(bytes: seq<bv8>, clock: bv32)
      requires Valid() && cx.st != IDLE
      modifies this
      ensures Abs() == AcceptPull(old(Abs()), bytes, clock)
    {
      hide Wf, UnwrapPlane, StoreCfg, StoreHw, FailOrRetry, NoteSynced;
      WfSlotZone();
      var zone, kind := cx.zone, cx.kind;
      var u := UnwrapPlane(kind, bytes);
      if u.EVersionNewer? { FailOrRetryNow(false, true, clock); return; }
      if !u.Accepted() { FailOrRetryNow(false, false, clock); return; }
      StorePulled(zone, kind, u.gen, u.payload);
      NoteSyncedAt(zone, kind);
      cx := IDLE_SLOT;
    }

    method StartPushNow(zone: nat, gen: u32, attempt: nat, id: Ident, sub: Option<nat>, clock: bv32)
      requires Valid() && IsZone(zone)
      modifies this`cx, this`trk, this`wire
      ensures Abs() == StartPush(old(Abs()), zone, gen, attempt, id, sub, clock)
    {
      hide Wf, CfgBlob, Stamp;
      WfSlotZone();
      var work := Stamp(Inner(zones[zone - 1].cfg.blob), gen);
      wire := CfgBlob(gen, work);
      cx := cx.(zone := zone, kind := 1, attempt := attempt, pushGen := gen, id := id, seqNo := 0, st := PUSH_COMMIT);
      if sub.None? {
        cx := cx.(st := RETRY_PUSH, retryAt := Plus(clock, TRACKER_FULL_MS));
        return;
      }
      trk := trk[sub.value := Track(Commit(zone, gen, wire), false)];
      cx := cx.(st := PUSH_COMMIT, seqNo := sub.value);
    }

    method AcceptPushNow()
      requires Valid() && cx.st == PUSH_COMMIT
      modifies this
      ensures Abs() == AcceptPush(old(Abs()))
    {
      hide PayloadCrc;
      var zone := cx.zone;
      var c := Cache(true, wire, cx.pushGen, PayloadCrc(Inner(wire)));
      zones := zones[zone - 1 := zones[zone - 1].(cfg := c)];
      NoteSyncedAt(zone, 1);
      cx := IDLE_SLOT;
    }

    method AbortFor(zone: nat)
      modifies this`cx, this`trk
      ensures Abs() == Abort(old(Abs()), zone)
    {
      if cx.st == IDLE || cx.zone != zone { return; }
      if cx.st == PULL_ACK || cx.st == PUSH_COMMIT { trk := Cancel(trk, cx.seqNo); }
      cx := IDLE_SLOT;
    }

    /** nmgr_cx_tick_1s: whether the tick belonged to a transfer. */
    method CxTick1s(now: bv32, expired: bool, sub: Option<nat>, clock: bv32) returns (busy: bool)
      requires Valid()
      modifies this
      ensures busy == (old(cx.st) != IDLE)
      ensures Abs() == if busy then CxTick(old(Abs()), now, expired, sub, clock) else old(Abs())
    {
      hide Wf, FailOrRetry, StartPull, StartPush, Before;
      WfSlotZone();
      match cx.st
      case IDLE => return false;
      case PULL_STREAM =>
        if expired { FailOrRetryNow(false, false, clock); }
        return true;
      case RETRY_PULL =>
        if !Before(now, cx.retryAt) { StartPullNow(cx.zone, cx.kind, cx.attempt, sub, clock); }
        return true;
      case RETRY_PUSH =>
        if !Before(now, cx.retryAt) { StartPushNow(cx.zone, cx.pushGen, cx.attempt, cx.id, sub, clock); }
        return true;
      case _ => return true;
    }

    method CfgOnChunk(src: nat, feed: Feed, clock: bv32)
      requires Valid()
      modifies this
      ensures Abs() == OnChunk(old(Abs()), src, feed, clock)
    {
      hide Wf, FailOrRetry, AcceptPull;
      if cx.st != PULL_STREAM || src != cx.zone { return; }
      match feed
      case Partial =>
      case Complete(bytes) => AcceptPullNow(bytes, clock);
      case Bad => FailOrRetryNow(false, false, clock);
    }

    method CfgOnEv(q: nat, ev: TrkEv, clock: bv32)
      requires Valid()
      modifies this
      ensures Abs() == OnEv(old(Abs()), q, ev, clock)
    {
      hide Wf, FailOrRetry, AcceptPush, TerminalReply;
      if cx.st != PULL_ACK && cx.st != PUSH_COMMIT { return; }
      if q != cx.seqNo { return; }
      if cx.st == PULL_ACK {
        if ev.Done? && ev.status == 0 { cx := cx.(st := PULL_STREAM); } else { FailOrRetryNow(false, false, clock); }
        return;
      }
      if ev.Done? && ev.status == 0 { AcceptPushNow(); return; }
      if ev.Done? {
        FailOrRetryNow(true, TerminalReply(ev.detail), clock);
      } else {
        FailOrRetryNow(true, false, clock);
      }
    }

    // ---- the decision half ----

    method InvalidateZone(zone: nat)
      requires Valid()
      modifies this
      ensures Valid()
      ensures Abs() == if IsZone(zone) then Invalidate(old(Abs()), zone) else old(Abs())
    {
      hide Wf, Abort, ZeroCache;
      WfSlotZone();
      if zone < 1 || zone > ZONES { return; }
      ghost var was := Abs();
      var zn := zones[zone - 1].(cfg := ZeroCache(), hw := ZeroCache());
      zn := zn.(latch := None, hwLatch := None);
      zn := zn.(cooldown := 0);
      zones := zones[zone - 1 := zn];
      PutWf(was, zone, Forget(At(was, zone)));
      AbortWf(Abs(), zone);
      AbortFor(zone);
    }

    method ClearZone(zone: nat)
      requires Valid() && IsZone(zone)
      modifies this
      ensures Valid() && Abs() == Clear(old(Abs()), zone)
    {
      hide Wf, Invalidate;
      WfSlotZone();
      ClearWf(Abs(), zone);
      InvalidateZone(zone);
      WfSlotZone();
      zones := zones[zone - 1 := zones[zone - 1].(isFresh := false, write := None)];
    }

    method StartPushFor(zone: nat, id: Ident, gen: u32, sub: Option<nat>, clock: bv32)
      requires Valid() && IsZone(zone)
      modifies this`cx, this`trk, this`wire
      ensures Abs() == CxPush(old(Abs()), zone, gen, id, sub, clock)
    {
      hide StartPush, Wf;
      StartPushNow(zone, gen, 1, id, sub, clock);
    }

    method StartPullFor(zone: nat, kind: nat, id: Ident, sub: Option<nat>, clock: bv32)
      modifies this`cx, this`trk
      ensures Abs() == CxPull(old(Abs()), zone, kind, id, sub, clock)
    {
      hide StartPull;
      cx := cx.(id := id);
      StartPullNow(zone, kind, 1, sub, clock);
    }

    method StartSetReq(zone: nat, want: Payload, sub: Option<nat>, clock: bv32)
      requires Valid() && IsZone(zone)
      modifies this
      ensures Abs() == StartSet(old(Abs()), zone, want, sub, clock)
    {
      hide Wf, StoreCfg, Stamp, PushGenFor, CxPush;
      WfSlotZone();
      var zn := zones[zone - 1];
      var gen := PushGenFor(zn);
      zn := zn.(cfg := StoreCfg(gen, Stamp(want, gen)));
      zn := zn.(cooldown := 0);
      PutWf(Abs(), zone, zn);
      zones := zones[zone - 1 := zn];
      StartPushFor(zone, PushIdent(zn), gen, sub, clock);
    }

    method TryStartFor(zone: nat, sub: Option<nat>, clock: bv32) returns (did: Did)
      requires Valid() && IsZone(zone)
      modifies this
      ensures (Abs(), did) == TryStart(old(Abs()), zone, sub, clock)
    {
      hide Wf, CxPull, CxPush, PushGenFor;
      WfSlotZone();
      var zn := zones[zone - 1];
      if !zn.cfg.valid && !Latched(zn, 1, CfgIdent(zn)) {
        StartPullFor(zone, 1, CfgIdent(zn), sub, clock);
        return Began(zone, 1, false);
      }
      if (!zn.hw.valid || zn.node.hwCrc != zn.hw.crc) && !Latched(zn, 2, HwIdent(zn)) {
        StartPullFor(zone, 2, HwIdent(zn), sub, clock);
        return Began(zone, 2, false);
      }
      if !zn.cfg.valid { return Nothing; }
      if zn.node.cfgGen == zn.cfg.gen && zn.node.cfgCrc == zn.cfg.crc { return Nothing; }
      if Latched(zn, 1, CfgIdent(zn)) { return Nothing; }
      StartPushFor(zone, CfgIdent(zn), PushGenFor(zn), sub, clock);
      did := Began(zone, 1, true);
    }

    /** The loop over the clear mask at the head of the tick. */
    method RunClears()
      requires Valid()
      modifies this
      ensures Valid() && Abs() == ClearMasked(old(Abs()), 1)
    {
      hide Wf, Clear;
      ghost var was := Abs();
      WfSlotZone();
      var id := 1;
      while id <= ZONES
        invariant 1 <= id <= ZONES + 1 && Valid() && |zones| == |was.zones| == ZONES
        invariant ClearMasked(was, 1) == ClearMasked(Abs(), id)
      {
        if zones[id - 1].clear {
          WfSlotZone();
          PutWf(Abs(), id, At(Abs(), id).(clear := false));
          zones := zones[id - 1 := zones[id - 1].(clear := false)];
          ClearZone(id);
          WfSlotZone();
        }
        id := id + 1;
      }
    }

    /** nmgr_cfg_take_set_req: the lowest zone's queued write, taken out of its slot. */
    method TakeSetReq() returns (zone: nat, want: Option<Payload>)
      requires Valid()
      modifies this`zones
      ensures |zones| == |old(zones)| == ZONES && zone == FirstWrite(old(zones), 1)
      ensures zone == 0 ==> want.None? && zones == old(zones)
      ensures zone != 0 ==> want == old(zones)[zone - 1].write && want.Some? && Abs() == TakeWrite(old(Abs()))
    {
      hide Wf;
      WfSlotZone();
      zone, want := 0, None;
      var z := 1;
      while z <= ZONES && zone == 0
        invariant 1 <= z <= ZONES + 1
        invariant zone == 0 ==> zones == old(zones) && want.None? && FirstWrite(old(zones), 1) == FirstWrite(old(zones), z)
        invariant zone != 0 ==>
          zone == FirstWrite(old(zones), 1) && want == old(zones)[zone - 1].write && want.Some?
          && zones == old(zones)[zone - 1 := old(zones)[zone - 1].(write := None)]
        decreases ZONES + 1 - z
      {
        if zones[z - 1].write.Some? {
          want := zones[z - 1].write;
          zones := zones[z - 1 := zones[z - 1].(write := None)];
          zone := z;
        }
        z := z + 1;
      }
    }

    /** The scan loop, with the moving start it re-reads. */
    method ScanZones(now: bv32, sub: Option<nat>, clock: bv32) returns (did: Did)
      requires Valid()
      modifies this
      ensures Wf(old(Abs())) && (Abs(), did) == Scan(old(Abs()), 0, now, sub, clock)
    {
      hide Wf, TryStart, Gate;
      ghost var was := Abs();
      did := Nothing;
      var i := 0;
      while i < ZONES
        invariant i <= ZONES && Valid() && Wf(was) && did == Nothing
        invariant Scan(was, 0, now, sub, clock) == Scan(Abs(), i, now, sub, clock)
      {
        WfRr(Abs());
        var id := (rr - 1 + i) % ZONES + 1;
        GateWf(Abs(), id, now);
        ghost var before := Abs();
        var decide := PassGate(id, now);
        if decide {
          did := TryStartFor(id, sub, clock);
          if did != Nothing { return; }
          TryStartNothing(Gate(before, id, now).0, id, sub, clock);
        }
        i := i + 1;
      }
    }

    lemma TryStartNothing(s: State, id: nat, sub: Option<nat>, clock: bv32)
      requires Wf(s) && IsZone(id)
      ensures TryStart(s, id, sub, clock).1 == Nothing ==> TryStart(s, id, sub, clock).0 == s
    {
      hide CxPull, CxPush, PushGenFor, Wf;
    }

    method PassGate(id: nat, now: bv32) returns (decide: bool)
      requires Valid() && IsZone(id)
      modifies this`zones, this`rr
      ensures |old(Abs()).zones| == ZONES && (Abs(), decide) == Gate(old(Abs()), id, now)
    {
      hide Wf, Cooling;
      WfSlotZone();
      if !zones[id - 1].isFresh { return false; }
      zones := zones[id - 1 := zones[id - 1].(isFresh := false)];
      var nd := zones[id - 1].node;
      if !nd.used { return false; }
      if nd.health == OFFLINE || nd.health == UPDATING { return false; }
      var skip := CoolingDown(id, now);
      assert zones == old(zones)[id - 1 := zones[id - 1]];
      if skip { return false; }
      rr := id % ZONES + 1;
      decide := true;
    }

    method Tick1s(now: bv32, expired: bool, sub: Option<nat>, clock: bv32) returns (did: Did)
      requires Valid()
      modifies this
      ensures Wf(old(Abs())) && (Abs(), did) == Tick(old(Abs()), now, expired, sub, clock)
    {
      hide Wf, ClearMasked, CxTick, StartSet, TakeWrite, Scan, CxPush, PushGenFor, FirstWrite;
      did := Nothing;
      ghost var was := Abs();
      ClearMaskedPush(was);
      var pushZone := pushReq;
      RunClears();
      pushReq := 0;
      ghost var t := AfterClears(was);
      assert Abs() == t;
      WfSlotZone();
      var busy := CxTick1s(now, expired, sub, clock);
      if busy { return Nothing; }
      var setZone, want := TakeSetReq();
      if setZone != 0 {
        StartSetReq(setZone, want.value, sub, clock);
        return Began(setZone, 1, true);
      }
      if pushZone != 0 && zones[pushZone - 1].cfg.valid {
        var zn := zones[pushZone - 1];
        StartPushFor(pushZone, PushIdent(zn), PushGenFor(zn), sub, clock);
        return Began(pushZone, 1, true);
      }
      did := ScanZones(now, sub, clock);
    }

    lemma ClearMaskedPush(s: State)
      requires Wf(s)
      ensures s.pushReq <= ZONES && |s.zones| == ZONES
    {
    }

    // ---- the public calls ----

    method CfgSetReq(zone: nat, cfg: Payload) returns (rc: int)
      requires Valid()
      modifies this`zones
      ensures |old(Abs()).zones| == ZONES && (Abs(), rc) == CfgSet(old(Abs()), zone, cfg)
    {
      hide Wf;
      WfSlotZone();
      if zone < 1 || zone > ZONES { return -1; }
      var nd := zones[zone - 1].node;
      if !nd.used { return -1; }
      if nd.health != ONLINE { return -3; }
      if cx.st != IDLE && cx.zone == zone { return -2; }
      if zones[zone - 1].write.Some? { return -2; }
      zones := zones[zone - 1 := zones[zone - 1].(write := Some(cfg))];
      rc := 0;
    }

    method PushCfgReq(zone: nat) returns (rc: int)
      requires Valid()
      modifies this`pushReq
      ensures |old(Abs()).zones| == ZONES && (Abs(), rc) == PushCfg(old(Abs()), zone)
    {
      hide Wf;
      WfSlotZone();
      if zone < 1 || zone > ZONES { return -1; }
      if !zones[zone - 1].cfg.valid { return -1; }
      pushReq := zone;
      rc := 0;
    }

    /** In every reachable state the copy unwraps: -1 means no such zone or no cache, nothing else. */
    method CfgGet(zone: nat) returns (r: Got)
      requires Inv(Abs())
      ensures |zones| == ZONES
      ensures r.rc == if IsZone(zone) && zones[zone - 1].cfg.valid then 0 else -1
      ensures r.rc == 0 ==>
        var c := zones[zone - 1].cfg;
        |c.blob| == BLOB_LEN && r.cfg == Some(Inner(c.blob)) && r.gen == c.gen
      ensures r.rc == 0 ==> (r.hw.Some? <==> zones[zone - 1].hw.valid)
      ensures r.rc == 0 && r.hw.Some? ==> zones[zone - 1].hw.crc == PayloadCrc(r.hw.value)
    {
      hide Inv, UnwrapPlane, CfgCacheOk, HwCacheOk, PayloadCrc;
      CachesOk(Abs(), zone);
      r := Got(-1, None, 0, None);
      if zone < 1 || zone > ZONES { return; }
      var c := zones[zone - 1].cfg;
      if !c.valid { return; }
      CfgCacheUnwraps(c);
      var u := UnwrapPlane(1, c.blob);
      if !u.Accepted() { return; }
      r := Got(0, Some(u.payload), u.gen, None);
      var h := zones[zone - 1].hw;
      if h.valid {
        HwCacheUnwraps(h);
        var v := UnwrapPlane(2, h.blob[..Blob.HDR_LEN + HW_LEN]);
        if v.Accepted() { r := r.(hw := Some(v.payload)); }
      }
    }
  }

  lemma CachesOk(s: State, z: nat)
    requires Inv(s)
    ensures |s.zones| == ZONES
    ensures IsZone(z) ==> CfgCacheOk(At(s, z).cfg) && HwCacheOk(At(s, z).hw) && |At(s, z).cfg.blob| == BLOB_LEN
  {
    hide CfgCacheOk, HwCacheOk, PushWire, SlotFrame, SlotOk;
    InvWf(s);
    if IsZone(z) { assert ZoneOk(s.zones[z - 1]); }
  }

  lemma AbortWf(s: State, zone: nat)
    requires Wf(s)
    ensures Wf(Abort(s, zone))
  {
  }
}
