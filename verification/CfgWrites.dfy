/**
 The operator's requests (components/node_mgr/node_mgr_cfg_api.c, node_mgr_cfg.c): which are
 accepted, which tick carries one out, and how long an accepted write can be kept waiting.
 */
module CfgWrites {
  import opened Wrappers
  import opened Bytes
  import opened CfgEnvelope
  import opened RingTracker
  import opened CfgState
  import opened CfgInvariant
  import opened CfgSystem
  import opened CfgMoves
  import opened CfgConfirm
  import opened CfgAdopt
  import Forward

  // ---------------- accepting a request ----------------

  /** A write for z is taken in: the zone is there and ONLINE, and nothing of it is under way. */
  predicate Welcome(s: State, z: nat)
    requires |s.zones| == ZONES
  {
    && 1 <= z <= 8 && At(s, z).node.used && At(s, z).node.health == ONLINE
    && !(s.cx.st != IDLE && s.cx.zone == z) && At(s, z).write.None?
  }

  /** The code tells a zone that is not there, one that is not ONLINE, and one that is busy apart. */
  lemma SetVerdict(s: State, z: nat, cfg: Payload)
    requires |s.zones| == ZONES
    ensures var (r, rc) := CfgSet(s, z, cfg);
      && (rc == 0 <==> Welcome(s, z))
      && (rc == -1 <==> !(1 <= z <= 8) || !At(s, z).node.used)
      && (rc == -3 <==> 1 <= z <= 8 && At(s, z).node.used && At(s, z).node.health != ONLINE)
      && (rc == -2 <==> 1 <= z <= 8 && At(s, z).node.used && At(s, z).node.health == ONLINE && !Welcome(s, z))
      && |r.zones| == ZONES && r.(zones := s.zones) == s
      && forall y :: IsZone(y) ==>
           At(r, y) == At(s, y).(write := if y == z && Welcome(s, z) then Some(cfg) else At(s, y).write)
  {
  }

  /** A push is accepted exactly for a zone whose config is cached; the last one accepted counts. */
  lemma PushVerdict(s: State, z: nat)
    requires |s.zones| == ZONES
    ensures var (r, rc) := PushCfg(s, z);
      && (rc == 0 <==> 1 <= z <= 8 && At(s, z).cfg.valid) && (rc != 0 ==> rc == -1)
      && r == s.(pushReq := if rc == 0 then z else s.pushReq)
  {
  }

  // ---------------- carrying one out ----------------

  /** Zone z's cache holds the payload's settings, and a first push of that very cache is under way. */
  predicate Pushes(s: State, z: nat, settings: seq<bv8>)
    requires Wf(s) && IsZone(z)
  {
    && At(s, z).cfg.valid && CachedSettings(s, z) == settings && SlotFor(s, z) && s.cx.kind == 1 && s.cx.attempt == 1
    && s.wire == PushWire(At(s, z).cfg, s.cx.pushGen)
  }

  predicate Submitting(s: State, a: Action)
    requires a.TickAct?
  {
    if a.sub.Some? then
      s.cx.st == PUSH_COMMIT && s.cx.seqNo == a.sub.value && a.sub.value in s.trk
      && s.trk[a.sub.value] == Track(Commit(s.cx.zone, s.cx.pushGen, s.wire), false)
    else s.cx.st == RETRY_PUSH && s.cx.retryAt == a.clock + 1000
  }

  lemma CommitIs(t: State, z: nat, gen: u32, attempt: nat, id: Ident, sub: Option<nat>, clock: bv32)
    requires Wf(t) && IsZone(z)
    ensures var r := StartPush(t, z, gen, attempt, id, sub, clock);
      && r.zones == t.zones && r.wire == PushWire(At(t, z).cfg, gen)
      && r.cx.zone == z && r.cx.kind == 1 && r.cx.attempt == attempt && r.cx.pushGen == gen && r.cx.id == id
      && if sub.Some? then
           r.cx.st == PUSH_COMMIT && r.cx.seqNo == sub.value
           && r.trk == t.trk[sub.value := Track(Commit(z, gen, r.wire), false)]
         else r.cx.st == RETRY_PUSH && r.cx.retryAt == clock + 1000 && r.trk == t.trk
  {
    hide PushWire;
  }

  lemma WriteCommit(t: State, z: nat, sub: Option<nat>, clock: bv32)
    requires Wf(t) && z == FirstWrite(t.zones, 1) && z != 0
    ensures var w := At(t, z).write.value;
            var r := StartSet(TakeWrite(t), z, w, sub, clock);
      && |r.zones| == ZONES && |At(r, z).cfg.blob| == BLOB_LEN && At(r, z) == Written(At(t, z), w)
      && r.cx.zone == z && r.cx.kind == 1 && r.cx.attempt == 1 && r.cx.pushGen == PushGenFor(At(t, z))
      && r.wire == PushWire(At(r, z).cfg, r.cx.pushGen)
      && if sub.Some? then
           r.cx.st == PUSH_COMMIT && r.cx.seqNo == sub.value
           && r.trk == t.trk[sub.value := Track(Commit(z, r.cx.pushGen, r.wire), false)]
         else r.cx.st == RETRY_PUSH && r.cx.retryAt == clock + 1000
  {
    hide StoreCfg, PushGenFor, Stamp, PushWire, FirstWrite, StartPush, PushIdent, Wf;
    InvWfLength(t);
    SameGen(At(t, z));
    WrittenWf(t, z);
    var w, gen := At(t, z).write.value, PushGenFor(At(t, z));
    var u := Put(TakeWrite(t), z, Written(At(t, z), w));
    CommitIs(u, z, gen, 1, PushIdent(Written(At(t, z), w)), sub, clock);
    assert At(TakeWrite(t), z) == At(t, z).(write := None);
    assert Put(TakeWrite(t), z, At(TakeWrite(t), z).(cfg := StoreCfg(gen, Stamp(w, gen)), cooldown := 0)) == u;
  }

  /**
   The tick that finds the slot free and a write waiting begins the push of the lowest such
   zone, whatever else is asked for; its inbox is empty and its cooldown lifted, and every
   other write that is not cleared waits on.
   */
  lemma WriteBegins(s: State, a: Action, z: nat)
    requires Inv(s) && Enabled(s, a) && a.TickAct? && |s.zones| == ZONES
    requires SlotFree(s) && Queued(s, z) && NoneQueued(s, z)
    ensures Inv(Step(s, a)) && Wf(Step(s, a)) && At(s, z).write.Some?
    ensures Pushes(Step(s, a), z, Settings(At(s, z).write.value)) && Submitting(Step(s, a), a)
    ensures At(Step(s, a), z).write.None? && At(Step(s, a), z).cooldown == 0
    ensures forall y: nat :: y != z && Queued(s, y) ==> IsZone(y) && At(Step(s, a), y).write == At(s, y).write
  {
    hide Inv, AfterClears, StartSet, PushGenFor, FirstWrite, TakeWrite, StoreCfg, Stamp, PushWire, Wf, Queued,
      SlotFree, NoneQueued, Settings, Inner;
    InvWf(s);
    QueuedIsZone(s, z);
    BranchIs(s);
    InvStep(s, a);
    InvWf(Step(s, a));
    AfterClearsWrite(s, z);
    InvWfLength(Step(s, a));
    assert TakesWrite(s, z);
    WriteCommit(AfterClears(s), z, a.sub, a.clock);
    StoredSettings(PushGenFor(At(s, z)), At(s, z).write.value);
    forall y: nat | y != z && Queued(s, y) ensures IsZone(y) && At(Step(s, a), y).write == At(s, y).write {
      OtherWaits(s, a, z, y);
    }
  }

  lemma OtherWaits(s: State, a: Action, z: nat, y: nat)
    requires Wf(s) && a.TickAct? && Enabled(s, a) && TakesWrite(s, z) && y != z && Queued(s, y)
    ensures IsZone(y) && |Step(s, a).zones| == ZONES && At(Step(s, a), y).write == At(s, y).write
  {
    hide Tick, StoreCfg, Stamp, PushGenFor, Written, SlotFree, NoneQueued, Wf;
    InvWfLength(s);
    TickZone(s, a.now, a.expired, a.sub, a.clock, y);
    OneWrite(s, z, y);
    assert AfterClear(At(s, y)) == At(s, y);
  }

  lemma OneWrite(s: State, z: nat, y: nat)
    requires Wf(s) && TakesWrite(s, z) && y != z
    ensures !TakesWrite(s, y)
  {
  }

  /** With no write waiting the manual push asked for begins, of the cache as it is. */
  lemma ManualBegins(s: State, a: Action, z: nat)
    requires Inv(s) && Enabled(s, a) && a.TickAct? && |s.zones| == ZONES
    requires SlotFree(s) && NoneQueued(s, ZONES + 1) && Asked(s, z)
    ensures Inv(Step(s, a)) && Wf(s) && Wf(Step(s, a)) && At(Step(s, a), z).cfg == At(s, z).cfg
    ensures Pushes(Step(s, a), z, CachedSettings(s, z)) && Submitting(Step(s, a), a)
    ensures Step(s, a).pushReq == 0
  {
    hide Inv, AfterClears, PushGenFor, FirstWrite, PushWire, StartPush, Wf, SlotFree, NoneQueued, Settings, Inner;
    InvWf(s);
    BranchIs(s);
    InvStep(s, a);
    InvWf(Step(s, a));
    InvWfLength(s);
    InvWfLength(Step(s, a));
    AfterClearsAt(s, z);
    var t := AfterClears(s);
    InvWfLength(t);
    CommitIs(t, z, PushGenFor(At(t, z)), 1, PushIdent(At(t, z)), a.sub, a.clock);
    ForgetsRequest(s, a);
  }

  function Larger(a: nat, b: nat): nat { if a > b then a else b }

  /** What heartbeat generation and CRC count as, zero for a row that is gone. */
  function Heartbeat(zn: Zone): (u32, bv32) { if zn.node.used then (zn.node.cfgGen, zn.node.cfgCrc) else (0, 0) }

  /**
   The numbers of such a push: one generation past the larger of heartbeat and cache, wrapping
   to 0, under the identity of that heartbeat and of the cache that is pushed.
   */
  lemma PushNumbers(s: State, a: Action, z: nat)
    requires Inv(s) && Enabled(s, a) && a.TickAct? && IsZone(z) && Wf(s) && (TakesWrite(s, z) || TakesPush(s, z))
    ensures Wf(Step(s, a))
    ensures var zn, cx := At(s, z), Step(s, a).cx;
      && cx.pushGen as int == (Larger(Heartbeat(zn).0, zn.cfg.gen) + 1) % 0x1_0000_0000
      && cx.id == Ident(Heartbeat(zn).0, Heartbeat(zn).1, At(Step(s, a), z).cfg.gen, At(Step(s, a), z).cfg.crc)
      && (TakesWrite(s, z) ==> At(Step(s, a), z).cfg.gen == cx.pushGen)
  {
    hide Inv, AfterClears, StartSet, FirstWrite, TakeWrite, StoreCfg, Stamp, PushWire, Wf, NoneQueued, SlotFree, Inner;
    InvWf(s);
    InvWfLength(s);
    BranchIs(s);
    InvStep(s, a);
    InvWf(Step(s, a));
    InvWfLength(Step(s, a));
    AfterClearsAt(s, z);
    var t := AfterClears(s);
    InvWfLength(t);
    OneNext(At(s, z));
    if TakesWrite(s, z) {
      AfterClearsWrite(s, z);
      WriteCommit(t, z, a.sub, a.clock);
      WriteIdent(t, z, a.sub, a.clock);
    } else {
      CommitIs(t, z, PushGenFor(At(t, z)), 1, PushIdent(At(t, z)), a.sub, a.clock);
    }
  }

  lemma OneNext(zn: Zone)
    ensures PushGenFor(zn) as int == (Larger(Heartbeat(zn).0, zn.cfg.gen) + 1) % 0x1_0000_0000
    ensures PushIdent(zn) == Ident(Heartbeat(zn).0, Heartbeat(zn).1, zn.cfg.gen, zn.cfg.crc)
  {
  }

  lemma WriteIdent(t: State, z: nat, sub: Option<nat>, clock: bv32)
    requires Wf(t) && z == FirstWrite(t.zones, 1) && z != 0
    ensures var zn := Written(At(t, z), At(t, z).write.value);
      StartSet(TakeWrite(t), z, At(t, z).write.value, sub, clock).cx.id == PushIdent(zn)
      && zn.node == At(t, z).node && zn.cfg.gen == PushGenFor(At(t, z))
  {
    hide StoreCfg, PushGenFor, Stamp, PushWire, FirstWrite, PushIdent;
    SameGen(At(t, z));
  }

  /** Every tick uses up the push request, whether it could carry it out or not. */
  lemma ForgetsRequest(s: State, a: Action)
    requires Enabled(s, a) && a.TickAct?
    ensures Step(s, a).pushReq == 0
  {
    hide ClearMasked, Wf, CxTick, StartSet, Scan, StartPush, PushGenFor, PushIdent, FirstWrite;
    InvWfLength(s);
    var t := AfterClears(s);
    InvWfLength(t);
    match TickBranch(t, s.pushReq)
    case Transfer => SlotRequest(t, a.now, a.expired, a.sub, a.clock);
    case Write => WriteRequest(t, a.sub, a.clock);
    case Manual => PushRequest(t, s.pushReq, PushGenFor(At(t, s.pushReq)), PushIdent(At(t, s.pushReq)), a.sub, a.clock);
    case Auto => ScanRequest(t, 0, a.now, a.sub, a.clock);
  }

  lemma SlotRequest(t: State, now: bv32, expired: bool, sub: Option<nat>, clock: bv32)
    requires Wf(t) && t.cx.st != IDLE
    ensures CxTick(t, now, expired, sub, clock).pushReq == t.pushReq
  {
    hide PushWire, Before;
  }

  lemma WriteRequest(t: State, sub: Option<nat>, clock: bv32)
    requires Wf(t) && FirstWrite(t.zones, 1) != 0
    ensures var z := FirstWrite(t.zones, 1);
      StartSet(TakeWrite(t), z, At(t, z).write.value, sub, clock).pushReq == t.pushReq
  {
    hide PushWire, FirstWrite, StoreCfg, Stamp, PushGenFor;
  }

  lemma PushRequest(t: State, z: nat, gen: u32, id: Ident, sub: Option<nat>, clock: bv32)
    requires Wf(t) && IsZone(z)
    ensures StartPush(t, z, gen, 1, id, sub, clock).pushReq == t.pushReq
  {
    hide PushWire;
  }

  lemma {:induction false} ScanRequest(t: State, i: nat, now: bv32, sub: Option<nat>, clock: bv32)
    requires Wf(t) && i <= ZONES
    ensures Scan(t, i, now, sub, clock).0.pushReq == t.pushReq
    decreases ZONES - i
  {
    hide Gate, TryStart, Wf, ScanId;
    if i < ZONES {
      WfRr(t);
      var id := ScanId(t.rr, i);
      InvWfLength(t);
      GateWf(t, id, now);
      GateMove(t, id, now, id);
      var u := Gate(t, id, now).0;
      DecisionRequest(u, id, sub, clock);
      ScanRequest(u, i + 1, now, sub, clock);
    }
  }

  lemma DecisionRequest(t: State, z: nat, sub: Option<nat>, clock: bv32)
    requires Wf(t) && IsZone(z)
    ensures TryStart(t, z, sub, clock).0.pushReq == t.pushReq
  {
    hide PushWire, PushGenFor;
  }

  /** Step k is a push request for z that is accepted. */
  predicate PushAccepted(s: State, a: Action, z: nat)
    requires |s.zones| == ZONES
  {
    a == PushReq(z) && 1 <= z <= 8 && At(s, z).cfg.valid
  }

  lemma RequestStep(s: State, a: Action)
    requires Enabled(s, a)
    ensures |s.zones| == ZONES
    ensures Step(s, a).pushReq ==
      if a.TickAct? then 0 else if a.PushReq? && PushAccepted(s, a, a.zone) then a.zone else s.pushReq
  {
    hide AfterClears, Tick, StoreCfg, StoreHw, UnwrapPlane, PushWire, Forward.OnEv, Forward.Adopt, TerminalReply,
      ZeroCache, Cancel, Forward.Arm;
    if a.TickAct? { ForgetsRequest(s, a); }
  }

  /** The request for z accepted at step m is the latest when step k comes, and no tick has come since. */
  ghost predicate Latest(ss: seq<State>, acts: seq<Action>, m: nat, k: nat, z: nat)
    requires k <= |acts| <= |ss| && forall n :: 0 <= n < k ==> |ss[n].zones| == ZONES
  {
    && m < k && PushAccepted(ss[m], acts[m], z)
    && forall n :: m < n < k ==> !acts[n].TickAct? && !(acts[n].PushReq? && PushAccepted(ss[n], acts[n], acts[n].zone))
  }

  ghost predicate PushPending(ss: seq<State>, acts: seq<Action>, k: nat, z: nat)
    requires k <= |acts| <= |ss| && forall n :: 0 <= n < k ==> |ss[n].zones| == ZONES
  {
    exists m: nat :: Latest(ss, acts, m, k, z)
  }

  /** Which push a tick finds asked for: the one accepted last since the tick before, if any. */
  lemma {:induction false} AskedFor(ss: seq<State>, acts: seq<Action>, k: nat, z: nat)
    requires IsRun(ss, acts) && ss[0].pushReq == 0 && k <= |acts| && IsZone(z)
    ensures forall n :: 0 <= n <= k ==> |ss[n].zones| == ZONES
    ensures ss[k].pushReq == z <==> PushPending(ss, acts, k, z)
  {
    hide Inv, Enabled, Step, PushAccepted;
    RunInv(ss, acts, k);
    InvWf(ss[k]);
    if k > 0 {
      AskedFor(ss, acts, k - 1, z);
      RunStep(ss, acts, k - 1);
      RequestStep(ss[k - 1], acts[k - 1]);
      LatestNext(ss, acts, k - 1, z);
    }
  }

  lemma LatestNext(ss: seq<State>, acts: seq<Action>, k: nat, z: nat)
    requires k < |acts| <= |ss| && forall n :: 0 <= n <= k ==> |ss[n].zones| == ZONES
    ensures PushPending(ss, acts, k + 1, z) <==>
      if acts[k].TickAct? then false
      else if acts[k].PushReq? && PushAccepted(ss[k], acts[k], acts[k].zone) then acts[k].zone == z
      else PushPending(ss, acts, k, z)
  {
    var next := k + 1;
    if PushAccepted(ss[k], acts[k], z) { assert Latest(ss, acts, k, next, z); }
    if m: nat :| Latest(ss, acts, m, k, z) {
      if !acts[k].TickAct? && !(acts[k].PushReq? && PushAccepted(ss[k], acts[k], acts[k].zone)) {
        assert Latest(ss, acts, m, next, z);
      }
    }
    if m: nat :| Latest(ss, acts, m, next, z) {
      if m < k { assert Latest(ss, acts, m, k, z); }
    }
  }

  // ---------------- how long a write can wait ----------------

  /** The tick gets as far as the inbox: the slot is free. */
  predicate Chance(s: State, a: Action)
    requires |s.zones| == ZONES
  {
    a.TickAct? && SlotFree(s)
  }

  ghost function Chances(ss: seq<State>, acts: seq<Action>, i: nat, j: nat): nat
    requires i <= j <= |acts| <= |ss| && forall n :: i <= n < j ==> |ss[n].zones| == ZONES
  {
    if j == i then 0 else Chances(ss, acts, i, j - 1) + (if Chance(ss[j - 1], acts[j - 1]) then 1 else 0)
  }

  /** The step takes in a write for a zone below z. */
  predicate Overtakes(s: State, a: Action, z: nat)
    requires |s.zones| == ZONES
  {
    a.SetReq? && a.zone < z && Welcome(s, a.zone)
  }

  ghost function Overtaken(ss: seq<State>, acts: seq<Action>, i: nat, j: nat, z: nat): nat
    requires i <= j <= |acts| <= |ss| && forall n :: i <= n < j ==> |ss[n].zones| == ZONES
  {
    if j == i then 0 else Overtaken(ss, acts, i, j - 1, z) + (if Overtakes(ss[j - 1], acts[j - 1], z) then 1 else 0)
  }

  /** How many zones below z have a write in the inbox. */
  function Ahead(s: State, z: nat): (n: nat)
    requires |s.zones| == ZONES && z <= ZONES + 1
    ensures z > 0 ==> n < z
  {
    if z <= 1 then 0 else Ahead(s, z - 1) + (if At(s, z - 1).write.Some? then 1 else 0)
  }

  lemma {:induction false} AheadMoves(s: State, r: State, z: nat, y: nat)
    requires |s.zones| == |r.zones| == ZONES && z <= ZONES + 1
    requires forall x :: IsZone(x) && x != y && At(r, x).write.Some? ==> At(s, x).write.Some?
    ensures Ahead(r, z) <= Ahead(s, z) + (if 1 <= y < z && At(r, y).write.Some? && At(s, y).write.None? then 1 else 0)
    ensures 1 <= y < z && At(r, y).write.None? && At(s, y).write.Some? ==> Ahead(r, z) < Ahead(s, z)
  {
    if z > 1 { AheadMoves(s, r, z - 1, y); }
  }

  /** One step: a chance while z waits uses up a write ahead of it, and only a new one adds to them. */
  lemma WaitStep(s: State, a: Action, z: nat)
    requires Inv(s) && Enabled(s, a) && IsZone(z) && |s.zones| == ZONES
    requires At(s, z).write.Some? && !(a.TickAct? && At(s, z).clear)
    requires |Step(s, a).zones| == ZONES && At(Step(s, a), z).write == At(s, z).write
    ensures Ahead(Step(s, a), z) + (if Chance(s, a) then 1 else 0) <= Ahead(s, z) + (if Overtakes(s, a, z) then 1 else 0)
  {
    hide Inv, Enabled, Step, SlotFree, Ahead, CfgSet, TakesPush;
    InvWf(s);
    var r := Step(s, a);
    forall x | IsZone(x) ensures At(r, x).write == WriteAfter(s, a, x) { StepCfg(s, a, x); }
    if a.TickAct? {
      if Chance(s, a) {
        var y := Lowest(s, z);
        assert TakesWrite(s, y);
        assert At(r, y).write.None? && At(s, y).write.Some?;
        AheadMoves(s, r, z, y);
      } else {
        AheadMoves(s, r, z, 0);
      }
    } else if a.SetReq? {
      SetVerdict(s, a.zone, a.cfg);
      AheadMoves(s, r, z, a.zone);
    } else {
      AheadMoves(s, r, z, 0);
    }
  }

  /** The lowest zone with a write that this tick does not clear. */
  lemma {:induction false} Lowest(s: State, z: nat) returns (y: nat)
    requires |s.zones| == ZONES && Queued(s, z)
    ensures y <= z && Queued(s, y) && NoneQueued(s, y)
  {
    hide Queued;
    if x: nat :| x < z && Queued(s, x) {
      y := Lowest(s, x);
    } else {
      y := z;
    }
  }

  /** Nothing clears z's inbox between steps i and j. */
  ghost predicate NotCleared(ss: seq<State>, acts: seq<Action>, i: nat, j: nat, z: nat)
    requires IsZone(z)
  {
    && i <= j <= |acts| <= |ss|
    && forall n :: i <= n < j ==> |ss[n].zones| == ZONES && !(acts[n].TickAct? && At(ss[n], z).clear)
  }

  /**
   The law of the inbox: while z's write waits, each tick with the slot free has taken one
   that was ahead of it, and only writes taken in meanwhile for lower zones join those.
   */
  lemma {:induction false} WaitingLaw(ss: seq<State>, acts: seq<Action>, i: nat, j: nat, z: nat, w: Payload)
    requires IsRun(ss, acts) && IsZone(z) && NotCleared(ss, acts, i, j, z) && j < |ss|
    requires forall n :: i <= n <= j ==> |ss[n].zones| == ZONES && At(ss[n], z).write == Some(w)
    ensures Chances(ss, acts, i, j) + Ahead(ss[j], z) <= Ahead(ss[i], z) + Overtaken(ss, acts, i, j, z)
    decreases j
  {
    hide Inv, Enabled, Step, Chance, Overtakes, Ahead;
    if i < j {
      WaitingLaw(ss, acts, i, j - 1, z, w);
      RunInv(ss, acts, j - 1);
      RunStep(ss, acts, j - 1);
      WaitStep(ss[j - 1], acts[j - 1], z);
    }
  }

  /** The tick of step n carried out zone z's write w: the push of it is under way, the inbox is empty. */
  ghost predicate CarriedAt(ss: seq<State>, acts: seq<Action>, n: nat, z: nat, w: Payload)
    requires IsZone(z)
  {
    && n < |acts| && n + 1 < |ss| && acts[n].TickAct? && |ss[n].zones| == ZONES && At(ss[n], z).write == Some(w)
    && Wf(ss[n + 1]) && At(ss[n + 1], z).write.None? && Pushes(ss[n + 1], z, Settings(w))
  }

  lemma WriteLeaves(ss: seq<State>, acts: seq<Action>, n: nat, z: nat, w: Payload)
    requires IsRun(ss, acts) && n < |acts| && IsZone(z) && |ss[n].zones| == |ss[n + 1].zones| == ZONES
    requires At(ss[n], z).write == Some(w) && !(acts[n].TickAct? && At(ss[n], z).clear)
    ensures At(ss[n + 1], z).write == Some(w) || CarriedAt(ss, acts, n, z, w)
  {
    hide Inv, Step, Enabled, Pushes, Settings, SlotFree, NoneQueued, CfgSet;
    RunInv(ss, acts, n);
    RunStep(ss, acts, n);
    StepCfg(ss[n], acts[n], z);
    if acts[n].SetReq? && acts[n].zone == z { SetKeeps(ss[n], acts[n], z); }
    if WritesIn(ss[n], acts[n], z) { WriteBegins(ss[n], acts[n], z); }
  }

  lemma SetKeeps(s: State, a: Action, z: nat)
    requires Wf(s) && IsZone(z) && At(s, z).write.Some? && a.SetReq? && a.zone == z
    ensures CfgSet(s, z, a.cfg).1 != 0
  {
  }

  /**
   So an accepted write is carried out within as many ticks with the slot free as there are
   writes ahead of it, plus one; eight at the most, plus one for each later write that is
   accepted for a lower zone meanwhile.
   */
  lemma {:induction false} CarriedWithin(ss: seq<State>, acts: seq<Action>, i: nat, j: nat, z: nat, w: Payload)
    requires IsRun(ss, acts) && IsZone(z) && NotCleared(ss, acts, i, j, z) && j < |ss|
    requires |ss[i].zones| == ZONES && At(ss[i], z).write == Some(w)
    requires Chances(ss, acts, i, j) > Ahead(ss[i], z) + Overtaken(ss, acts, i, j, z)
    ensures exists n: nat :: i <= n < j && CarriedAt(ss, acts, n, z, w)
  {
    hide Inv, Enabled, Step, CarriedAt, Ahead, Chances, Overtaken;
    if forall n: nat :: i <= n < j ==> !CarriedAt(ss, acts, n, z, w) {
      StillWaits(ss, acts, i, j, z, w);
      WaitingLaw(ss, acts, i, j, z, w);
      assert false;
    }
  }

  lemma {:induction false} StillWaits(ss: seq<State>, acts: seq<Action>, i: nat, j: nat, z: nat, w: Payload)
    requires IsRun(ss, acts) && IsZone(z) && NotCleared(ss, acts, i, j, z) && j < |ss|
    requires |ss[i].zones| == ZONES && At(ss[i], z).write == Some(w)
    requires forall n: nat :: i <= n < j ==> !CarriedAt(ss, acts, n, z, w)
    ensures forall n :: i <= n <= j ==> |ss[n].zones| == ZONES && At(ss[n], z).write == Some(w)
    decreases j
  {
    hide Inv, Enabled, Step, CarriedAt;
    if i < j {
      StillWaits(ss, acts, i, j - 1, z, w);
      RunInv(ss, acts, j);
      InvWf(ss[j]);
      WriteLeaves(ss, acts, j - 1, z, w);
      assert !CarriedAt(ss, acts, j - 1, z, w);
    }
  }

  /** At each chance, exactly: z's write is the one carried out if and only if none waits below it. */
  lemma ChanceIff(ss: seq<State>, acts: seq<Action>, n: nat, z: nat, w: Payload)
    requires IsRun(ss, acts) && n < |acts| && IsZone(z) && |ss[n].zones| == ZONES && Chance(ss[n], acts[n])
    requires At(ss[n], z).write == Some(w) && !At(ss[n], z).clear
    ensures CarriedAt(ss, acts, n, z, w) <==> NoneQueued(ss[n], z)
  {
    hide Inv, Step, Enabled, Pushes, Settings, SlotFree, NoneQueued;
    RunInv(ss, acts, n);
    RunStep(ss, acts, n);
    if NoneQueued(ss[n], z) {
      WriteBegins(ss[n], acts[n], z);
    } else {
      StepCfg(ss[n], acts[n], z);
    }
  }

  // ---------------- no number of ticks is enough ----------------

  const WRITE_TICK := TickAct(0, false, Some(0), 0)
  const WRITE_DONE := CfgEvent(0, Done(0, ""), 0)

  /** Zone 2's write waits, the slot is idle, and zone 1 is free to be written. */
  ghost predicate Pestered(s: State, w: Payload) {
    && Inv(s) && Wf(s) && s.cx.st == IDLE && 0 !in s.trk
    && At(s, 1).node.used && At(s, 1).node.health == ONLINE && At(s, 1).write.None? && At(s, 2).write == Some(w)
    && forall z :: IsZone(z) ==> !At(s, z).clear
  }

  /** Zone 1 is written, the tick pushes it, and the zone acknowledges: zone 2 is where it was. */
  lemma PesteredRound(s: State, w: Payload, p: Payload) returns (s1: State, s2: State, s3: State)
    requires Pestered(s, w)
    ensures Enabled(s, SetReq(1, p)) && s1 == Step(s, SetReq(1, p)) && Enabled(s1, WRITE_TICK)
    ensures s2 == Step(s1, WRITE_TICK) && Enabled(s2, WRITE_DONE) && s3 == Step(s2, WRITE_DONE) && Pestered(s3, w)
    ensures |s1.zones| == |s2.zones| == ZONES && At(s1, 2).write == At(s2, 2).write == Some(w)
    ensures !At(s1, 2).clear && Chance(s1, WRITE_TICK)
  {
    hide Inv, AfterClears, Tick, OnEv, Settings, PushWire;
    assert Enabled(s, SetReq(1, p));
    s1 := Step(s, SetReq(1, p));
    SetVerdict(s, 1, p);
    InvStep(s, SetReq(1, p));
    InvWf(s1);
    FreeAfterClears(s1, 0);
    s2 := Step(s1, WRITE_TICK);
    assert Queued(s1, 1) && Queued(s1, 2);
    WriteBegins(s1, WRITE_TICK, 1);
    assert s2.trk[0] == Track(Commit(1, s2.cx.pushGen, s2.wire), false);
    s3 := Step(s2, WRITE_DONE);
    InvStep(s2, WRITE_DONE);
    InvWf(s3);
    forall z | IsZone(z)
      ensures !At(s3, z).clear && At(s3, z).node == At(s, z).node
      ensures At(s3, z).write == if z == 1 then None else At(s, z).write
    {
      RoundZone(s1, s2, s3, z);
    }
    AckEnds(s2);
  }

  lemma FreeAfterClears(s: State, q: nat)
    requires Wf(s) && q !in s.trk && forall z :: IsZone(z) ==> !At(s, z).clear
    ensures Enabled(s, TickAct(0, false, Some(q), 0))
  {
    hide Wf, ClearMasked;
    InvWfLength(s);
    NoneCleared(s, 1);
  }

  lemma {:induction false} NoneCleared(s: State, id: nat)
    requires |s.zones| == ZONES && 1 <= id <= ZONES + 1 && forall z :: IsZone(z) ==> !At(s, z).clear
    ensures ClearMasked(s, id) == s
    decreases ZONES + 1 - id
  {
    hide Clear;
    if id <= ZONES { NoneCleared(s, id + 1); }
  }

  lemma RoundZone(s1: State, s2: State, s3: State, z: nat)
    requires Inv(s1) && Wf(s1) && Inv(s2) && Wf(s2) && IsZone(z) && !At(s1, z).clear
    requires Enabled(s1, WRITE_TICK) && s2 == Step(s1, WRITE_TICK) && Enabled(s2, WRITE_DONE)
    requires s3 == Step(s2, WRITE_DONE) && TakesWrite(s1, 1)
    ensures |s3.zones| == ZONES && !At(s3, z).clear && At(s3, z).node == At(s1, z).node
    ensures At(s3, z).write == if z == 1 then None else At(s1, z).write
  {
    hide Inv, AfterClears, Tick, OnEv, TakesWrite, StoreCfg, Stamp, PushGenFor, Refused, PushAcked, Wf;
    InvWfLength(s1);
    InvWfLength(s2);
    TickZone(s1, 0, false, Some(0), 0, z);
    if z != 1 { OneWrite(s1, 1, z); }
    assert 0 in s2.trk;
    EventZone(s2, 0, Done(0, ""), 0, z);
  }

  lemma AckEnds(s: State)
    requires Wf(s) && s.cx.st == PUSH_COMMIT && s.cx.seqNo == 0 && 0 in s.trk
    ensures OnEv(Answered(s, 0), 0, Done(0, ""), 0).cx.st == IDLE && 0 !in OnEv(Answered(s, 0), 0, Done(0, ""), 0).trk
  {
    hide Inner, PayloadCrc;
  }

  /** From step i on zone 2's write waits uncleared, and there have been n chances. */
  ghost predicate KeptWaiting(ss: seq<State>, acts: seq<Action>, i: nat, n: nat, w: Payload) {
    && |ss| == |acts| + 1 && NotCleared(ss, acts, i, |acts|, 2) && Chances(ss, acts, i, |acts|) == n
    && forall k :: i <= k < |ss| ==> |ss[k].zones| == ZONES && At(ss[k], 2).write == Some(w)
  }

  lemma ExtendWait(ss: seq<State>, acts: seq<Action>, i: nat, n: nat, w: Payload, a: Action)
    returns (ss': seq<State>, acts': seq<Action>)
    requires IsRun(ss, acts) && KeptWaiting(ss, acts, i, n, w) && Enabled(ss[|acts|], a)
    requires !(a.TickAct? && At(ss[|acts|], 2).clear)
    requires |Step(ss[|acts|], a).zones| == ZONES && At(Step(ss[|acts|], a), 2).write == Some(w)
    ensures IsRun(ss', acts') && ss'[|acts'|] == Step(ss[|acts|], a) && ss <= ss' && acts <= acts'
    ensures KeptWaiting(ss', acts', i, n + (if Chance(ss[|acts|], a) then 1 else 0), w)
  {
    hide Inv, Enabled, Step, Chance;
    ss', acts' := ss + [Step(ss[|acts|], a)], acts + [a];
    forall k | 0 <= k < |acts'| ensures Enabled(ss'[k], acts'[k]) && ss'[k + 1] == Step(ss'[k], acts'[k]) {
      if k < |acts| { assert ss'[k] == ss[k] && ss'[k + 1] == ss[k + 1] && acts'[k] == acts[k]; }
    }
    ChancesPrefix(ss, acts, ss', acts', i, |acts|);
  }

  lemma {:induction false} ChancesPrefix(ss: seq<State>, acts: seq<Action>, ss': seq<State>, acts': seq<Action>,
        i: nat, j: nat)
    requires i <= j <= |acts| <= |ss| && |acts'| <= |ss'| && ss <= ss' && acts <= acts'
    requires forall n :: i <= n < j ==> |ss[n].zones| == ZONES
    ensures (forall n :: i <= n < j ==> |ss'[n].zones| == ZONES) && Chances(ss', acts', i, j) == Chances(ss, acts, i, j)
    decreases j
  {
    hide Chance;
    if i < j { ChancesPrefix(ss, acts, ss', acts', i, j - 1); }
  }

  lemma {:induction false} Rounds(ss: seq<State>, acts: seq<Action>, w: Payload, p: Payload, n: nat)
    returns (ss': seq<State>, acts': seq<Action>)
    requires IsRun(ss, acts) && Pestered(ss[|acts|], w)
    ensures IsRun(ss', acts') && ss <= ss' && acts <= acts' && Pestered(ss'[|acts'|], w)
    ensures KeptWaiting(ss', acts', |acts|, n, w)
  {
    hide Inv, Enabled, Step, Chance, Chances, SlotFree;
    if n == 0 {
      NoChances(ss, acts);
      ss', acts' := ss, acts;
    } else {
      ss', acts' := Rounds(ss, acts, w, p, n - 1);
      var s1, s2, s3 := PesteredRound(ss'[|acts'|], w, p);
      NoChance(ss'[|acts'|], SetReq(1, p));
      ss', acts' := ExtendWait(ss', acts', |acts|, n - 1, w, SetReq(1, p));
      ss', acts' := ExtendWait(ss', acts', |acts|, n - 1, w, WRITE_TICK);
      NoChance(s2, WRITE_DONE);
      ss', acts' := ExtendWait(ss', acts', |acts|, n, w, WRITE_DONE);
    }
  }

  lemma NoChances(ss: seq<State>, acts: seq<Action>)
    requires |acts| < |ss|
    ensures Chances(ss, acts, |acts|, |acts|) == 0
  {
  }

  lemma NoChance(s: State, a: Action)
    requires |s.zones| == ZONES && !a.TickAct?
    ensures !Chance(s, a)
  {
  }

  /**
   Without a bound on later writes for lower zones there is no bound at all: from any
   power-on state with zones 1 and 2 ONLINE, for every n, a run in which a write accepted for
   zone 2 is still waiting, uncleared, after n ticks with the slot free, because zone 1 is
   written again before each of them.
   */
  lemma WriteStarved(s: State, w: Payload, p: Payload, n: nat) returns (ss: seq<State>, acts: seq<Action>)
    requires Init(s) && |s.zones| == ZONES
    requires At(s, 1).node.used && At(s, 1).node.health == ONLINE && At(s, 2).node.used && At(s, 2).node.health == ONLINE
    ensures IsRun(ss, acts) && ss[0] == s && |acts| > 0 && acts[0] == SetReq(2, w) && CfgSet(s, 2, w).1 == 0
    ensures KeptWaiting(ss, acts, 1, n, w)
  {
    hide Inv, Step, Enabled, Settings, Chance, CfgSet;
    PesteredFirst(s, w);
    ss, acts := [s, Step(s, SetReq(2, w))], [SetReq(2, w)];
    ss, acts := Rounds(ss, acts, w, p, n);
  }

  lemma PesteredFirst(s: State, w: Payload)
    requires Init(s) && |s.zones| == ZONES
    requires At(s, 1).node.used && At(s, 1).node.health == ONLINE && At(s, 2).node.used && At(s, 2).node.health == ONLINE
    ensures Inv(s) && Enabled(s, SetReq(2, w)) && Pestered(Step(s, SetReq(2, w)), w) && CfgSet(s, 2, w).1 == 0
  {
    hide Inv;
    InitInv(s);
    InvWf(s);
    assert Enabled(s, SetReq(2, w));
    InvStep(s, SetReq(2, w));
    InvWf(Step(s, SetReq(2, w)));
  }
}
