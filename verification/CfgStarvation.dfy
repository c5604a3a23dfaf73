/**
 Rule (a) where it fails (components/node_mgr/node_mgr_cfg.c): a run from power-on, at the
 real pace of two ticks from one heartbeat of a board to its next, in which a zone in line
 with a config to adopt is passed over by every one of any number of scans.

 Four boards answer: 1, 5, 7 and 8. The envelopes of 5, 7 and 8 are too new for the master,
 so both their planes are latched and nothing is started for them; zone 1 waits to be
 adopted. The scans start alternately at 6 and at 8, and neither ever reaches 1.
 */
module CfgStarvation {
  import opened Wrappers
  import opened CfgEnvelope
  import opened RingTracker
  import opened CfgState
  import opened CfgInvariant
  import opened CfgSystem
  import opened CfgMoves
  import opened CfgScan
  import opened CfgFairness
  import opened CfgAdopt
  import Blob

  // ---------------- quiet states told apart by who was heard ----------------

  /** No transfer, nothing queued, nobody cooling down. */
  predicate Calm(s: State) {
    && Wf(s) && s.cx == IDLE_SLOT && s.trk == map[] && s.pushReq == 0
    && forall i :: 0 <= i < ZONES ==> !s.zones[i].clear && s.zones[i].write.None? && s.zones[i].cooldown == 0
  }

  /** State b with the zones in `news` heard since their last decision, and the next scan from rr. */
  function Heard(b: State, news: set<nat>, rr: nat): State
    requires |b.zones| == ZONES
  {
    b.(zones := seq(ZONES, i requires 0 <= i < ZONES => b.zones[i].(isFresh := i + 1 in news)), rr := rr)
  }

  predicate AllReachable(b: State, news: set<nat>)
    requires |b.zones| == ZONES
  {
    forall z :: z in news ==> IsZone(z) && Reachable(At(b, z).node)
  }

  lemma HeardCalm(b: State, news: set<nat>, rr: nat)
    requires Calm(b) && IsZone(rr)
    ensures |b.zones| == ZONES && Calm(Heard(b, news, rr))
  {
  }

  lemma Heartbeat(b: State, news: set<nat>, rr: nat, z: nat)
    requires |b.zones| == ZONES && IsZone(z)
    ensures NoteFreshHb(Heard(b, news, rr), z) == Heard(b, news + {z}, rr)
  {
    var s, t := NoteFreshHb(Heard(b, news, rr), z), Heard(b, news + {z}, rr);
    assert forall i :: 0 <= i < ZONES ==> s.zones[i] == t.zones[i];
  }

  lemma HeardGate(b: State, news: set<nat>, rr: nat, id: nat, now: bv32)
    requires Calm(b) && IsZone(rr) && IsZone(id) && |b.zones| == ZONES && AllReachable(b, news)
    ensures Gate(Heard(b, news, rr), id, now)
         == if id in news then (Heard(b, news - {id}, id % ZONES + 1), true) else (Heard(b, news, rr), false)
  {
    hide Reachable, Wf;
    HeardShape(b, news, rr);
    assert At(b, id).cooldown == 0;
    if id in news {
      var h, t := Heard(b, news, rr), Heard(b, news - {id}, id % ZONES + 1);
      assert Gate(h, id, now) == (Put(h, id, At(h, id).(isFresh := false)).(rr := id % ZONES + 1), true);
      assert Put(h, id, At(h, id).(isFresh := false)).zones == t.zones;
    }
  }

  lemma {:induction false} NoClears(s: State, id: nat)
    requires |s.zones| == ZONES && 1 <= id <= ZONES + 1
    requires forall i :: 0 <= i < ZONES ==> !s.zones[i].clear
    ensures ClearMasked(s, id) == s
    decreases ZONES + 1 - id
  {
    hide Clear;
    if id <= ZONES { NoClears(s, id + 1); }
  }

  /** The tick of a quiet state is a scan of that very state. */
  lemma CalmTick(s: State, a: Action)
    requires Calm(s) && a.TickAct?
    ensures AfterClears(s) == s && IsScan(s, a)
    ensures Tick(s, a.now, a.expired, a.sub, a.clock) == Scan(s, 0, a.now, a.sub, a.clock)
  {
    hide ClearMasked, Scan, FirstWrite, Wf;
    InvWfLength(s);
    NoClears(s, 1);
    assert s.(pushReq := 0) == s;
  }

  // ---------------- scans of quiet states ----------------

  lemma {:induction false} SkipTurns(b: State, news: set<nat>, rr: nat, i: nat, j: nat,
        now: bv32, sub: Option<nat>, clock: bv32)
    requires Calm(b) && IsZone(rr) && i <= j <= ZONES && |b.zones| == ZONES && AllReachable(b, news)
    requires forall k: nat :: i <= k < j ==> ScanId(rr, k) !in news
    ensures var s := Heard(b, news, rr); Wf(s) && Scan(s, i, now, sub, clock) == Scan(s, j, now, sub, clock)
    decreases j - i
  {
    hide Gate, Heard, TryStart, Wf, ScanId, Reachable;
    HeardCalm(b, news, rr);
    if i < j {
      HeardShape(b, news, rr);
      HeardGate(b, news, rr, ScanId(rr, i), now);
      SkipTurns(b, news, rr, i + 1, j, now, sub, clock);
    }
  }

  lemma HeardShape(b: State, news: set<nat>, rr: nat)
    requires |b.zones| == ZONES
    ensures var s := Heard(b, news, rr);
      && |s.zones| == ZONES && s.rr == rr && s.cx == b.cx && s.trk == b.trk
      && forall z :: IsZone(z) ==> At(s, z) == At(b, z).(isFresh := z in news)
  {
  }

  /** A zone in line with nothing to start: the scan goes on past it, from a start moved past it. */
  lemma IdleTurn(b: State, news: set<nat>, rr: nat, i: nat, now: bv32, sub: Option<nat>, clock: bv32)
    requires Calm(b) && IsZone(rr) && i < ZONES && |b.zones| == ZONES && AllReachable(b, news)
    requires ScanId(rr, i) in news && Settled(At(b, ScanId(rr, i)))
    ensures var id := ScanId(rr, i);
            var s, t := Heard(b, news, rr), Heard(b, news - {id}, id % ZONES + 1);
      && Wf(s) && Wf(t) && AllReachable(b, news - {id})
      && Scan(s, i, now, sub, clock) == Scan(t, i + 1, now, sub, clock)
  {
    hide Gate, Heard, TryStart, Wf, ScanId, Settled, Reachable;
    var id := ScanId(rr, i);
    HeardCalm(b, news, rr);
    HeardCalm(b, news - {id}, id % ZONES + 1);
    HeardShape(b, news, rr);
    HeardShape(b, news - {id}, id % ZONES + 1);
    HeardGate(b, news, rr, id, now);
    var t := Heard(b, news - {id}, id % ZONES + 1);
    SettledMove(At(b, id), At(t, id));
    SettledIff(t, id, sub, clock);
  }

  /** A zone in line with something to start gets it, and the scan is over. */
  lemma BusyTurn(b: State, news: set<nat>, rr: nat, i: nat, now: bv32, sub: Option<nat>, clock: bv32)
    requires Calm(b) && IsZone(rr) && i < ZONES && |b.zones| == ZONES && AllReachable(b, news)
    requires ScanId(rr, i) in news && !Settled(At(b, ScanId(rr, i)))
    ensures var id := ScanId(rr, i);
            var s, t := Heard(b, news, rr), Heard(b, news - {id}, id % ZONES + 1);
      Wf(s) && Wf(t) && Scan(s, i, now, sub, clock) == TryStart(t, id, sub, clock)
  {
    hide Gate, Heard, TryStart, Wf, ScanId, Settled, Reachable;
    var id := ScanId(rr, i);
    HeardCalm(b, news, rr);
    HeardCalm(b, news - {id}, id % ZONES + 1);
    HeardShape(b, news, rr);
    HeardShape(b, news - {id}, id % ZONES + 1);
    HeardGate(b, news, rr, id, now);
    var t := Heard(b, news - {id}, id % ZONES + 1);
    SettledMove(At(b, id), At(t, id));
    SettledIff(t, id, sub, clock);
  }

  // ---------------- a board whose envelopes are too new ----------------

  lemma NewerEnvelope(kind: nat) returns (bytes: seq<bv8>)
    requires 1 <= kind <= 2
    ensures UnwrapPlane(kind, bytes) == Blob.EVersionNewer
  {
    hide Blob.Unwrap, Blob.Wrap;
    var magic, cap := if kind == 1 then MAGIC_CFG else MAGIC_HW, if kind == 1 then CFG_LEN else HW_LEN;
    bytes := Blob.Wrap(magic, VER + 1, 0, []) + [];
    Blob.UnwrapWrongVersion(magic, VER + 1, 0, [], [], VER, VER, cap);
  }

  /** The plane of an empty cache is up next: config first, hardware once config is latched. */
  predicate Untried(zn: Zone, kind: nat) {
    && Reachable(zn.node) && !zn.cfg.valid && !zn.hw.valid
    && (if kind == 1 then !Latched(zn, 1, CfgIdent(zn))
        else kind == 2 && Latched(zn, 1, CfgIdent(zn)) && !Latched(zn, 2, HwIdent(zn)))
  }

  function PlaneId(zn: Zone, kind: nat): Ident { if kind == 1 then CfgIdent(zn) else HwIdent(zn) }

  /** The same state with one plane of one zone latched on what it shows. */
  function WithLatch(b: State, z: nat, kind: nat): State
    requires |b.zones| == ZONES && IsZone(z)
  {
    Put(b, z, SetLatch(At(b, z), kind, Some(PlaneId(At(b, z), kind))))
  }

  /** A run goes on with any enabled action. */
  lemma Extend(ss: seq<State>, acts: seq<Action>, a: Action) returns (ss': seq<State>, acts': seq<Action>)
    requires IsRun(ss, acts) && Enabled(ss[|acts|], a)
    ensures ss' == ss + [Step(ss[|acts|], a)] && acts' == acts + [a] && IsRun(ss', acts')
  {
    hide Inv, Enabled, Step;
    ss', acts' := ss + [Step(ss[|acts|], a)], acts + [a];
    forall k | 0 <= k < |acts'| ensures Enabled(ss'[k], acts'[k]) && ss'[k + 1] == Step(ss'[k], acts'[k]) {
      if k < |acts| { assert ss'[k] == ss[k] && ss'[k + 1] == ss[k + 1] && acts'[k] == acts[k]; }
    }
  }

  const PULL_TICK := TickAct(0, false, Some(0), 0)

  lemma AskScan(b: State, rr: nat, z: nat, kind: nat)
    requires Calm(b) && IsZone(rr) && IsZone(z) && |b.zones| == ZONES && Untried(At(b, z), kind)
    ensures var s, e := Heard(b, {z}, rr), Heard(b, {}, z % ZONES + 1);
      Wf(s) && Wf(e) && Scan(s, 0, 0, Some(0), 0) == TryStart(e, z, Some(0), 0)
  {
    hide Heard, Wf, Scan, TryStart, ScanId, Reachable, Tick, CxPull, Untried, Settled, Calm;
    UntriedHasWork(At(b, z), kind);
    var d := Distance(rr, z);
    SkipTurns(b, {z}, rr, 0, d, 0, Some(0), 0);
    BusyTurn(b, {z}, rr, d, 0, Some(0), 0);
    assert {z} - {z} == {};
  }

  /** The tick after an untried board's heartbeat asks it for that plane. */
  lemma AsksFor(b: State, rr: nat, z: nat, kind: nat)
    requires Calm(b) && IsZone(rr) && IsZone(z) && |b.zones| == ZONES && Untried(At(b, z), kind)
    ensures var s, e := Heard(b, {z}, rr), Heard(b, {}, z % ZONES + 1);
      && Enabled(s, PULL_TICK) && Wf(e)
      && Step(s, PULL_TICK) == CxPull(e, z, kind, PlaneId(At(b, z), kind), Some(0), 0)
  {
    hide Heard, Wf, Scan, TryStart, ScanId, Reachable, Tick, CxPull, Untried, AfterClears, PlaneId, Settled;
    HeardCalm(b, {z}, rr);
    HeardCalm(b, {}, z % ZONES + 1);
    HeardShape(b, {}, z % ZONES + 1);
    CalmTick(Heard(b, {z}, rr), PULL_TICK);
    AskScan(b, rr, z, kind);
    SameIds(At(b, z), false);
    Asks(Heard(b, {}, z % ZONES + 1), z, kind);
  }

  lemma UntriedHasWork(zn: Zone, kind: nat)
    requires Untried(zn, kind)
    ensures Reachable(zn.node) && !Settled(zn) && (kind == 1 || kind == 2)
  {
  }

  lemma SameIds(zn: Zone, news: bool)
    ensures PlaneId(zn.(isFresh := news), 1) == PlaneId(zn, 1) && PlaneId(zn.(isFresh := news), 2) == PlaneId(zn, 2)
    ensures forall kind: nat :: PlaneId(zn.(isFresh := news), kind) == PlaneId(zn, kind)
    ensures forall kind: nat :: Untried(zn.(isFresh := news), kind) == Untried(zn, kind)
  {
  }

  lemma Asks(e: State, z: nat, kind: nat)
    requires Wf(e) && IsZone(z) && |e.zones| == ZONES && Untried(At(e, z), kind)
    ensures TryStart(e, z, Some(0), 0).0 == CxPull(e, z, kind, PlaneId(At(e, z), kind), Some(0), 0)
  {
    hide PushWire, Wf, CxPull, CxPush;
  }

  /** The board answers with an envelope of a newer layout: the plane is latched, all else as before. */
  lemma RefusesForGood(e: State, z: nat, kind: nat, id: Ident, bytes: seq<bv8>)
    requires Calm(e) && IsZone(z) && 1 <= kind <= 2 && UnwrapPlane(kind, bytes) == Blob.EVersionNewer
    ensures var s2 := CxPull(e, z, kind, id, Some(0), 0);
            var acked := CfgEvent(0, Done(0, ""), 0);
            var refused := ChunkIn(z, Complete(bytes), 0);
      && Enabled(s2, acked) && Enabled(Step(s2, acked), refused)
      && |e.zones| == ZONES
      && Step(Step(s2, acked), refused) == Put(e, z, SetLatch(At(e, z), kind, Some(id)))
  {
    hide UnwrapPlane, SetLatch, PushWire, AfterClears, Tick, TerminalReply;
    var s2 := CxPull(e, z, kind, id, Some(0), 0);
    assert s2.trk == map[0 := Track(Get(z, kind), false)];
    assert s2.trk - {0} == map[];
    var s3 := OnEv(Answered(s2, 0), 0, Done(0, ""), 0);
    assert s3 == e.(cx := s3.cx) && s3.cx.st == PULL_STREAM && s3.cx.zone == z && s3.cx.kind == kind && s3.cx.id == id;
  }

  lemma LatchHeard(b: State, z: nat, kind: nat, rr: nat)
    requires Calm(b) && IsZone(z) && IsZone(rr) && |b.zones| == ZONES
    ensures Calm(WithLatch(b, z, kind))
    ensures Put(Heard(b, {}, rr), z, SetLatch(At(Heard(b, {}, rr), z), kind, Some(PlaneId(At(b, z), kind))))
         == Heard(WithLatch(b, z, kind), {}, rr)
  {
    var s := Put(Heard(b, {}, rr), z, SetLatch(At(Heard(b, {}, rr), z), kind, Some(PlaneId(At(b, z), kind))));
    assert s.zones == Heard(WithLatch(b, z, kind), {}, rr).zones;
  }

  /** Four steps of any run at rest latch one untried plane. */
  lemma LatchPlane(ss: seq<State>, acts: seq<Action>, b: State, rr: nat, z: nat, kind: nat)
    returns (ss': seq<State>, acts': seq<Action>)
    requires IsRun(ss, acts) && Calm(b) && IsZone(rr) && IsZone(z) && |b.zones| == ZONES && Untried(At(b, z), kind)
    requires ss[|acts|] == Heard(b, {}, rr)
    ensures IsRun(ss', acts') && ss <= ss' && Calm(WithLatch(b, z, kind))
    ensures ss'[|acts'|] == Heard(WithLatch(b, z, kind), {}, z % ZONES + 1)
  {
    hide Inv, Heard, Wf, Untried, CxPull, PlaneId, SetLatch, UnwrapPlane, Calm, Reachable, Enabled, Step;
    var e := Heard(b, {}, z % ZONES + 1);
    HeardCalm(b, {}, rr);
    HeardCalm(b, {}, z % ZONES + 1);
    CalmWf(Heard(b, {}, rr));
    UntriedHasWork(At(b, z), kind);
    Beats(Heard(b, {}, rr), z);
    ss', acts' := Extend(ss, acts, FreshHb(z));
    Heartbeat(b, {}, rr, z);
    assert {} + {z} == {z};
    AsksFor(b, rr, z, kind);
    ss', acts' := Extend(ss', acts', PULL_TICK);
    var bytes := NewerEnvelope(kind);
    RefusesForGood(e, z, kind, PlaneId(At(b, z), kind), bytes);
    ss', acts' := Extend(ss', acts', CfgEvent(0, Done(0, ""), 0));
    ss', acts' := Extend(ss', acts', ChunkIn(z, Complete(bytes), 0));
    LatchHeard(b, z, kind, z % ZONES + 1);
  }

  lemma Beats(s: State, z: nat)
    requires Wf(s)
    ensures Enabled(s, FreshHb(z)) && |s.zones| == ZONES && Step(s, FreshHb(z)) == NoteFreshHb(s, z)
  {
  }

  lemma CalmWf(s: State)
    requires Calm(s)
    ensures Wf(s) && |s.zones| == ZONES
  {
  }

  predicate Blank(zn: Zone) {
    Reachable(zn.node) && !zn.cfg.valid && !zn.hw.valid && zn.latch.None? && zn.hwLatch.None?
  }

  lemma BlankThenLatched(zn: Zone)
    requires Blank(zn)
    ensures Untried(zn, 1)
    ensures var one := SetLatch(zn, 1, Some(PlaneId(zn, 1)));
            var both := SetLatch(one, 2, Some(PlaneId(one, 2)));
      Untried(one, 2) && Settled(both) && both.node == zn.node
  {
  }

  /** A board refused on both planes is in line for nothing from then on; the others are as they were. */
  lemma SettleBoard(ss: seq<State>, acts: seq<Action>, b: State, rr: nat, z: nat)
    returns (ss': seq<State>, acts': seq<Action>, c: State)
    requires IsRun(ss, acts) && Calm(b) && IsZone(rr) && IsZone(z) && |b.zones| == ZONES && Blank(At(b, z))
    requires ss[|acts|] == Heard(b, {}, rr)
    ensures IsRun(ss', acts') && ss <= ss' && Calm(c) && |c.zones| == ZONES
    ensures ss'[|acts'|] == Heard(c, {}, z % ZONES + 1)
    ensures Settled(At(c, z)) && At(c, z).node == At(b, z).node
    ensures forall y :: IsZone(y) && y != z ==> At(c, y) == At(b, y)
  {
    hide Inv, Heard, Untried, PlaneId, SetLatch, Calm, Reachable, Blank, Settled;
    BlankThenLatched(At(b, z));
    ss', acts' := LatchPlane(ss, acts, b, rr, z, 1);
    var b1 := WithLatch(b, z, 1);
    ss', acts' := LatchPlane(ss', acts', b1, z % ZONES + 1, z, 2);
    c := WithLatch(b1, z, 2);
  }

  // ---------------- the two scans that never reach zone 1 ----------------

  /** Boards 5, 7 and 8 have nothing to be started, board 1 has, and all four answer. */
  predicate Stuck(b: State) {
    && Calm(b) && |b.zones| == ZONES && AllReachable(b, {1, 5, 7, 8})
    && Settled(At(b, 5)) && Settled(At(b, 7)) && Settled(At(b, 8)) && Blank(At(b, 1))
  }

  lemma Ids()
    ensures ScanId(6, 0) == 6 && ScanId(6, 1) == 7 && ScanId(8, 0) == 8 && ScanId(1, 4) == 5
    ensures forall k: nat :: 2 <= k < ZONES ==> ScanId(8, k) == k
    ensures forall k: nat :: 1 <= k < 4 ==> ScanId(1, k) == k + 1
    ensures forall k: nat :: 5 <= k < ZONES ==> ScanId(6, k) == k - 2
  {
  }

  /** From 6 the scan sees 6, 7, and then, its start moved to 8, the ids 2 to 7. */
  lemma ScanFromSix(b: State, now: bv32, sub: Option<nat>, clock: bv32)
    requires Stuck(b)
    ensures var s := Heard(b, {1, 7}, 6); Wf(s) && Scan(s, 0, now, sub, clock) == (Heard(b, {1}, 8), Nothing)
  {
    hide Heard, Scan, ScanId, Settled, Reachable, Calm, Blank;
    Ids();
    SkipTurns(b, {1, 7}, 6, 0, 1, now, sub, clock);
    IdleTurn(b, {1, 7}, 6, 1, now, sub, clock);
    assert {1, 7} - {7} == {1};
    SkipTurns(b, {1}, 8, 2, ZONES, now, sub, clock);
    ScanOver(Heard(b, {1}, 8), now, sub, clock);
  }

  /** From 8 it sees 8, then 2 to 5 from a start moved to 1, then 3 to 5 from a start moved to 6. */
  lemma ScanFromEight(b: State, now: bv32, sub: Option<nat>, clock: bv32)
    requires Stuck(b)
    ensures var s := Heard(b, {1, 5, 8}, 8); Wf(s) && Scan(s, 0, now, sub, clock) == (Heard(b, {1}, 6), Nothing)
  {
    hide Heard, Scan, ScanId, Settled, Reachable, Calm, Blank;
    Ids();
    IdleTurn(b, {1, 5, 8}, 8, 0, now, sub, clock);
    assert {1, 5, 8} - {8} == {1, 5};
    SkipTurns(b, {1, 5}, 1, 1, 4, now, sub, clock);
    IdleTurn(b, {1, 5}, 1, 4, now, sub, clock);
    assert {1, 5} - {5} == {1};
    SkipTurns(b, {1}, 6, 5, ZONES, now, sub, clock);
    ScanOver(Heard(b, {1}, 6), now, sub, clock);
  }

  lemma ScanOver(s: State, now: bv32, sub: Option<nat>, clock: bv32)
    requires Wf(s)
    ensures Scan(s, ZONES, now, sub, clock) == (s, Nothing)
  {
  }

  // ---------------- the run ----------------

  /** x has a config to be adopted and is in line, and the step is no tick, or a scan that looks at others only. */
  predicate PassedBy(s: State, a: Action, x: nat)
    requires IsZone(x)
  {
    && Wf(s) && |s.zones| == ZONES && Blank(At(s, x)) && At(s, x).isFresh
    && Waits(s, a, x) && !Looks(s, a, x) && !Starts(s, a, x)
    && (a.TickAct? ==> IsScan(s, a))
  }

  lemma HeartbeatPasses(b: State, news: set<nat>, rr: nat, z: nat)
    requires Stuck(b) && IsZone(rr) && 1 in news
    ensures PassedBy(Heard(b, news, rr), FreshHb(z), 1)
  {
    hide Heard, Reachable, Wf;
    HeardCalm(b, news, rr);
    HeardShape(b, news, rr);
    CalmWf(Heard(b, news, rr));
  }

  /** A scan of a quiet state that leaves zone 1 heard has not looked at it. */
  lemma ScanPasses(b: State, news: set<nat>, rr: nat, r: nat, a: Action)
    requires Stuck(b) && IsZone(rr) && 1 in news && a.TickAct?
    requires Wf(Heard(b, news, rr))
    requires Scan(Heard(b, news, rr), 0, a.now, a.sub, a.clock) == (Heard(b, {1}, r), Nothing)
    ensures var s := Heard(b, news, rr); PassedBy(s, a, 1) && IsScan(s, a)
    ensures Tick(Heard(b, news, rr), a.now, a.expired, a.sub, a.clock).0 == Heard(b, {1}, r)
  {
    hide Heard, Wf, Scan, Examined, Tick, AfterClears, IsScan, Visited, Reachable;
    var s := Heard(b, news, rr);
    HeardCalm(b, news, rr);
    HeardShape(b, news, rr);
    HeardShape(b, {1}, r);
    CalmTick(s, a);
    FreshLeft(s, 0, a.now, a.sub, a.clock, 1);
    VisitedExamined(s, a.now, 1);
    assert At(s, 1).cooldown == 0;
    IsReachable(At(s, 1).node);
  }

  lemma IsReachable(nd: Node)
    ensures Reachable(nd) <==> nd.used && nd.health != OFFLINE && nd.health != UPDATING
  {
  }

  lemma VisitedExamined(s: State, now: bv32, x: nat)
    requires Wf(s) && x !in Examined(s, 0, now)
    ensures x !in Visited(s, now)
  {
    hide Examined, Wf, Turns;
  }

  /** From step i on, every step passes zone 1 by. */
  ghost predicate AllPass(ss: seq<State>, acts: seq<Action>, i: nat) {
    |ss| == |acts| + 1 && i <= |acts| && forall k :: i <= k < |acts| ==> PassedBy(ss[k], acts[k], 1)
  }

  lemma PassedWf(ss: seq<State>, acts: seq<Action>, i: nat)
    requires AllPass(ss, acts, i)
    ensures forall k :: i <= k < |acts| ==> Wf(ss[k])
  {
    hide Wf, Waits, Looks, Starts, Blank;
  }

  function ScanCount(ss: seq<State>, acts: seq<Action>, i: nat): nat
    requires |ss| == |acts| + 1 && i <= |acts| && forall k :: i <= k < |acts| ==> Wf(ss[k])
  {
    Scans(ss, acts, i, |acts|)
  }

  lemma {:induction false} ScansPrefix(ss: seq<State>, acts: seq<Action>, ss': seq<State>, acts': seq<Action>,
        i: nat, j: nat)
    requires i <= j <= |acts| <= |ss| && |acts'| <= |ss'| && ss <= ss' && acts <= acts'
    requires forall k :: i <= k < j ==> Wf(ss[k])
    ensures (forall k :: i <= k < j ==> Wf(ss'[k])) && Scans(ss', acts', i, j) == Scans(ss, acts, i, j)
    decreases j
  {
    hide Wf, IsScan;
    if i < j { ScansPrefix(ss, acts, ss', acts', i, j - 1); }
  }

  /** A run that passes zone 1 by goes on with one more such step. */
  lemma PassOn(ss: seq<State>, acts: seq<Action>, i: nat, a: Action) returns (ss': seq<State>, acts': seq<Action>)
    requires IsRun(ss, acts) && AllPass(ss, acts, i) && Enabled(ss[|acts|], a) && PassedBy(ss[|acts|], a, 1)
    requires forall k :: i <= k < |acts| ==> Wf(ss[k])
    ensures IsRun(ss', acts') && AllPass(ss', acts', i) && ss <= ss' && ss'[|acts'|] == Step(ss[|acts|], a)
    ensures acts' == acts + [a]
    ensures Wf(ss[|acts|]) && forall k :: i <= k < |acts'| ==> Wf(ss'[k])
    ensures ScanCount(ss', acts', i) == ScanCount(ss, acts, i) + (if IsScan(ss[|acts|], a) then 1 else 0)
  {
    hide Inv, Enabled, Step, PassedBy, Wf, IsScan;
    ss', acts' := Extend(ss, acts, a);
    forall k | i <= k < |acts'| ensures PassedBy(ss'[k], acts'[k], 1) {
      if k < |acts| { assert ss'[k] == ss[k] && acts'[k] == acts[k]; }
    }
    PassedWf(ss', acts', i);
    ScansPrefix(ss, acts, ss', acts', i, |acts|);
  }

  const SCAN := TickAct(0, false, None, 0)

  lemma HeartbeatOn(ss: seq<State>, acts: seq<Action>, i: nat, b: State, news: set<nat>, rr: nat, z: nat)
    returns (ss': seq<State>, acts': seq<Action>)
    requires IsRun(ss, acts) && AllPass(ss, acts, i) && Stuck(b) && IsZone(rr) && 1 in news && IsZone(z)
    requires ss[|acts|] == Heard(b, news, rr) && forall k :: i <= k < |acts| ==> Wf(ss[k])
    ensures IsRun(ss', acts') && AllPass(ss', acts', i) && ss <= ss' && ss'[|acts'|] == Heard(b, news + {z}, rr)
    ensures acts' == acts + [FreshHb(z)]
    ensures forall k :: i <= k < |acts'| ==> Wf(ss'[k])
    ensures ScanCount(ss', acts', i) == ScanCount(ss, acts, i)
  {
    hide Inv, PassedBy, Wf, Heard, AllPass, Scans, Reachable;
    HeartbeatPasses(b, news, rr, z);
    HeardCalm(b, news, rr);
    CalmWf(Heard(b, news, rr));
    Heartbeat(b, news, rr, z);
    ss', acts' := PassOn(ss, acts, i, FreshHb(z));
  }

  lemma ScanOn(ss: seq<State>, acts: seq<Action>, i: nat, b: State, news: set<nat>, rr: nat, r: nat)
    returns (ss': seq<State>, acts': seq<Action>)
    requires IsRun(ss, acts) && AllPass(ss, acts, i) && Stuck(b) && IsZone(rr) && 1 in news
    requires ss[|acts|] == Heard(b, news, rr) && forall k :: i <= k < |acts| ==> Wf(ss[k])
    requires Wf(Heard(b, news, rr)) && Scan(Heard(b, news, rr), 0, 0, None, 0) == (Heard(b, {1}, r), Nothing)
    ensures IsRun(ss', acts') && AllPass(ss', acts', i) && ss <= ss' && ss'[|acts'|] == Heard(b, {1}, r)
    ensures acts' == acts + [SCAN]
    ensures forall k :: i <= k < |acts'| ==> Wf(ss'[k])
    ensures ScanCount(ss', acts', i) == ScanCount(ss, acts, i) + 1
  {
    hide Inv, PassedBy, Wf, Heard, AllPass, Scans, Scan, Tick, IsScan, Reachable, AfterClears;
    ScanPasses(b, news, rr, r, SCAN);
    HeardCalm(b, news, rr);
    ss', acts' := PassOn(ss, acts, i, SCAN);
  }

  /** Two seconds of the ring: each of the four boards is heard once, and the tick comes twice. */
  const ROUND := [FreshHb(7), SCAN, FreshHb(5), FreshHb(8), FreshHb(1), SCAN]

  function Rounds(n: nat): (r: seq<Action>)
    ensures |r| == 6 * n
  {
    if n == 0 then [] else Rounds(n - 1) + ROUND
  }

  /** One second: board 7 is heard, and the tick scans from 6. */
  lemma TickFromSix(ss: seq<State>, acts: seq<Action>, i: nat, b: State) returns (ss': seq<State>, acts': seq<Action>)
    requires IsRun(ss, acts) && AllPass(ss, acts, i) && Stuck(b) && ss[|acts|] == Heard(b, {1}, 6)
    requires forall k :: i <= k < |acts| ==> Wf(ss[k])
    ensures IsRun(ss', acts') && AllPass(ss', acts', i) && ss <= ss' && ss'[|acts'|] == Heard(b, {1}, 8)
    ensures acts' == acts + [FreshHb(7)] + [SCAN]
    ensures forall k :: i <= k < |acts'| ==> Wf(ss'[k])
    ensures ScanCount(ss', acts', i) == ScanCount(ss, acts, i) + 1
  {
    hide Inv, Wf, Heard, AllPass, Scan, Stuck, ScanCount, IsRun;
    ss', acts' := HeartbeatOn(ss, acts, i, b, {1}, 6, 7);
    assert {1} + {7} == {1, 7};
    ScanFromSix(b, 0, None, 0);
    ss', acts' := ScanOn(ss', acts', i, b, {1, 7}, 6, 8);
  }

  /** The next second: boards 5, 8 and 1 are heard, and the tick scans from 8. */
  lemma TickFromEight(ss: seq<State>, acts: seq<Action>, i: nat, b: State) returns (ss': seq<State>, acts': seq<Action>)
    requires IsRun(ss, acts) && AllPass(ss, acts, i) && Stuck(b) && ss[|acts|] == Heard(b, {1}, 8)
    requires forall k :: i <= k < |acts| ==> Wf(ss[k])
    ensures IsRun(ss', acts') && AllPass(ss', acts', i) && ss <= ss' && ss'[|acts'|] == Heard(b, {1}, 6)
    ensures acts' == acts + [FreshHb(5)] + [FreshHb(8)] + [FreshHb(1)] + [SCAN]
    ensures forall k :: i <= k < |acts'| ==> Wf(ss'[k])
    ensures ScanCount(ss', acts', i) == ScanCount(ss, acts, i) + 1
  {
    hide Inv, Wf, Heard, AllPass, Scan, Stuck, ScanCount, IsRun;
    ss', acts' := HeartbeatOn(ss, acts, i, b, {1}, 8, 5);
    ss', acts' := HeartbeatOn(ss', acts', i, b, {1} + {5}, 8, 8);
    ss', acts' := HeartbeatOn(ss', acts', i, b, {1} + {5} + {8}, 8, 1);
    assert {1} + {5} + {8} + {1} == {1, 5, 8};
    ScanFromEight(b, 0, None, 0);
    ss', acts' := ScanOn(ss', acts', i, b, {1, 5, 8}, 8, 6);
  }

  lemma RoundDone(acts: seq<Action>)
    ensures acts + [FreshHb(7)] + [SCAN] + [FreshHb(5)] + [FreshHb(8)] + [FreshHb(1)] + [SCAN] == acts + ROUND
  {
  }

  lemma RoundsGrow(acts: seq<Action>, n: nat)
    ensures acts + Rounds(n) + ROUND == acts + Rounds(n + 1)
  {
    assert Rounds(n + 1) == Rounds(n) + ROUND;
  }

  lemma {:induction false} ManyTicks(ss: seq<State>, acts: seq<Action>, b: State, n: nat)
    returns (ss': seq<State>, acts': seq<Action>)
    requires IsRun(ss, acts) && Stuck(b) && ss[|acts|] == Heard(b, {1}, 6)
    ensures IsRun(ss', acts') && AllPass(ss', acts', |acts|) && ss <= ss' && ss'[|acts'|] == Heard(b, {1}, 6)
    ensures acts' == acts + Rounds(n)
    ensures forall k :: |acts| <= k < |acts'| ==> Wf(ss'[k])
    ensures ScanCount(ss', acts', |acts|) == 2 * n
  {
    hide Inv, Wf, Heard, Stuck, Step, Enabled, ScanCount, AllPass, Rounds;
    if n == 0 {
      NoRounds(ss, acts);
      ss', acts' := ss, acts;
    } else {
      ss', acts' := ManyTicks(ss, acts, b, n - 1);
      ss', acts' := TickFromSix(ss', acts', |acts|, b);
      ss', acts' := TickFromEight(ss', acts', |acts|, b);
      RoundDone(acts + Rounds(n - 1));
      RoundsGrow(acts, n - 1);
    }
  }

  lemma NoRounds(ss: seq<State>, acts: seq<Action>)
    requires IsRun(ss, acts)
    ensures AllPass(ss, acts, |acts|) && ScanCount(ss, acts, |acts|) == 0 && acts == acts + Rounds(0)
  {
    hide PassedBy, Wf, Enabled, Step;
  }

  // ---------------- the pace ----------------

  lemma {:induction false} RoundAt(n: nat, k: nat)
    requires k < 6 * n
    ensures Rounds(n)[k] == ROUND[k % 6]
  {
    if k < 6 * (n - 1) { RoundAt(n - 1, k); }
  }

  /** A board heard at step k is heard next at step k + 6. */
  lemma NextHeard(n: nat, k: nat, l: nat)
    requires k < l < 6 * n && Rounds(n)[k].FreshHb? && Rounds(n)[l] == Rounds(n)[k]
    ensures k + 6 <= l && Rounds(n)[k + 6] == Rounds(n)[k]
  {
    hide Rounds;
    RoundAt(n, k);
    RoundAt(n, l);
    SamePlace(k % 6, l % 6);
    if k + 6 < 6 * n { RoundAt(n, k + 6); }
  }

  lemma SamePlace(p: nat, q: nat)
    requires p < 6 && q < 6 && ROUND[p].FreshHb? && ROUND[p] == ROUND[q]
    ensures p == q
  {
  }

  function One(b: bool): nat { if b then 1 else 0 }

  /** Whether step k of the rounds is a tick. */
  function TickAt(k: nat): nat { One(ROUND[k % 6].TickAct?) }

  lemma ScanAt(ss: seq<State>, acts: seq<Action>, i: nat, n: nat, k: nat, d: nat)
    requires AllPass(ss, acts, i) && acts[i..] == Rounds(n) && i <= k && k + d < |acts|
    ensures Wf(ss[k + d]) && One(IsScan(ss[k + d], acts[k + d])) == TickAt(k - i + d)
  {
    hide Rounds, PassedBy, IsScan, Wf;
    RoundAt(n, k - i + d);
    assert acts[i..][k - i + d] == acts[k + d];
    TickIsScan(ss[k + d], acts[k + d]);
  }

  /** Six steps of the rounds, from wherever, hold two ticks. */
  lemma TwoOfSix(ss: seq<State>, acts: seq<Action>, i: nat, n: nat, k: nat)
    requires AllPass(ss, acts, i) && acts[i..] == Rounds(n) && i <= k && k + 6 <= |acts|
    requires forall j :: i <= j < |acts| ==> Wf(ss[j])
    ensures Scans(ss, acts, k, k + 6) == 2
  {
    hide Rounds, PassedBy, IsScan, Wf, Scans, TickAt, One;
    ScanAt(ss, acts, i, n, k, 0);
    ScanAt(ss, acts, i, n, k, 1);
    ScanAt(ss, acts, i, n, k, 2);
    ScanAt(ss, acts, i, n, k, 3);
    ScanAt(ss, acts, i, n, k, 4);
    ScanAt(ss, acts, i, n, k, 5);
    ScansUp(ss, acts, k);
    TicksOfRound(k - i);
  }

  lemma TickIsScan(s: State, a: Action)
    requires PassedBy(s, a, 1)
    ensures Wf(s) && (IsScan(s, a) <==> a.TickAct?)
  {
  }

  lemma ScansUp(ss: seq<State>, acts: seq<Action>, k: nat)
    requires k + 6 <= |acts| <= |ss| && forall j :: k <= j < k + 6 ==> Wf(ss[j])
    ensures Scans(ss, acts, k, k + 6) ==
      One(IsScan(ss[k], acts[k])) + One(IsScan(ss[k + 1], acts[k + 1])) + One(IsScan(ss[k + 2], acts[k + 2]))
      + One(IsScan(ss[k + 3], acts[k + 3])) + One(IsScan(ss[k + 4], acts[k + 4])) + One(IsScan(ss[k + 5], acts[k + 5]))
  {
    hide Wf, IsScan;
    assert Scans(ss, acts, k, k) == 0;
    assert Scans(ss, acts, k, k + 1) == One(IsScan(ss[k], acts[k]));
    assert Scans(ss, acts, k, k + 2) == Scans(ss, acts, k, k + 1) + One(IsScan(ss[k + 1], acts[k + 1]));
    assert Scans(ss, acts, k, k + 3) == Scans(ss, acts, k, k + 2) + One(IsScan(ss[k + 2], acts[k + 2]));
    assert Scans(ss, acts, k, k + 4) == Scans(ss, acts, k, k + 3) + One(IsScan(ss[k + 3], acts[k + 3]));
    assert Scans(ss, acts, k, k + 5) == Scans(ss, acts, k, k + 4) + One(IsScan(ss[k + 4], acts[k + 4]));
  }

  lemma TicksOfRound(k: nat)
    ensures TickAt(k) + TickAt(k + 1) + TickAt(k + 2) + TickAt(k + 3) + TickAt(k + 4) + TickAt(k + 5) == 2
  {
    hide TickAt;
    TickTurned(k, 0);
    TickTurned(k, 1);
    TickTurned(k, 2);
    TickTurned(k, 3);
    TickTurned(k, 4);
    TickTurned(k, 5);
  }

  lemma TickTurned(k: nat, j: nat)
    requires j < 6
    ensures TickAt(k + j) == One(k % 6 + j == 1 || k % 6 + j == 5 || k % 6 + j == 7)
  {
    assert (k + j) % 6 == if k % 6 + j < 6 then k % 6 + j else k % 6 + j - 6;
  }

  /** The board heard at step k is heard at step l and not in between. */
  predicate HeardNext(acts: seq<Action>, k: nat, l: nat) {
    k < l < |acts| && acts[k].FreshHb? && acts[l] == acts[k] && forall j :: k < j < l ==> acts[j] != acts[k]
  }

  /** Between a heartbeat of a board and its next one there are exactly two scans. */
  ghost predicate AtPace(ss: seq<State>, acts: seq<Action>, i: nat)
    requires |ss| == |acts| + 1 && i <= |acts| && forall k :: i <= k < |acts| ==> Wf(ss[k])
  {
    forall k: nat, l: nat :: i <= k && HeardNext(acts, k, l) ==> Scans(ss, acts, k, l) == 2
  }

  lemma RoundsKeepPace(ss: seq<State>, acts: seq<Action>, i: nat, n: nat)
    requires AllPass(ss, acts, i) && acts[i..] == Rounds(n)
    requires forall k :: i <= k < |acts| ==> Wf(ss[k])
    ensures AtPace(ss, acts, i)
  {
    hide Rounds, PassedBy, IsScan, Wf, Scans;
    forall k: nat, l: nat | i <= k && HeardNext(acts, k, l) ensures Scans(ss, acts, k, l) == 2 {
      assert acts[i..][k - i] == acts[k] && acts[i..][l - i] == acts[l];
      NextHeard(n, k - i, l - i);
      assert acts[i..][k - i + 6] == acts[k + 6];
      TwoOfSix(ss, acts, i, n, k);
    }
  }

  /**
   So no number of scans is enough: from any power-on state in which boards 1, 5, 7 and 8
   answer there is, for every n, a run with 2n scans in a row, two between a heartbeat of a
   board and its next, that all find zone 1 in line and unadopted, and none of which looks
   at it.
   */
  lemma Starved(s: State, n: nat) returns (ss: seq<State>, acts: seq<Action>, i: nat)
    requires Init(s) && |s.zones| == ZONES && AllReachable(s, {1, 5, 7, 8})
    ensures IsRun(ss, acts) && ss[0] == s && AllPass(ss, acts, i)
    ensures forall k :: i <= k < |acts| ==> Wf(ss[k])
    ensures ScanCount(ss, acts, i) == 2 * n && acts[i..] == Rounds(n) && AtPace(ss, acts, i)
  {
    hide Inv, Heard, Calm, Wf, Reachable, Settled, Blank, Enabled, Step, AllPass, ScanCount, AtPace, Rounds;
    BootState(s);
    ss, acts := [s], [];
    var b := s;
    ss, acts, b := SettleBoard(ss, acts, b, 1, 7);
    ss, acts, b := SettleBoard(ss, acts, b, 8, 8);
    ss, acts, b := SettleBoard(ss, acts, b, 1, 5);
    ss, acts := FirstHeard(ss, acts, b);
    i := |acts|;
    ss, acts := ManyTicks(ss, acts, b, n);
    RoundsKeepPace(ss, acts, i, n);
  }

  lemma FirstHeard(ss: seq<State>, acts: seq<Action>, b: State) returns (ss': seq<State>, acts': seq<Action>)
    requires IsRun(ss, acts) && Calm(b) && |b.zones| == ZONES && ss[|acts|] == Heard(b, {}, 6)
    ensures IsRun(ss', acts') && ss <= ss' && ss'[|acts'|] == Heard(b, {1}, 6)
  {
    hide Inv, Heard, Wf;
    HeardCalm(b, {}, 6);
    Heartbeat(b, {}, 6, 1);
    assert {} + {1} == {1};
    ss', acts' := Extend(ss, acts, FreshHb(1));
  }

  lemma BootState(s: State)
    requires Init(s) && |s.zones| == ZONES && AllReachable(s, {1, 5, 7, 8})
    ensures Calm(s) && s == Heard(s, {}, 1) && IsRun([s], [])
    ensures Blank(At(s, 1)) && Blank(At(s, 5)) && Blank(At(s, 7)) && Blank(At(s, 8))
  {
    hide Inv, Reachable;
    InitInv(s);
    assert s.zones == Heard(s, {}, 1).zones;
  }
}
