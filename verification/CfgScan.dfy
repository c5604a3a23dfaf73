/**
 The round-robin scan of nmgr_cfg_tick_1s (components/node_mgr/node_mgr_cfg.c): who is
 served, how long a zone can wait, and which ids a scan passes over because it re-reads
 its own moving start.
 */
module CfgScan {
  import opened Wrappers
  import opened Pigeonhole
  import opened CfgState
  import opened CfgMoves

  /** The zone passes every gate of the scan: fresh, reachable, not cooling down. */
  predicate InLine(zn: Zone, now: bv32) {
    && zn.isFresh && zn.node.used && zn.node.health != OFFLINE && zn.node.health != UPDATING
    && (zn.cooldown == 0 || AtOrPast(now, zn.cooldown))
  }

  /** (int32_t)(now - t) >= 0 */
  predicate AtOrPast(now: bv32, t: bv32) { now - t < 0x8000_0000 }

  lemma AtOrPastIs(now: bv32, t: bv32)
    ensures AtOrPast(now, t) <==> !Before(now, t)
  {
  }

  /** How many turns after the scan's start zone x has its own, as long as the start stays. */
  function Distance(rr: nat, x: nat): (d: nat)
    requires IsZone(rr) && IsZone(x)
    ensures d < ZONES && ScanId(rr, d) == x
    ensures forall i: nat :: i < ZONES && ScanId(rr, i) == x ==> i == d
  {
    if x >= rr then x - rr else x + ZONES - rr
  }

  lemma GateDecides(s: State, id: nat, now: bv32)
    requires |s.zones| == ZONES && IsZone(id)
    ensures Gate(s, id, now).1 <==> InLine(At(s, id), now)
    ensures Gate(s, id, now).0.rr == if InLine(At(s, id), now) then id % ZONES + 1 else s.rr
    ensures !At(Gate(s, id, now).0, id).isFresh
    ensures forall z :: IsZone(z) && z != id ==> At(Gate(s, id, now).0, z) == At(s, z)
  {
    hide Before, Reachable;
    InLineIs(At(s, id), now);
  }

  /** In line is what the three tests of a turn come to. */
  lemma InLineIs(zn: Zone, now: bv32)
    ensures InLine(zn, now) <==> zn.isFresh && Reachable(zn.node) && !Cooling(zn, now).0
    ensures Cooling(zn.(isFresh := false), now).0 == Cooling(zn, now).0
  {
    hide AtOrPast, Before;
    AtOrPastIs(now, zn.cooldown);
  }

  // ---------------- who is served first ----------------

  /** Zone x is the first in line, counted from turn i. */
  predicate FirstInLine(s: State, i: nat, x: nat, now: bv32)
    requires |s.zones| == ZONES && IsZone(s.rr) && IsZone(x)
  {
    && i <= Distance(s.rr, x) && InLine(At(s, x), now)
    && forall d: nat :: i <= d < Distance(s.rr, x) ==> !InLine(At(s, ScanId(s.rr, d)), now)
  }

  /** The state in which x gets its decision: the zone as it was, the start moved past it. */
  predicate ServedFrom(s: State, t: State, x: nat)
    requires |s.zones| == ZONES && IsZone(x)
  {
    Wf(t) && |t.zones| == ZONES && ScanMove(At(s, x), At(t, x)) && t.rr == x % ZONES + 1
  }

  /** If x's decision starts something, that is what the scan starts. */
  predicate Serves(s: State, i: nat, now: bv32, sub: Option<nat>, clock: bv32, t: State, x: nat)
    requires Wf(s) && i <= ZONES && Wf(t) && IsZone(x)
  {
    TryStart(t, x, sub, clock).1 != Nothing ==> Scan(s, i, now, sub, clock) == TryStart(t, x, sub, clock)
  }

  /** The first zone in line gets its decision, whatever the others are doing. */
  lemma {:induction false} FirstIsServed(s: State, i: nat, now: bv32, sub: Option<nat>, clock: bv32, x: nat)
    requires Wf(s) && i <= ZONES && IsZone(x) && FirstInLine(s, i, x, now)
    ensures exists t: State :: ServedFrom(s, t, x) && Serves(s, i, now, sub, clock, t, x)
    decreases ZONES - i
  {
    hide TryStart, Gate, InLine, ScanId, Wf;
    InvWfLength(s);
    WfRr(s);
    var id := ScanId(s.rr, i);
    GateWf(s, id, now);
    GateDecides(s, id, now);
    GateMove(s, id, now, x);
    var (t, decide) := Gate(s, id, now);
    InvWfLength(t);
    if i == Distance(s.rr, x) {
      assert id == x && decide;
      assert ServedFrom(s, t, x) && Serves(s, i, now, sub, clock, t, x);
    } else {
      assert !InLine(At(s, ScanId(s.rr, i)), now);
      assert id != x;
      forall d: nat | i + 1 <= d < Distance(t.rr, x) ensures !InLine(At(t, ScanId(t.rr, d)), now) {
        SameTurn(s.rr, i, d);
      }
      FirstIsServed(t, i + 1, now, sub, clock, x);
      var u :| ServedFrom(t, u, x) && Serves(t, i + 1, now, sub, clock, u, x);
      assert ServedFrom(s, u, x) && Serves(s, i, now, sub, clock, u, x);
    }
  }

  lemma SameTurn(rr: nat, i: nat, d: nat)
    requires IsZone(rr) && i < d < ZONES
    ensures ScanId(rr, i) != ScanId(rr, d)
  {
  }

  /**
   One step of bounded waiting (CfgFairness has the runs): when the first zone in line starts a transfer, every
   other zone in line is strictly nearer its own turn at the next scan.
   */
  lemma WaitShrinks(s: State, now: bv32, sub: Option<nat>, clock: bv32, y: nat, x: nat)
    requires Wf(s) && IsZone(y) && IsZone(x) && x != y
    requires FirstInLine(s, 0, y, now) && InLine(At(s, x), now)
    requires var did := Scan(s, 0, now, sub, clock).1; did.Began? && did.zone == y
    ensures Distance(y % ZONES + 1, x) < Distance(s.rr, x)
  {
    hide InLine, Scan, Wf;
    WfRr(s);
    assert Distance(s.rr, x) >= Distance(s.rr, y);
  }

  // ---------------- what a scan that starts nothing has looked at ----------------

  /** The ids a scan visits from turn i on, if no visit starts a transfer. */
  function Examined(s: State, i: nat, now: bv32): (r: seq<nat>)
    requires Wf(s) && i <= ZONES
    ensures |r| == ZONES - i
    decreases ZONES - i
  {
    if i == ZONES then []
    else
      WfRr(s);
      var id := ScanId(s.rr, i);
      GateWf(s, id, now);
      [id] + Examined(Gate(s, id, now).0, i + 1, now)
  }

  /** A scan that starts nothing consumes exactly the heartbeats of the ids it examined. */
  lemma {:induction false} FreshLeft(s: State, i: nat, now: bv32, sub: Option<nat>, clock: bv32, z: nat)
    requires Wf(s) && i <= ZONES && IsZone(z) && Scan(s, i, now, sub, clock).1 == Nothing
    ensures |s.zones| == |Scan(s, i, now, sub, clock).0.zones| == ZONES
    ensures At(Scan(s, i, now, sub, clock).0, z).isFresh <==> At(s, z).isFresh && z !in Examined(s, i, now)
    decreases ZONES - i
  {
    hide TryStart, Gate, ScanId, Wf;
    InvWfLength(s);
    if i < ZONES {
      WfRr(s);
      var id := ScanId(s.rr, i);
      GateWf(s, id, now);
      GateDecides(s, id, now);
      var (t, decide) := Gate(s, id, now);
      InvWfLength(t);
      FreshLeft(t, i + 1, now, sub, clock, z);
    }
  }

  /** One turn: what it examines, and what the later turns start from. */
  lemma Turn(s: State, i: nat, now: bv32)
    requires Wf(s) && i < ZONES
    ensures |s.zones| == ZONES && IsZone(s.rr)
    ensures var id := ScanId(s.rr, i);
            var t := Gate(s, id, now).0;
      && Wf(t) && |t.zones| == ZONES && IsZone(t.rr)
      && Examined(s, i, now) == [id] + Examined(t, i + 1, now)
      && t.rr == (if InLine(At(s, id), now) then id % ZONES + 1 else s.rr)
      && forall z :: IsZone(z) && z != id ==> At(t, z) == At(s, z)
  {
    hide Gate, ScanId, InLine, Wf;
    InvWfLength(s);
    WfRr(s);
    var id := ScanId(s.rr, i);
    GateWf(s, id, now);
    GateDecides(s, id, now);
    InvWfLength(Gate(s, id, now).0);
    WfRr(Gate(s, id, now).0);
  }

  /** Nobody is in line from turn i up to the last. */
  predicate Quiet(s: State, i: nat, now: bv32)
    requires |s.zones| == ZONES && IsZone(s.rr)
  {
    forall d: nat :: i <= d < ZONES - 1 ==> !InLine(At(s, ScanId(s.rr, d)), now)
  }

  /** A turn at a zone not in line leaves the turns after it as they are. */
  lemma QuietTurn(s: State, i: nat, now: bv32)
    requires Wf(s) && i < ZONES - 1 && |s.zones| == ZONES && IsZone(s.rr) && !InLine(At(s, ScanId(s.rr, i)), now)
    ensures var t := Gate(s, ScanId(s.rr, i), now).0;
      && Wf(t) && |t.zones| == ZONES && t.rr == s.rr
      && forall d: nat :: i < d < ZONES ==> At(t, ScanId(t.rr, d)) == At(s, ScanId(s.rr, d))
  {
    hide Gate, ScanId, InLine, Wf, Examined;
    Turn(s, i, now);
    forall d: nat | i < d < ZONES ensures ScanId(s.rr, i) != ScanId(s.rr, d) { SameTurn(s.rr, i, d); }
  }

  /** With nobody in line before the last turn, turn d examines the d-th id from the start. */
  lemma {:induction false} PlainTurns(s: State, i: nat, now: bv32, d: nat)
    requires Wf(s) && i <= d < ZONES && IsZone(s.rr) && |s.zones| == ZONES && Quiet(s, i, now)
    ensures Examined(s, i, now)[d - i] == ScanId(s.rr, d)
    decreases ZONES - i
  {
    hide Gate, ScanId, InLine, Wf, Examined;
    Turn(s, i, now);
    if i < d {
      QuietTurn(s, i, now);
      PlainTurns(Gate(s, ScanId(s.rr, i), now).0, i + 1, now, d);
    }
  }

  /** If anybody is in line before the last turn, the last turn examines an id seen before. */
  lemma {:induction false} LastTurnRepeats(s: State, i: nat, now: bv32) returns (k: nat)
    requires Wf(s) && i < ZONES - 1 && IsZone(s.rr) && |s.zones| == ZONES && !Quiet(s, i, now)
    ensures k < ZONES - 1 - i && Examined(s, i, now)[k] == Examined(s, i, now)[ZONES - 1 - i]
    decreases ZONES - i
  {
    hide Gate, ScanId, InLine, Wf, Examined;
    Turn(s, i, now);
    var id := ScanId(s.rr, i);
    var t := Gate(s, id, now).0;
    if !Quiet(t, i + 1, now) {
      k := LastTurnRepeats(t, i + 1, now);
      k := k + 1;
    } else {
      if !InLine(At(s, id), now) { QuietTurn(s, i, now); }
      PlainTurns(t, i + 1, now, ZONES - 1);
      WrapsRound(id);
      k := 0;
    }
  }

  /** Turn seven counted from the id after `id` is `id` itself. */
  lemma WrapsRound(id: nat)
    requires IsZone(id)
    ensures ScanId(id % ZONES + 1, ZONES - 1) == id
  {
  }

  /** Eight turns of which the last repeats an earlier one cannot reach all eight ids. */
  lemma RepeatMisses(q: seq<nat>, k: nat)
    requires |q| == ZONES && k < ZONES - 1 && q[k] == q[ZONES - 1]
    ensures exists z :: IsZone(z) && z !in q
  {
    hide Elems, UpTo;
    var front := q[..ZONES - 1];
    assert q == front + [q[ZONES - 1]] && front[k] == q[k];
    if UpTo(ZONES) <= Elems(front) {
      Subset(UpTo(ZONES), Elems(front));
      assert false;
    } else {
      var z :| z in UpTo(ZONES) && z !in Elems(front);
      assert IsZone(z) && z !in q;
    }
  }

  /**
   A scan that starts nothing looks at every id exactly when none of the first seven ids in
   line order passes its gates. Otherwise the zone that does pass moves the start, and the
   last turn comes back to an id already seen.
   */
  lemma CoversAllIff(s: State, now: bv32)
    requires Wf(s) && IsZone(s.rr) && |s.zones| == ZONES
    ensures (forall z :: IsZone(z) ==> z in Examined(s, 0, now)) <==> Quiet(s, 0, now)
  {
    hide Examined, Quiet, Wf;
    if !Quiet(s, 0, now) {
      var k := LastTurnRepeats(s, 0, now);
      RepeatMisses(Examined(s, 0, now), k);
    } else {
      forall z | IsZone(z) ensures z in Examined(s, 0, now) {
        PlainTurns(s, 0, now, Distance(s.rr, z));
      }
    }
  }

  /**
   The concrete case: zones 1 and 2 both have a fresh heartbeat, zone 1 is in sync, zone 2
   waits to be adopted. The scan starting at 1 visits 1, then 3, and starts nothing. The
   next one starts at 2; CfgStarvation has a run in which no next one ever does.
   */
  lemma SkippedNeighbour(s: State, now: bv32, sub: Option<nat>, clock: bv32)
    requires Wf(s) && s.rr == 1 && |s.zones| == ZONES
    requires InLine(At(s, 1), now) && InLine(At(s, 2), now)
    requires forall z :: 3 <= z <= ZONES ==> !At(s, z).isFresh
    requires At(s, 1).cfg.valid && CfgInSync(At(s, 1)) && At(s, 1).hw.valid && At(s, 1).node.hwCrc == At(s, 1).hw.crc
    requires !At(s, 2).cfg.valid && At(s, 2).latch.None?
    ensures Scan(s, 0, now, sub, clock).1 == Nothing
    ensures |Scan(s, 0, now, sub, clock).0.zones| == ZONES && At(Scan(s, 0, now, sub, clock).0, 2).isFresh
    ensures Scan(s, 0, now, sub, clock).0.rr == 2
  {
    hide CxPull, CxPush, Gate, PushGenFor, Wf, ScanId, Cooling, Reachable;
    GateWf(s, 1, now);
    GateDecides(s, 1, now);
    GateMove(s, 1, now, 1);
    var t := Gate(s, 1, now).0;
    InvWfLength(t);
    assert ScanId(1, 0) == 1 by { FirstTurn(); }
    assert t.rr == 2;
    NobodyFresh(t, 1, now, sub, clock);
  }

  lemma FirstTurn()
    ensures ScanId(1, 0) == 1 && ScanId(2, 1) == 3
    ensures forall i: nat :: 1 <= i < ZONES ==> ScanId(2, i) != 2
  {
  }

  lemma {:induction false} NobodyFresh(t: State, i: nat, now: bv32, sub: Option<nat>, clock: bv32)
    requires Wf(t) && 1 <= i <= ZONES && t.rr == 2 && |t.zones| == ZONES
    requires forall z :: IsZone(z) && z != 2 ==> !At(t, z).isFresh
    ensures Scan(t, i, now, sub, clock) == (t, Nothing)
    decreases ZONES - i
  {
    hide TryStart, ScanId, Wf, Cooling, Reachable;
    if i < ZONES {
      FirstTurn();
      var id := ScanId(2, i);
      GateWf(t, id, now);
      assert Gate(t, id, now) == (t, false);
      NobodyFresh(t, i + 1, now, sub, clock);
    }
  }
}
