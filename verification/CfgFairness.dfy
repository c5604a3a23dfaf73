/**
 The round-robin rule over whole runs (components/node_mgr/node_mgr_cfg.c): which zones a
 scan looks at, in closed form, and how long a zone in line can be passed over when the
 first in line always has something to start. CfgStarvation has the run where it does not.
 */
module CfgFairness {
  import opened Wrappers
  import opened Bytes
  import opened CfgEnvelope
  import opened CfgState
  import opened CfgInvariant
  import opened CfgSystem
  import opened CfgMoves
  import opened CfgScan
  import opened CfgAdopt
  import Forward

  // ---------------- a decision that starts nothing ----------------

  /** The decision finds nothing to do for the zone, or nothing it is allowed to do again. */
  predicate Settled(zn: Zone) {
    && (zn.cfg.valid || Latched(zn, 1, CfgIdent(zn)))
    && ((zn.hw.valid && zn.node.hwCrc == zn.hw.crc) || Latched(zn, 2, HwIdent(zn)))
    && (!zn.cfg.valid || CfgInSync(zn) || Latched(zn, 1, CfgIdent(zn)))
  }

  lemma SettledIff(s: State, id: nat, sub: Option<nat>, clock: bv32)
    requires Wf(s) && IsZone(id)
    ensures TryStart(s, id, sub, clock).1 == Nothing <==> Settled(At(s, id))
    ensures TryStart(s, id, sub, clock).0.rr == s.rr
    ensures TryStart(s, id, sub, clock).1 != Nothing ==>
      TryStart(s, id, sub, clock).1.Began? && TryStart(s, id, sub, clock).1.zone == id
  {
    hide PushWire, PushGenFor;
  }

  lemma SettledMove(zn: Zone, zn': Zone)
    requires ScanMove(zn, zn')
    ensures Settled(zn) <==> Settled(zn')
  {
  }

  // ---------------- the turns of one scan ----------------

  /** The state after k turns none of which started anything. */
  function AfterTurns(s: State, k: nat, now: bv32): (t: State)
    requires Wf(s) && k <= ZONES
    ensures Wf(t)
  {
    if k == 0 then s
    else
      var p := AfterTurns(s, k - 1, now);
      WfRr(p);
      GateWf(p, ScanId(p.rr, k - 1), now);
      Gate(p, ScanId(p.rr, k - 1), now).0
  }

  lemma {:induction false} ExaminedFrom(s: State, k: nat, now: bv32)
    requires Wf(s) && k <= ZONES
    ensures Examined(AfterTurns(s, k, now), k, now) == Examined(s, 0, now)[k..]
  {
    hide Gate, ScanId, Wf;
    if k > 0 { ExaminedFrom(s, k - 1, now); }
  }

  /** Turn f of the scan that looks at the ids q finds a zone in line, and so moves the start. */
  predicate Moves(s: State, now: bv32, q: seq<nat>, f: nat)
    requires |s.zones| == ZONES && f < |q|
  {
    IsZone(q[f]) && InLine(At(s, q[f]), now) && q[f] !in q[..f]
  }

  /** How far the first k turns carry the start: turn f, if it finds a zone in line, f + 1 places. */
  function Shift(s: State, now: bv32, q: seq<nat>, k: nat): nat
    requires |s.zones| == ZONES && k <= |q|
  {
    if k == 0 then 0 else Shift(s, now, q, k - 1) + (if Moves(s, now, q, k - 1) then k else 0)
  }

  lemma ModAdd(a: nat, b: nat)
    ensures (a % ZONES + b) % ZONES == (a + b) % ZONES
  {
  }

  lemma ScanIdAdds(rr: nat, a: nat, b: nat)
    requires IsZone(rr)
    ensures ScanId(ScanId(rr, a), b) == ScanId(rr, a + b)
  {
    ModAdd(rr - 1 + a, b);
  }

  lemma NextId(id: nat)
    requires IsZone(id)
    ensures id % ZONES + 1 == ScanId(id, 1) && ScanId(id, 0) == id
  {
  }

  lemma LookAt(s: State, now: bv32, k: nat)
    requires Wf(s) && k < ZONES
    ensures IsZone(AfterTurns(s, k, now).rr)
    ensures Examined(s, 0, now)[k] == ScanId(AfterTurns(s, k, now).rr, k)
  {
    hide Gate, ScanId, Wf, Examined, InLine;
    ExaminedFrom(s, k, now);
    Turn(AfterTurns(s, k, now), k, now);
  }

  /** A zone is still in line after k turns if it was at first and none of them looked at it. */
  lemma {:induction false} StillInLine(s: State, now: bv32, k: nat, z: nat)
    requires Wf(s) && k <= ZONES && IsZone(z)
    ensures |s.zones| == |AfterTurns(s, k, now).zones| == ZONES
    ensures ScanMove(At(s, z), At(AfterTurns(s, k, now), z))
    ensures InLine(At(AfterTurns(s, k, now), z), now) <==> InLine(At(s, z), now) && z !in Examined(s, 0, now)[..k]
  {
    hide Gate, ScanId, Wf, InLine, Examined, Cooling;
    InvWfLength(s);
    InvWfLength(AfterTurns(s, k, now));
    if k > 0 {
      StillInLine(s, now, k - 1, z);
      LookAt(s, now, k - 1);
      var q, p := Examined(s, 0, now), AfterTurns(s, k - 1, now);
      assert q[..k] == q[..k - 1] + [q[k - 1]];
      GateDecides(p, q[k - 1], now);
      GateMove(p, q[k - 1], now, z);
      NotFresh(At(AfterTurns(s, k, now), q[k - 1]), now);
    }
  }

  /** A turn moves the start exactly past a zone in line. */
  lemma StartMoves(s: State, now: bv32, k: nat)
    requires Wf(s) && 0 < k <= ZONES
    ensures |s.zones| == ZONES
    ensures var q := Examined(s, 0, now);
      IsZone(q[k - 1]) && IsZone(AfterTurns(s, k - 1, now).rr)
      && AfterTurns(s, k, now).rr
         == if Moves(s, now, q, k - 1) then ScanId(q[k - 1], 1) else AfterTurns(s, k - 1, now).rr
  {
    hide Gate, ScanId, Wf, InLine, Examined;
    InvWfLength(s);
    LookAt(s, now, k - 1);
    var id := Examined(s, 0, now)[k - 1];
    StillInLine(s, now, k - 1, id);
    GateDecides(AfterTurns(s, k - 1, now), id, now);
    NextId(id);
  }

  /** Turn k looks at the id that lies k places and the whole shift so far past the scan's start. */
  lemma {:induction false} TurnLaw(s: State, now: bv32, k: nat)
    requires Wf(s) && k <= ZONES
    ensures |s.zones| == ZONES && IsZone(s.rr)
    ensures AfterTurns(s, k, now).rr == ScanId(s.rr, Shift(s, now, Examined(s, 0, now), k))
    ensures k < ZONES ==> Examined(s, 0, now)[k] == ScanId(s.rr, k + Shift(s, now, Examined(s, 0, now), k))
  {
    hide ScanId, Wf, Examined, Moves, AfterTurns;
    InvWfLength(s);
    WfRr(s);
    var q := Examined(s, 0, now);
    if k == 0 {
      NextId(s.rr);
      assert AfterTurns(s, 0, now) == s by { NoTurns(s, now); }
    } else {
      TurnLaw(s, now, k - 1);
      StartMoves(s, now, k);
      ScanIdAdds(s.rr, k - 1 + Shift(s, now, q, k - 1), 1);
      assert (k - 1 + Shift(s, now, q, k - 1)) + 1 == Shift(s, now, q, k - 1) + k;
    }
    if k < ZONES {
      LookAt(s, now, k);
      ScanIdAdds(s.rr, Shift(s, now, q, k), k);
    }
  }

  lemma NoTurns(s: State, now: bv32)
    requires Wf(s)
    ensures AfterTurns(s, 0, now) == s
  {
  }

  lemma NotFresh(zn: Zone, now: bv32)
    requires !zn.isFresh
    ensures !InLine(zn, now)
  {
  }

  // ---------------- how far a scan gets ----------------

  /** Turn f starts a transfer, which ends the scan. */
  predicate Ends(s: State, now: bv32, q: seq<nat>, f: nat)
    requires |s.zones| == ZONES && f < |q|
  {
    Moves(s, now, q, f) && !Settled(At(s, q[f]))
  }

  /** How many turns the scan takes, the one that ends it included. */
  function Turns(s: State, now: bv32, q: seq<nat>, k: nat): (m: nat)
    requires |s.zones| == ZONES && k <= |q|
    ensures k <= m <= |q|
    ensures forall f :: k <= f < m - 1 ==> !Ends(s, now, q, f)
    ensures k < m < |q| ==> Ends(s, now, q, m - 1)
    ensures m == k ==> k == |q|
    decreases |q| - k
  {
    if k == |q| then k else if Ends(s, now, q, k) then k + 1 else Turns(s, now, q, k + 1)
  }

  /** The ids a scan really looks at. */
  function Visited(s: State, now: bv32): (v: seq<nat>)
    requires Wf(s)
    ensures |v| <= ZONES
  {
    InvWfLength(s);
    var q := Examined(s, 0, now);
    q[..Turns(s, now, q, 0)]
  }

  /** The scan follows the turns up to the one that starts something, and leaves the start where they do. */
  lemma {:induction false} ScanLaw(s: State, k: nat, now: bv32, sub: Option<nat>, clock: bv32)
    requires Wf(s) && k <= ZONES
    ensures |s.zones| == ZONES && IsZone(s.rr)
    ensures var q := Examined(s, 0, now);
            var m := Turns(s, now, q, k);
            var r := Scan(AfterTurns(s, k, now), k, now, sub, clock);
      && r.0.rr == ScanId(s.rr, Shift(s, now, q, m))
      && (r.1 == Nothing <==> forall f :: k <= f < ZONES ==> !Ends(s, now, q, f))
      && (r.1 != Nothing ==> r.1.Began? && k < m && r.1.zone == q[m - 1] && Ends(s, now, q, m - 1))
    decreases ZONES - k
  {
    hide Gate, ScanId, Wf, InLine, Examined, Settled, TryStart, Shift, AfterTurns;
    InvWfLength(s);
    TurnLaw(s, now, k);
    if k < ZONES {
      var q := Examined(s, 0, now);
      OneTurn(s, k, now, sub, clock);
      if !Ends(s, now, q, k) {
        ScanLaw(s, k + 1, now, sub, clock);
      } else {
        TurnLaw(s, now, k + 1);
      }
    }
  }

  /** One turn of the scan: it goes on, or it ends with what its zone's decision starts. */
  lemma OneTurn(s: State, k: nat, now: bv32, sub: Option<nat>, clock: bv32)
    requires Wf(s) && k < ZONES
    ensures |s.zones| == ZONES
    ensures var q := Examined(s, 0, now);
            var r := Scan(AfterTurns(s, k, now), k, now, sub, clock);
      if Ends(s, now, q, k) then r.1.Began? && r.1.zone == q[k] && r.0.rr == AfterTurns(s, k + 1, now).rr
      else r == Scan(AfterTurns(s, k + 1, now), k + 1, now, sub, clock)
  {
    hide Gate, ScanId, Wf, InLine, Examined, Settled, TryStart;
    InvWfLength(s);
    var q, t := Examined(s, 0, now), AfterTurns(s, k, now);
    LookAt(s, now, k);
    StillInLine(s, now, k, q[k]);
    GateWf(t, q[k], now);
    GateDecides(t, q[k], now);
    var u := Gate(t, q[k], now).0;
    assert u == AfterTurns(s, k + 1, now);
    StillInLine(s, now, k + 1, q[k]);
    SettledIff(u, q[k], sub, clock);
    SettledMove(At(s, q[k]), At(u, q[k]));
    LookedIsZone(s, now, k);
  }

  lemma LookedIsZone(s: State, now: bv32, k: nat)
    requires Wf(s) && k < ZONES
    ensures IsZone(Examined(s, 0, now)[k])
  {
    hide Examined, Wf, AfterTurns;
    LookAt(s, now, k);
  }

  /** Turn t lies as far past the start as x does, counting what the zones in line before it have added. */
  predicate Hits(s: State, now: bv32, x: nat, t: nat)
    requires Wf(s) && IsZone(x) && t < ZONES
  {
    InvWfLength(s);
    WfRr(s);
    (t + Shift(s, now, Examined(s, 0, now), t)) % ZONES == Distance(s.rr, x)
  }

  lemma HitsIff(s: State, now: bv32, x: nat, t: nat)
    requires Wf(s) && IsZone(x) && t < ZONES
    ensures Examined(s, 0, now)[t] == x <==> Hits(s, now, x, t)
  {
    hide Examined, Wf, InLine, ScanId, Shift, Distance;
    TurnLaw(s, now, t);
    PlaceIs(s.rr, t + Shift(s, now, Examined(s, 0, now), t), x);
  }

  /** Exactly which zones a scan looks at: those some turn of it hits. */
  lemma VisitedIff(s: State, now: bv32, x: nat)
    requires Wf(s) && IsZone(x)
    ensures x in Visited(s, now) <==> exists t: nat :: t < |Visited(s, now)| && Hits(s, now, x, t)
  {
    hide Examined, Wf, Hits, Turns;
    var q, v := Examined(s, 0, now), Visited(s, now);
    forall t: nat | t < |v| ensures v[t] == x <==> Hits(s, now, x, t) { HitsIff(s, now, x, t); }
  }

  lemma PlaceIs(rr: nat, a: nat, x: nat)
    requires IsZone(rr) && IsZone(x)
    ensures ScanId(rr, a) == x <==> a % ZONES == Distance(rr, x)
  {
  }

  /** For a zone in line with work to do, being looked at and being served are the same. */
  lemma ServedIff(s: State, now: bv32, sub: Option<nat>, clock: bv32, x: nat)
    requires Wf(s) && IsZone(x) && |s.zones| == ZONES && InLine(At(s, x), now) && !Settled(At(s, x))
    ensures var did := Scan(s, 0, now, sub, clock).1;
      did.Began? && did.zone == x <==> x in Visited(s, now)
  {
    hide Examined, Wf, InLine, Settled, Scan, AfterTurns;
    ScanLaw(s, 0, now, sub, clock);
    NoTurns(s, now);
    var q, v := Examined(s, 0, now), Visited(s, now);
    if x in v {
      var f := FirstAt(v, x);
      assert q[f] == v[f] && q[..f] == v[..f];
      assert Ends(s, now, q, f);
    } else {
      assert |v| > 0 ==> q[|v| - 1] == v[|v| - 1];
    }
  }

  lemma {:induction false} FirstAt(v: seq<nat>, x: nat) returns (f: nat)
    requires x in v
    ensures f < |v| && v[f] == x && x !in v[..f]
  {
    f := |v| - 1;
    if x in v[..f] {
      var g := FirstAt(v[..f], x);
      assert v[..f][..g] == v[..g];
      f := g;
    } else {
      assert v == v[..f] + [v[f]];
    }
  }

  // ---------------- scans over a run ----------------

  /** The step is a tick that gets as far as the automatic decision. */
  predicate IsScan(s: State, a: Action)
    requires Wf(s)
  {
    a.TickAct? && TakesScan(s)
  }

  /** The step is a scan that looks at x. */
  predicate Looks(s: State, a: Action, x: nat)
    requires Wf(s)
  {
    IsScan(s, a) && x in Visited(AfterClears(s), a.now)
  }

  /** x is in line if the step is a scan. */
  predicate Waits(s: State, a: Action, x: nat)
    requires Wf(s) && IsZone(x)
  {
    InvWfLength(AfterClears(s));
    IsScan(s, a) ==> InLine(At(AfterClears(s), x), a.now)
  }

  /** How far the step carries the start of the next scan. */
  function Carry(s: State, a: Action): nat
    requires Wf(s)
  {
    if IsScan(s, a) then
      var t := AfterClears(s);
      InvWfLength(t);
      Shift(t, a.now, Examined(t, 0, a.now), |Visited(t, a.now)|)
    else 0
  }

  lemma AfterClearsRr(s: State)
    requires Wf(s)
    ensures AfterClears(s).rr == s.rr && IsZone(s.rr)
  {
    hide ClearMasked, Wf;
    InvWfLength(s);
    WfRr(s);
    ClearMaskedCx(s, 1);
  }

  lemma CarryLaw(s: State, a: Action)
    requires Enabled(s, a)
    ensures Wf(s) && IsZone(s.rr) && Step(s, a).rr == ScanId(s.rr, Carry(s, a))
  {
    hide ScanId, AfterClears, Tick, Enabled, Carry, Wf, Step;
    if a.TickAct? {
      TickCarry(s, a);
    } else {
      EnabledStart(s, a);
      NextId(s.rr);
      NoCarry(s, a);
    }
  }

  lemma NoCarry(s: State, a: Action)
    requires Wf(s) && !IsScan(s, a)
    ensures Carry(s, a) == 0
  {
  }

  lemma TickCarry(s: State, a: Action)
    requires Enabled(s, a) && a.TickAct?
    ensures Wf(s) && IsZone(s.rr) && Step(s, a).rr == ScanId(s.rr, Carry(s, a))
  {
    hide TakesWrite, TakesPush, TakesScan, SlotFree, ScanId, Wf, Carry, AfterClears, Scan, CxTick;
    hide StartSet, CxPush, FirstWrite, PushGenFor, PushIdent;
    AfterClearsRr(s);
    InvWfLength(s);
    var t := AfterClears(s);
    InvWfLength(t);
    NextId(s.rr);
    BranchIs(s);
    match TickBranch(t, s.pushReq)
    case Transfer => SlotKeepsStart(t, a.now, a.expired, a.sub, a.clock); NoCarry(s, a);
    case Write => WriteKeepsStart(t, a.sub, a.clock); NoCarry(s, a);
    case Manual =>
      PushKeepsStart(t, s.pushReq, PushGenFor(At(t, s.pushReq)), PushIdent(At(t, s.pushReq)), a.sub, a.clock);
      NoCarry(s, a);
    case Auto => ScanCarry(s, a);
  }

  lemma ScanCarry(s: State, a: Action)
    requires Wf(s) && IsScan(s, a)
    ensures IsZone(s.rr)
    ensures Scan(AfterClears(s), 0, a.now, a.sub, a.clock).0.rr == ScanId(s.rr, Carry(s, a))
  {
    hide ScanId, Wf, Shift, Examined, AfterClears, Scan, Turns, AfterTurns;
    AfterClearsRr(s);
    NoTurns(AfterClears(s), a.now);
    ScanLaw(AfterClears(s), 0, a.now, a.sub, a.clock);
  }

  lemma PushKeepsStart(t: State, z: nat, gen: u32, id: Ident, sub: Option<nat>, clock: bv32)
    requires Wf(t) && IsZone(z)
    ensures CxPush(t, z, gen, id, sub, clock).rr == t.rr
  {
    hide PushWire;
  }

  lemma SlotKeepsStart(t: State, now: bv32, expired: bool, sub: Option<nat>, clock: bv32)
    requires Wf(t) && t.cx.st != IDLE
    ensures CxTick(t, now, expired, sub, clock).rr == t.rr
  {
    hide PushWire, Before;
  }

  lemma WriteKeepsStart(t: State, sub: Option<nat>, clock: bv32)
    requires Wf(t) && FirstWrite(t.zones, 1) != 0
    ensures var z := FirstWrite(t.zones, 1);
      StartSet(TakeWrite(t), z, At(t, z).write.value, sub, clock).rr == t.rr
  {
    hide PushWire, FirstWrite, StoreCfg, Stamp, PushGenFor;
  }

  lemma EnabledStart(s: State, a: Action)
    requires Enabled(s, a) && !a.TickAct?
    ensures Wf(s) && IsZone(s.rr) && Step(s, a).rr == s.rr
  {
    hide AfterClears, Tick, StoreCfg, StoreHw, UnwrapPlane, PushWire, Forward.OnEv, Forward.Adopt, TerminalReply;
  }

  /** How far the steps from i to n carry the start. */
  function Drift(ss: seq<State>, acts: seq<Action>, i: nat, n: nat): nat
    requires i <= n <= |acts| <= |ss| && forall k :: i <= k < n ==> Wf(ss[k])
  {
    if n == i then 0 else Drift(ss, acts, i, n - 1) + Carry(ss[n - 1], acts[n - 1])
  }

  lemma {:induction false} DriftLaw(ss: seq<State>, acts: seq<Action>, i: nat, n: nat)
    requires IsRun(ss, acts) && i <= n <= |acts|
    ensures forall k :: i <= k < n ==> Wf(ss[k])
    ensures IsZone(ss[i].rr) && ss[n].rr == ScanId(ss[i].rr, Drift(ss, acts, i, n))
    decreases n
  {
    hide Inv, Enabled, Step, Wf, ScanId, Carry;
    RunInv(ss, acts, i);
    WfRr(ss[i]);
    if n == i {
      NextId(ss[i].rr);
    } else {
      DriftLaw(ss, acts, i, n - 1);
      RunInv(ss, acts, n - 1);
      RunStep(ss, acts, n - 1);
      CarryLaw(ss[n - 1], acts[n - 1]);
      ScanIdAdds(ss[i].rr, Drift(ss, acts, i, n - 1), Carry(ss[n - 1], acts[n - 1]));
    }
  }

  // ---------------- who is passed over, exactly ----------------

  /** Turn t of the scan at step n lies as far past the start of step i as x did then. */
  predicate Reaches(ss: seq<State>, acts: seq<Action>, i: nat, n: nat, t: nat, x: nat)
    requires i <= n < |acts| <= |ss| && (forall k :: i <= k <= n ==> Wf(ss[k])) && IsZone(x) && t < ZONES
    requires acts[n].TickAct?
  {
    WfRr(ss[i]);
    var s := AfterClears(ss[n]);
    InvWfLength(s);
    (Drift(ss, acts, i, n) + t + Shift(s, acts[n].now, Examined(s, 0, acts[n].now), t)) % ZONES == Distance(ss[i].rr, x)
  }

  lemma ReachesHits(ss: seq<State>, acts: seq<Action>, i: nat, n: nat, t: nat, x: nat)
    requires IsRun(ss, acts) && i <= n < |acts| && IsZone(x) && t < ZONES && acts[n].TickAct?
    ensures forall k :: i <= k <= n ==> Wf(ss[k])
    ensures Reaches(ss, acts, i, n, t, x) <==> Hits(AfterClears(ss[n]), acts[n].now, x, t)
  {
    hide Inv, Enabled, Step, Wf, ScanId, Carry, Shift, Examined, AfterClears, Distance;
    RunInv(ss, acts, n);
    DriftLaw(ss, acts, i, n);
    AfterClearsRr(ss[n]);
    var s := AfterClears(ss[n]);
    InvWfLength(s);
    var d, e := Drift(ss, acts, i, n), t + Shift(s, acts[n].now, Examined(s, 0, acts[n].now), t);
    ScanIdAdds(ss[i].rr, d, e);
    PlaceIs(ss[i].rr, d + e, x);
    PlaceIs(ss[n].rr, e, x);
  }

  /**
   The exact form over any stretch of any run: no scan of it looks at x precisely when no
   turn of any of them reaches x's place, counted from where the stretch began. Only zones
   in line carry the turns further than one place each, and only a start cuts a scan short.
   */
  lemma PassedOverIff(ss: seq<State>, acts: seq<Action>, i: nat, j: nat, x: nat)
    requires IsRun(ss, acts) && i <= j <= |acts| && IsZone(x)
    ensures forall k :: i <= k < j ==> Wf(ss[k])
    ensures (forall n :: i <= n < j ==> !Looks(ss[n], acts[n], x)) <==>
      (forall n, t: nat :: i <= n < j && IsScan(ss[n], acts[n]) && t < |Visited(AfterClears(ss[n]), acts[n].now)| ==>
         !Reaches(ss, acts, i, n, t, x))
  {
    hide Inv, Enabled, Step, Wf, ScanId, Hits, Visited, Reaches, AfterClears;
    forall k | i <= k < j ensures Wf(ss[k]) { RunInv(ss, acts, k); }
    forall n, t: nat | i <= n < j && IsScan(ss[n], acts[n]) && t < |Visited(AfterClears(ss[n]), acts[n].now)|
      ensures Reaches(ss, acts, i, n, t, x) ==> Looks(ss[n], acts[n], x)
    {
      ReachesHits(ss, acts, i, n, t, x);
      VisitedIff(AfterClears(ss[n]), acts[n].now, x);
    }
    forall n | i <= n < j && Looks(ss[n], acts[n], x)
      ensures exists t: nat :: t < |Visited(AfterClears(ss[n]), acts[n].now)| && Reaches(ss, acts, i, n, t, x)
    {
      var s := AfterClears(ss[n]);
      VisitedIff(s, acts[n].now, x);
      var t: nat :| t < |Visited(s, acts[n].now)| && Hits(s, acts[n].now, x, t);
      ReachesHits(ss, acts, i, n, t, x);
    }
  }

  // ---------------- bounded waiting ----------------

  /** Whenever the step is a scan, its first zone in line has something to start. */
  ghost predicate FirstHasWork(s: State, a: Action)
    requires Wf(s)
  {
    var t := AfterClears(s);
    InvWfLength(t);
    WfRr(t);
    IsScan(s, a) ==>
      forall y: nat :: IsZone(y) && FirstInLine(t, 0, y, a.now) ==> !Settled(At(t, y))
  }

  function Scans(ss: seq<State>, acts: seq<Action>, i: nat, j: nat): nat
    requires i <= j <= |acts| <= |ss| && forall k :: i <= k < j ==> Wf(ss[k])
  {
    if j == i then 0 else Scans(ss, acts, i, j - 1) + (if IsScan(ss[j - 1], acts[j - 1]) then 1 else 0)
  }

  /** Up to the first zone in line the turns simply count up. */
  lemma {:induction false} CountUp(s: State, now: bv32, y: nat, t: nat)
    requires Wf(s) && IsZone(y) && |s.zones| == ZONES && IsZone(s.rr) && FirstInLine(s, 0, y, now)
    requires t <= Distance(s.rr, y)
    ensures Shift(s, now, Examined(s, 0, now), t) == 0 && Examined(s, 0, now)[t] == ScanId(s.rr, t)
  {
    hide Examined, Wf, InLine, ScanId, AfterTurns;
    if t > 0 { CountUp(s, now, y, t - 1); }
    TurnLaw(s, now, t);
  }

  /** The first zone in line, if it has work, ends the scan at its own turn. */
  lemma FirstEnds(s: State, now: bv32, y: nat)
    requires Wf(s) && IsZone(y) && |s.zones| == ZONES && IsZone(s.rr)
    requires FirstInLine(s, 0, y, now) && !Settled(At(s, y))
    ensures var q, e := Examined(s, 0, now), Distance(s.rr, y);
      Turns(s, now, q, 0) == e + 1 && Shift(s, now, q, e + 1) == e + 1 && q[e] == y
  {
    hide Examined, Wf, InLine, ScanId, AfterTurns, Settled, Turns;
    var q, e := Examined(s, 0, now), Distance(s.rr, y);
    CountUp(s, now, y, e);
    forall f: nat | f < e ensures q[f] == ScanId(s.rr, f) && !InLine(At(s, q[f]), now) && q[f] != y {
      CountUp(s, now, y, f);
      SameTurn(s.rr, f, e);
    }
    assert Ends(s, now, q, e);
    assert forall f :: 0 <= f < e ==> !Ends(s, now, q, f);
  }

  /** Some zone is first in line if any is. */
  lemma {:induction false} FirstOf(s: State, now: bv32, d: nat) returns (y: nat)
    requires |s.zones| == ZONES && IsZone(s.rr) && d < ZONES && InLine(At(s, ScanId(s.rr, d)), now)
    ensures IsZone(y) && FirstInLine(s, 0, y, now) && Distance(s.rr, y) <= d
  {
    hide InLine;
    if e: nat :| e < d && InLine(At(s, ScanId(s.rr, e)), now) {
      y := FirstOf(s, now, e);
    } else {
      y := ScanId(s.rr, d);
    }
  }

  /** A scan that starts something for the first in line serves x or brings it strictly nearer the front. */
  lemma WaitStep(s: State, a: Action, x: nat)
    requires Enabled(s, a) && IsZone(x) && Wf(s) && IsScan(s, a) && Waits(s, a, x) && FirstHasWork(s, a)
    requires !Looks(s, a, x)
    ensures IsZone(s.rr) && IsZone(Step(s, a).rr) && Distance(Step(s, a).rr, x) < Distance(s.rr, x)
  {
    hide Examined, Wf, InLine, ScanId, Settled, Turns, Step, Enabled, AfterClears, Shift, FirstInLine;
    CarryLaw(s, a);
    AfterClearsRr(s);
    var t := AfterClears(s);
    InvWfLength(t);
    var d := Distance(t.rr, x);
    var y := FirstOf(t, a.now, d);
    FirstEnds(t, a.now, y);
    var q, e := Examined(t, 0, a.now), Distance(t.rr, y);
    assert q[..e + 1][e] == y;
    assert x != y;
    NextDistance(t.rr, e, x);
  }

  lemma NextDistance(rr: nat, e: nat, x: nat)
    requires IsZone(rr) && IsZone(x) && e <= Distance(rr, x) && ScanId(rr, e) != x
    ensures Distance(ScanId(rr, e + 1), x) < Distance(rr, x)
  {
  }

  /**
   Rule (a) where it holds: while x stays in line and every scan's first zone in line has
   work to start, each scan that passes x over takes at least one place off its wait.
   */
  lemma {:induction false} BoundedWait(ss: seq<State>, acts: seq<Action>, i: nat, j: nat, x: nat)
    requires IsRun(ss, acts) && i <= j <= |acts| && IsZone(x)
    requires forall n :: i <= n < j ==>
      Wf(ss[n]) && Waits(ss[n], acts[n], x) && FirstHasWork(ss[n], acts[n]) && !Looks(ss[n], acts[n], x)
    ensures IsZone(ss[i].rr) && IsZone(ss[j].rr)
    ensures Scans(ss, acts, i, j) + Distance(ss[j].rr, x) <= Distance(ss[i].rr, x)
    decreases j
  {
    hide Inv, Enabled, Step, Wf, ScanId, Waits, FirstHasWork, Looks, IsScan, Distance;
    RunInv(ss, acts, i);
    WfRr(ss[i]);
    if i < j {
      BoundedWait(ss, acts, i, j - 1, x);
      RunStep(ss, acts, j - 1);
      if IsScan(ss[j - 1], acts[j - 1]) {
        WaitStep(ss[j - 1], acts[j - 1], x);
      } else {
        CarryLaw(ss[j - 1], acts[j - 1]);
        NoCarry(ss[j - 1], acts[j - 1]);
        NextId(ss[j - 1].rr);
      }
    }
  }

  /** In such a scan, being looked at is being served. */
  lemma LookedIsServed(s: State, a: Action, x: nat)
    requires Wf(s) && IsZone(x) && Looks(s, a, x) && Waits(s, a, x) && FirstHasWork(s, a)
    ensures Starts(s, a, x)
  {
    hide TakesWrite, TakesPush, TakesScan, SlotFree, Examined, Wf, InLine, ScanId, Settled;
    hide Turns, AfterClears, Shift, FirstInLine, Scan;
    BranchIs(s);
    AfterClearsRr(s);
    InvWfLength(s);
    var t := AfterClears(s);
    InvWfLength(t);
    var y := FirstOf(t, a.now, Distance(t.rr, x));
    FirstEnds(t, a.now, y);
    OnlyFirstInLine(t, a.now, y, x);
    ServedIff(t, a.now, a.sub, a.clock, x);
  }

  lemma OnlyFirstInLine(t: State, now: bv32, y: nat, x: nat)
    requires Wf(t) && IsZone(y) && |t.zones| == ZONES && IsZone(t.rr) && FirstInLine(t, 0, y, now) && !Settled(At(t, y))
    requires IsZone(x) && InLine(At(t, x), now) && x in Visited(t, now)
    ensures x == y
  {
    hide Examined, Wf, InLine, ScanId, Settled, Turns, Shift;
    FirstEnds(t, now, y);
    var v := Visited(t, now);
    var f: nat :| f < |v| && v[f] == x;
    CountUp(t, now, y, f);
  }

  /** So at most as many scans as x has places to go, seven at the most, come before the one that serves it. */
  lemma ServedWithinATurn(ss: seq<State>, acts: seq<Action>, i: nat, j: nat, x: nat)
    requires IsRun(ss, acts) && i <= j <= |acts| && IsZone(x)
    requires forall n :: i <= n < j ==> Wf(ss[n]) && Waits(ss[n], acts[n], x) && FirstHasWork(ss[n], acts[n])
    requires IsZone(ss[i].rr) && Scans(ss, acts, i, j) > Distance(ss[i].rr, x)
    ensures exists n: nat :: i <= n < j && Starts(ss[n], acts[n], x)
  {
    hide Inv, Enabled, Step, Wf, ScanId, Waits, FirstHasWork, Looks, IsScan, Starts;
    if n: nat :| i <= n < j && Looks(ss[n], acts[n], x) {
      LookedIsServed(ss[n], acts[n], x);
    } else {
      BoundedWait(ss, acts, i, j, x);
      assert false;
    }
  }
}
