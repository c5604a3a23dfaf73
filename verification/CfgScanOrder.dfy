/**
 The order of the scan told from two lists alone (components/node_mgr/node_mgr_cfg.c): the
 zones in line when it begins and those of them with something to start. No state of the
 reconciler has to be followed through the turns to know which zones are looked at.
 */
module CfgScanOrder {
  import opened Wrappers
  import opened CfgState
  import opened CfgMoves
  import opened CfgScan
  import opened CfgFairness
  import opened CfgInvariant
  import opened CfgSystem

  /** The ids the turns from i on look at. A zone in line moves the start past itself, one with work ends the scan. */
  function Looked(rr: nat, i: nat, line: set<nat>, work: set<nat>): seq<nat>
    requires IsZone(rr) && i <= ZONES
    decreases ZONES - i
  {
    if i == ZONES then []
    else
      var id := ScanId(rr, i);
      if id !in line then [id] + Looked(rr, i + 1, line, work)
      else if id in work then [id]
      else [id] + Looked(id % ZONES + 1, i + 1, line - {id}, work)
  }

  /** The start those turns leave for the next scan. */
  function NextStart(rr: nat, i: nat, line: set<nat>, work: set<nat>): (r: nat)
    requires IsZone(rr) && i <= ZONES
    ensures IsZone(r)
    decreases ZONES - i
  {
    if i == ZONES then rr
    else
      var id := ScanId(rr, i);
      if id !in line then NextStart(rr, i + 1, line, work)
      else if id in work then id % ZONES + 1
      else NextStart(id % ZONES + 1, i + 1, line - {id}, work)
  }

  function Line(s: State, now: bv32): set<nat>
    requires |s.zones| == ZONES
  {
    set z: nat | z <= ZONES && IsZone(z) && InLine(At(s, z), now)
  }

  function Work(s: State): set<nat>
    requires |s.zones| == ZONES
  {
    set z: nat | z <= ZONES && IsZone(z) && !Settled(At(s, z))
  }

  /** What turns k and on have in line: the zones in line at first that no earlier turn looked at. */
  function LineLeft(s: State, now: bv32, k: nat): set<nat>
    requires Wf(s) && |s.zones| == ZONES && k <= ZONES
  {
    set z | z in Line(s, now) && z !in Examined(s, 0, now)[..k]
  }

  lemma LineShrinks(s: State, now: bv32, k: nat)
    requires Wf(s) && |s.zones| == ZONES && k < ZONES
    ensures var q := Examined(s, 0, now);
      && LineLeft(s, now, k + 1) == LineLeft(s, now, k) - {q[k]}
      && (Moves(s, now, q, k) <==> q[k] in LineLeft(s, now, k))
      && (Ends(s, now, q, k) <==> q[k] in LineLeft(s, now, k) && q[k] in Work(s))
  {
    hide Examined, Wf, InLine, Settled;
    var q := Examined(s, 0, now);
    assert q[..k + 1] == q[..k] + [q[k]];
  }

  /** One turn, told from what is left in line. */
  lemma LookedTurn(s: State, now: bv32, k: nat)
    requires Wf(s) && |s.zones| == ZONES && k < ZONES
    ensures IsZone(AfterTurns(s, k, now).rr) && IsZone(AfterTurns(s, k + 1, now).rr)
    ensures var q, rr, l, w := Examined(s, 0, now), AfterTurns(s, k, now).rr, LineLeft(s, now, k), Work(s);
            var rr', l' := AfterTurns(s, k + 1, now).rr, LineLeft(s, now, k + 1);
      && (Ends(s, now, q, k) ==> Looked(rr, k, l, w) == [q[k]] && NextStart(rr, k, l, w) == rr')
      && (!Ends(s, now, q, k) ==>
           Looked(rr, k, l, w) == [q[k]] + Looked(rr', k + 1, l', w)
           && NextStart(rr, k, l, w) == NextStart(rr', k + 1, l', w))
  {
    hide Examined, Wf, AfterTurns, ScanId, Moves, Ends, LineLeft, Work;
    WfRr(AfterTurns(s, k, now));
    WfRr(AfterTurns(s, k + 1, now));
    LookAt(s, now, k);
    LineShrinks(s, now, k);
    StartMoves(s, now, k + 1);
    var id := Examined(s, 0, now)[k];
    NextId(id);
    assert id !in LineLeft(s, now, k) ==> LineLeft(s, now, k + 1) == LineLeft(s, now, k);
  }

  /** From turn k on the scan is what the two lists say. */
  lemma {:induction false} TurnsAreLooked(s: State, now: bv32, k: nat)
    requires Wf(s) && |s.zones| == ZONES && k <= ZONES
    ensures var q, rr := Examined(s, 0, now), AfterTurns(s, k, now).rr;
            var m := Turns(s, now, q, k);
      && IsZone(rr) && q[k..m] == Looked(rr, k, LineLeft(s, now, k), Work(s))
      && AfterTurns(s, m, now).rr == NextStart(rr, k, LineLeft(s, now, k), Work(s))
    decreases ZONES - k
  {
    hide Examined, Wf, AfterTurns, Ends, LineLeft, Work, Looked, NextStart;
    var q := Examined(s, 0, now);
    WfRr(AfterTurns(s, k, now));
    if k == ZONES {
      NoneLooked(AfterTurns(s, k, now).rr, LineLeft(s, now, k), Work(s));
    } else {
      LookedTurn(s, now, k);
      if !Ends(s, now, q, k) {
        TurnsAreLooked(s, now, k + 1);
        var m := Turns(s, now, q, k + 1);
        assert q[k..m] == [q[k]] + q[k + 1..m];
      }
    }
  }

  lemma NoneLooked(rr: nat, line: set<nat>, work: set<nat>)
    requires IsZone(rr)
    ensures Looked(rr, ZONES, line, work) == [] && NextStart(rr, ZONES, line, work) == rr
  {
  }

  /** Which zones a scan looks at, and where it leaves the start, from the two lists. */
  lemma VisitedIsLooked(s: State, now: bv32, sub: Option<nat>, clock: bv32)
    requires Wf(s)
    ensures |s.zones| == ZONES && IsZone(s.rr)
    ensures Visited(s, now) == Looked(s.rr, 0, Line(s, now), Work(s))
    ensures Scan(s, 0, now, sub, clock).0.rr == NextStart(s.rr, 0, Line(s, now), Work(s))
  {
    hide Examined, Wf, InLine, Settled, AfterTurns, ScanId, Moves, Ends, Work, Line, Scan, Shift, Looked, NextStart;
    InvWfLength(s);
    WfRr(s);
    NoTurns(s, now);
    assert LineLeft(s, now, 0) == Line(s, now);
    TurnsAreLooked(s, now, 0);
    ScanLaw(s, 0, now, sub, clock);
    var q := Examined(s, 0, now);
    TurnLaw(s, now, Turns(s, now, q, 0));
  }

  // ---------------- over a run ----------------

  /** The zones in line, and those with work, when the step comes to its scan. */
  function LineOf(s: State, a: Action): set<nat>
    requires Wf(s) && a.TickAct?
  {
    InvWfLength(AfterClears(s));
    Line(AfterClears(s), a.now)
  }

  function WorkOf(s: State): set<nat>
    requires Wf(s)
  {
    InvWfLength(AfterClears(s));
    Work(AfterClears(s))
  }

  /** Where the scan of step n starts, told from where step i does and the lists in between. */
  function StartAt(ss: seq<State>, acts: seq<Action>, i: nat, n: nat): (r: nat)
    requires i <= n <= |acts| < |ss| && (forall k :: i <= k < n ==> Wf(ss[k])) && IsZone(ss[i].rr)
    ensures IsZone(r)
  {
    if n == i then ss[i].rr
    else
      var r, s, a := StartAt(ss, acts, i, n - 1), ss[n - 1], acts[n - 1];
      if IsScan(s, a) then NextStart(r, 0, LineOf(s, a), WorkOf(s)) else r
  }

  lemma ScanStep(s: State, a: Action)
    requires Enabled(s, a)
    ensures Wf(s) && IsZone(s.rr)
    ensures Step(s, a).rr == if IsScan(s, a) then NextStart(s.rr, 0, LineOf(s, a), WorkOf(s)) else s.rr
    ensures forall x: nat ::
      Looks(s, a, x) <==> IsScan(s, a) && x in Looked(s.rr, 0, LineOf(s, a), WorkOf(s))
  {
    hide Enabled, Wf, Step, ScanId, Looked, NextStart, Line, Work, Visited, Scan, AfterClears, Carry;
    CarryLaw(s, a);
    AfterClearsRr(s);
    if IsScan(s, a) {
      VisitedIsLooked(AfterClears(s), a.now, a.sub, a.clock);
      ScanCarry(s, a);
    } else {
      NoCarry(s, a);
      NextId(s.rr);
    }
  }

  lemma {:induction false} StartIs(ss: seq<State>, acts: seq<Action>, i: nat, n: nat)
    requires IsRun(ss, acts) && i <= n <= |acts|
    ensures (forall k :: i <= k <= n ==> Wf(ss[k])) && IsZone(ss[i].rr)
    ensures ss[n].rr == StartAt(ss, acts, i, n)
    decreases n
  {
    hide Inv, Enabled, Step, Wf, IsScan, NextStart, LineOf, WorkOf;
    RunInv(ss, acts, i);
    WfRr(ss[i]);
    if i < n {
      StartIs(ss, acts, i, n - 1);
      RunInv(ss, acts, n);
      RunStep(ss, acts, n - 1);
      ScanStep(ss[n - 1], acts[n - 1]);
    }
  }

  /**
   Who is passed over, from the lists alone: over any stretch of any run no scan looks at x
   exactly when x is on none of the lists of ids that the zones in line and the zones with
   work spell out, each from the start the ones before it have left.
   */
  lemma NeverLookedIff(ss: seq<State>, acts: seq<Action>, i: nat, j: nat, x: nat)
    requires IsRun(ss, acts) && i <= j <= |acts|
    ensures (forall k :: i <= k < j ==> Wf(ss[k])) && IsZone(ss[i].rr)
    ensures (forall n :: i <= n < j ==> !Looks(ss[n], acts[n], x)) <==>
      (forall n :: i <= n < j && IsScan(ss[n], acts[n]) ==>
         x !in Looked(StartAt(ss, acts, i, n), 0, LineOf(ss[n], acts[n]), WorkOf(ss[n])))
  {
    hide Inv, Enabled, Step, Wf, TickBranch, AfterClears, Looks, Looked, LineOf, WorkOf, StartAt;
    StartIs(ss, acts, i, j);
    forall n | i <= n < j
      ensures Looks(ss[n], acts[n], x) <==>
        IsScan(ss[n], acts[n]) && x in Looked(StartAt(ss, acts, i, n), 0, LineOf(ss[n], acts[n]), WorkOf(ss[n]))
    {
      StartIs(ss, acts, i, n);
      RunStep(ss, acts, n);
      ScanStep(ss[n], acts[n]);
    }
  }
}
