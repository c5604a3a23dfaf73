/**
 The install claim (components/panel_svc/psvc_fw_env.c) against the fleet lock
 (components/node_mgr/node_mgr_fleet.c): an install claims its flag first and reads the
 fleet status afterwards; a fleet start reads the flag inside the lock it starts under.

 Any number of install calls and fleet starts interleave. The flag changes under a
 spinlock, one atomic step a change; the mutex is modelled by its holder.
 */
module Interlock {
  import opened FleetSeq
  import Text

  // ---------------- the glue's own operations ----------------

  function PhaseText(st: Fz): string {
    match st
    case PRECHECK => "PRECHECK"
    case WAIT_ACK => "UPDATING"
    case _ => "WAIT_HB"
  }

  /** fleet_status */
  function Status(f: Fleet): string
    requires Ok(f)
  {
    if !f.active then "IDLE" else Text.Decimal(f.zones[f.idx]) + " " + PhaseText(f.st)
  }

  /** psvc_fleet_idle on the status text says exactly "no sequence is active". */
  lemma IdleText(f: Fleet)
    requires Ok(f)
    ensures Status(f) == "IDLE" <==> !f.active
  {
    if f.active { assert Status(f)[0] == Text.Decimal(f.zones[f.idx])[0]; }
  }

  /** fleet_start under the gate: the fleet afterwards and the return code. */
  function Start(f: Fleet, busy: bool, list: seq<nat>): (Fleet, int) {
    if busy then (f, -2)
    else if f.active then (f, -2)
    else if list == [] || |list| > MAX_ZONES then (f, -1)
    else (Begin(list), 0)
  }

  /** A start goes ahead exactly with nothing busy and one to eight zones, and busy comes before bad. */
  lemma StartVerdict(f: Fleet, busy: bool, list: seq<nat>)
    ensures var (r, rc) := Start(f, busy, list);
      && (rc == 0 <==> !busy && !f.active && 0 < |list| <= 8)
      && (rc == -2 <==> busy || f.active) && rc in {0, -1, -2}
      && (rc != 0 ==> r == f)
      && (rc == 0 ==> r.active && !r.cancelReq && r.zones == list && r.idx == 0 && r.st == PRECHECK)
  {
  }

  /** The ids, ascending, of the used rows. */
  function UsedIds(used: seq<bool>): (r: seq<nat>)
    ensures |r| <= |used|
    ensures forall k :: 0 <= k < |r| ==> 1 <= r[k] <= |used| && used[r[k] - 1]
    ensures forall k :: 0 <= k < |used| && used[k] ==> k + 1 in r
  {
    if used == [] then []
    else
      var n := |used|;
      var front := UsedIds(used[..n - 1]);
      if used[n - 1] then front + [n] else front
  }

  lemma {:induction false} UsedIdsAscend(used: seq<bool>, i: nat, j: nat)
    requires i < j < |UsedIds(used)|
    ensures UsedIds(used)[i] < UsedIds(used)[j]
  {
    var front := UsedIds(used[..|used| - 1]);
    if j < |front| {
      UsedIdsAscend(used[..|used| - 1], i, j);
    } else {
      assert front[i] <= |used| - 1;
    }
  }

  lemma UsedIdsSorted(used: seq<bool>)
    ensures var r := UsedIds(used); forall i, j :: 0 <= i < j < |r| ==> r[i] < r[j]
  {
    hide UsedIds;
    var r := UsedIds(used);
    forall i: nat, j: nat | i < j < |r| ensures r[i] < r[j] { UsedIdsAscend(used, i, j); }
  }

  lemma NoneUsed(used: seq<bool>)
    ensures UsedIds(used[..0]) == []
  {
  }

  lemma OneMore(used: seq<bool>, id: nat)
    requires 1 <= id <= |used|
    ensures UsedIds(used[..id]) == UsedIds(used[..id - 1]) + (if used[id - 1] then [id] else [])
  {
    assert used[..id][..id - 1] == used[..id - 1];
  }

  /** The loop of node_mgr_fw_all that fills zones[] from the node table. */
  method CollectUsed(used: seq<bool>) returns (list: seq<nat>)
    requires |used| == MAX_ZONES
    ensures list == UsedIds(used)
    ensures forall i, j :: 0 <= i < j < |list| ==> list[i] < list[j]
  {
    hide UsedIds;
    NoneUsed(used);
    list := [];
    var id := 1;
    while id <= MAX_ZONES
      invariant 1 <= id <= MAX_ZONES + 1
      invariant list == UsedIds(used[..id - 1])
    {
      OneMore(used, id);
      if used[id - 1] { list := list + [id]; }
      id := id + 1;
    }
    assert used[..MAX_ZONES] == used;
    UsedIdsSorted(used);
  }

  class FleetGlue {
    const fleet: Sequencer
    var uploadBusy: bool

    ghost predicate Valid()
      reads this, fleet
    {
      fleet.Valid()
    }

    constructor ()
      ensures Valid() && !uploadBusy && fresh(fleet) && !fleet.active
    {
      uploadBusy := false;
      fleet := new Sequencer();
    }

    method Claim() returns (got: bool)
      modifies this`uploadBusy
      ensures uploadBusy && got == !old(uploadBusy)
    {
      got := false;
      if !uploadBusy { uploadBusy := true; got := true; }
    }

    method FleetIdle() returns (idle: bool)
      requires Valid()
      ensures idle == !fleet.active
    {
      var text := if !fleet.active then "IDLE" else Text.Decimal(fleet.zones[fleet.idx]) + " " + PhaseText(fleet.st);
      IdleText(fleet.Abs());
      idle := text == "IDLE";
    }

    method FwZone(zone: nat) returns (rc: int)
      requires Valid()
      modifies fleet
      ensures Valid()
      ensures !(1 <= zone <= MAX_ZONES) ==> rc == -1 && fleet.Abs() == old(fleet.Abs())
      ensures 1 <= zone <= MAX_ZONES ==> (fleet.Abs(), rc) == Start(old(fleet.Abs()), uploadBusy, [zone])
    {
      if zone < 1 || zone > MAX_ZONES { return -1; }
      if uploadBusy { return -2; }
      rc := fleet.Start([zone]);
    }

    method FwAll(used: seq<bool>) returns (rc: int)
      requires Valid() && |used| == MAX_ZONES
      modifies fleet
      ensures Valid()
      ensures UsedIds(used) == [] ==> rc == -1 && fleet.Abs() == old(fleet.Abs())
      ensures UsedIds(used) != [] ==> (fleet.Abs(), rc) == Start(old(fleet.Abs()), uploadBusy, UsedIds(used))
    {
      hide UsedIds;
      var list := CollectUsed(used);
      if |list| == 0 { return -1; }
      if uploadBusy { return -2; }
      rc := fleet.Start(list);
    }

    method FwAbort() returns (rc: int)
      requires Valid()
      modifies fleet
      ensures Valid() && rc == (if old(fleet.active) then 0 else -1)
      ensures fleet.Abs() == Next(old(fleet.Abs()), Cancel).0
    {
      var active := fleet.active;
      if active { fleet.CancelRun(); }
      rc := if active then 0 else -1;
    }
  }

  // ---------------- every interleaving ----------------

  datatype Ipc = NotYet | Claimed | Locked | Seen(idle: bool) | Past | Leaving | Over(installed: bool)
  datatype Spc = Waiting | Inside | Gated(clear: bool) | Ended(rc: int)
  datatype Holder = Free | ByInstall(i: nat) | ByStart(j: nat)

  datatype State = State(busy: bool, holder: Holder, fleet: Fleet, inst: seq<Ipc>, start: seq<Spc>)

  datatype Action =
    | IClaim(i: nat) | ILock(i: nat) | IRead(i: nat) | IUnlock(i: nat) | IRelease(i: nat)
    | SLock(j: nat) | SGate(j: nat) | SStart(j: nat, list: seq<nat>)
    | Run(e: Event)

  predicate Enabled(s: State, a: Action) {
    match a
    case IClaim(i) => i < |s.inst| && s.inst[i] == NotYet
    case ILock(i) => i < |s.inst| && s.inst[i] == Claimed && s.holder == Free
    case IRead(i) => i < |s.inst| && s.inst[i] == Locked
    case IUnlock(i) => i < |s.inst| && s.inst[i].Seen?
    case IRelease(i) => i < |s.inst| && (s.inst[i] == Past || s.inst[i] == Leaving)
    case SLock(j) => j < |s.start| && s.start[j] == Waiting && s.holder == Free
    case SGate(j) => j < |s.start| && s.start[j] == Inside
    case SStart(j, _) => j < |s.start| && s.start[j].Gated?
    case Run(_) => s.holder == Free && Ok(s.fleet)
  }

  function Step(s: State, a: Action): State
    requires Enabled(s, a)
  {
    match a
    case IClaim(i) =>
      if s.busy then s.(inst := s.inst[i := Over(false)]) else s.(busy := true, inst := s.inst[i := Claimed])
    case ILock(i) => s.(holder := ByInstall(i), inst := s.inst[i := Locked])
    case IRead(i) => s.(inst := s.inst[i := Seen(!s.fleet.active)])
    case IUnlock(i) => s.(holder := Free, inst := s.inst[i := if s.inst[i].idle then Past else Leaving])
    case IRelease(i) => s.(busy := false, inst := s.inst[i := Over(s.inst[i] == Past)])
    case SLock(j) => s.(holder := ByStart(j), start := s.start[j := Inside])
    case SGate(j) => s.(start := s.start[j := Gated(!s.busy)])
    case SStart(j, list) =>
      var (f, rc) := Start(s.fleet, !s.start[j].clear, list);
      s.(holder := Free, fleet := f, start := s.start[j := Ended(rc)])
    case Run(e) => s.(fleet := Next(s.fleet, e).0)
  }

  predicate Init(s: State) {
    && !s.busy && s.holder == Free && Ok(s.fleet)
    && (forall i :: 0 <= i < |s.inst| ==> s.inst[i] == NotYet)
    && (forall j :: 0 <= j < |s.start| ==> s.start[j] == Waiting)
  }

  predicate Owns(p: Ipc) { p == Claimed || p == Locked || p.Seen? || p == Past || p == Leaving }

  predicate HoldsLock(p: Ipc) { p == Locked || p.Seen? }

  predicate StartHolds(p: Spc) { p == Inside || p.Gated? }

  predicate Inv(s: State) {
    && Ok(s.fleet)
    && (forall i :: 0 <= i < |s.inst| && Owns(s.inst[i]) ==> s.busy)
    && (forall i, k :: 0 <= i < |s.inst| && 0 <= k < |s.inst| && Owns(s.inst[i]) && Owns(s.inst[k]) ==> i == k)
    && (forall i :: 0 <= i < |s.inst| && HoldsLock(s.inst[i]) ==> s.holder == ByInstall(i))
    && (forall j :: 0 <= j < |s.start| && StartHolds(s.start[j]) ==> s.holder == ByStart(j))
    && (forall i :: 0 <= i < |s.inst| && (s.inst[i] == Seen(true) || s.inst[i] == Past) ==> !s.fleet.active)
    && (forall i, j :: 0 <= i < |s.inst| && 0 <= j < |s.start| && s.start[j] == Gated(true) ==> s.inst[i] != Past)
  }

  predicate ByInstaller(a: Action) {
    a.IClaim? || a.ILock? || a.IRead? || a.IUnlock? || a.IRelease?
  }

  lemma InstallStep(s: State, a: Action)
    requires Inv(s) && Enabled(s, a) && ByInstaller(a)
    ensures Inv(Step(s, a))
  {
    hide Next, Start;
  }

  lemma FleetStep(s: State, a: Action)
    requires Inv(s) && Enabled(s, a) && !ByInstaller(a)
    ensures Inv(Step(s, a))
  {
    hide Next;
    if a.Run? { StoppedStays(s.fleet, a.e); }
  }

  lemma InvStep(s: State, a: Action)
    requires Inv(s) && Enabled(s, a)
    ensures Inv(Step(s, a))
  {
    hide Inv, Step, Enabled;
    if ByInstaller(a) { InstallStep(s, a); } else { FleetStep(s, a); }
  }

  lemma StoppedStays(f: Fleet, e: Event)
    requires Ok(f)
    ensures Ok(Next(f, e).0) && (!f.active ==> !Next(f, e).0.active)
  {
    NextOk(f, e);
  }

  ghost predicate IsRun(ss: seq<State>, acts: seq<Action>) {
    && |ss| == |acts| + 1 && Init(ss[0])
    && forall k :: 0 <= k < |acts| ==> Enabled(ss[k], acts[k]) && ss[k + 1] == Step(ss[k], acts[k])
  }

  lemma {:induction false} RunInv(ss: seq<State>, acts: seq<Action>, k: nat)
    requires IsRun(ss, acts) && k < |ss|
    ensures Inv(ss[k])
  {
    hide Inv, Step, Enabled;
    if k == 0 {
      InitInv(ss[0]);
    } else {
      RunInv(ss, acts, k - 1);
      InvStep(ss[k - 1], acts[k - 1]);
      assert ss[k - 1 + 1] == Step(ss[k - 1], acts[k - 1]);
    }
  }

  lemma InitInv(s: State)
    requires Init(s)
    ensures Inv(s)
  {
  }

  /** No install is ever past its fleet-idle guard and unreleased while a sequence is active. */
  lemma NeverTogether(ss: seq<State>, acts: seq<Action>, k: nat, i: nat)
    requires IsRun(ss, acts) && k < |ss| && i < |ss[k].inst| && ss[k].inst[i] == Past
    ensures !ss[k].fleet.active
    ensures forall m :: 0 <= m < |ss[k].inst| && m != i ==> !Owns(ss[k].inst[m])
  {
    RunInv(ss, acts, k);
  }

  // ---------------- who goes ahead, exactly ----------------

  /** The flag and the lock are held by somebody, and what an install has seen is still so. */
  predicate Held(s: State) {
    && (s.busy ==> exists i :: 0 <= i < |s.inst| && Owns(s.inst[i]))
    && (s.holder.ByInstall? ==> s.holder.i < |s.inst| && HoldsLock(s.inst[s.holder.i]))
    && (s.holder.ByStart? ==> s.holder.j < |s.start| && StartHolds(s.start[s.holder.j]))
    && (forall i :: 0 <= i < |s.inst| && s.inst[i].Seen? ==> s.inst[i].idle == !s.fleet.active)
  }

  lemma HeldStep(s: State, a: Action)
    requires Inv(s) && Held(s) && Enabled(s, a)
    ensures Held(Step(s, a))
  {
    hide Next, Start;
    if Step(s, a).busy { BusyStep(s, a); }
  }

  lemma BusyStep(s: State, a: Action)
    requires Inv(s) && Held(s) && Enabled(s, a) && Step(s, a).busy
    ensures exists i :: 0 <= i < |Step(s, a).inst| && Owns(Step(s, a).inst[i])
  {
    hide Next, Start;
    var r := Step(s, a);
    if a.IClaim? && !s.busy {
      assert Owns(r.inst[a.i]);
    } else {
      var i :| 0 <= i < |s.inst| && Owns(s.inst[i]);
      assert Owns(r.inst[i]);
    }
  }

  lemma {:induction false} RunHeld(ss: seq<State>, acts: seq<Action>, k: nat)
    requires IsRun(ss, acts) && k < |ss|
    ensures Inv(ss[k]) && Held(ss[k]) && |ss[k].inst| == |ss[0].inst| && |ss[k].start| == |ss[0].start|
  {
    hide Inv, Held, Enabled, Next, Start;
    if k == 0 {
      InitInv(ss[0]);
      InitHeld(ss[0]);
    } else {
      RunHeld(ss, acts, k - 1);
      RunInv(ss, acts, k);
      assert ss[k - 1 + 1] == Step(ss[k - 1], acts[k - 1]);
      HeldStep(ss[k - 1], acts[k - 1]);
      SameParties(ss[k - 1], acts[k - 1]);
    }
  }

  lemma SameParties(s: State, a: Action)
    requires Enabled(s, a)
    ensures |Step(s, a).inst| == |s.inst| && |Step(s, a).start| == |s.start|
  {
    hide Next, Start;
  }

  lemma InitHeld(s: State)
    requires Init(s)
    ensures Held(s)
  {
  }

  predicate NobodyOwns(s: State) { forall i :: 0 <= i < |s.inst| ==> !Owns(s.inst[i]) }

  /** An install gets the claim exactly when no other has it, and the claim is free again after the release. */
  lemma ClaimIff(ss: seq<State>, acts: seq<Action>, k: nat)
    requires IsRun(ss, acts) && k < |acts|
    ensures acts[k].IClaim? ==> ss[k + 1].inst[acts[k].i] == if NobodyOwns(ss[k]) then Claimed else Over(false)
    ensures acts[k].IRelease? ==>
      NobodyOwns(ss[k + 1]) && ss[k + 1].inst[acts[k].i] == Over(ss[k].inst[acts[k].i] == Past)
  {
    hide Next, Start;
    RunHeld(ss, acts, k);
    assert Enabled(ss[k], acts[k]) && ss[k + 1] == Step(ss[k], acts[k]);
  }

  /** Past the fleet-idle guard comes exactly the install that read it with no sequence active. */
  lemma IdleGuardIff(ss: seq<State>, acts: seq<Action>, k: nat)
    requires IsRun(ss, acts) && k < |acts| && acts[k].IUnlock?
    ensures ss[k + 1].inst[acts[k].i] == if ss[k].fleet.active then Leaving else Past
  {
    hide Next, Start, Inv;
    RunHeld(ss, acts, k);
    assert Enabled(ss[k], acts[k]) && ss[k + 1] == Step(ss[k], acts[k]);
  }

  lemma GateStep(s: State, a: Action, j: nat)
    requires Inv(s) && Enabled(s, a) && j < |s.start| && s.start[j].Gated? && !(a.SStart? && a.j == j)
    ensures j < |Step(s, a).start| && Step(s, a).start[j] == s.start[j] && Step(s, a).fleet == s.fleet
  {
    hide Next, Start;
    assert StartHolds(s.start[j]);
  }

  lemma GateTells(s: State, j: nat)
    requires Inv(s) && Held(s) && Enabled(s, SGate(j))
    ensures Step(s, SGate(j)).start[j] == Gated(NobodyOwns(s)) && Step(s, SGate(j)).fleet == s.fleet
  {
  }

  /** Between its gate and its start a fleet start holds the lock, and the fleet stands still. */
  lemma {:induction false} GateStands(ss: seq<State>, acts: seq<Action>, g: nat, k: nat)
    requires IsRun(ss, acts) && g < k < |ss| && acts[g].SGate?
    requires forall n :: g < n < k ==> !(acts[n].SStart? && acts[n].j == acts[g].j)
    ensures acts[g].j < |ss[k].start| && ss[k].start[acts[g].j] == Gated(NobodyOwns(ss[g]))
    ensures ss[k].fleet == ss[g].fleet
  {
    hide Inv, Held, Enabled, Step, NobodyOwns;
    RunHeld(ss, acts, k - 1);
    assert Enabled(ss[k - 1], acts[k - 1]) && ss[k - 1 + 1] == Step(ss[k - 1], acts[k - 1]);
    if g < k - 1 {
      GateStands(ss, acts, g, k - 1);
      GateStep(ss[k - 1], acts[k - 1], acts[g].j);
    } else {
      GateTells(ss[g], acts[g].j);
      SameParties(ss[g], acts[g]);
      GateInside(ss[g], acts[g].j);
    }
  }

  lemma GateInside(s: State, j: nat)
    requires Enabled(s, SGate(j))
    ensures j < |s.start|
  {
  }

  /**
   A fleet start goes ahead exactly when at its gate no install had the claim and no sequence
   was active, and the list will do.
   */
  lemma StartIff(ss: seq<State>, acts: seq<Action>, g: nat, k: nat)
    requires IsRun(ss, acts) && g < k < |acts| && acts[g].SGate? && acts[k].SStart? && acts[k].j == acts[g].j
    requires forall n :: g < n < k ==> !(acts[n].SStart? && acts[n].j == acts[g].j)
    ensures var list := acts[k].list;
      && (ss[k + 1].start[acts[k].j] == Ended(0) <==>
            NobodyOwns(ss[g]) && !ss[g].fleet.active && 0 < |list| <= 8)
      && (ss[k + 1].start[acts[k].j] == Ended(-2) <==> !NobodyOwns(ss[g]) || ss[g].fleet.active)
      && ss[k + 1].fleet == (if ss[k + 1].start[acts[k].j] == Ended(0) then Begin(list) else ss[g].fleet)
  {
    hide NobodyOwns;
    GateStands(ss, acts, g, k);
    assert Enabled(ss[k], acts[k]) && ss[k + 1] == Step(ss[k], acts[k]);
  }

  /** Whoever has not come to an end can go on, or waits for one who can. */
  lemma NobodyStuck(ss: seq<State>, acts: seq<Action>, k: nat)
    requires IsRun(ss, acts) && k < |ss|
    requires (exists i :: 0 <= i < |ss[k].inst| && !ss[k].inst[i].Over?)
             || (exists j :: 0 <= j < |ss[k].start| && !ss[k].start[j].Ended?)
    ensures exists a :: Enabled(ss[k], a) && !a.Run?
  {
    hide Inv;
    RunHeld(ss, acts, k);
    var s := ss[k];
    match s.holder {
      case ByInstall(i) => assert Enabled(s, IRead(i)) || Enabled(s, IUnlock(i));
      case ByStart(j) => assert Enabled(s, SGate(j)) || Enabled(s, SStart(j, []));
      case Free =>
        if i :| 0 <= i < |s.inst| && !s.inst[i].Over? {
          LockNeedsHolder(ss, acts, k, i);
          assert Enabled(s, IClaim(i)) || Enabled(s, ILock(i)) || Enabled(s, IRelease(i));
        } else {
          var j :| 0 <= j < |s.start| && !s.start[j].Ended?;
          GateNeedsHolder(ss, acts, k, j);
          assert Enabled(s, SLock(j));
        }
    }
  }

  lemma LockNeedsHolder(ss: seq<State>, acts: seq<Action>, k: nat, i: nat)
    requires IsRun(ss, acts) && k < |ss| && ss[k].holder == Free && i < |ss[k].inst|
    ensures !HoldsLock(ss[k].inst[i])
  {
    RunInv(ss, acts, k);
  }

  lemma GateNeedsHolder(ss: seq<State>, acts: seq<Action>, k: nat, j: nat)
    requires IsRun(ss, acts) && k < |ss| && ss[k].holder == Free && j < |ss[k].start|
    ensures !StartHolds(ss[k].start[j])
  {
    RunInv(ss, acts, k);
  }

  // ---------------- one loser ----------------

  /** One install call, one fleet start with a good zone list, nothing else, and the install not yet finished. */
  predicate Duel(a: Action) {
    match a
    case SStart(_, list) => list != [] && |list| <= MAX_ZONES
    case Run(_) => false
    case _ => true
  }

  predicate DuelInv(s: State) {
    && |s.inst| == 1 && |s.start| == 1 && Inv(s)
    && s.inst[0] != Over(true)
    && (s.fleet.active <==> s.start[0] == Ended(0))
    && (s.inst[0] == Seen(false) || s.inst[0] == Leaving || s.inst[0] == Over(false) ==> s.fleet.active)
    && (s.inst[0] == NotYet ==> !s.busy)
    && (s.start[0] == Gated(false) || (s.start[0].Ended? && s.start[0].rc != 0) ==>
          Owns(s.inst[0]) && !s.fleet.active)
  }

  lemma DuelStep(s: State, a: Action)
    requires DuelInv(s) && Enabled(s, a) && Duel(a)
    requires a.IRelease? ==> s.inst[a.i] != Past
    ensures DuelInv(Step(s, a))
  {
    InvStep(s, a);
    assert s.inst == [s.inst[0]] && s.start == [s.start[0]];
  }

  lemma {:induction false} DuelRun(ss: seq<State>, acts: seq<Action>, k: nat)
    requires IsRun(ss, acts) && k < |ss| && |ss[0].inst| == 1 && |ss[0].start| == 1 && !ss[0].fleet.active
    requires forall n :: 0 <= n < |acts| ==> Duel(acts[n])
    requires forall n :: 0 <= n < |acts| && acts[n].IRelease? ==> ss[n].inst[acts[n].i] != Past
    ensures DuelInv(ss[k])
  {
    hide Step, Inv, DuelInv;
    if k == 0 {
      DuelStart(ss[0]);
    } else {
      DuelRun(ss, acts, k - 1);
      assert ss[k - 1 + 1] == Step(ss[k - 1], acts[k - 1]);
      DuelStep(ss[k - 1], acts[k - 1]);
    }
  }

  lemma DuelStart(s: State)
    requires Init(s) && |s.inst| == 1 && |s.start| == 1 && !s.fleet.active
    ensures DuelInv(s)
  {
    InitInv(s);
  }

  /**
   An install and a fleet start that meet, however they interleave: when both have decided,
   exactly one of them went ahead.
   */
  lemma ExactlyOneLoses(ss: seq<State>, acts: seq<Action>)
    requires IsRun(ss, acts) && |ss[0].inst| == 1 && |ss[0].start| == 1 && !ss[0].fleet.active
    requires forall n :: 0 <= n < |acts| ==> Duel(acts[n])
    requires forall n :: 0 <= n < |acts| && acts[n].IRelease? ==> ss[n].inst[acts[n].i] != Past
    ensures var e := ss[|acts|];
      && |e.inst| == 1 && |e.start| == 1
      && ((e.inst[0] == Past || e.inst[0].Over?) && e.start[0].Ended? ==>
            ((e.inst[0] == Past) != (e.start[0] == Ended(0))))
  {
    DuelRun(ss, acts, |acts|);
  }
}
