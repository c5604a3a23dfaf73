/**
 components/node_mgr/node_mgr_enrol.c around the zone-id table: heartbeats that enrol,
 CLEAR NODE, and MAC seeding, together with the node rows in RAM and the list of boards
 waiting for a free id.
 */
module Enrol {
  import opened Ztab

  /** The identity part of a hg_node_t row; a vacant row is all zero. */
  datatype Row = Row(used: bool, id: nat, mac: Mac, unconfigured: bool)

  const VACANT := Row(false, 0, ZERO_MAC, false)

  /** s_ztab, the node rows, s_unassigned_mac, and the per-id reset of the heartbeat counter. */
  datatype State = State(tab: seq<Ent>, rows: seq<Row>, waiting: seq<Mac>)

  function NewRow(id: nat, mac: Mac): Row { Row(true, id, mac, true) }

  // ---------------- the waiting list ----------------

  function IndexOf(w: seq<Mac>, mac: Mac, i: nat): (r: nat)
    requires i <= |w|
    ensures i <= r <= |w| && (r < |w| ==> w[r] == mac)
    ensures forall j :: i <= j < r ==> w[j] != mac
    decreases |w| - i
  {
    if i == |w| || w[i] == mac then i else IndexOf(w, mac, i + 1)
  }

  function Track(w: seq<Mac>, mac: Mac): seq<Mac> {
    if IndexOf(w, mac, 0) < |w| then w else if |w| < ZONES then w + [mac] else w
  }

  /** Swap-remove: the last entry takes the place of the one removed. */
  function Purge(w: seq<Mac>, mac: Mac): seq<Mac> {
    var i := IndexOf(w, mac, 0);
    if i == |w| then w else w[i := w[|w| - 1]][..|w| - 1]
  }

  // ---------------- the three entry points as functions ----------------

  function Heartbeat(s: State, mac: Mac, src: nat): State {
    var o := Ztab.Enrol(s.tab, mac, src);
    if o.verdict == FULL then s.(tab := o.tab, waiting := Track(s.waiting, mac))
    else if o.verdict != ASSIGNED || !(1 <= o.outId.value <= |s.rows|) then s.(tab := o.tab)
    else State(o.tab, s.rows[o.outId.value - 1 := NewRow(o.outId.value, mac)], Purge(s.waiting, mac))
  }

  /** node_mgr_clear; `save` is what writing the table to flash answers, 0 for success. */
  function ClearNode(s: State, zone: nat, save: int): (State, int) {
    var c := ClearId(s.tab, zone);
    if c.1 != 0 then (s, -1)
    else if save != 0 then (s.(tab := c.0), save)
    else (s.(tab := c.0, rows := if 1 <= zone <= |s.rows| then s.rows[zone - 1 := VACANT] else s.rows), 0)
  }

  predicate GroupAddress(mac: Mac) { mac[0] & 1 == 1 }

  /** The table after the MAC's own row has been given up, and the id it had. */
  function Released(t: seq<Ent>, mac: Mac): (seq<Ent>, nat) {
    var slot := FindMac(t, mac, 0);
    if slot >= 0 then (t[slot := ZERO_ENT], t[slot].id) else (t, 0)
  }

  /** The row the seed goes into: the current holder of the id, else the first free row. */
  function SeedSlot(t: seq<Ent>, zone: nat): int {
    if FindId(t, zone) >= 0 then FindId(t, zone) else FindIdFrom(t, 0, 0)
  }

  function SeedMac(s: State, zone: nat, mac: Mac): (State, int)
    requires |s.rows| == ZONES
  {
    if !(1 <= zone <= ZONES) || GroupAddress(mac) || mac == ZERO_MAC then (s, -1)
    else if IdOf(s.tab, mac) == zone then (s, 0)
    else
      var r := Released(s.tab, mac);
      var slot := SeedSlot(r.0, zone);
      if !(0 <= slot < |r.0|) then (s.(tab := r.0), -1)
      else
        var rows := if 1 <= r.1 <= ZONES then s.rows[r.1 - 1 := VACANT] else s.rows;
        (State(r.0[slot := Fresh(mac, zone)], rows[zone - 1 := NewRow(zone, mac)], Purge(s.waiting, mac)), 0)
  }

  // ---------------- the statics updated in place ----------------

  class Enroller {
    const ztab: Table
    var rows: seq<Row>
    var waiting: seq<Mac>

    ghost function Abs(): State
      reads this, ztab
    {
      State(ztab.e, rows, waiting)
    }

    constructor ()
      ensures fresh(ztab) && Abs() == Empty()
    {
      rows := seq(ZONES, _ => VACANT);
      waiting := [];
      ztab := new Table();
    }

    method TrackUnassigned(mac: Mac)
      modifies this`waiting
      ensures waiting == Track(old(waiting), mac)
    {
      var i := 0;
      while i < |waiting|
        invariant i <= |waiting| && waiting == old(waiting) && IndexOf(waiting, mac, 0) == IndexOf(waiting, mac, i)
      {
        if waiting[i] == mac { return; }
        i := i + 1;
      }
      if |waiting| < ZONES { waiting := waiting + [mac]; }
    }

    method PurgeUnassigned(mac: Mac)
      modifies this`waiting
      ensures waiting == Purge(old(waiting), mac)
    {
      var i := 0;
      while i < |waiting|
        invariant i <= |waiting| && waiting == old(waiting) && IndexOf(waiting, mac, 0) == IndexOf(waiting, mac, i)
      {
        if waiting[i] == mac {
          waiting := waiting[i := waiting[|waiting| - 1]];
          waiting := waiting[..|waiting| - 1];
          return;
        }
        i := i + 1;
      }
    }

    method HandleHb(mac: Mac, src: nat)
      modifies this, ztab
      ensures Abs() == Heartbeat(old(Abs()), mac, src)
    {
      hide Ztab.Enrol, Track, Purge;
      var v, outId := ztab.EnrolMac(mac, src);
      if v == FULL { TrackUnassigned(mac); return; }
      if v == CONFLICT { return; }
      var id := outId.value;
      if id < 1 || id > |rows| { return; }
      if v == ASSIGNED {
        PurgeUnassigned(mac);
        rows := rows[id - 1 := Row(true, id, mac, true)];
      }
    }

    method Clear(zone: nat, save: int) returns (rc: int)
      modifies this, ztab
      ensures (Abs(), rc) == ClearNode(old(Abs()), zone, save)
    {
      rc := ztab.ClearRow(zone);
      if rc != 0 { return -1; }
      if save != 0 { return save; }
      if 1 <= zone <= |rows| { rows := rows[zone - 1 := VACANT]; }
    }

    method Seed(zone: nat, mac: Mac) returns (rc: int)
      requires |rows| == ZONES
      modifies this, ztab
      ensures (Abs(), rc) == SeedMac(old(Abs()), zone, mac)
    {
      hide Purge, FindIdFrom, FindMac;
      if zone < 1 || zone > ZONES { return -1; }
      if GroupAddress(mac) { return -1; }
      if mac == ZERO_MAC { return -1; }
      var slot := ztab.FindByMac(mac);
      if slot >= 0 && ztab.e[slot].id == zone { return 0; }
      var oldId := 0;
      if slot >= 0 {
        oldId := ztab.e[slot].id;
        ztab.e := ztab.e[slot := ZERO_ENT];
      }
      slot := ztab.FindById(zone);
      if slot < 0 { slot := ztab.FirstFreeRow(); }
      if slot < 0 { return -1; }
      ztab.e := ztab.e[slot := Fresh(mac, zone)];
      if 1 <= oldId <= ZONES { rows := rows[oldId - 1 := VACANT]; }
      rows := rows[zone - 1 := Row(true, zone, mac, true)];
      PurgeUnassigned(mac);
      rc := 0;
    }
  }

  function Empty(): State { State(seq(ZONES, _ => ZERO_ENT), seq(ZONES, _ => VACANT), []) }

  // ---------------- the invariant ----------------

  /** The RAM row of an id mirrors the table's binding of that id. */
  predicate RowMirrors(s: State, z: nat)
    requires |s.rows| == ZONES && 1 <= z <= ZONES
  {
    var i := FindId(s.tab, z);
    if i < 0 then s.rows[z - 1] == VACANT
    else s.rows[z - 1].used && s.rows[z - 1].id == z && i < |s.tab| && s.rows[z - 1].mac == s.tab[i].mac
  }

  /** Boards waiting for an id: each listed once, none of them bound. */
  predicate WaitingOk(s: State) {
    && (forall i, j :: 0 <= i < j < |s.waiting| ==> s.waiting[i] != s.waiting[j])
    && |s.waiting| <= ZONES
    && forall i :: 0 <= i < |s.waiting| ==> IdOf(s.tab, s.waiting[i]) == 0
  }

  /** Bound ids have their node row; what stands in the row of a free id is left open. */
  predicate Inv(s: State) {
    && TabOk(s.tab) && |s.rows| == ZONES && WaitingOk(s)
    && forall z :: 1 <= z <= ZONES && FindId(s.tab, z) >= 0 ==> RowMirrors(s, z)
  }

  /** The rows of free ids are vacant as well. */
  predicate AllMirror(s: State)
    requires |s.rows| == ZONES
  {
    forall z :: 1 <= z <= ZONES ==> RowMirrors(s, z)
  }

  /** A step from s to r keeps the row of id z in order, as far as it was. */
  predicate KeepsRow(s: State, r: State, z: nat)
    requires |s.rows| == |r.rows| == ZONES && 1 <= z <= ZONES
  {
    && ((FindId(s.tab, z) >= 0 ==> RowMirrors(s, z)) && FindId(r.tab, z) >= 0 ==> RowMirrors(r, z))
    && (RowMirrors(s, z) ==> RowMirrors(r, z))
  }

  lemma RowsKept(s: State, r: State)
    requires Inv(s) && TabOk(r.tab) && |s.rows| == |r.rows| == ZONES && WaitingOk(r)
    requires forall z: nat :: 1 <= z <= ZONES ==> KeepsRow(s, r, z)
    ensures Inv(r) && (AllMirror(s) ==> AllMirror(r))
  {
    hide TabOk, WaitingOk, RowMirrors;
    forall z: nat | 1 <= z <= ZONES
      ensures (FindId(r.tab, z) >= 0 ==> RowMirrors(r, z)) && (RowMirrors(s, z) ==> RowMirrors(r, z))
    {
      assert KeepsRow(s, r, z);
    }
  }

  lemma TrackOk(w: seq<Mac>, mac: Mac)
    requires (forall i, j :: 0 <= i < j < |w| ==> w[i] != w[j]) && |w| <= ZONES
    ensures var r := Track(w, mac);
      && (forall i, j :: 0 <= i < j < |r| ==> r[i] != r[j]) && |r| <= ZONES
      && forall m :: m in r ==> m in w || m == mac
  {
  }

  lemma PurgeOk(w: seq<Mac>, mac: Mac)
    requires (forall i, j :: 0 <= i < j < |w| ==> w[i] != w[j]) && |w| <= ZONES
    ensures var r := Purge(w, mac);
      && (forall i, j :: 0 <= i < j < |r| ==> r[i] != r[j]) && |r| <= ZONES
      && forall m :: m in r <==> m in w && m != mac
  {
    var i := IndexOf(w, mac, 0);
    var r := Purge(w, mac);
    if i < |w| {
      var n := |w| - 1;
      assert forall k :: 0 <= k < n ==> r[k] == if k == i then w[n] else w[k];
      forall m | m in w && m != mac ensures m in r {
        var k :| 0 <= k < |w| && w[k] == m;
        if k == n { assert r[i] == m; } else { assert r[k] == m; }
      }
    }
  }

  /** Which row holds an id, after one row changed. */
  lemma PutFindId(t: seq<Ent>, i: nat, e: Ent, z: nat)
    requires TabOk(t) && i < |t| && TabOk(t[i := e]) && 1 <= z <= ZONES
    ensures FindId(t[i := e], z) == if e.id == z then i else if t[i].id == z then -1 else FindId(t, z)
  {
    var u := t[i := e];
    assert forall j :: 0 <= j < |t| && j != i ==> u[j] == t[j];
    if e.id == z {
      IdOfRow(u, i);
    } else if t[i].id == z {
      forall j | 0 <= j < |u| ensures u[j].id != z {}
    } else if FindId(t, z) >= 0 {
      IdOfRow(u, FindId(t, z));
    }
  }

  /** Giving up a MAC's own row. */
  lemma ReleasedOk(t: seq<Ent>, mac: Mac)
    requires TabOk(t) && mac != ZERO_MAC
    ensures var r := Released(t, mac);
      && TabOk(r.0) && r.1 == IdOf(t, mac) && r.1 <= ZONES && IdOf(r.0, mac) == 0
      && (forall m: Mac :: m != mac ==> IdOf(r.0, m) == IdOf(t, m))
      && (forall z :: 1 <= z <= ZONES ==> FindId(r.0, z) == if z == r.1 then -1 else FindId(t, z))
      && (forall j :: 0 <= j < |t| && t[j].id != r.1 ==> r.0[j] == t[j])
      && |r.0| == |t|
  {
    var slot := FindMac(t, mac, 0);
    if slot >= 0 {
      assert RowOk(t[slot]);
      PutOk(t, slot, ZERO_ENT);
      forall m: Mac ensures m != mac ==> IdOf(t[slot := ZERO_ENT], m) == IdOf(t, m) { PutIdOf(t, slot, ZERO_ENT, m); }
      PutIdOf(t, slot, ZERO_ENT, mac);
      forall z: nat | 1 <= z <= ZONES ensures FindId(t[slot := ZERO_ENT], z) == if z == t[slot].id then -1 else FindId(t, z) {
        PutFindId(t, slot, ZERO_ENT, z);
      }
      forall j | 0 <= j < |t| && t[j].id != t[slot].id ensures j != slot {}
    }
  }

  /** By pigeonhole a seed always finds a row: "no free slot" cannot happen. */
  lemma SeedFindsRow(t: seq<Ent>, zone: nat)
    requires TabOk(t) && 1 <= zone <= ZONES
    ensures 0 <= SeedSlot(t, zone) < |t|
  {
    if FindId(t, zone) < 0 { FreeIdFreeRow(t, zone); }
  }

  /** Putting a MAC nobody holds into the row a seed chose. */
  lemma SeedPutOk(t: seq<Ent>, zone: nat, mac: Mac)
    requires TabOk(t) && 1 <= zone <= ZONES && mac != ZERO_MAC && IdOf(t, mac) == 0
    ensures var i := SeedSlot(t, zone);
      && 0 <= i < |t| && TabOk(t[i := Fresh(mac, zone)])
      && IdOf(t[i := Fresh(mac, zone)], mac) == zone
      && (forall m: Mac :: m != mac ==>
            IdOf(t[i := Fresh(mac, zone)], m) == if IdOf(t, m) == zone then 0 else IdOf(t, m))
      && (forall z :: 1 <= z <= ZONES ==>
            FindId(t[i := Fresh(mac, zone)], z) == if z == zone then i else FindId(t, z))
  {
    hide FindMac;
    SeedFindsRow(t, zone);
    var i := SeedSlot(t, zone);
    var e := Fresh(mac, zone);
    Unheld(t, mac);
    if FindId(t, zone) >= 0 { IdOfRow(t, i); }
    PutOk(t, i, e);
    forall m: Mac ensures IdOf(t[i := e], m) == if m == mac then zone else if IdOf(t, m) == zone then 0 else IdOf(t, m) {
      PutIdOf(t, i, e, m);
      SeedOther(t, i, zone, m);
    }
    forall z: nat | 1 <= z <= ZONES ensures FindId(t[i := e], z) == if z == zone then i else FindId(t, z) {
      PutFindId(t, i, e, z);
    }
  }

  lemma Unheld(t: seq<Ent>, mac: Mac)
    requires TabOk(t) && IdOf(t, mac) == 0
    ensures forall j :: 0 <= j < |t| && t[j].id != 0 ==> t[j].mac != mac
  {
  }

  lemma SeedOther(t: seq<Ent>, i: nat, zone: nat, m: Mac)
    requires TabOk(t) && 1 <= zone <= ZONES && i < |t| && i == SeedSlot(t, zone)
    ensures t[i].id != 0 && m == t[i].mac <==> IdOf(t, m) == zone
  {
  }

  // ---------------- what the three entry points do ----------------

  /** A seed binds the MAC to the id, unbinds the id's former holder, and touches nobody else. */
  lemma SeedMoves(s: State, zone: nat, mac: Mac)
    requires Inv(s)
    ensures var (r, rc) := SeedMac(s, zone, mac);
      && (rc == -1 <==> !(1 <= zone <= ZONES) || GroupAddress(mac) || mac == ZERO_MAC)
      && (rc == -1 ==> r == s) && (rc == 0 || rc == -1)
      && (rc == 0 ==> IdOf(r.tab, mac) == zone)
      && (rc == 0 ==>
            forall m: Mac :: m != mac ==> IdOf(r.tab, m) == if IdOf(s.tab, m) == zone then 0 else IdOf(s.tab, m))
  {
    hide Purge, TabOk, RowMirrors, WaitingOk, FindMac, Released, SeedSlot;
    if 1 <= zone <= ZONES && !GroupAddress(mac) && mac != ZERO_MAC {
      if IdOf(s.tab, mac) == zone {
        SameIdSameMac(s.tab, zone, mac);
      } else {
        ReleasedOk(s.tab, mac);
        SeedPutOk(Released(s.tab, mac).0, zone, mac);
      }
    }
  }

  lemma SameIdSameMac(t: seq<Ent>, zone: nat, mac: Mac)
    requires TabOk(t) && 1 <= zone <= ZONES && IdOf(t, mac) == zone
    ensures forall m: Mac :: m != mac ==> IdOf(t, m) != zone
  {
  }

  lemma HeartbeatInv(s: State, mac: Mac, src: nat)
    requires Inv(s)
    ensures |s.rows| == ZONES && Inv(Heartbeat(s, mac, src))
    ensures AllMirror(s) ==> AllMirror(Heartbeat(s, mac, src))
  {
    hide Track, Purge, TabOk, FindMac, LowestFree;
    var o := Ztab.Enrol(s.tab, mac, src);
    forall m: Mac ensures IdOf(s.tab, m) == 0 && m != mac ==> IdOf(o.tab, m) == 0 { EnrolKeeps(s.tab, mac, src, m); }
    EnrolKeeps(s.tab, mac, src, mac);
    TrackOk(s.waiting, mac);
    PurgeOk(s.waiting, mac);
    if o.verdict == FULL {
      FullUnbound(s.tab, mac, src);
      TrackedOk(s, mac);
      forall z: nat | 1 <= z <= ZONES ensures KeepsRow(s, Heartbeat(s, mac, src), z) {}
      RowsKept(s, Heartbeat(s, mac, src));
    } else if o.verdict == ASSIGNED {
      var r := Heartbeat(s, mac, src);
      forall z: nat | 1 <= z <= ZONES ensures KeepsRow(s, r, z) { AssignedMirrors(s, mac, src, z); }
      forall i | 0 <= i < |r.waiting| ensures IdOf(r.tab, r.waiting[i]) == 0 { assert r.waiting[i] in s.waiting; }
      RowsKept(s, r);
    }
  }

  lemma TrackedOk(s: State, mac: Mac)
    requires WaitingOk(s) && IdOf(s.tab, mac) == 0
    ensures WaitingOk(s.(waiting := Track(s.waiting, mac)))
  {
    hide IdOf;
    TrackOk(s.waiting, mac);
    var r := Track(s.waiting, mac);
    forall i | 0 <= i < |r| ensures IdOf(s.tab, r[i]) == 0 { assert r[i] in s.waiting || r[i] == mac; }
  }

  lemma FullUnbound(t: seq<Ent>, mac: Mac, src: nat)
    requires TabOk(t) && Ztab.Enrol(t, mac, src).verdict == FULL
    ensures IdOf(t, mac) == 0 && Ztab.Enrol(t, mac, src).tab == t
  {
    hide LowestFree, FindMac;
    if Unknown(t, mac) { EnrolPlaces(t, mac, src); }
  }

  lemma AssignedMirrors(s: State, mac: Mac, src: nat, z: nat)
    requires Inv(s) && 1 <= z <= ZONES && Ztab.Enrol(s.tab, mac, src).verdict == ASSIGNED
    ensures |Heartbeat(s, mac, src).rows| == ZONES && KeepsRow(s, Heartbeat(s, mac, src), z)
  {
    hide Purge, TabOk, FindMac, LowestFree, WaitingOk;
    TabLength(s.tab);
    EnrolPlaces(s.tab, mac, src);
    var row := FindIdFrom(s.tab, 0, 0);
    PutFindId(s.tab, row, Fresh(mac, Wanted(s.tab, src)), z);
    EnrolKeeps(s.tab, mac, src, mac);
  }

  /** A clear keeps the invariant, and vacant rows vacant exactly unless it frees an id and the save fails. */
  /** What a heartbeat does: gives its board an id, finds none left for it, or neither. */
  predicate Binds(s: State, mac: Mac, src: nat) {
    IdOf(s.tab, mac) == 0 && if 1 <= src <= ZONES then FindId(s.tab, src) < 0 else !Full(s.tab)
  }

  predicate TurnsAway(s: State, mac: Mac, src: nat) {
    IdOf(s.tab, mac) == 0 && !(1 <= src <= ZONES) && Full(s.tab)
  }

  /**
   Who waits for an id after a heartbeat, exactly: a board turned away joins the list while
   there is room, one that gets an id leaves it, and nobody else moves. The board that gets an
   id gets a fresh node row under it, and the other rows stand.
   */
  lemma HeartbeatDoes(s: State, mac: Mac, src: nat)
    requires Inv(s) && mac != ZERO_MAC
    ensures var r := Heartbeat(s, mac, src);
      && (forall m: Mac :: m in r.waiting <==>
            if m != mac then m in s.waiting
            else if TurnsAway(s, mac, src) then mac in s.waiting || |s.waiting| < 8
            else mac in s.waiting && !Binds(s, mac, src))
      && (IdOf(s.tab, mac) == 0 && IdOf(r.tab, mac) != 0 <==> Binds(s, mac, src))
      && |r.rows| == |s.rows| == 8
      && forall z :: 1 <= z <= 8 ==>
           r.rows[z - 1] == if Binds(s, mac, src) && z == IdOf(r.tab, mac) then Row(true, z, mac, true) else s.rows[z - 1]
  {
    hide Track, Purge, FindMac, LowestFree, RowMirrors, WaitingOk;
    VerdictIff(s.tab, mac, src);
    EnrolKeeps(s.tab, mac, src, mac);
    WaitingNow(s, mac);
    BindsIff(s, mac, src);
  }

  lemma BindsIff(s: State, mac: Mac, src: nat)
    requires TabOk(s.tab) && mac != ZERO_MAC
    ensures Binds(s, mac, src) <==> Ztab.Enrol(s.tab, mac, src).verdict == ASSIGNED
    ensures TurnsAway(s, mac, src) <==> Ztab.Enrol(s.tab, mac, src).verdict == FULL
  {
    hide FindMac, LowestFree;
    VerdictIff(s.tab, mac, src);
  }

  lemma WaitingNow(s: State, mac: Mac)
    requires WaitingOk(s)
    ensures forall m: Mac :: m in Track(s.waiting, mac) <==> m in s.waiting || (m == mac && |s.waiting| < 8)
    ensures forall m: Mac :: m in Purge(s.waiting, mac) <==> m in s.waiting && m != mac
  {
    PurgeOk(s.waiting, mac);
  }

  /** A board whose address has the group bit set: the lowest bit of its first byte. */
  lemma GroupIff(mac: Mac)
    ensures GroupAddress(mac) <==> mac[0] | 1 == mac[0]
  {
    LowestBit(mac[0]);
  }

  lemma LowestBit(b: bv8)
    ensures b & 1 == 1 <==> b | 1 == b
  {
  }

  /** Clearing an id that nobody has is refused and changes nothing; otherwise the save's answer is given back. */
  lemma ClearVerdict(s: State, zone: nat, save: int)
    requires Inv(s)
    ensures var (r, rc) := ClearNode(s, zone, save);
      rc == (if FindId(s.tab, zone) >= 0 then save else -1) && (FindId(s.tab, zone) < 0 ==> r == s)
  {
    hide FindIdFrom;
  }

  lemma ClearInv(s: State, zone: nat, save: int)
    requires Inv(s)
    ensures var r := ClearNode(s, zone, save);
      && |s.rows| == ZONES && Inv(r.0)
      && (r.1 == 0 <==> save == 0 && 1 <= zone <= ZONES && FindId(s.tab, zone) >= 0)
      && (AllMirror(s) ==> (AllMirror(r.0) <==> save == 0 || FindId(s.tab, zone) < 0))
      && forall m: Mac :: IdOf(r.0.tab, m) == if IdOf(s.tab, m) == zone then 0 else IdOf(s.tab, m)
  {
    hide FindMac, IdOf, TabOk, WaitingOk, FindIdFrom;
    var r := ClearNode(s, zone, save).0;
    ClearTable(s.tab, zone);
    TabLength(s.tab);
    if FindId(s.tab, zone) >= 0 {
      assert WaitingOk(r) by { StillWaiting(s, r); }
      assert RowMirrors(s, zone);
      if save == 0 {
        forall z: nat | 1 <= z <= ZONES ensures KeepsRow(s, r, z) {}
        RowsKept(s, r);
      } else {
        assert !RowMirrors(r, zone);
        forall z | 1 <= z <= ZONES && FindId(r.tab, z) >= 0 ensures RowMirrors(r, z) { assert RowMirrors(s, z); }
      }
    }
  }

  lemma StillWaiting(s: State, r: State)
    requires WaitingOk(s) && r.waiting == s.waiting
    requires forall m: Mac :: IdOf(s.tab, m) == 0 ==> IdOf(r.tab, m) == 0
    ensures WaitingOk(r)
  {
    hide IdOf;
  }

  lemma ClearTable(t: seq<Ent>, zone: nat)
    requires TabOk(t)
    ensures var u := ClearId(t, zone).0;
      && TabOk(u) && (ClearId(t, zone).1 == 0 <==> FindId(t, zone) >= 0)
      && (FindId(t, zone) >= 0 ==> 1 <= zone <= ZONES)
      && (forall m: Mac :: IdOf(u, m) == if IdOf(t, m) == zone then 0 else IdOf(t, m))
      && forall z: nat :: 1 <= z <= ZONES ==> FindId(u, z) == if z == zone then -1 else FindId(t, z)
  {
    hide FindMac, IdOf, FindIdFrom;
    var slot := FindId(t, zone);
    if slot >= 0 {
      assert RowOk(t[slot]);
      PutOk(t, slot, ZERO_ENT);
      forall m: Mac ensures IdOf(t[slot := ZERO_ENT], m) == if IdOf(t, m) == zone then 0 else IdOf(t, m) {
        PutIdOf(t, slot, ZERO_ENT, m);
        ClearedOther(t, slot, m);
      }
      forall z: nat | 1 <= z <= ZONES ensures FindId(t[slot := ZERO_ENT], z) == if z == zone then -1 else FindId(t, z) {
        PutFindId(t, slot, ZERO_ENT, z);
      }
    } else {
      forall m: Mac ensures IdOf(t, m) == zone ==> zone == 0 { NobodyHolds(t, zone, m); }
    }
  }

  lemma NobodyHolds(t: seq<Ent>, zone: nat, m: Mac)
    requires TabOk(t) && FindId(t, zone) < 0
    ensures IdOf(t, m) == zone ==> zone == 0
  {
  }

  lemma ClearedOther(t: seq<Ent>, i: nat, m: Mac)
    requires TabOk(t) && i < |t| && t[i].id != 0
    ensures m == t[i].mac <==> IdOf(t, m) == t[i].id
  {
  }

  lemma SeedInv(s: State, zone: nat, mac: Mac)
    requires Inv(s)
    ensures |s.rows| == ZONES && Inv(SeedMac(s, zone, mac).0)
    ensures AllMirror(s) ==> AllMirror(SeedMac(s, zone, mac).0)
  {
    hide Purge, TabOk, FindMac, Released, SeedSlot, RowMirrors;
    SeedMoves(s, zone, mac);
    var (r, rc) := SeedMac(s, zone, mac);
    if r != s {
      ReleasedOk(s.tab, mac);
      SeedPutOk(Released(s.tab, mac).0, zone, mac);
      PurgeOk(s.waiting, mac);
      forall i | 0 <= i < |r.waiting| ensures IdOf(r.tab, r.waiting[i]) == 0 { assert r.waiting[i] in s.waiting; }
      forall z: nat | 1 <= z <= ZONES ensures KeepsRow(s, r, z) { SeededMirrors(s, zone, mac, z); }
      RowsKept(s, r);
    }
  }

  lemma SeededMirrors(s: State, zone: nat, mac: Mac, z: nat)
    requires TabOk(s.tab) && |s.rows| == ZONES && 1 <= z <= ZONES
    requires 1 <= zone <= ZONES && !GroupAddress(mac) && mac != ZERO_MAC && IdOf(s.tab, mac) != zone
    ensures |SeedMac(s, zone, mac).0.rows| == ZONES && KeepsRow(s, SeedMac(s, zone, mac).0, z)
  {
    hide TabOk, SeedMac, FindId, Released;
    SeededRow(s, zone, mac, z);
    TabLength(s.tab);
  }

  /** What a seed leaves for each id: its own new row, nothing for the id given up, the rest untouched. */
  lemma SeededRow(s: State, zone: nat, mac: Mac, z: nat)
    requires TabOk(s.tab) && |s.rows| == ZONES && 1 <= z <= ZONES
    requires 1 <= zone <= ZONES && !GroupAddress(mac) && mac != ZERO_MAC && IdOf(s.tab, mac) != zone
    ensures var r := SeedMac(s, zone, mac).0;
            var k := FindId(r.tab, z);
      && |r.rows| == ZONES && -1 <= k < |r.tab| && -1 <= FindId(s.tab, z) < |s.tab|
      && if z == zone then k >= 0 && r.tab[k].mac == mac && r.rows[z - 1] == NewRow(z, mac)
         else if z == Released(s.tab, mac).1 then k < 0 && r.rows[z - 1] == VACANT
         else k == FindId(s.tab, z) && r.rows[z - 1] == s.rows[z - 1] && (k >= 0 ==> r.tab[k] == s.tab[k])
  {
    hide Purge, TabOk, FindMac, Released, SeedSlot, FindIdFrom;
    ReleasedOk(s.tab, mac);
    var t := Released(s.tab, mac).0;
    SeedPutOk(t, zone, mac);
    var i := SeedSlot(t, zone);
    var k := FindId(s.tab, z);
    if z != zone && k >= 0 {
      IdOfRow(s.tab, k);
      if z != Released(s.tab, mac).1 {
        assert t[k] == s.tab[k];
        IdOfRow(t, k);
        SlotElsewhere(t, zone, i, k);
      }
    }
  }

  lemma SlotElsewhere(t: seq<Ent>, zone: nat, i: nat, k: nat)
    requires TabOk(t) && i == SeedSlot(t, zone) && i < |t| && k < |t| && t[k].id != 0 && t[k].id != zone
    ensures i != k
  {
  }

  lemma NameInv(s: State, zone: nat, name: string)
    requires Inv(s)
    ensures |s.rows| == ZONES && Inv(s.(tab := SetName(s.tab, zone, name).0))
    ensures AllMirror(s) ==> AllMirror(s.(tab := SetName(s.tab, zone, name).0))
    ensures forall m: Mac :: IdOf(SetName(s.tab, zone, name).0, m) == IdOf(s.tab, m)
  {
    hide FindMac;
    var slot := FindId(s.tab, zone);
    var t := SetName(s.tab, zone, name).0;
    if t != s.tab {
      assert RowOk(s.tab[slot]);
      PutOk(s.tab, slot, t[slot]);
      forall m: Mac ensures IdOf(t, m) == IdOf(s.tab, m) {
        PutIdOf(s.tab, slot, t[slot], m);
        IdOfRow(s.tab, slot);
      }
      forall z: nat | 1 <= z <= ZONES ensures KeepsRow(s, s.(tab := t), z) { PutFindId(s.tab, slot, t[slot], z); }
      RowsKept(s, s.(tab := t));
    }
  }

  // ---------------- runs ----------------

  datatype Action =
    | Hb(mac: Mac, src: nat)
    | ClearIt(zone: nat, save: int)
    | SeedIt(zone: nat, mac: Mac)
    | NameIt(zone: nat, name: string)

  function Step(s: State, a: Action): State
    requires |s.rows| == ZONES
  {
    match a
    case Hb(mac, src) => Heartbeat(s, mac, src)
    case ClearIt(zone, save) => ClearNode(s, zone, save).0
    case SeedIt(zone, mac) => SeedMac(s, zone, mac).0
    case NameIt(zone, name) => s.(tab := SetName(s.tab, zone, name).0)
  }

  /** The clear of a bound id whose table cannot be written. */
  predicate SaveFails(s: State, a: Action) { a.ClearIt? && a.save != 0 && FindId(s.tab, a.zone) >= 0 }

  lemma InvStep(s: State, a: Action)
    requires Inv(s)
    ensures |s.rows| == ZONES && Inv(Step(s, a))
    ensures AllMirror(s) && !SaveFails(s, a) ==> AllMirror(Step(s, a))
    ensures AllMirror(s) && SaveFails(s, a) ==> !AllMirror(Step(s, a))
  {
    hide TabOk, WaitingOk, RowMirrors, Heartbeat, ClearNode, SeedMac, SetName, AllMirror;
    match a
    case Hb(mac, src) => HeartbeatInv(s, mac, src);
    case ClearIt(zone, save) => ClearInv(s, zone, save);
    case SeedIt(zone, mac) => SeedInv(s, zone, mac);
    case NameIt(zone, name) => NameInv(s, zone, name);
  }

  /** The state after any sequence of events, from an empty table. */
  function After(acts: seq<Action>): (s: State)
    ensures Inv(s)
  {
    if acts == [] then
      EmptyInv();
      Empty()
    else
      var p := After(acts[..|acts| - 1]);
      InvStep(p, acts[|acts| - 1]);
      Step(p, acts[|acts| - 1])
  }

  lemma EmptyInv()
    ensures Inv(Empty())
  {
    forall z: nat | 1 <= z <= ZONES ensures RowMirrors(Empty(), z) && FindId(Empty().tab, z) < 0 {
      assert FindId(Empty().tab, z) < 0;
    }
  }

  /**
   From an empty table, after any mix of heartbeats, clears, seeds and renames, whether or not
   the table could be saved: it is a partial bijection with zeroed free rows, the node row of
   each bound id is used and shows its MAC, and no bound MAC is listed as waiting.
   */
  lemma AlwaysBijection(acts: seq<Action>, m: Mac, n: Mac)
    ensures var s := After(acts);
      && TabOk(s.tab) && |s.rows| == ZONES
      && (IdOf(s.tab, m) != 0 && IdOf(s.tab, m) == IdOf(s.tab, n) ==> m == n)
      && (IdOf(s.tab, m) != 0 ==>
            1 <= IdOf(s.tab, m) <= ZONES && m !in s.waiting
            && s.rows[IdOf(s.tab, m) - 1].used && s.rows[IdOf(s.tab, m) - 1].mac == m)
  {
    var s := After(acts);
    hide After, FindIdFrom;
    var i, j := FindMac(s.tab, m, 0), FindMac(s.tab, n, 0);
    if i >= 0 && s.tab[i].id != 0 {
      assert RowOk(s.tab[i]);
      IdOfRow(s.tab, i);
      assert RowMirrors(s, s.tab[i].id);
    }
  }

  /** The node rows of free ids are vacant too, as long as no clear of a bound id failed to save its table. */
  lemma {:induction false} FreeRowsVacant(acts: seq<Action>)
    requires forall k :: 0 <= k < |acts| ==> !SaveFails(After(acts[..k]), acts[k])
    ensures |After(acts).rows| == ZONES && AllMirror(After(acts))
  {
    hide Inv, Step, AllMirror, SaveFails;
    if acts == [] {
      EmptyMirrors();
    } else {
      var n := |acts| - 1;
      assert forall k :: 0 <= k < n ==> acts[..n][..k] == acts[..k] && acts[..n][k] == acts[k];
      RowCount(After(acts));
      FreeRowsVacant(acts[..n]);
      InvStep(After(acts[..n]), acts[n]);
    }
  }

  lemma RowCount(s: State)
    requires Inv(s)
    ensures |s.rows| == ZONES
  {
  }

  lemma EmptyMirrors()
    ensures AllMirror(Empty())
  {
    forall z: nat | 1 <= z <= ZONES ensures RowMirrors(Empty(), z) {
      assert FindId(Empty().tab, z) < 0;
    }
  }

  /** After one that does fail, the board's row stays in use though its id is free. */
  lemma FailedClearLeavesRow(s: State, zone: nat, save: int)
    requires Inv(s) && SaveFails(s, ClearIt(zone, save))
    ensures var r := ClearNode(s, zone, save);
      && r.1 == save && 1 <= zone <= ZONES && |r.0.rows| == ZONES
      && FindId(r.0.tab, zone) < 0 && r.0.rows[zone - 1].used && r.0.rows[zone - 1].id == zone
  {
    hide FindMac, IdOf, TabOk, WaitingOk, FindIdFrom;
    ClearTable(s.tab, zone);
    assert RowMirrors(s, zone);
  }

  /** The event is no clear of the id and no seed that moves the MAC or takes its id. */
  predicate Spares(a: Action, m: Mac, id: nat) {
    match a
    case Hb(_, _) => true
    case NameIt(_, _) => true
    case ClearIt(zone, _) => zone != id
    case SeedIt(zone, mac) => mac != m && zone != id
  }

  /** A binding outlives every heartbeat: only a clear of its id or a seed can end or move it. */
  lemma {:induction false} HeartbeatsKeepBindings(acts: seq<Action>, more: seq<Action>, m: Mac)
    requires IdOf(After(acts).tab, m) != 0
    requires forall k :: 0 <= k < |more| ==> Spares(more[k], m, IdOf(After(acts).tab, m))
    ensures IdOf(After(acts + more).tab, m) == IdOf(After(acts).tab, m)
    decreases |more|
  {
    hide Inv, Step, IdOf, Spares;
    if more == [] {
      assert acts + more == acts;
    } else {
      var n := |more| - 1;
      HeartbeatsKeepBindings(acts, more[..n], m);
      var all := acts + more;
      assert all[..|all| - 1] == acts + more[..n] && all[|all| - 1] == more[n];
      OneStepKeeps(After(acts + more[..n]), more[n], m);
    }
  }

  lemma OneStepKeeps(s: State, a: Action, m: Mac)
    requires Inv(s) && IdOf(s.tab, m) != 0 && Spares(a, m, IdOf(s.tab, m))
    ensures |s.rows| == ZONES && IdOf(Step(s, a).tab, m) == IdOf(s.tab, m)
  {
    hide IdOf, SeedMac, ClearNode, SetName, RowMirrors, WaitingOk, TabOk;
    match a
    case Hb(mac, src) => EnrolKeeps(s.tab, mac, src, m);
    case ClearIt(zone, save) => ClearInv(s, zone, save);
    case SeedIt(zone, mac) => SeedMoves(s, zone, mac);
    case NameIt(zone, name) => NameInv(s, zone, name);
  }
}
