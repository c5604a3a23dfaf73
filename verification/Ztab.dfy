/**
 components/node_store/ztab.c: the zone-id table, eight rows of (MAC, id), and its
 enrolment decision.
 */
module Ztab {
  import opened Wrappers
  import opened Pigeonhole
  import opened Bytes

  const ZONES: nat := 8
  const NAME_MAX: nat := 15
  const F_ASSIGNED_UNCONFIGURED: nat := 3

  type Mac = m: seq<bv8> | |m| == 6 witness Fill(0, 6)

  const ZERO_MAC: Mac := Fill(0, 6)

  datatype Ent = Ent(mac: Mac, id: nat, flags: nat, name: string)

  const ZERO_ENT := Ent(ZERO_MAC, 0, 0, "")

  datatype Verdict = KNOWN | ASSIGNED | CONFLICT | STALE | FULL

  // ---------------- the operations as functions ----------------

  function FindMac(t: seq<Ent>, mac: Mac, i: nat): (r: int)
    requires i <= |t|
    ensures -1 <= r < |t| && (r >= 0 ==> i <= r && t[r].mac == mac)
    ensures forall j :: i <= j < (if r < 0 then |t| else r) ==> t[j].mac != mac
    decreases |t| - i
  {
    if i == |t| then -1 else if t[i].mac == mac then i else FindMac(t, mac, i + 1)
  }

  function FindIdFrom(t: seq<Ent>, id: nat, i: nat): (r: int)
    requires i <= |t|
    ensures -1 <= r < |t| && (r >= 0 ==> i <= r && t[r].id == id)
    ensures forall j :: i <= j < (if r < 0 then |t| else r) ==> t[j].id != id
    decreases |t| - i
  {
    if i == |t| then -1 else if t[i].id == id then i else FindIdFrom(t, id, i + 1)
  }

  /** ztab_find_id never finds id 0, which marks a free row. */
  function FindId(t: seq<Ent>, id: nat): int { if id == 0 then -1 else FindIdFrom(t, id, 0) }

  function Put(t: seq<Ent>, i: int, e: Ent): seq<Ent> {
    if 0 <= i < |t| then t[i := e] else t
  }

  function Fresh(mac: Mac, id: nat): Ent { Ent(mac, id, F_ASSIGNED_UNCONFIGURED, "") }

  /** The first free row takes the MAC; -1 and no change if there is none. */
  function Place(t: seq<Ent>, mac: Mac, id: nat): (seq<Ent>, int) {
    var i := FindIdFrom(t, 0, 0);
    (Put(t, i, Fresh(mac, id)), i)
  }

  /** The lowest id from `id` on that no row holds, ZONES + 1 if there is none. */
  function LowestFree(t: seq<Ent>, id: nat): (r: nat)
    requires 1 <= id <= ZONES + 1
    ensures id <= r <= ZONES + 1
    ensures r <= ZONES ==> FindId(t, r) < 0
    ensures forall k :: id <= k < r ==> FindId(t, k) >= 0
    decreases ZONES + 1 - id
  {
    if id == ZONES + 1 || FindId(t, id) < 0 then id else LowestFree(t, id + 1)
  }

  function Assign(t: seq<Ent>, mac: Mac): (seq<Ent>, int) {
    var slot := FindMac(t, mac, 0);
    if slot >= 0 then (t, t[slot].id as int)
    else
      var id := LowestFree(t, 1);
      if id > ZONES then (t, -1)
      else
        var p := Place(t, mac, id);
        if p.1 < 0 then (p.0, -1) else (p.0, id as int)
  }

  function ClearId(t: seq<Ent>, id: nat): (seq<Ent>, int) {
    var slot := FindId(t, id);
    if slot < 0 then (t, -1) else (Put(t, slot, ZERO_ENT), 0)
  }

  function SetName(t: seq<Ent>, id: nat, name: string): (seq<Ent>, int) {
    var slot := FindId(t, id);
    if !(0 <= slot < |t|) || |name| > NAME_MAX then (t, -1) else (Put(t, slot, t[slot].(name := name)), 0)
  }

  datatype Outcome = Outcome(tab: seq<Ent>, verdict: Verdict, outId: Option<nat>)

  function Enrol(t: seq<Ent>, mac: Mac, claimed: nat): (o: Outcome)
    ensures o.verdict != FULL ==> o.outId.Some?
  {
    var slot := FindMac(t, mac, 0);
    if slot >= 0 then Outcome(t, if claimed == t[slot].id then KNOWN else STALE, Some(t[slot].id))
    else if 1 <= claimed <= ZONES then
      if FindId(t, claimed) >= 0 then Outcome(t, CONFLICT, Some(claimed))
      else
        var p := Place(t, mac, claimed);
        if p.1 < 0 then Outcome(p.0, FULL, None) else Outcome(p.0, ASSIGNED, Some(claimed))
    else
      var a := Assign(t, mac);
      if a.1 < 0 then Outcome(a.0, FULL, None) else Outcome(a.0, ASSIGNED, Some(a.1))
  }

  // ---------------- the table updated in place ----------------

  class Table {
    var e: seq<Ent>

    constructor ()
      ensures e == seq(ZONES, _ => ZERO_ENT)
    {
      e := seq(ZONES, _ => ZERO_ENT);
    }

    method FindByMac(mac: Mac) returns (slot: int)
      ensures slot == FindMac(e, mac, 0)
    {
      var i := 0;
      while i < |e|
        invariant i <= |e| && FindMac(e, mac, 0) == FindMac(e, mac, i)
      {
        if e[i].mac == mac { return i; }
        i := i + 1;
      }
      slot := -1;
    }

    method FindById(id: nat) returns (slot: int)
      ensures slot == FindId(e, id)
    {
      if id == 0 { return -1; }
      var i := 0;
      while i < |e|
        invariant i <= |e| && FindIdFrom(e, id, 0) == FindIdFrom(e, id, i)
      {
        if e[i].id == id { return i; }
        i := i + 1;
      }
      slot := -1;
    }

    method FirstFreeRow() returns (slot: int)
      ensures slot == FindIdFrom(e, 0, 0)
    {
      var i := 0;
      while i < |e|
        invariant i <= |e| && FindIdFrom(e, 0, 0) == FindIdFrom(e, 0, i)
      {
        if e[i].id == 0 { return i; }
        i := i + 1;
      }
      slot := -1;
    }

    method PlaceAt(mac: Mac, id: nat) returns (slot: int)
      modifies this
      ensures (e, slot) == Place(old(e), mac, id)
    {
      var i := 0;
      while i < |e|
        invariant i <= |e| && e == old(e) && FindIdFrom(e, 0, 0) == FindIdFrom(e, 0, i)
      {
        if e[i].id == 0 {
          e := e[i := Ent(mac, id, F_ASSIGNED_UNCONFIGURED, "")];
          return i;
        }
        i := i + 1;
      }
      slot := -1;
    }

    method AssignId(mac: Mac) returns (id: int)
      modifies this
      ensures (e, id) == Assign(old(e), mac)
    {
      var slot := FindByMac(mac);
      if slot >= 0 { return e[slot].id; }
      var k := 1;
      while k <= ZONES
        invariant 1 <= k <= ZONES + 1 && e == old(e) && LowestFree(e, 1) == LowestFree(e, k)
      {
        var held := FindById(k);
        if held < 0 {
          var at := PlaceAt(mac, k);
          return if at < 0 then -1 else k;
        }
        k := k + 1;
      }
      id := -1;
    }

    method ClearRow(id: nat) returns (rc: int)
      modifies this
      ensures (e, rc) == ClearId(old(e), id)
    {
      var slot := FindById(id);
      if slot < 0 { return -1; }
      e := e[slot := ZERO_ENT];
      rc := 0;
    }

    method NameRow(id: nat, name: string) returns (rc: int)
      modifies this
      ensures (e, rc) == SetName(old(e), id, name)
    {
      var slot := FindById(id);
      if slot < 0 { return -1; }
      if |name| > NAME_MAX { return -1; }
      e := e[slot := e[slot].(name := name)];
      rc := 0;
    }

    method EnrolMac(mac: Mac, claimed: nat) returns (v: Verdict, outId: Option<nat>)
      modifies this
      ensures Outcome(e, v, outId) == Enrol(old(e), mac, claimed)
    {
      hide LowestFree;
      var macSlot := FindByMac(mac);
      if macSlot >= 0 {
        var heldId := e[macSlot].id;
        return (if claimed == heldId then KNOWN else STALE), Some(heldId);
      }
      if 1 <= claimed <= ZONES {
        var idSlot := FindById(claimed);
        if idSlot >= 0 { return CONFLICT, Some(claimed); }
        var at := PlaceAt(mac, claimed);
        if at < 0 { return FULL, None; }
        return ASSIGNED, Some(claimed);
      }
      var id := AssignId(mac);
      if id < 0 { return FULL, None; }
      return ASSIGNED, Some(id);
    }
  }

  // ---------------- what the table is ----------------

  predicate RowOk(e: Ent) {
    if e.id == 0 then e == ZERO_ENT
    else e.id <= ZONES && e.mac != ZERO_MAC && |e.name| <= NAME_MAX
  }

  /** A partial bijection between MACs and ids 1 to 8, with free rows all zero. */
  predicate TabOk(t: seq<Ent>) {
    && |t| == ZONES
    && (forall i :: 0 <= i < |t| ==> RowOk(t[i]))
    && (forall i, j :: 0 <= i < |t| && 0 <= j < |t| && t[i].id != 0 && t[i].id == t[j].id ==> i == j)
    && (forall i, j :: 0 <= i < |t| && 0 <= j < |t| && t[i].id != 0 && t[i].mac == t[j].mac ==> i == j)
  }

  /** The id a MAC is bound to, 0 for none. */
  function IdOf(t: seq<Ent>, mac: Mac): nat {
    var i := FindMac(t, mac, 0);
    if i < 0 then 0 else t[i].id
  }

  /** Reading the binding off any row that carries it. */
  lemma IdOfRow(t: seq<Ent>, i: nat)
    requires TabOk(t) && i < |t| && t[i].id != 0
    ensures IdOf(t, t[i].mac) == t[i].id && FindMac(t, t[i].mac, 0) == i && FindId(t, t[i].id) == i
  {
    assert FindMac(t, t[i].mac, 0) >= 0 && FindId(t, t[i].id) >= 0;
  }

  lemma NoRow(t: seq<Ent>, mac: Mac)
    requires TabOk(t) && forall i :: 0 <= i < |t| && t[i].id != 0 ==> t[i].mac != mac
    ensures IdOf(t, mac) == 0
  {
  }

  /** The ids of a table without free rows. */
  function Ids(t: seq<Ent>): (r: seq<nat>)
    requires TabOk(t) && Full(t)
    ensures |r| == ZONES && Distinct(r)
    ensures forall i :: 0 <= i < ZONES ==> 1 <= r[i] <= ZONES && r[i] == t[i].id
  {
    assert forall i :: 0 <= i < |t| ==> RowOk(t[i]);
    seq(ZONES, i requires 0 <= i < |t| => t[i].id)
  }

  predicate Full(t: seq<Ent>) { forall i :: 0 <= i < |t| ==> t[i].id != 0 }

  /** Pigeonhole: if some id is free, some row is free. */
  lemma FreeIdFreeRow(t: seq<Ent>, id: nat)
    requires TabOk(t) && 1 <= id <= ZONES && FindId(t, id) < 0
    ensures FindIdFrom(t, 0, 0) >= 0
  {
    hide UpTo, TabOk, RowOk, Ids;
    TabLength(t);
    if FindIdFrom(t, 0, 0) < 0 {
      assert id in UpTo(ZONES);
      assert forall i :: 0 <= i < |t| ==> t[i].id != id;
      DistinctWithin(Ids(t), UpTo(ZONES) - {id});
    }
  }

  /** One row replaced keeps the bijection if its MAC and id are free elsewhere. */
  lemma PutOk(t: seq<Ent>, i: nat, e: Ent)
    requires TabOk(t) && i < |t| && RowOk(e)
    requires e.id != 0 ==> forall j :: 0 <= j < |t| && j != i ==> t[j].id != e.id && (t[j].mac != e.mac || t[j].id == 0)
    ensures TabOk(t[i := e])
  {
  }

  /** Every other MAC keeps its binding when one row is replaced. */
  lemma PutIdOf(t: seq<Ent>, i: nat, e: Ent, mac: Mac)
    requires TabOk(t) && i < |t| && TabOk(t[i := e])
    ensures IdOf(t[i := e], mac) ==
      if e.id != 0 && mac == e.mac then e.id else if t[i].id != 0 && mac == t[i].mac then 0 else IdOf(t, mac)
  {
    var u := t[i := e];
    assert forall j :: 0 <= j < |t| && j != i ==> u[j] == t[j];
    if e.id != 0 && mac == e.mac {
      IdOfRow(u, i);
    } else if k: nat :| k < |u| && u[k].id != 0 && u[k].mac == mac {
      IdOfRow(u, k);
      assert u[k] == t[k];
      IdOfRow(t, k);
    } else {
      NoRow(u, mac);
      if forall j :: 0 <= j < |t| && t[j].id != 0 ==> t[j].mac != mac { NoRow(t, mac); }
    }
  }

  // ---------------- enrolment ----------------

  /** A free row carries the zero MAC, so the zero MAC reads as known with id 0 until the table is full. */
  lemma ZeroMacKnown(t: seq<Ent>)
    requires TabOk(t)
    ensures FindMac(t, ZERO_MAC, 0) >= 0 <==> !Full(t)
    ensures IdOf(t, ZERO_MAC) == 0
  {
  }

  predicate Unknown(t: seq<Ent>, mac: Mac) { FindMac(t, mac, 0) < 0 }

  /** The id an unknown MAC gets: its own claim if that is an id, else the lowest free one. */
  function Wanted(t: seq<Ent>, claimed: nat): nat {
    if 1 <= claimed <= ZONES then claimed else LowestFree(t, 1)
  }

  lemma EnrolPlaces(t: seq<Ent>, mac: Mac, claimed: nat)
    requires TabOk(t) && Unknown(t, mac)
    ensures var id := Wanted(t, claimed);
            var o := Enrol(t, mac, claimed);
            var row := FindIdFrom(t, 0, 0);
      if id > ZONES then o == Outcome(t, FULL, None)
      else if FindId(t, id) >= 0 then o == Outcome(t, CONFLICT, Some(id))
      else 0 <= row < |t| && o == Outcome(t[row := Fresh(mac, id)], ASSIGNED, Some(id))
           && mac != ZERO_MAC && TabOk(o.tab)
  {
    hide LowestFree;
    var id := Wanted(t, claimed);
    if id <= ZONES && FindId(t, id) < 0 {
      FreeIdFreeRow(t, id);
      var row := FindIdFrom(t, 0, 0);
      assert RowOk(t[row]);
      PutOk(t, row, Fresh(mac, id));
    }
  }

  /** Enrolment keeps the bijection, never renumbers or forgets a MAC, and binds at most the one that asked. */
  lemma EnrolKeeps(t: seq<Ent>, mac: Mac, claimed: nat, other: Mac)
    requires TabOk(t)
    ensures var o := Enrol(t, mac, claimed);
      && TabOk(o.tab)
      && (IdOf(t, other) != 0 ==> IdOf(o.tab, other) == IdOf(t, other))
      && (other != mac ==> IdOf(o.tab, other) == IdOf(t, other))
      && (o.verdict == ASSIGNED <==> o.tab != t)
      && (o.verdict == ASSIGNED ==> IdOf(t, mac) == 0 && Some(IdOf(o.tab, mac)) == o.outId && 1 <= IdOf(o.tab, mac) <= ZONES)
  {
    hide LowestFree;
    if Unknown(t, mac) {
      EnrolPlaces(t, mac, claimed);
      var o := Enrol(t, mac, claimed);
      if o.verdict == ASSIGNED {
        var row := FindIdFrom(t, 0, 0);
        assert RowOk(t[row]);
        PutIdOf(t, row, o.tab[row], other);
        PutIdOf(t, row, o.tab[row], mac);
      }
    }
  }

  /** The verdicts, told apart by the binding and the claim alone. */
  lemma VerdictIff(t: seq<Ent>, mac: Mac, claimed: nat)
    requires TabOk(t) && mac != ZERO_MAC
    ensures var v := Enrol(t, mac, claimed).verdict;
      && (v == KNOWN <==> IdOf(t, mac) != 0 && claimed == IdOf(t, mac))
      && (v == STALE <==> IdOf(t, mac) != 0 && claimed != IdOf(t, mac))
      && (v == CONFLICT <==> IdOf(t, mac) == 0 && 1 <= claimed <= ZONES && FindId(t, claimed) >= 0)
      && (v == FULL <==> IdOf(t, mac) == 0 && !(1 <= claimed <= ZONES) && Full(t))
  {
    hide LowestFree;
    if Unknown(t, mac) {
      EnrolPlaces(t, mac, claimed);
      if !(1 <= claimed <= ZONES) { LowestIffFull(t); }
    } else {
      assert RowOk(t[FindMac(t, mac, 0)]);
    }
  }

  /** Asking without a claim: a bound MAC keeps its id; any other gets the lowest id nobody has, or none if all are taken. */
  lemma AssignGives(t: seq<Ent>, mac: Mac)
    requires TabOk(t) && mac != ZERO_MAC
    ensures var (u, id) := Assign(t, mac);
      && (IdOf(t, mac) != 0 ==> u == t && id == IdOf(t, mac))
      && (IdOf(t, mac) == 0 && Full(t) ==> u == t && id == -1)
      && (IdOf(t, mac) == 0 && !Full(t) ==>
            && 1 <= id <= ZONES && FindId(t, id) < 0 && (forall k :: 1 <= k < id ==> FindId(t, k) >= 0)
            && TabOk(u) && IdOf(u, mac) == id)
  {
    hide LowestFree;
    if Unknown(t, mac) {
      LowestIffFull(t);
      EnrolPlaces(t, mac, 0);
      EnrolKeeps(t, mac, 0, mac);
    } else {
      assert RowOk(t[FindMac(t, mac, 0)]);
    }
  }

  /** A name is taken for a bound id as long as it fits in fifteen characters, and changes nothing else. */
  lemma NameIff(t: seq<Ent>, id: nat, name: string)
    requires TabOk(t)
    ensures var (u, rc) := SetName(t, id, name);
            var i := FindId(t, id);
      && (rc == 0 <==> i >= 0 && |name| <= 15) && (rc != 0 ==> rc == -1 && u == t)
      && (rc == 0 ==> i < |t| == |u| && t[i].id == id && u == t[i := Ent(t[i].mac, id, t[i].flags, name)])
  {
  }

  /** No id is free exactly when no row is. */
  lemma LowestIffFull(t: seq<Ent>)
    requires TabOk(t)
    ensures LowestFree(t, 1) > ZONES <==> Full(t)
  {
    var id := LowestFree(t, 1);
    if id <= ZONES {
      FreeIdFreeRow(t, id);
    } else if !Full(t) {
      var i: nat :| i < |t| && t[i].id == 0;
      EveryIdHeld(t, i);
    }
  }

  /** The row of each id, if every id has one. */
  function Rows(t: seq<Ent>): (r: seq<nat>)
    requires |t| == ZONES && forall id :: 1 <= id <= ZONES ==> FindId(t, id) >= 0
    ensures |r| == ZONES && Distinct(r)
    ensures forall k :: 0 <= k < ZONES ==> r[k] < ZONES && t[r[k]].id == k + 1
  {
    seq(ZONES, k requires 0 <= k < ZONES => FindId(t, k + 1) as nat)
  }

  /** Eight ids cannot sit on the seven other rows. */
  lemma EveryIdHeld(t: seq<Ent>, i: nat)
    requires TabOk(t) && i < |t| && t[i].id == 0
    ensures exists id :: 1 <= id <= ZONES && FindId(t, id) < 0
  {
    hide UpTo, TabOk, FindId, Rows;
    assert |t| == ZONES by { TabLength(t); }
    if forall id :: 1 <= id <= ZONES ==> FindId(t, id) >= 0 {
      var others := UpTo(ZONES) + {0} - {ZONES} - {i};
      assert ZONES in UpTo(ZONES) + {0} && i in UpTo(ZONES) + {0} - {ZONES};
      DistinctWithin(Rows(t), others);
    }
  }

  lemma TabLength(t: seq<Ent>)
    requires TabOk(t)
    ensures |t| == ZONES
  {
  }
}
