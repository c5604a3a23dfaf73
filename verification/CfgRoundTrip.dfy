/**
 What a merge promises: all or nothing, always a valid result, and exactly the exported
 fields when the document came from the export.
 */
module CfgRoundTrip {
  import opened Wrappers
  import opened CfgFields
  import opened CfgJson
  import opened CfgMerge

  // ---------------- one group ----------------

  lemma {:induction false} FindOwnRow(g: Group, k: nat, i: nat)
    requires i <= k < |Rows(g)|
    ensures FindField(g, Rows(g)[k].key, i) == k
    decreases k - i
  {
    hide Rows;
    if i < k {
      KeysDiffer(g, i, k);
      assert Rows(g)[i].key != Rows(g)[k].key;
      FindOwnRow(g, k, i + 1);
    }
  }

  /** A field's value depends on its own bytes only. */
  lemma ValFrame(f: Field, m: seq<Byte>, r: seq<Byte>, base: nat)
    requires Fits(f, m, base) && |r| == |m|
    requires forall i :: base + f.offset <= i < base + f.offset + Width(f.kind) ==> r[i] == m[i]
    ensures ValOf(f, r, base) == ValOf(f, m, base)
  {
    var at := base + f.offset;
    if f.kind == STR16 { assert r[at..at + STR_LEN] == m[at..at + STR_LEN]; }
  }

  /** Applying a value to row k leaves every other row of the group as it was. */
  lemma ApplyOthers(g: Group, idx: int, m: seq<Byte>, k: nat, j: Json, i: nat)
    requires |m| == SIZE && IsSlot(g, idx) && k < |Rows(g)| && i < |Rows(g)| && i != k
    ensures Fits(Rows(g)[k], m, At(g, idx))
    ensures Vals(Apply(Rows(g)[k], m, At(g, idx), j).0, g, idx)[i] == Vals(m, g, idx)[i]
  {
    hide Rows, At, Apply, ValOf, PlacedFrom;
    RowFits(g, idx, k);
    RowFits(g, idx, i);
    SlotInside(g, idx);
    Layout(g);
    assert Apart(Rows(g)[i], Rows(g)[k]);
    var f := Rows(g)[k];
    ApplyAllowed(f, m, At(g, idx), j);
    ValFrame(Rows(g)[i], m, Apply(f, m, At(g, idx), j).0, At(g, idx));
  }

  /** The bytes a group's merge may touch. */
  predicate Within(g: Group, idx: int, m: seq<Byte>, r: seq<Byte>)
    requires |m| == |r| == SIZE && IsSlot(g, idx)
  {
    forall i :: 0 <= i < SIZE && !(At(g, idx) + Lo(g) <= i < At(g, idx) + Hi(g)) ==> r[i] == m[i]
  }

  lemma {:induction false} MergeWithin(m: seq<Byte>, g: Group, idx: int, items: seq<Member>)
    requires |m| == SIZE && IsSlot(g, idx)
    ensures Within(g, idx, m, MergeGroup(m, g, idx, items).m)
    decreases |items|
  {
    hide Rows, At, Apply, Lo, Hi;
    if items != [] {
      var k := FindField(g, items[0].name, 0);
      if k == |Rows(g)| {
        MergeWithin(m, g, idx, items[1..]);
      } else {
        RowFits(g, idx, k);
        var f := Rows(g)[k];
        ApplyAllowed(f, m, At(g, idx), items[0].value);
        MergeWithin(Apply(f, m, At(g, idx), items[0].value).0, g, idx, items[1..]);
      }
    }
  }

  /** A merge inside one group instance leaves all others as they were. */
  lemma OtherSlots(m: seq<Byte>, r: seq<Byte>, g: Group, idx: int, h: Group, j: int)
    requires |m| == |r| == SIZE && IsSlot(g, idx) && IsSlot(h, j) && (g != h || idx != j) && Within(g, idx, m, r)
    ensures Vals(r, h, j) == Vals(m, h, j)
  {
    hide Rows, At, ValOf;
    SlotsApart(g, idx, h, j);
    forall k | 0 <= k < |Rows(h)| ensures Vals(r, h, j)[k] == Vals(m, h, j)[k] {
      RowFits(h, j, k);
      ValFrame(Rows(h)[k], m, r, At(h, j));
    }
  }

  /** The rows before k of the merged group agree with the exported config. */
  predicate AgreeTo(m: seq<Byte>, c: seq<Byte>, g: Group, idx: int, k: nat)
    requires |m| == |c| == SIZE && IsSlot(g, idx) && k <= |Rows(g)|
  {
    forall i :: 0 <= i < k ==> Vals(m, g, idx)[i] == Vals(c, g, idx)[i]
  }

  predicate AllowedTo(m: seq<Byte>, g: Group, idx: int, k: nat)
    requires |m| == SIZE && IsSlot(g, idx) && k <= |Rows(g)|
  {
    forall i :: 0 <= i < k ==> Allowed(Rows(g)[i], Vals(m, g, idx)[i])
  }

  /** One exported member, merged: its row agrees if it was allowed, and is allowed if it went in. */
  lemma OneMember(m: seq<Byte>, c: seq<Byte>, g: Group, idx: int, k: nat)
    requires |m| == |c| == SIZE && IsSlot(g, idx) && k < |Rows(g)|
    ensures Fits(Rows(g)[k], m, At(g, idx))
    ensures var a := Apply(Rows(g)[k], m, At(g, idx), GroupMembers(c, g, idx)[k].value);
      && (Allowed(Rows(g)[k], Vals(c, g, idx)[k]) ==> a.1 == 0 && Vals(a.0, g, idx)[k] == Vals(c, g, idx)[k])
      && (a.1 == 0 ==> Allowed(Rows(g)[k], Vals(a.0, g, idx)[k]))
      && (forall i :: 0 <= i < |Rows(g)| && i != k ==> Vals(a.0, g, idx)[i] == Vals(m, g, idx)[i])
  {
    hide Rows, At, Apply, ValOf, Allowed, ToJson, Read;
    RowFits(g, idx, k);
    var f, base := Rows(g)[k], At(g, idx);
    var j := GroupMembers(c, g, idx)[k].value;
    ApplyAllowed(f, m, base, j);
    if Allowed(f, ValOf(f, c, base)) { LeafRoundTrip(f, c, base, m, base); }
    forall i | 0 <= i < |Rows(g)| && i != k ensures Vals(Apply(f, m, base, j).0, g, idx)[i] == Vals(m, g, idx)[i] {
      ApplyOthers(g, idx, m, k, j, i);
    }
  }

  lemma MemberStep(m: seq<Byte>, c: seq<Byte>, g: Group, idx: int, k: nat)
    requires |m| == |c| == SIZE && IsSlot(g, idx) && k < |Rows(g)|
    ensures Fits(Rows(g)[k], m, At(g, idx))
    ensures var a := Apply(Rows(g)[k], m, At(g, idx), GroupMembers(c, g, idx)[k].value);
      && (SlotAllowed(c, g, idx) && AgreeTo(m, c, g, idx, k) ==> a.1 == 0 && AgreeTo(a.0, c, g, idx, k + 1))
      && (a.1 == 0 && AllowedTo(m, g, idx, k) ==> AllowedTo(a.0, g, idx, k + 1))
  {
    hide Rows, At, Apply, ValOf, Allowed, Vals, MemberOf;
    OneMember(m, c, g, idx, k);
  }

  /** One turn of the member loop at the exported member k. */
  lemma MergeTurn(m: seq<Byte>, c: seq<Byte>, g: Group, idx: int, k: nat)
    requires |m| == |c| == SIZE && IsSlot(g, idx) && k < |Rows(g)|
    ensures Fits(Rows(g)[k], m, At(g, idx))
    ensures var all := GroupMembers(c, g, idx);
            var a := Apply(Rows(g)[k], m, At(g, idx), all[k].value);
      if a.1 != 0 then MergeGroup(m, g, idx, all[k..]).rc != 0
      else MergeGroup(m, g, idx, all[k..]) == MergeGroup(a.0, g, idx, all[k + 1..])
  {
    hide Rows, At, Apply, MemberOf, JsonPath;
    var all := GroupMembers(c, g, idx);
    assert all[k..][0] == all[k] && all[k..][1..] == all[k + 1..];
    MemberKey(c, g, idx, k);
    FindOwnRow(g, k, 0);
    RowFits(g, idx, k);
  }

  lemma {:induction false} MergeExported(m: seq<Byte>, c: seq<Byte>, g: Group, idx: int, k: nat)
    requires |m| == |c| == SIZE && IsSlot(g, idx) && k <= |Rows(g)|
    ensures var r := MergeGroup(m, g, idx, GroupMembers(c, g, idx)[k..]);
      && (SlotAllowed(c, g, idx) && AgreeTo(m, c, g, idx, k) ==> r.rc == 0 && Vals(r.m, g, idx) == Vals(c, g, idx))
      && (r.rc == 0 && AllowedTo(m, g, idx, k) ==> SlotAllowed(r.m, g, idx))
    decreases |Rows(g)| - k
  {
    hide Rows, At, Apply, Vals, SlotAllowed, AgreeTo, AllowedTo, GroupMembers, MergeGroup, IsSlot;
    if k == |Rows(g)| {
      GroupDone(m, c, g, idx);
    } else {
      MemberStep(m, c, g, idx, k);
      MergeTurn(m, c, g, idx, k);
      var a := Apply(Rows(g)[k], m, At(g, idx), GroupMembers(c, g, idx)[k].value);
      MergeExported(a.0, c, g, idx, k + 1);
    }
  }

  lemma GroupDone(m: seq<Byte>, c: seq<Byte>, g: Group, idx: int)
    requires |m| == |c| == SIZE && IsSlot(g, idx)
    ensures var n := |Rows(g)|;
      && MergeGroup(m, g, idx, GroupMembers(c, g, idx)[n..]) == Merged(m, 0, "")
      && (AgreeTo(m, c, g, idx, n) ==> Vals(m, g, idx) == Vals(c, g, idx))
      && (AllowedTo(m, g, idx, n) ==> SlotAllowed(m, g, idx))
  {
    hide Rows, At, Apply, ValOf, Allowed, Vals, MemberOf;
    assert GroupMembers(c, g, idx)[|Rows(g)|..] == [];
  }

  lemma MemberKey(c: seq<Byte>, g: Group, idx: int, k: nat)
    requires |c| == SIZE && IsSlot(g, idx) && k < |Rows(g)|
    ensures GroupMembers(c, g, idx)[k].name == Rows(g)[k].key
  {
    hide Rows, At, Read, ToJson;
    RowFits(g, idx, k);
  }

  // ---------------- the whole document ----------------

  /** The place of a group instance in the export. */
  function Place(g: Group, idx: int): int {
    match g
    case ZONECFG => 0
    case SHELF => 1 + 5 * idx
    case LIGHT => 2 + 5 * idx
    case WATER => 3 + 5 * idx
    case FAN => 4 + 5 * idx
    case VIB => 5 + 5 * idx
    case AUX => 21 + idx
    case _ => 99
  }

  lemma PlaceUnique(g: Group, i: int, h: Group, j: int)
    requires IsSlot(g, i) && IsSlot(h, j) && Place(g, i) == Place(h, j)
    ensures g == h && i == j
    ensures 0 <= Place(g, i) < 23
  {
  }

  lemma PlaceBound(g: Group, i: int)
    requires IsSlot(g, i)
    ensures 0 <= Place(g, i) < 23
  {
  }

  ghost predicate Carried(m: seq<Byte>, c: seq<Byte>, n: int)
    requires |m| == |c| == SIZE
  {
    forall g, idx :: IsSlot(g, idx) && Place(g, idx) < n ==> Vals(m, g, idx) == Vals(c, g, idx)
  }

  ghost predicate Clean(m: seq<Byte>, n: int)
    requires |m| == SIZE
  {
    forall g, idx :: IsSlot(g, idx) && Place(g, idx) < n ==> SlotAllowed(m, g, idx)
  }

  /** What merging the exported places n to k - 1 has come to. */
  ghost predicate Went(m: seq<Byte>, c: seq<Byte>, n: int, r: Merged, k: int)
    requires |m| == |c| == |r.m| == SIZE
  {
    && (AllAllowed(c) && Carried(m, c, n) ==> r.rc == 0 && Carried(r.m, c, k))
    && (r.rc == 0 && Clean(m, n) ==> Clean(r.m, k))
    && OnlyFields(m, r.m)
  }

  lemma SlotWent(m: seq<Byte>, c: seq<Byte>, g: Group, idx: int)
    requires |m| == |c| == SIZE && IsSlot(g, idx)
    ensures var r := MergeGroup(m, g, idx, GroupMembers(c, g, idx)); Went(m, c, Place(g, idx), r, Place(g, idx) + 1)
  {
    hide Rows, At, Vals, SlotAllowed, IsSlot, MergeGroup, Place, Lo, Hi;
    var r, n := MergeGroup(m, g, idx, GroupMembers(c, g, idx)), Place(g, idx);
    assert GroupMembers(c, g, idx)[0..] == GroupMembers(c, g, idx);
    MergeExported(m, c, g, idx, 0);
    MergeWithin(m, g, idx, GroupMembers(c, g, idx));
    forall h, j | IsSlot(h, j) && Place(h, j) < n + 1
      ensures (g == h && idx == j) || (Place(h, j) < n && Vals(r.m, h, j) == Vals(m, h, j))
    {
      if g != h || idx != j {
        OtherSlots(m, r.m, g, idx, h, j);
        if Place(h, j) == n { PlaceUnique(g, idx, h, j); }
      }
    }
    forall h, j | IsSlot(h, j) && Place(h, j) < n + 1 && Clean(m, n) && r.rc == 0 ensures SlotAllowed(r.m, h, j) {
      if g != h || idx != j { AllowedByVals(m, r.m, h, j); }
    }
  }

  lemma AllowedByVals(m: seq<Byte>, r: seq<Byte>, g: Group, idx: int)
    requires |m| == |r| == SIZE && IsSlot(g, idx) && Vals(m, g, idx) == Vals(r, g, idx)
    ensures SlotAllowed(m, g, idx) <==> SlotAllowed(r, g, idx)
  {
    hide Vals, Rows;
  }

  /** Two stretches of the export merged one after the other. */
  lemma WentOn(m: seq<Byte>, c: seq<Byte>, n: int, r: Merged, k: int, t: Merged, l: int)
    requires |m| == |c| == |r.m| == |t.m| == SIZE
    requires Went(m, c, n, r, k) && (r.rc == 0 ==> Went(r.m, c, k, t, l))
    ensures Went(m, c, n, if r.rc != 0 then r else t, l)
  {
    hide Carried, Clean, AllAllowed, OffFields;
  }

  lemma {:induction false} ElementWent(m: seq<Byte>, c: seq<Byte>, s: nat, k: nat)
    requires |m| == |c| == SIZE && s < MAX_SHELVES && k <= 5
    ensures Went(m, c, 1 + 5 * s + k, MergeElement(m, false, s, ShelfObj(c, s).members[k..]), 6 + 5 * s)
    decreases 5 - k
  {
    hide Went, MergeGroup, GroupMembers, Rows;
    var all := ShelfObj(c, s).members;
    if k == 5 {
      assert all[5..] == [];
      NothingWent(m, c, 6 + 5 * s);
    } else {
      assert all[k..][0] == GroupObj(c, ShelfGroup(k), s) && all[k..][1..] == all[k + 1..];
      SlotWent(m, c, ShelfGroup(k), s);
      assert Place(ShelfGroup(k), s) == 1 + 5 * s + k;
      ShelfGroupNamed(k);
      var r := MergeGroup(m, ShelfGroup(k), s, GroupMembers(c, ShelfGroup(k), s));
      ElementWent(r.m, c, s, k + 1);
      WentOn(m, c, 1 + 5 * s + k, r, 2 + 5 * s + k, MergeElement(r.m, false, s, all[k + 1..]), 6 + 5 * s);
    }
  }

  lemma ShelfGroupNamed(k: nat)
    requires k < 5
    ensures GroupNamed(false, GroupName(ShelfGroup(k))) == Some(ShelfGroup(k))
    ensures GroupNamed(true, GroupName(AUX)) == Some(AUX)
  {
  }

  lemma NothingWent(m: seq<Byte>, c: seq<Byte>, n: int)
    requires |m| == |c| == SIZE
    ensures Went(m, c, n, Merged(m, 0, ""), n)
  {
    hide Carried, Clean, AllAllowed, OffFields;
  }

  lemma {:induction false} ShelvesWent(m: seq<Byte>, c: seq<Byte>, s: nat)
    requires |m| == |c| == SIZE && s <= MAX_SHELVES
    ensures |CfgMembers(c)[1].value.items| == MAX_SHELVES
    ensures Went(m, c, 1 + 5 * s, MergeArray(m, false, s, CfgMembers(c)[1].value.items[s..]), 21)
    decreases MAX_SHELVES - s
  {
    hide Went, MergeElement, GroupObj, ShelfObj, AuxObj;
    var all := CfgMembers(c)[1].value.items;
    if s == MAX_SHELVES {
      NothingWent(m, c, 21);
    } else {
      assert all[s..][0] == ShelfObj(c, s) && all[s..][1..] == all[s + 1..];
      ShelfIsObj(c, s);
      ElementWent(m, c, s, 0);
      var members := ShelfObj(c, s).members;
      assert members[0..] == members;
      var r := MergeElement(m, false, s, members);
      ShelvesWent(r.m, c, s + 1);
      WentOn(m, c, 1 + 5 * s, r, 6 + 5 * s, MergeArray(r.m, false, s + 1, all[s + 1..]), 21);
    }
  }

  lemma ShelfIsObj(c: seq<Byte>, s: nat)
    requires |c| == SIZE && s < MAX_SHELVES
    ensures ShelfObj(c, s).Obj?
  {
    hide GroupObj;
  }

  lemma AuxElementWent(m: seq<Byte>, c: seq<Byte>, a: nat)
    requires |m| == |c| == SIZE && a < MAX_AUX
    ensures Went(m, c, 21 + a, MergeElement(m, true, a, AuxObj(c, a).members), 22 + a)
  {
    hide Went, MergeGroup, GroupMembers, Rows;
    SlotWent(m, c, AUX, a);
    ShelfGroupNamed(0);
    var all := AuxObj(c, a).members;
    assert all[0] == GroupObj(c, AUX, a) && all[1..] == [];
    var r := MergeGroup(m, AUX, a, GroupMembers(c, AUX, a));
    NothingWent(r.m, c, 22 + a);
    WentOn(m, c, 21 + a, r, 22 + a, Merged(r.m, 0, ""), 22 + a);
  }

  lemma {:induction false} AuxWent(m: seq<Byte>, c: seq<Byte>, a: nat)
    requires |m| == |c| == SIZE && a <= MAX_AUX
    ensures |CfgMembers(c)[2].value.items| == MAX_AUX
    ensures Went(m, c, 21 + a, MergeArray(m, true, a, CfgMembers(c)[2].value.items[a..]), 23)
    decreases MAX_AUX - a
  {
    hide Went, MergeElement, GroupObj, ShelfObj;
    var all := CfgMembers(c)[2].value.items;
    if a == MAX_AUX {
      NothingWent(m, c, 23);
    } else {
      assert all[a..][0] == AuxObj(c, a) && all[a..][1..] == all[a + 1..];
      AuxElementWent(m, c, a);
      var r := MergeElement(m, true, a, AuxObj(c, a).members);
      AuxWent(r.m, c, a + 1);
      WentOn(m, c, 21 + a, r, 22 + a, MergeArray(r.m, true, a + 1, all[a + 1..]), 23);
    }
  }

  lemma MemberNames(c: seq<Byte>)
    requires |c| == SIZE
    ensures CfgMembers(c)[0].name == "ZONECFG" && CfgMembers(c)[0].value.Obj?
    ensures CfgMembers(c)[1].name == "shelf" && CfgMembers(c)[1].value.Arr?
    ensures CfgMembers(c)[2].name == "aux" && CfgMembers(c)[2].value.Arr?
    ensures "shelf" != "ZONECFG" && "aux" != "ZONECFG" && "aux" != "shelf"
  {
    hide GroupMembers, ShelfObj, AuxObj;
    assert |"aux"| == 3;
  }

  lemma TopStep(m: seq<Byte>, x: Member, rest: seq<Member>)
    requires |m| == SIZE
    ensures var r := MergeMember(m, x); MergeTop(m, [x] + rest) == if r.rc != 0 then r else MergeTop(r.m, rest)
  {
    hide MergeMember;
    assert ([x] + rest)[1..] == rest;
  }

  lemma NoMember(m: seq<Byte>)
    requires |m| == SIZE
    ensures MergeTop(m, []) == Merged(m, 0, "")
  {
  }

  lemma ZoneMemberWent(m: seq<Byte>, c: seq<Byte>)
    requires |m| == |c| == SIZE
    ensures Went(m, c, 0, MergeMember(m, CfgMembers(c)[0]), 1)
  {
    hide Went, MergeGroup, MergeArray, CfgMembers;
    MemberNames(c);
    ZoneMembers(c);
    SlotWent(m, c, ZONECFG, -1);
  }

  lemma ShelfMemberWent(m: seq<Byte>, c: seq<Byte>)
    requires |m| == |c| == SIZE
    ensures Went(m, c, 1, MergeMember(m, CfgMembers(c)[1]), 21)
  {
    hide Went, MergeGroup, MergeArray, CfgMembers;
    MemberNames(c);
    ShelvesWent(m, c, 0);
    var items := CfgMembers(c)[1].value.items;
    assert items[0..] == items;
  }

  lemma AuxMemberWent(m: seq<Byte>, c: seq<Byte>)
    requires |m| == |c| == SIZE
    ensures Went(m, c, 21, MergeMember(m, CfgMembers(c)[2]), 23)
  {
    hide Went, MergeGroup, MergeArray, CfgMembers;
    MemberNames(c);
    AuxWent(m, c, 0);
    var items := CfgMembers(c)[2].value.items;
    assert items[0..] == items;
  }

  lemma TopWent(m: seq<Byte>, c: seq<Byte>)
    requires |m| == |c| == SIZE
    ensures Went(m, c, 0, MergeTop(m, CfgMembers(c)), 23)
  {
    hide Went, MergeMember, MergeTop, CfgMembers;
    var all := CfgMembers(c);
    assert all == [all[0]] + ([all[1]] + ([all[2]] + []));
    TopStep(m, all[0], [all[1]] + ([all[2]] + []));
    ZoneMemberWent(m, c);
    var r0 := MergeMember(m, all[0]);
    TopStep(r0.m, all[1], [all[2]] + []);
    ShelfMemberWent(r0.m, c);
    var r1 := MergeMember(r0.m, all[1]);
    TopStep(r1.m, all[2], []);
    AuxMemberWent(r1.m, c);
    var r2 := MergeMember(r1.m, all[2]);
    NoMember(r2.m);
    NothingWent(r2.m, c, 23);
    WentOn(r1.m, c, 21, r2, 23, MergeTop(r2.m, []), 23);
    WentOn(r0.m, c, 1, r1, 21, MergeTop(r1.m, [all[2]] + []), 23);
    WentOn(m, c, 0, r0, 1, MergeTop(r0.m, [all[1]] + ([all[2]] + [])), 23);
  }

  lemma ZoneMembers(c: seq<Byte>)
    requires |c| == SIZE
    ensures CfgMembers(c)[0] == GroupObj(c, ZONECFG, -1)
  {
    hide GroupObj, ShelfObj, AuxObj;
  }

  lemma ExportedCfg(c: seq<Byte>, gen: nat, hwTree: Json)
    requires |c| == SIZE
    ensures Export(c, gen, hwTree).Obj? && Lookup(Export(c, gen, hwTree).members, "cfg") == Some(Obj(CfgMembers(c)))
  {
    hide CfgMembers;
    var all := Export(c, gen, hwTree).members;
    assert all[0].name == "gen" && all[1].name == "hw" && all[2].name == "cfg";
    assert "gen"[0] != "cfg"[0] && |"hw"| != |"cfg"|;
    assert all[1..][0] == all[1] && all[1..][1..][0] == all[2];
    assert Lookup(all, "cfg") == Lookup(all[1..], "cfg") == Lookup(all[1..][1..], "cfg");
  }

  // ---------------- the promises ----------------

  /** All or nothing: a refused document changes nothing, an accepted one leaves a config that validates. */
  lemma AllOrNothing(hw: Option<CfgMerge.Hw>, cfg: Cfg, doc: Option<Json>)
    ensures var o := Merge(hw, cfg, doc);
      && (o.rc != 0 ==> o.cfg == cfg)
      && (o.rc == 0 ==> Validate(o.cfg, hw).None?)
  {
    hide Validate, Scratch;
  }

  /**
   Merging the document exported from c into any config d succeeds with every editable field
   equal to c's exactly when c itself validates, has all its fields in range and no blanks
   in its names. Whatever the outcome, generation, source and reserved bytes stay d's.
   */
  lemma ExportMerges(c: Cfg, d: Cfg, gen: nat, hwTree: Json, hw: Option<CfgMerge.Hw>)
    ensures var o := Merge(hw, d, Some(Export(c, gen, hwTree)));
      && ((o.rc == 0 && SameFields(o.cfg, c)) <==> (Validate(c, hw).None? && AllAllowed(c)))
      && OnlyFields(d, o.cfg)
  {
    hide Validate, Vals, SlotAllowed, MergeTop, CfgMembers, OffFields, Export, Lookup, IsSlot, Place;
    ExportedCfg(c, gen, hwTree);
    TopWent(d, c);
    var r := MergeTop(d, CfgMembers(c));
    var o := Merge(hw, d, Some(Export(c, gen, hwTree)));
    NothingCarried(d, c);
    if AllAllowed(c) {
      CarriedAll(r.m, c);
      ValidateSame(r.m, c, hw);
    }
    if o.rc == 0 && SameFields(o.cfg, c) {
      ValidateSame(o.cfg, c, hw);
      forall g, idx | IsSlot(g, idx) ensures SlotAllowed(c, g, idx) {
        PlaceBound(g, idx);
        AllowedByVals(o.cfg, c, g, idx);
      }
    }
  }

  lemma NothingCarried(d: seq<Byte>, c: seq<Byte>)
    requires |d| == |c| == SIZE
    ensures Carried(d, c, 0) && Clean(d, 0)
  {
    hide Vals, SlotAllowed;
    forall g, idx | IsSlot(g, idx) ensures Place(g, idx) >= 0 { PlaceBound(g, idx); }
  }

  lemma CarriedAll(m: seq<Byte>, c: seq<Byte>)
    requires |m| == |c| == SIZE && Carried(m, c, 23)
    ensures SameFields(m, c)
  {
    hide Vals;
    forall g, idx | IsSlot(g, idx) ensures Vals(m, g, idx) == Vals(c, g, idx) { PlaceBound(g, idx); }
  }

  /** The generation and the source are among the bytes no merge touches. */
  lemma HeaderUntouched(i: nat)
    requires i < 6
    ensures OffFields(i)
  {
  }

  // ---------------- any document ----------------

  lemma GroupOnly(m: seq<Byte>, g: Group, idx: int, items: seq<Member>)
    requires |m| == SIZE && IsSlot(g, idx)
    ensures OnlyFields(m, MergeGroup(m, g, idx, items).m)
  {
    hide MergeGroup, At, Lo, Hi;
    MergeWithin(m, g, idx, items);
  }

  lemma OnlyTwice(m: seq<Byte>, r: seq<Byte>, t: seq<Byte>)
    requires |m| == |r| == |t| == SIZE && OnlyFields(m, r) && OnlyFields(r, t)
    ensures OnlyFields(m, t)
  {
  }

  lemma {:induction false} ElementOnly(m: seq<Byte>, isAux: bool, idx: nat, items: seq<Member>)
    requires |m| == SIZE && idx < MaxIdx(isAux)
    ensures OnlyFields(m, MergeElement(m, isAux, idx, items).m)
    decreases |items|
  {
    hide MergeGroup, OnlyFields, IsSlot;
    SameOnly(m);
    if items != [] {
      var g := GroupNamed(isAux, items[0].name);
      if g.None? || !items[0].value.Obj? {
        ElementOnly(m, isAux, idx, items[1..]);
      } else {
        NamedSlot(isAux, items[0].name, idx);
        var r := MergeGroup(m, g.value, idx, items[0].value.members);
        GroupOnly(m, g.value, idx, items[0].value.members);
        ElementOnly(r.m, isAux, idx, items[1..]);
        OnlyTwice(m, r.m, MergeElement(r.m, isAux, idx, items[1..]).m);
      }
    }
  }

  lemma NamedSlot(isAux: bool, name: string, idx: nat)
    requires idx < MaxIdx(isAux) && GroupNamed(isAux, name).Some?
    ensures IsSlot(GroupNamed(isAux, name).value, idx)
  {
  }

  lemma SameOnly(m: seq<Byte>)
    requires |m| == SIZE
    ensures OnlyFields(m, m)
  {
  }

  lemma {:induction false} ArrayOnly(m: seq<Byte>, isAux: bool, idx: nat, items: seq<Json>)
    requires |m| == SIZE && idx <= MaxIdx(isAux)
    ensures OnlyFields(m, MergeArray(m, isAux, idx, items).m)
    decreases |items|
  {
    hide MergeElement, OnlyFields;
    SameOnly(m);
    if items != [] && idx < MaxIdx(isAux) {
      if !items[0].Obj? {
        ArrayOnly(m, isAux, idx + 1, items[1..]);
      } else {
        var r := MergeElement(m, isAux, idx, items[0].members);
        ElementOnly(m, isAux, idx, items[0].members);
        ArrayOnly(r.m, isAux, idx + 1, items[1..]);
        OnlyTwice(m, r.m, MergeArray(r.m, isAux, idx + 1, items[1..]).m);
      }
    }
  }

  lemma {:induction false} TopOnly(m: seq<Byte>, items: seq<Member>)
    requires |m| == SIZE
    ensures OnlyFields(m, MergeTop(m, items).m)
    decreases |items|
  {
    hide MergeGroup, MergeArray, OnlyFields;
    SameOnly(m);
    if items != [] {
      var r := MergeMember(m, items[0]);
      if items[0].value.Obj? { GroupOnly(m, ZONECFG, -1, items[0].value.members); }
      if items[0].value.Arr? {
        ArrayOnly(m, false, 0, items[0].value.items);
        ArrayOnly(m, true, 0, items[0].value.items);
      }
      TopOnly(r.m, items[1..]);
      OnlyTwice(m, r.m, MergeTop(r.m, items[1..]).m);
    }
  }

  /** Whatever the document says, a merge cannot reach the generation, the source or a reserved byte. */
  lemma MergeOnlyFields(hw: Option<CfgMerge.Hw>, cfg: Cfg, doc: Option<Json>)
    ensures OnlyFields(cfg, Merge(hw, cfg, doc).cfg)
    ensures Merge(hw, cfg, doc).cfg[..6] == cfg[..6]
  {
    hide Validate, MergeTop, Lookup, OffFields;
    SameOnly(cfg);
    if doc.Some? && doc.value.Obj? && Lookup(doc.value.members, "cfg").Some? {
      var node := Lookup(doc.value.members, "cfg").value;
      if node.Obj? { TopOnly(cfg, node.members); }
    }
    forall i: nat | i < 6 ensures Merge(hw, cfg, doc).cfg[i] == cfg[i] { HeaderUntouched(i); }
  }
}
