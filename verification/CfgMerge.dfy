/**
 Merging a JSON document into a zone config and exporting one (components/hg_json/
 hg_json_cfg.c), with the validation that decides (components/hg_cfg/hg_cfg_validate.c).
 */
module CfgMerge {
  import opened Wrappers
  import opened Text
  import opened CfgFields
  import opened CfgJson

  // ---------------- group instances ----------------

  /** A config group with the index its scope asks for; zone-scoped groups have -1. */
  predicate IsSlot(g: Group, idx: int) {
    match Scope(g)
    case 0 => g == ZONECFG && idx == -1
    case 1 => !IsHw(g) && 0 <= idx < MAX_SHELVES
    case _ => g == AUX && 0 <= idx < MAX_AUX
  }

  function At(g: Group, idx: int): nat
    requires IsSlot(g, idx)
  {
    Base(g, idx).value
  }

  lemma SlotInside(g: Group, idx: int)
    requires IsSlot(g, idx)
    ensures !IsHw(g) && Base(g, idx).Some? && At(g, idx) + Hi(g) <= SIZE && 6 <= At(g, idx) + Lo(g)
  {
  }

  /** No two group instances share a byte. */
  lemma SlotsApart(g: Group, i: int, h: Group, j: int)
    requires IsSlot(g, i) && IsSlot(h, j) && (g != h || i != j)
    ensures At(g, i) + Hi(g) <= At(h, j) + Lo(h) || At(h, j) + Hi(h) <= At(g, i) + Lo(g)
  {
  }

  lemma RowFits(g: Group, idx: int, k: nat)
    requires IsSlot(g, idx) && k < |Rows(g)|
    ensures Placed(g, Rows(g)[k])
    ensures At(g, idx) + Rows(g)[k].offset + Width(Rows(g)[k].kind) <= SIZE
  {
    hide Rows, At, Lo, Hi, PlacedFrom;
    SlotInside(g, idx);
    Layout(g);
    PlacedAt(g, Rows(g), 0, k);
  }

  /** What every field of a group instance holds, in table order. */
  function Vals(m: seq<Byte>, g: Group, idx: int): (v: seq<Val>)
    requires |m| == SIZE && IsSlot(g, idx)
    ensures |v| == |Rows(g)|
  {
    seq(|Rows(g)|, k requires 0 <= k < |Rows(g)| => (RowFits(g, idx, k); ValOf(Rows(g)[k], m, At(g, idx))))
  }

  /** Every editable field of the two configs holds the same. */
  ghost predicate SameFields(m: seq<Byte>, c: seq<Byte>)
    requires |m| == |c| == SIZE
  {
    forall g, idx :: IsSlot(g, idx) ==> Vals(m, g, idx) == Vals(c, g, idx)
  }

  predicate SlotAllowed(m: seq<Byte>, g: Group, idx: int)
    requires |m| == SIZE && IsSlot(g, idx)
  {
    forall k :: 0 <= k < |Rows(g)| ==> Allowed(Rows(g)[k], Vals(m, g, idx)[k])
  }

  /** All fields in range, all names free of blanks. */
  ghost predicate AllAllowed(m: seq<Byte>)
    requires |m| == SIZE
  {
    forall g, idx :: IsSlot(g, idx) ==> SlotAllowed(m, g, idx)
  }

  /** The byte belongs to no editable field's group: generation, source and the reserved bytes. */
  ghost predicate OffFields(i: nat) {
    forall g, idx :: IsSlot(g, idx) ==> i < At(g, idx) + Lo(g) || At(g, idx) + Hi(g) <= i
  }

  ghost predicate OnlyFields(m: seq<Byte>, r: seq<Byte>)
    requires |m| == |r| == SIZE
  {
    forall i: nat :: i < SIZE && OffFields(i) ==> r[i] == m[i]
  }

  // ---------------- hg_cfg_validate ----------------

  /** Where a validation failed: the shelf or -1, and the row's key. */
  datatype Fault = Fault(shelf: int, group: Group, key: string)

  /** What the cross-plane checks read of hg_zone_hw_t. */
  datatype Hw = Hw(shelfCount: nat, maxRun: seq<nat>, maxDaily: seq<nat>)

  /** str16_ok: terminated, and printable up to there. */
  predicate Str16Ok(v: Val) {
    v.Str? && v.s.Some? && forall i :: 0 <= i < |v.s.value| ==> ' ' <= v.s.value[i] <= '~'
  }

  predicate InBounds(f: Field, v: Val) {
    match f.kind
    case STR16 => true
    case HHMM => v.Num? && v.n <= 1439
    case PIN => v.Num? && (v.n == NONE_PIN || f.min <= v.n <= f.max)
    case _ => v.Num? && f.min <= v.n <= f.max
  }

  /** check_group_rows, from row k on: the first row out of bounds. */
  function BadRow(g: Group, v: seq<Val>, k: nat): (r: nat)
    requires |v| == |Rows(g)| && k <= |v|
    ensures k <= r <= |v|
    decreases |v| - k
  {
    if k == |v| || !InBounds(Rows(g)[k], v[k]) then k else BadRow(g, v, k + 1)
  }

  function CheckRows(g: Group, v: seq<Val>, shelf: int): Option<Fault>
    requires |v| == |Rows(g)|
  {
    var k := BadRow(g, v, 0);
    if k == |v| then None else Some(Fault(shelf, g, Rows(g)[k].key))
  }

  function NumAt(v: seq<Val>, k: nat): nat { if k < |v| && v[k].Num? then v[k].n else 0 }

  function CheckAux(m: seq<Byte>, a: nat): Option<Fault>
    requires |m| == SIZE && a <= MAX_AUX
    decreases MAX_AUX - a
  {
    if a == MAX_AUX then None
    else if NumAt(Vals(m, AUX, a), 0) != 0 && CheckRows(AUX, Vals(m, AUX, a), -1).Some? then
      CheckRows(AUX, Vals(m, AUX, a), -1)
    else CheckAux(m, a + 1)
  }

  /** The cross-plane checks of one shelf: enabled beyond the hardware, and the pump's limits. */
  function CheckHw(shelf: seq<Val>, water: seq<Val>, s: nat, hw: Option<Hw>): Option<Fault> {
    match hw
    case None => None
    case Some(h) =>
      var run := if s < |h.maxRun| then h.maxRun[s] else 0;
      var daily := if s < |h.maxDaily| then h.maxDaily[s] else 0;
      if NumAt(shelf, 1) != 0 && s >= h.shelfCount then Some(Fault(s, SHELF, "ENABLED"))
      else if NumAt(water, 4) > run then Some(Fault(s, WATER, "DOSE_S"))
      else if NumAt(water, 6) * NumAt(water, 4) > daily then Some(Fault(s, WATER, "MAX_DOSES"))
      else None
  }

  function OrElse(a: Option<Fault>, b: Option<Fault>): Option<Fault> { if a.Some? then a else b }

  function CheckShelf(m: seq<Byte>, s: nat, hw: Option<Hw>): Option<Fault>
    requires |m| == SIZE && s < MAX_SHELVES
  {
    var shelf, light, water := Vals(m, SHELF, s), Vals(m, LIGHT, s), Vals(m, WATER, s);
    if |shelf| == 0 || !Str16Ok(shelf[0]) then Some(Fault(s, SHELF, "CROP"))
    else
      OrElse(CheckRows(SHELF, shelf, s),
      OrElse(CheckRows(LIGHT, light, s),
      OrElse(CheckRows(WATER, water, s),
      OrElse(CheckRows(FAN, Vals(m, FAN, s), s),
      OrElse(CheckRows(VIB, Vals(m, VIB, s), s),
      if NumAt(light, 0) == NumAt(light, 1) then Some(Fault(s, LIGHT, "OFF")) else CheckHw(shelf, water, s, hw))))))
  }

  function CheckShelves(m: seq<Byte>, s: nat, hw: Option<Hw>): Option<Fault>
    requires |m| == SIZE && s <= MAX_SHELVES
    decreases MAX_SHELVES - s
  {
    if s == MAX_SHELVES then None else OrElse(CheckShelf(m, s, hw), CheckShelves(m, s + 1, hw))
  }

  function Validate(m: seq<Byte>, hw: Option<Hw>): Option<Fault>
    requires |m| == SIZE
  {
    var zone := Vals(m, ZONECFG, -1);
    if |zone| == 0 || !Str16Ok(zone[0]) || zone[0].s.value == "" then Some(Fault(-1, ZONECFG, "NAME"))
    else OrElse(CheckRows(ZONECFG, zone, -1), OrElse(CheckAux(m, 0), CheckShelves(m, 0, hw)))
  }

  lemma {:induction false} SameAux(m: seq<Byte>, c: seq<Byte>, a: nat)
    requires |m| == |c| == SIZE && SameFields(m, c) && a <= MAX_AUX
    ensures CheckAux(m, a) == CheckAux(c, a)
    decreases MAX_AUX - a
  {
    hide Vals, CheckRows, Rows;
    if a < MAX_AUX {
      assert Vals(m, AUX, a) == Vals(c, AUX, a);
      SameAux(m, c, a + 1);
    }
  }

  lemma {:induction false} SameShelves(m: seq<Byte>, c: seq<Byte>, s: nat, hw: Option<Hw>)
    requires |m| == |c| == SIZE && SameFields(m, c) && s <= MAX_SHELVES
    ensures CheckShelves(m, s, hw) == CheckShelves(c, s, hw)
    decreases MAX_SHELVES - s
  {
    hide Vals, CheckRows, CheckHw, Rows, Str16Ok;
    if s < MAX_SHELVES {
      assert Vals(m, SHELF, s) == Vals(c, SHELF, s) && Vals(m, LIGHT, s) == Vals(c, LIGHT, s);
      assert Vals(m, WATER, s) == Vals(c, WATER, s) && Vals(m, FAN, s) == Vals(c, FAN, s);
      assert Vals(m, VIB, s) == Vals(c, VIB, s);
      SameShelves(m, c, s + 1, hw);
    }
  }

  /** Validation reads nothing but the editable fields. */
  lemma ValidateSame(m: seq<Byte>, c: seq<Byte>, hw: Option<Hw>)
    requires |m| == |c| == SIZE && SameFields(m, c)
    ensures Validate(m, hw) == Validate(c, hw)
  {
    hide Vals, CheckRows, CheckAux, CheckShelves, Rows, Str16Ok;
    assert Vals(m, ZONECFG, -1) == Vals(c, ZONECFG, -1);
    SameAux(m, c, 0);
    SameShelves(m, c, 0, hw);
  }

  // ---------------- the merge ----------------

  datatype Merged = Merged(m: seq<Byte>, rc: int, path: string)

  function IndexText(idx: int): string { if idx >= 0 then "[" + Decimal(idx) + "]" else "" }

  /** hgj_path for a bad value: cfg, the shelf or aux index, the group, the key. */
  function JsonPath(g: Group, idx: int, key: string): string {
    "cfg." + (if Scope(g) == 1 then "shelf" + IndexText(idx) + "." else if Scope(g) == 2 then "aux" + IndexText(idx) + "."
              else "") + GroupName(g) + "." + key
  }

  function FindField(g: Group, key: string, k: nat): (r: nat)
    requires k <= |Rows(g)|
    ensures k <= r <= |Rows(g)| && (r < |Rows(g)| ==> Rows(g)[r].key == key)
    ensures forall j :: k <= j < r ==> Rows(g)[j].key != key
    decreases |Rows(g)| - k
  {
    if k == |Rows(g)| || Rows(g)[k].key == key then k else FindField(g, key, k + 1)
  }

  /** merge_group_fields: unknown keys are skipped, the first bad value ends it with -2. */
  function MergeGroup(m: seq<Byte>, g: Group, idx: int, items: seq<Member>): (r: Merged)
    requires |m| == SIZE && IsSlot(g, idx)
    ensures |r.m| == SIZE
    decreases |items|
  {
    if items == [] then Merged(m, 0, "")
    else
      var k := FindField(g, items[0].name, 0);
      if k == |Rows(g)| then MergeGroup(m, g, idx, items[1..])
      else
        RowFits(g, idx, k);
        var a := Apply(Rows(g)[k], m, At(g, idx), items[0].value);
        if a.1 != 0 then Merged(m, -2, JsonPath(g, idx, items[0].name)) else MergeGroup(a.0, g, idx, items[1..])
  }

  /** The groups an element of the "shelf" or "aux" array may name. */
  function GroupNamed(isAux: bool, name: string): Option<Group> {
    if isAux then (if name == "AUX" then Some(AUX) else None)
    else if name == "SHELF" then Some(SHELF)
    else if name == "LIGHT" then Some(LIGHT)
    else if name == "WATER" then Some(WATER)
    else if name == "FAN" then Some(FAN)
    else if name == "VIB" then Some(VIB)
    else None
  }

  function MaxIdx(isAux: bool): nat { if isAux then MAX_AUX else MAX_SHELVES }

  function MergeElement(m: seq<Byte>, isAux: bool, idx: nat, items: seq<Member>): (r: Merged)
    requires |m| == SIZE && idx < MaxIdx(isAux)
    ensures |r.m| == SIZE
    decreases |items|
  {
    if items == [] then Merged(m, 0, "")
    else
      var g := GroupNamed(isAux, items[0].name);
      if g.None? || !items[0].value.Obj? then MergeElement(m, isAux, idx, items[1..])
      else
        var r := MergeGroup(m, g.value, idx, items[0].value.members);
        if r.rc != 0 then r else MergeElement(r.m, isAux, idx, items[1..])
  }

  function MergeArray(m: seq<Byte>, isAux: bool, idx: nat, items: seq<Json>): (r: Merged)
    requires |m| == SIZE && idx <= MaxIdx(isAux)
    ensures |r.m| == SIZE
    decreases |items|
  {
    if items == [] || idx == MaxIdx(isAux) then Merged(m, 0, "")
    else if !items[0].Obj? then MergeArray(m, isAux, idx + 1, items[1..])
    else
      var r := MergeElement(m, isAux, idx, items[0].members);
      if r.rc != 0 then r else MergeArray(r.m, isAux, idx + 1, items[1..])
  }

  function MergeMember(m: seq<Byte>, item: Member): (r: Merged)
    requires |m| == SIZE
    ensures |r.m| == SIZE
  {
    if item.name == "ZONECFG" && item.value.Obj? then MergeGroup(m, ZONECFG, -1, item.value.members)
    else if item.name == "shelf" && item.value.Arr? then MergeArray(m, false, 0, item.value.items)
    else if item.name == "aux" && item.value.Arr? then MergeArray(m, true, 0, item.value.items)
    else Merged(m, 0, "")
  }

  function MergeTop(m: seq<Byte>, items: seq<Member>): (r: Merged)
    requires |m| == SIZE
    ensures |r.m| == SIZE
    decreases |items|
  {
    if items == [] then Merged(m, 0, "")
    else
      var r := MergeMember(m, items[0]);
      if r.rc != 0 then r else MergeTop(r.m, items[1..])
  }

  /** cJSON_GetObjectItemCaseSensitive */
  function Lookup(items: seq<Member>, name: string): Option<Json> {
    if items == [] then None
    else if items[0].name == name then Some(items[0].value)
    else Lookup(items[1..], name)
  }

  function Scratch(m: seq<Byte>, doc: Json): (r: Merged)
    requires |m| == SIZE
    ensures |r.m| == SIZE
  {
    var node := if doc.Obj? then Lookup(doc.members, "cfg") else None;
    if node.Some? && node.value.Obj? then MergeTop(m, node.value.members) else Merged(m, 0, "")
  }

  datatype Outcome = Outcome(cfg: Cfg, rc: int)

  /** hg_json_merge_cfg: -1 no JSON, -2 a bad value, -3 the result would not validate, else 0. */
  function Merge(hw: Option<Hw>, cfg: Cfg, doc: Option<Json>): Outcome {
    match doc
    case None => Outcome(cfg, -1)
    case Some(d) =>
      var s := Scratch(cfg, d);
      if s.rc != 0 then Outcome(cfg, s.rc)
      else if Validate(s.m, hw).Some? then Outcome(cfg, -3)
      else Outcome(s.m, 0)
  }

  // ---------------- the export ----------------

  function GroupMembers(c: seq<Byte>, g: Group, idx: int): (r: seq<Member>)
    requires |c| == SIZE && IsSlot(g, idx)
    ensures |r| == |Rows(g)|
  {
    seq(|Rows(g)|, k requires 0 <= k < |Rows(g)| => (RowFits(g, idx, k); MemberOf(c, Rows(g)[k], At(g, idx))))
  }

  function MemberOf(c: seq<Byte>, f: Field, base: nat): Member
    requires Fits(f, c, base)
  {
    Member(f.key, ToJson(f, Read(f, c, base)))
  }

  function GroupObj(c: seq<Byte>, g: Group, idx: int): Member
    requires |c| == SIZE && IsSlot(g, idx)
  {
    Member(GroupName(g), Obj(GroupMembers(c, g, idx)))
  }

  function ShelfGroup(k: nat): Group { if k == 0 then SHELF else if k == 1 then LIGHT else if k == 2 then WATER
                                       else if k == 3 then FAN else VIB }

  function ShelfObj(c: seq<Byte>, s: nat): Json
    requires |c| == SIZE && s < MAX_SHELVES
  {
    Obj(seq(5, k requires 0 <= k < 5 => GroupObj(c, ShelfGroup(k), s)))
  }

  function AuxObj(c: seq<Byte>, a: nat): Json
    requires |c| == SIZE && a < MAX_AUX
  {
    Obj([GroupObj(c, AUX, a)])
  }

  function CfgMembers(c: seq<Byte>): (r: seq<Member>)
    requires |c| == SIZE
    ensures |r| == 3
  {
    [GroupObj(c, ZONECFG, -1),
     Member("shelf", Arr(seq(MAX_SHELVES, s requires 0 <= s < MAX_SHELVES => ShelfObj(c, s)))),
     Member("aux", Arr(seq(MAX_AUX, a requires 0 <= a < MAX_AUX => AuxObj(c, a))))]
  }

  /** hg_json_export_cfg; what it says of the hardware plane is `hwTree`. */
  function Export(c: seq<Byte>, gen: nat, hwTree: Json): Json
    requires |c| == SIZE
  {
    Obj([Member("gen", Json.Num(gen as real)), Member("hw", hwTree), Member("cfg", Obj(CfgMembers(c)))])
  }

  // ---------------- the loops ----------------

  /** merge_group_fields */
  method MergeGroupFields(scratch: seq<Byte>, g: Group, idx: int, items: seq<Member>) returns (r: Merged)
    requires |scratch| == SIZE && IsSlot(g, idx)
    ensures r == MergeGroup(scratch, g, idx, items)
  {
    hide Rows, At, Apply, JsonPath;
    var m := scratch;
    var i := 0;
    while i < |items|
      invariant i <= |items| && |m| == SIZE
      invariant MergeGroup(scratch, g, idx, items) == MergeGroup(m, g, idx, items[i..])
    {
      assert items[i..][0] == items[i] && items[i..][1..] == items[i + 1..];
      var k := FindField(g, items[i].name, 0);
      if k < |Rows(g)| {
        RowFits(g, idx, k);
        var a := Apply(Rows(g)[k], m, At(g, idx), items[i].value);
        if a.1 != 0 { return Merged(m, -2, JsonPath(g, idx, items[i].name)); }
        m := a.0;
      }
      i := i + 1;
    }
    r := Merged(m, 0, "");
  }

  /** One element of an indexed array. */
  method MergeElementGroups(scratch: seq<Byte>, isAux: bool, idx: nat, items: seq<Member>) returns (r: Merged)
    requires |scratch| == SIZE && idx < MaxIdx(isAux)
    ensures r == MergeElement(scratch, isAux, idx, items)
  {
    hide MergeGroup;
    var m := scratch;
    var i := 0;
    while i < |items|
      invariant i <= |items| && |m| == SIZE
      invariant MergeElement(scratch, isAux, idx, items) == MergeElement(m, isAux, idx, items[i..])
    {
      assert items[i..][0] == items[i] && items[i..][1..] == items[i + 1..];
      var g := GroupNamed(isAux, items[i].name);
      if g.Some? && items[i].value.Obj? {
        r := MergeGroupFields(m, g.value, idx, items[i].value.members);
        if r.rc != 0 { return; }
        m := r.m;
      }
      i := i + 1;
    }
    r := Merged(m, 0, "");
  }

  /** merge_indexed_array */
  method MergeIndexedArray(scratch: seq<Byte>, isAux: bool, items: seq<Json>) returns (r: Merged)
    requires |scratch| == SIZE
    ensures r == MergeArray(scratch, isAux, 0, items)
  {
    hide MergeElement;
    var m := scratch;
    var i := 0;
    while i < |items| && i < MaxIdx(isAux)
      invariant i <= |items| && i <= MaxIdx(isAux) && |m| == SIZE
      invariant MergeArray(scratch, isAux, 0, items) == MergeArray(m, isAux, i, items[i..])
    {
      assert items[i..][0] == items[i] && items[i..][1..] == items[i + 1..];
      if items[i].Obj? {
        r := MergeElementGroups(m, isAux, i, items[i].members);
        if r.rc != 0 { return; }
        m := r.m;
      }
      i := i + 1;
    }
    r := Merged(m, 0, "");
  }

  /** A stored config that documents are merged into. */
  class Store {
    var cfg: Cfg

    constructor (c: Cfg)
      ensures cfg == c
    {
      cfg := c;
    }

    /** hg_json_merge_cfg: everything happens on a scratch copy until it has validated. */
    method MergeCfg(hw: Option<Hw>, doc: Option<Json>) returns (rc: int)
      modifies this
      ensures Outcome(cfg, rc) == Merge(hw, old(cfg), doc)
    {
      hide MergeTop, Lookup, Validate;
      if doc.None? { return -1; }
      var node := if doc.value.Obj? then Lookup(doc.value.members, "cfg") else None;
      var r := Merged(cfg, 0, "");
      if node.Some? && node.value.Obj? { r := MergeMembers(cfg, node.value.members); }
      if r.rc != 0 { return r.rc; }
      if Validate(r.m, hw).Some? { return -3; }
      cfg := r.m;
      rc := 0;
    }
  }

  method MergeMembers(scratch: seq<Byte>, items: seq<Member>) returns (r: Merged)
    requires |scratch| == SIZE
    ensures r == MergeTop(scratch, items)
  {
    hide MergeGroup, MergeArray;
    var m := scratch;
    var i := 0;
    while i < |items|
      invariant i <= |items| && |m| == SIZE
      invariant MergeTop(scratch, items) == MergeTop(m, items[i..])
    {
      assert items[i..][0] == items[i] && items[i..][1..] == items[i + 1..];
      if items[i].name == "ZONECFG" && items[i].value.Obj? {
        r := MergeGroupFields(m, ZONECFG, -1, items[i].value.members);
      } else if items[i].name == "shelf" && items[i].value.Arr? {
        r := MergeIndexedArray(m, false, items[i].value.items);
      } else if items[i].name == "aux" && items[i].value.Arr? {
        r := MergeIndexedArray(m, true, items[i].value.items);
      } else {
        r := Merged(m, 0, "");
      }
      if r.rc != 0 { return; }
      m := r.m;
      i := i + 1;
    }
    r := Merged(m, 0, "");
  }
}
