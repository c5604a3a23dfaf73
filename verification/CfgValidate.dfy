/**
 The two validators of components/hg_cfg/hg_cfg_validate.c as the scans they are, against
 what a valid config and a valid hardware plane are said to be: every field in its bounds,
 and no PCA channel, PCF pin or soil input wired twice.
 */
module CfgValidate {
  import opened Wrappers
  import opened CfgFields
  import opened CfgMerge
  import Text

  // ---------------- rows ----------------

  /** The values a row takes: a time of day, a pin or 255 for none, else what its limits say. */
  predicate Within(f: Field, v: Val) {
    || f.kind == STR16
    || (v.Num? && if f.kind == HHMM then v.n < 24 * 60 else f.min <= v.n <= f.max || (f.kind == PIN && v.n == 255))
  }

  predicate RowsOk(g: Group, v: seq<Val>)
    requires |v| == |Rows(g)|
  {
    forall k :: 0 <= k < |v| ==> Within(Rows(g)[k], v[k])
  }

  lemma BoundsIff(f: Field, v: Val)
    ensures InBounds(f, v) <==> Within(f, v)
  {
  }

  /** The rows the checks below name by their place. */
  lemma Places()
    ensures Rows(SHELF)[1].key == "ENABLED" && Rows(LIGHT)[0].key == "ON" && Rows(LIGHT)[1].key == "OFF"
    ensures Rows(WATER)[4].key == "DOSE_S" && Rows(WATER)[6].key == "MAX_DOSES" && Rows(AUX)[0].key == "MODE"
    ensures Rows(HW)[0].key == "SHELVES"
    ensures Rows(HWSHELF)[0].key == "LED_W" && Rows(HWSHELF)[1].key == "LED_R" && Rows(HWSHELF)[6].key == "VIB"
    ensures Rows(HWSHELF)[2].key == "PUMP" && Rows(HWSHELF)[3].key == "FAN"
    ensures Rows(HWSHELF)[4].key == "SOIL_A" && Rows(HWSHELF)[5].key == "SOIL_B"
    ensures Rows(CAL)[0].key == "DRY_A" && Rows(CAL)[1].key == "DRY_B"
    ensures Rows(CAL)[2].key == "WET_A" && Rows(CAL)[3].key == "WET_B"
    ensures Rows(CAL)[4].key == "MIN_OK" && Rows(CAL)[5].key == "MAX_OK"
  {
  }

  lemma {:induction false} BadRowIff(g: Group, v: seq<Val>, k: nat)
    requires |v| == |Rows(g)| && k <= |v|
    ensures BadRow(g, v, k) == |v| <==> forall j :: k <= j < |v| ==> InBounds(Rows(g)[j], v[j])
    decreases |v| - k
  {
    hide Rows, InBounds;
    if k < |v| { BadRowIff(g, v, k + 1); }
  }

  lemma RowsIff(g: Group, v: seq<Val>, shelf: int)
    requires |v| == |Rows(g)|
    ensures CheckRows(g, v, shelf).None? <==> RowsOk(g, v)
  {
    hide Rows, InBounds, Within;
    BadRowIff(g, v, 0);
    forall k | 0 <= k < |v| ensures InBounds(Rows(g)[k], v[k]) <==> Within(Rows(g)[k], v[k]) {
      BoundsIff(Rows(g)[k], v[k]);
    }
  }

  /** check_group_rows */
  method CheckGroupRows(g: Group, v: seq<Val>, shelf: int) returns (f: Option<Fault>)
    requires |v| == |Rows(g)|
    ensures f == CheckRows(g, v, shelf)
    ensures f.None? <==> RowsOk(g, v)
    ensures f.Some? ==> f.value.shelf == shelf && f.value.group == g
  {
    hide Rows, InBounds, RowsOk;
    RowsIff(g, v, shelf);
    var i := 0;
    while i < |v|
      invariant i <= |v| && BadRow(g, v, 0) == BadRow(g, v, i)
    {
      if !InBounds(Rows(g)[i], v[i]) { return Some(Fault(shelf, g, Rows(g)[i].key)); }
      i := i + 1;
    }
    return None;
  }

  // ---------------- the config plane ----------------

  /** A terminated text of printable characters. */
  predicate Readable(v: Val) {
    v.Str? && v.s.Some? && forall c :: c in v.s.value ==> 32 <= c as int <= 126
  }

  lemma ReadableIff(v: Val)
    ensures Str16Ok(v) <==> Readable(v)
  {
    if v.Str? && v.s.Some? {
      assert Readable(v) ==> forall i :: 0 <= i < |v.s.value| ==> v.s.value[i] in v.s.value;
    }
  }

  function LimitOf(limits: seq<nat>, s: nat): nat { if s < |limits| then limits[s] else 0 }

  /** An enabled shelf is there, and its pump may give one dose and a day's doses. */
  predicate WithinHw(shelf: seq<Val>, water: seq<Val>, s: nat, h: Hw) {
    && (NumAt(shelf, 1) == 0 || s < h.shelfCount)
    && NumAt(water, 4) <= LimitOf(h.maxRun, s)
    && NumAt(water, 4) * NumAt(water, 6) <= LimitOf(h.maxDaily, s)
  }

  lemma HwIff(shelf: seq<Val>, water: seq<Val>, s: nat, hw: Option<Hw>)
    ensures CheckHw(shelf, water, s, hw).None? <==> hw.None? || WithinHw(shelf, water, s, hw.value)
  {
  }

  /** What one shelf of the config may hold, alone and against the hardware. */
  predicate ShelfOk(m: Cfg, s: nat, hw: Option<Hw>)
    requires s < MAX_SHELVES
  {
    var shelf, light, water := Vals(m, SHELF, s), Vals(m, LIGHT, s), Vals(m, WATER, s);
    && |shelf| > 0 && Readable(shelf[0])
    && RowsOk(SHELF, shelf) && RowsOk(LIGHT, light) && RowsOk(WATER, water)
    && RowsOk(FAN, Vals(m, FAN, s)) && RowsOk(VIB, Vals(m, VIB, s))
    && NumAt(light, 0) != NumAt(light, 1)
    && (hw.None? || WithinHw(shelf, water, s, hw.value))
  }

  predicate AuxOk(m: Cfg, a: nat)
    requires a < MAX_AUX
  {
    NumAt(Vals(m, AUX, a), 0) == 0 || RowsOk(AUX, Vals(m, AUX, a))
  }

  predicate NameOk(m: Cfg) {
    var zone := Vals(m, ZONECFG, -1);
    |zone| > 0 && Readable(zone[0]) && |zone[0].s.value| > 0
  }

  /** A valid config: named, every field in bounds, disabled aux outputs exempt. */
  predicate ConfigOk(m: Cfg, hw: Option<Hw>) {
    && NameOk(m) && RowsOk(ZONECFG, Vals(m, ZONECFG, -1))
    && (forall a :: 0 <= a < MAX_AUX ==> AuxOk(m, a))
    && (forall s :: 0 <= s < MAX_SHELVES ==> ShelfOk(m, s, hw))
  }

  lemma ShelfIff(m: Cfg, s: nat, hw: Option<Hw>)
    requires s < MAX_SHELVES
    ensures CheckShelf(m, s, hw).None? <==> ShelfOk(m, s, hw)
  {
    hide Vals, Rows, RowsOk, CheckRows, CheckHw, WithinHw, Str16Ok, Readable;
    var shelf := Vals(m, SHELF, s);
    if |shelf| > 0 { ReadableIff(shelf[0]); }
    HwIff(shelf, Vals(m, WATER, s), s, hw);
    RowsIff(SHELF, Vals(m, SHELF, s), s);
    RowsIff(LIGHT, Vals(m, LIGHT, s), s);
    RowsIff(WATER, Vals(m, WATER, s), s);
    RowsIff(FAN, Vals(m, FAN, s), s);
    RowsIff(VIB, Vals(m, VIB, s), s);
  }

  lemma {:induction false} ShelvesIff(m: Cfg, s: nat, hw: Option<Hw>)
    requires s <= MAX_SHELVES
    ensures CheckShelves(m, s, hw).None? <==> forall t :: s <= t < MAX_SHELVES ==> ShelfOk(m, t, hw)
    decreases MAX_SHELVES - s
  {
    hide CheckShelf, ShelfOk;
    if s < MAX_SHELVES {
      ShelfIff(m, s, hw);
      ShelvesIff(m, s + 1, hw);
    }
  }

  lemma {:induction false} AuxIff(m: Cfg, a: nat)
    requires a <= MAX_AUX
    ensures CheckAux(m, a).None? <==> forall b :: a <= b < MAX_AUX ==> AuxOk(m, b)
    decreases MAX_AUX - a
  {
    hide Vals, Rows, RowsOk, CheckRows;
    if a < MAX_AUX {
      RowsIff(AUX, Vals(m, AUX, a), -1);
      AuxIff(m, a + 1);
      assert (forall b :: a <= b < MAX_AUX ==> AuxOk(m, b))
        <==> AuxOk(m, a) && forall b :: a + 1 <= b < MAX_AUX ==> AuxOk(m, b);
    }
  }

  /** The validator passes exactly the valid configs. */
  lemma ValidIff(m: Cfg, hw: Option<Hw>)
    ensures Validate(m, hw).None? <==> ConfigOk(m, hw)
  {
    hide Vals, Rows, RowsOk, CheckRows, CheckAux, CheckShelves, ShelfOk, AuxOk, Str16Ok;
    var zone := Vals(m, ZONECFG, -1);
    if |zone| > 0 { ReadableIff(zone[0]); }
    RowsIff(ZONECFG, Vals(m, ZONECFG, -1), -1);
    AuxIff(m, 0);
    ShelvesIff(m, 0, hw);
  }

  // ---------------- the fault a config is refused with ----------------

  /** The groups of a shelf in the order they are checked. */
  function ShelfGroups(): (gs: seq<Group>)
    ensures |gs| == 5 && forall i :: 0 <= i < 5 ==> Scope(gs[i]) == 1 && !IsHw(gs[i])
  {
    [SHELF, LIGHT, WATER, FAN, VIB]
  }

  /** The rows of the groups before the k-th of a shelf are in bounds. */
  predicate RowsBefore(m: Cfg, s: nat, k: nat)
    requires s < MAX_SHELVES && k <= 5
  {
    forall i :: 0 <= i < k ==> RowsOk(ShelfGroups()[i], Vals(m, ShelfGroups()[i], s))
  }

  /** What refused a shelf: its crop, the first row out of bounds, or what the rows agree on. */
  ghost predicate Refuses(m: Cfg, s: nat, hw: Option<Hw>, f: Fault)
    requires s < MAX_SHELVES
  {
    var shelf, light, water := Vals(m, SHELF, s), Vals(m, LIGHT, s), Vals(m, WATER, s);
    if |shelf| == 0 || !Readable(shelf[0]) then f == Fault(s, SHELF, "CROP")
    else if !RowsBefore(m, s, 5) then
      exists k, r :: 0 <= k < 5 && RowsBefore(m, s, k) && FirstOut(ShelfGroups()[k], Vals(m, ShelfGroups()[k], s), r)
        && f == Fault(s, ShelfGroups()[k], Rows(ShelfGroups()[k])[r].key)
    else if NumAt(light, 0) == NumAt(light, 1) then f == Fault(s, LIGHT, "OFF")
    else
      && hw.Some?
      && if NumAt(shelf, 1) != 0 && hw.value.shelfCount <= s then f == Fault(s, SHELF, "ENABLED")
         else if LimitOf(hw.value.maxRun, s) < NumAt(water, 4) then f == Fault(s, WATER, "DOSE_S")
         else f == Fault(s, WATER, "MAX_DOSES")
  }

  /** Row r is the first of its group out of bounds. */
  predicate FirstOut(g: Group, v: seq<Val>, r: int)
    requires |v| == |Rows(g)|
  {
    0 <= r < |v| && !Within(Rows(g)[r], v[r]) && forall j :: 0 <= j < r ==> Within(Rows(g)[j], v[j])
  }

  lemma {:induction false} BadRowFirst(g: Group, v: seq<Val>, k: nat, r: nat)
    requires |v| == |Rows(g)| && k <= |v| && r == BadRow(g, v, k) && r < |v|
    ensures !InBounds(Rows(g)[r], v[r]) && forall j :: k <= j < r ==> InBounds(Rows(g)[j], v[j])
    decreases |v| - k
  {
    hide Rows, InBounds;
    if k < r { BadRowFirst(g, v, k + 1, r); }
  }

  lemma RowFault(g: Group, v: seq<Val>, shelf: int) returns (r: nat)
    requires |v| == |Rows(g)| && !RowsOk(g, v)
    ensures FirstOut(g, v, r) && CheckRows(g, v, shelf) == Some(Fault(shelf, g, Rows(g)[r].key))
  {
    hide Rows, InBounds, Within;
    RowsIff(g, v, shelf);
    r := BadRow(g, v, 0);
    BadRowFirst(g, v, 0, r);
    forall j | 0 <= j <= r ensures InBounds(Rows(g)[j], v[j]) <==> Within(Rows(g)[j], v[j]) {
      BoundsIff(Rows(g)[j], v[j]);
    }
  }

  lemma {:induction false} FirstBadGroup(m: Cfg, s: nat, i: nat) returns (k: nat)
    requires s < MAX_SHELVES && i <= 5 && RowsBefore(m, s, i) && !RowsBefore(m, s, 5)
    ensures k < 5 && RowsBefore(m, s, k) && !RowsOk(ShelfGroups()[k], Vals(m, ShelfGroups()[k], s))
    decreases 5 - i
  {
    hide Vals, Rows, RowsOk, ShelfGroups;
    if RowsOk(ShelfGroups()[i], Vals(m, ShelfGroups()[i], s)) {
      k := FirstBadGroup(m, s, i + 1);
    } else {
      k := i;
    }
  }

  lemma AllRows(m: Cfg, s: nat)
    requires s < MAX_SHELVES
    ensures RowsBefore(m, s, 5) <==>
      && CheckRows(SHELF, Vals(m, SHELF, s), s).None? && CheckRows(LIGHT, Vals(m, LIGHT, s), s).None?
      && CheckRows(WATER, Vals(m, WATER, s), s).None? && CheckRows(FAN, Vals(m, FAN, s), s).None?
      && CheckRows(VIB, Vals(m, VIB, s), s).None?
  {
    hide Vals, Rows, RowsOk, CheckRows;
    forall i | 0 <= i < 5
      ensures CheckRows(ShelfGroups()[i], Vals(m, ShelfGroups()[i], s), s).None? <==>
        RowsOk(ShelfGroups()[i], Vals(m, ShelfGroups()[i], s))
    {
      RowsIff(ShelfGroups()[i], Vals(m, ShelfGroups()[i], s), s);
    }
    assert ShelfGroups()[0] == SHELF && ShelfGroups()[1] == LIGHT && ShelfGroups()[2] == WATER;
    assert ShelfGroups()[3] == FAN && ShelfGroups()[4] == VIB;
  }

  /** The rows of the first bad group are what the shelf is refused for. */
  lemma FirstRefuses(m: Cfg, s: nat, k: nat, hw: Option<Hw>)
    requires s < MAX_SHELVES && k < 5 && RowsBefore(m, s, k) && |Vals(m, SHELF, s)| > 0 && Str16Ok(Vals(m, SHELF, s)[0])
    requires !RowsOk(ShelfGroups()[k], Vals(m, ShelfGroups()[k], s))
    ensures CheckShelf(m, s, hw) == CheckRows(ShelfGroups()[k], Vals(m, ShelfGroups()[k], s), s)
  {
    hide Vals, Rows, RowsOk, CheckRows, CheckHw, Str16Ok;
    forall i | 0 <= i <= k
      ensures CheckRows(ShelfGroups()[i], Vals(m, ShelfGroups()[i], s), s).None? <==>
        RowsOk(ShelfGroups()[i], Vals(m, ShelfGroups()[i], s))
    {
      RowsIff(ShelfGroups()[i], Vals(m, ShelfGroups()[i], s), s);
    }
    if k > 0 { assert RowsOk(ShelfGroups()[0], Vals(m, ShelfGroups()[0], s)); }
    if k > 1 { assert RowsOk(ShelfGroups()[1], Vals(m, ShelfGroups()[1], s)); }
    if k > 2 { assert RowsOk(ShelfGroups()[2], Vals(m, ShelfGroups()[2], s)); }
    if k > 3 { assert RowsOk(ShelfGroups()[3], Vals(m, ShelfGroups()[3], s)); }
  }

  lemma ShelfRefused(m: Cfg, s: nat, hw: Option<Hw>)
    requires s < MAX_SHELVES && !ShelfOk(m, s, hw)
    ensures CheckShelf(m, s, hw).Some? && Refuses(m, s, hw, CheckShelf(m, s, hw).value)
  {
    hide Vals, Rows, RowsOk, CheckRows, Str16Ok, Readable, FirstOut;
    var shelf, f := Vals(m, SHELF, s), CheckShelf(m, s, hw);
    ShelfIff(m, s, hw);
    if |shelf| > 0 { ReadableIff(shelf[0]); }
    AllRows(m, s);
    if |shelf| > 0 && Readable(shelf[0]) && !RowsBefore(m, s, 5) {
      var k := FirstBadGroup(m, s, 0);
      var r := RowFault(ShelfGroups()[k], Vals(m, ShelfGroups()[k], s), s);
      FirstRefuses(m, s, k, hw);
    }
  }

  /** What refused a config: the name, the zone's rows, the first bad aux output, the first bad shelf. */
  ghost predicate RefusedWith(m: Cfg, hw: Option<Hw>, f: Fault) {
    var zone := Vals(m, ZONECFG, -1);
    if !NameOk(m) then f == Fault(-1, ZONECFG, "NAME")
    else if !RowsOk(ZONECFG, zone) then
      exists r :: FirstOut(ZONECFG, zone, r) && f == Fault(-1, ZONECFG, Rows(ZONECFG)[r].key)
    else if exists a :: 0 <= a < MAX_AUX && !AuxOk(m, a) then
      exists a, r :: 0 <= a < MAX_AUX && (forall b :: 0 <= b < a ==> AuxOk(m, b)) && !AuxOk(m, a)
        && FirstOut(AUX, Vals(m, AUX, a), r) && f == Fault(-1, AUX, Rows(AUX)[r].key)
    else
      exists s :: 0 <= s < MAX_SHELVES && (forall t :: 0 <= t < s ==> ShelfOk(m, t, hw)) && !ShelfOk(m, s, hw)
        && Refuses(m, s, hw, f)
  }

  lemma {:induction false} FirstBadAux(m: Cfg, i: nat) returns (a: nat, r: nat)
    requires i <= MAX_AUX && (forall b :: 0 <= b < i ==> AuxOk(m, b))
    requires exists b :: 0 <= b < MAX_AUX && !AuxOk(m, b)
    ensures a < MAX_AUX && (forall b :: 0 <= b < a ==> AuxOk(m, b)) && !AuxOk(m, a)
    ensures FirstOut(AUX, Vals(m, AUX, a), r) && CheckAux(m, i) == Some(Fault(-1, AUX, Rows(AUX)[r].key))
    decreases MAX_AUX - i
  {
    hide Vals, Rows, RowsOk, CheckRows, FirstOut;
    RowsIff(AUX, Vals(m, AUX, i), -1);
    if AuxOk(m, i) {
      a, r := FirstBadAux(m, i + 1);
    } else {
      a := i;
      r := RowFault(AUX, Vals(m, AUX, i), -1);
    }
  }

  lemma {:induction false} FirstBadShelf(m: Cfg, i: nat, hw: Option<Hw>) returns (s: nat)
    requires i <= MAX_SHELVES && (forall t :: 0 <= t < i ==> ShelfOk(m, t, hw))
    requires exists t :: 0 <= t < MAX_SHELVES && !ShelfOk(m, t, hw)
    ensures s < MAX_SHELVES && (forall t :: 0 <= t < s ==> ShelfOk(m, t, hw)) && !ShelfOk(m, s, hw)
    ensures CheckShelves(m, i, hw).Some? && Refuses(m, s, hw, CheckShelves(m, i, hw).value)
    decreases MAX_SHELVES - i
  {
    hide CheckShelf, ShelfOk, Refuses;
    ShelfIff(m, i, hw);
    if ShelfOk(m, i, hw) {
      s := FirstBadShelf(m, i + 1, hw);
    } else {
      s := i;
      ShelfRefused(m, i, hw);
    }
  }

  /** A refused config is refused with the first thing wrong with it. */
  lemma FaultIsFirst(m: Cfg, hw: Option<Hw>)
    requires !ConfigOk(m, hw)
    ensures Validate(m, hw).Some? && RefusedWith(m, hw, Validate(m, hw).value)
  {
    hide Vals, Rows, RowsOk, CheckRows, CheckAux, CheckShelves, ShelfOk, AuxOk, Refuses, FirstOut, Str16Ok, Readable;
    var zone := Vals(m, ZONECFG, -1);
    if |zone| > 0 { ReadableIff(zone[0]); }
    RowsIff(ZONECFG, zone, -1);
    AuxIff(m, 0);
    if NameOk(m) {
      if !RowsOk(ZONECFG, zone) {
        var r := RowFault(ZONECFG, zone, -1);
      } else if exists a :: 0 <= a < MAX_AUX && !AuxOk(m, a) {
        var a, r := FirstBadAux(m, 0);
      } else {
        var s := FirstBadShelf(m, 0, hw);
      }
    }
  }

  /** One turn of the shelf loop. */
  method CheckOneShelf(m: Cfg, s: nat, hw: Option<Hw>) returns (f: Option<Fault>)
    requires s < MAX_SHELVES
    ensures f == CheckShelf(m, s, hw)
  {
    hide Vals, Rows, RowsOk, CheckRows, CheckHw, Str16Ok;
    var shelf, light, water := Vals(m, SHELF, s), Vals(m, LIGHT, s), Vals(m, WATER, s);
    if |shelf| == 0 || !Str16Ok(shelf[0]) { return Some(Fault(s, SHELF, "CROP")); }
    f := CheckGroupRows(SHELF, shelf, s);
    if f.Some? { return; }
    f := CheckGroupRows(LIGHT, light, s);
    if f.Some? { return; }
    f := CheckGroupRows(WATER, water, s);
    if f.Some? { return; }
    f := CheckGroupRows(FAN, Vals(m, FAN, s), s);
    if f.Some? { return; }
    f := CheckGroupRows(VIB, Vals(m, VIB, s), s);
    if f.Some? { return; }
    if NumAt(light, 0) == NumAt(light, 1) { return Some(Fault(s, LIGHT, "OFF")); }
    f := CheckHw(shelf, water, s, hw);
  }

  /** hg_cfg_validate */
  method HgCfgValidate(m: Cfg, hw: Option<Hw>) returns (f: Option<Fault>)
    ensures f == Validate(m, hw)
    ensures f.None? <==> ConfigOk(m, hw)
    ensures f.Some? ==> RefusedWith(m, hw, f.value)
  {
    hide Vals, Rows, RowsOk, CheckRows, CheckShelf, ConfigOk, RefusedWith;
    ValidIff(m, hw);
    if !ConfigOk(m, hw) { FaultIsFirst(m, hw); }
    var zone := Vals(m, ZONECFG, -1);
    if |zone| == 0 || !Str16Ok(zone[0]) || zone[0].s.value == "" { return Some(Fault(-1, ZONECFG, "NAME")); }
    f := CheckGroupRows(ZONECFG, zone, -1);
    if f.Some? { return; }
    var a := 0;
    while a < MAX_AUX
      invariant a <= MAX_AUX && CheckAux(m, 0) == CheckAux(m, a)
    {
      if NumAt(Vals(m, AUX, a), 0) != 0 {
        f := CheckGroupRows(AUX, Vals(m, AUX, a), -1);
        if f.Some? { return; }
      }
      a := a + 1;
    }
    var s := 0;
    while s < MAX_SHELVES
      invariant s <= MAX_SHELVES && CheckShelves(m, 0, hw) == CheckShelves(m, s, hw)
    {
      f := CheckOneShelf(m, s, hw);
      if f.Some? { return; }
      s := s + 1;
    }
    f := None;
  }

  // ---------------- the hardware plane ----------------

  datatype ShelfHw = ShelfHw(wires: seq<Val>, cal: seq<Val>)

  datatype AuxHw = AuxHw(kind: Byte, pin: Byte)

  /** hg_zone_hw_t by what its rows and its aux outputs hold. */
  datatype Plane = Plane(zone: seq<Val>, shelf: seq<ShelfHw>, aux: seq<AuxHw>)

  predicate Shaped(h: Plane) {
    && |h.zone| == |Rows(HW)| && |h.shelf| == MAX_SHELVES && |h.aux| == MAX_AUX
    && forall s :: 0 <= s < MAX_SHELVES ==> |h.shelf[s].wires| == |Rows(HWSHELF)| && |h.shelf[s].cal| == |Rows(CAL)|
  }

  /** How many shelves the validator looks at. */
  function Shelves(h: Plane): nat {
    if NumAt(h.zone, 0) < MAX_SHELVES then NumAt(h.zone, 0) else MAX_SHELVES
  }

  /** The PCA channels of a shelf (white, red, vibration), its PCF pins (pump, fan), its soil inputs. */
  datatype Bus = PCA | PCF | SOIL

  function Size(b: Bus): nat { if b == SOIL then 8 else 16 }

  function OnShelf(x: ShelfHw, b: Bus): seq<nat> {
    match b
    case PCA => [NumAt(x.wires, 0), NumAt(x.wires, 1), NumAt(x.wires, 6)]
    case PCF => [NumAt(x.wires, 2), NumAt(x.wires, 3)]
    case SOIL => [NumAt(x.wires, 4), NumAt(x.wires, 5)]
  }

  /** Everything the first n shelves wire to one bus. */
  function Wired(h: Plane, b: Bus, n: nat): seq<nat>
    requires n <= |h.shelf|
  {
    if n == 0 then [] else Wired(h, b, n - 1) + OnShelf(h.shelf[n - 1], b)
  }

  function AuxPins(h: Plane, n: nat): seq<nat>
    requires n <= |h.aux|
  {
    if n == 0 then []
    else AuxPins(h, n - 1) + (if h.aux[n - 1].kind != 0 then [h.aux[n - 1].pin as nat] else [])
  }

  /** Every wire is loose or on the bus, and no two wires share a place on it. */
  predicate ClashFree(p: seq<nat>, top: nat) {
    && (forall i :: 0 <= i < |p| ==> p[i] == NONE_PIN || p[i] < top)
    && (forall i, j :: 0 <= i < j < |p| && p[i] == p[j] ==> p[i] == NONE_PIN)
  }

  predicate Calibrated(c: seq<Val>) {
    && NumAt(c, 4) < NumAt(c, 5)
    && NumAt(c, 0) > NumAt(c, 2) && NumAt(c, 1) > NumAt(c, 3)
  }

  predicate ShelfHwOk(x: ShelfHw)
    requires |x.wires| == |Rows(HWSHELF)| && |x.cal| == |Rows(CAL)|
  {
    RowsOk(HWSHELF, x.wires) && RowsOk(CAL, x.cal) && Calibrated(x.cal)
  }

  /** Nothing is wrong with the zone's own rows and the first n shelves. */
  predicate Good(h: Plane, n: nat)
    requires Shaped(h) && n <= MAX_SHELVES
  {
    && RowsOk(HW, h.zone)
    && (forall s :: 0 <= s < n ==> ShelfHwOk(h.shelf[s]))
    && ClashFree(Wired(h, PCA, n), 16) && ClashFree(Wired(h, PCF, n), 16) && ClashFree(Wired(h, SOIL, n), 8)
  }

  predicate PlaneOk(h: Plane)
    requires Shaped(h)
  {
    Good(h, Shelves(h)) && ClashFree(Wired(h, PCF, Shelves(h)) + AuxPins(h, MAX_AUX), 16)
  }

  // ---------------- the fault a plane is refused with ----------------

  /** The first wire from w[i] on that has no place left on the bus. */
  function FirstClash(p: seq<nat>, w: seq<nat>, top: nat, i: nat): (k: nat)
    requires i <= |w|
    ensures i <= k <= |w|
    decreases |w| - i
  {
    if i == |w| || !ClashFree(p + w[..i + 1], top) then i else FirstClash(p, w, top, i + 1)
  }

  function WireKey(b: Bus, k: nat): string {
    match b
    case PCA => if k == 0 then "LED_W" else if k == 1 then "LED_R" else "VIB"
    case PCF => if k == 0 then "PUMP" else "FAN"
    case SOIL => if k == 0 then "SOIL_A" else "SOIL_B"
  }

  function BusFault(h: Plane, s: nat, b: Bus): Option<Fault>
    requires s < |h.shelf|
  {
    var w := OnShelf(h.shelf[s], b);
    var k := FirstClash(Wired(h, b, s), w, Size(b), 0);
    if k == |w| then None else Some(Fault(s, HWSHELF, WireKey(b, k)))
  }

  function CalFault(c: seq<Val>, s: nat): Option<Fault> {
    if NumAt(c, 4) >= NumAt(c, 5) then Some(Fault(s, CAL, "MIN_OK"))
    else if NumAt(c, 0) <= NumAt(c, 2) then Some(Fault(s, CAL, "DRY_A"))
    else if NumAt(c, 1) <= NumAt(c, 3) then Some(Fault(s, CAL, "DRY_B"))
    else None
  }

  function HwShelfFault(h: Plane, s: nat): Option<Fault>
    requires Shaped(h) && s < MAX_SHELVES
  {
    OrElse(CheckRows(HWSHELF, h.shelf[s].wires, s),
    OrElse(CheckRows(CAL, h.shelf[s].cal, s),
    OrElse(BusFault(h, s, PCA),
    OrElse(BusFault(h, s, PCF),
    OrElse(BusFault(h, s, SOIL), CalFault(h.shelf[s].cal, s))))))
  }

  /** What the validator finds from shelf s on: the shelves in order, then the aux pins. */
  function HwFaultFrom(h: Plane, s: nat): Option<Fault>
    requires Shaped(h) && s <= Shelves(h)
    decreases Shelves(h) - s
  {
    if s < Shelves(h) then OrElse(HwShelfFault(h, s), HwFaultFrom(h, s + 1))
    else if ClashFree(Wired(h, PCF, s) + AuxPins(h, MAX_AUX), 16) then None
    else Some(Fault(-1, HW, "AUX_PIN"))
  }

  function HwFault(h: Plane): Option<Fault>
    requires Shaped(h)
  {
    OrElse(CheckRows(HW, h.zone, -1), HwFaultFrom(h, 0))
  }

  // ---------------- the rows behind the wires and the calibration ----------------

  /** The row of this key holds n. */
  ghost predicate Holds(g: Group, v: seq<Val>, key: string, n: nat)
    requires |v| == |Rows(g)|
  {
    exists r :: 0 <= r < |v| && Rows(g)[r].key == key && NumAt(v, r) == n
  }

  lemma HoldsOne(g: Group, v: seq<Val>, key: string, r: nat, n: nat)
    requires |v| == |Rows(g)| && r < |v| && Rows(g)[r].key == key && Holds(g, v, key, n)
    ensures n == NumAt(v, r)
  {
    hide Rows, Text.CiEq;
    var q :| 0 <= q < |v| && Rows(g)[q].key == key && NumAt(v, q) == n;
    CiSame(key);
    if q < r { KeysDiffer(g, q, r); } else if r < q { KeysDiffer(g, r, q); }
  }

  lemma CiSame(s: string)
    ensures Text.CiEq(s, s)
  {
  }

  /** Each wire is the value of the row whose key its fault names. */
  lemma WiresAreKeyed(x: ShelfHw, b: Bus, k: nat)
    requires |x.wires| == |Rows(HWSHELF)| && k < |OnShelf(x, b)|
    ensures Holds(HWSHELF, x.wires, WireKey(b, k), OnShelf(x, b)[k])
    ensures |OnShelf(x, PCA)| == 3 && |OnShelf(x, PCF)| == |OnShelf(x, SOIL)| == 2
    ensures WireKey(PCA, 0) == "LED_W" && WireKey(PCA, 1) == "LED_R" && WireKey(PCA, 2) == "VIB"
    ensures WireKey(PCF, 0) == "PUMP" && WireKey(PCF, 1) == "FAN"
    ensures WireKey(SOIL, 0) == "SOIL_A" && WireKey(SOIL, 1) == "SOIL_B"
  {
    Places();
    var n := OnShelf(x, b)[k];
    var r := match b
      case PCA => if k == 0 then 0 else if k == 1 then 1 else 6
      case PCF => if k == 0 then 2 else 3
      case SOIL => if k == 0 then 4 else 5;
    assert |Rows(HWSHELF)| == 11;
    assert Rows(HWSHELF)[r].key == WireKey(b, k) && NumAt(x.wires, r) == n;
  }

  /** A probe is calibrated with a span in range and each channel drier dry than wet; the first that is not is named. */
  lemma CalibratedIff(c: seq<Val>, s: nat, minOk: nat, maxOk: nat, dryA: nat, wetA: nat, dryB: nat, wetB: nat)
    requires |c| == |Rows(CAL)|
    requires Holds(CAL, c, "MIN_OK", minOk) && Holds(CAL, c, "MAX_OK", maxOk)
    requires Holds(CAL, c, "DRY_A", dryA) && Holds(CAL, c, "WET_A", wetA)
    requires Holds(CAL, c, "DRY_B", dryB) && Holds(CAL, c, "WET_B", wetB)
    ensures Calibrated(c) <==> minOk < maxOk && wetA < dryA && wetB < dryB
    ensures CalFault(c, s) ==
      if maxOk <= minOk then Some(Fault(s, CAL, "MIN_OK"))
      else if dryA <= wetA then Some(Fault(s, CAL, "DRY_A"))
      else if dryB <= wetB then Some(Fault(s, CAL, "DRY_B"))
      else None
  {
    hide Rows, Holds;
    Places();
    SixRows();
    HoldsOne(CAL, c, "DRY_A", 0, dryA);
    HoldsOne(CAL, c, "DRY_B", 1, dryB);
    HoldsOne(CAL, c, "WET_A", 2, wetA);
    HoldsOne(CAL, c, "WET_B", 3, wetB);
    HoldsOne(CAL, c, "MIN_OK", 4, minOk);
    HoldsOne(CAL, c, "MAX_OK", 5, maxOk);
  }

  lemma SixRows()
    ensures |Rows(CAL)| == 6
  {
  }

  lemma FrontClashFree(p: seq<nat>, q: seq<nat>, top: nat)
    requires ClashFree(p + q, top)
    ensures ClashFree(p, top)
  {
    assert forall i :: 0 <= i < |p| ==> p[i] == (p + q)[i];
  }

  predicate Marks(used: seq<bool>, p: seq<nat>) {
    forall k :: 0 <= k < |used| ==> (used[k] <==> k in p)
  }

  /** mark_dup, and the soil counter: refuse a place off the bus or already taken. */
  method Mark(used: array<bool>, ghost p: seq<nat>, pin: nat) returns (ok: bool)
    requires used.Length < NONE_PIN && Marks(used[..], p) && ClashFree(p, used.Length)
    modifies used
    ensures ok <==> ClashFree(p + [pin], used.Length)
    ensures ok ==> Marks(used[..], p + [pin])
  {
    assert (p + [pin])[|p|] == pin;
    if pin == NONE_PIN { return true; }
    if pin >= used.Length { return false; }
    if used[pin] {
      ghost var i :| 0 <= i < |p| && p[i] == pin;
      assert (p + [pin])[i] == pin;
      return false;
    }
    used[pin] := true;
    ok := true;
  }

  /** All wires of one shelf on one bus, in the order the code takes them. */
  method MarkAll(used: array<bool>, ghost p: seq<nat>, w: seq<nat>) returns (bad: nat)
    requires used.Length < NONE_PIN && Marks(used[..], p) && ClashFree(p, used.Length)
    modifies used
    ensures bad == FirstClash(p, w, used.Length, 0)
    ensures bad <= |w| && (bad == |w| <==> ClashFree(p + w, used.Length))
    ensures bad == |w| ==> Marks(used[..], p + w)
    ensures bad < |w| ==> ClashFree(p + w[..bad], used.Length) && !ClashFree(p + w[..bad + 1], used.Length)
  {
    bad := 0;
    assert p + w[..0] == p;
    while bad < |w|
      invariant bad <= |w| && Marks(used[..], p + w[..bad]) && ClashFree(p + w[..bad], used.Length)
      invariant FirstClash(p, w, used.Length, 0) == FirstClash(p, w, used.Length, bad)
    {
      assert p + w[..bad + 1] == p + w[..bad] + [w[bad]];
      var ok := Mark(used, p + w[..bad], w[bad]);
      if !ok {
        if ClashFree(p + w, used.Length) {
          assert p + w == p + w[..bad + 1] + w[bad + 1..];
          FrontClashFree(p + w[..bad + 1], w[bad + 1..], used.Length);
        }
        return;
      }
      bad := bad + 1;
    }
    assert w[..bad] == w;
  }

  lemma {:induction false} WiredMore(h: Plane, b: Bus, n: nat, k: nat)
    requires n <= k <= |h.shelf|
    ensures Wired(h, b, n) <= Wired(h, b, k)
    decreases k
  {
    if n < k { WiredMore(h, b, n, k - 1); }
  }

  lemma BusFront(h: Plane, b: Bus, n: nat, k: nat)
    requires n <= k <= |h.shelf| && ClashFree(Wired(h, b, k), Size(b))
    ensures ClashFree(Wired(h, b, n), Size(b))
  {
    hide ClashFree;
    WiredMore(h, b, n, k);
    var rest := Wired(h, b, k)[|Wired(h, b, n)|..];
    assert Wired(h, b, k) == Wired(h, b, n) + rest;
    FrontClashFree(Wired(h, b, n), rest, Size(b));
  }

  /** What is wrong with the first shelves stays wrong. */
  lemma GoodFront(h: Plane, n: nat, k: nat)
    requires Shaped(h) && n <= k <= MAX_SHELVES && Good(h, k)
    ensures Good(h, n)
  {
    hide Rows, RowsOk, ClashFree, ShelfHwOk, Wired;
    BusFront(h, PCA, n, k);
    BusFront(h, PCF, n, k);
    BusFront(h, SOIL, n, k);
  }

  /** One turn of the shelf loop: the shelf's own rows, its wires, its calibration. */
  method CheckOneShelfHw(h: Plane, s: nat, pca: array<bool>, pcf: array<bool>, soil: array<bool>)
    returns (f: Option<Fault>)
    requires Shaped(h) && s < MAX_SHELVES && Good(h, s)
    requires pca.Length == pcf.Length == 16 && soil.Length == 8 && pca != pcf
    requires Marks(pca[..], Wired(h, PCA, s)) && Marks(pcf[..], Wired(h, PCF, s)) && Marks(soil[..], Wired(h, SOIL, s))
    modifies pca, pcf, soil
    ensures f == HwShelfFault(h, s)
    ensures f.None? <==> Good(h, s + 1)
    ensures f.Some? ==> f.value.shelf == s
    ensures f.None? ==>
      Marks(pca[..], Wired(h, PCA, s + 1)) && Marks(pcf[..], Wired(h, PCF, s + 1)) && Marks(soil[..], Wired(h, SOIL, s + 1))
  {
    hide Rows, RowsOk, CheckRows, ClashFree, Marks, OnShelf;
    var x := h.shelf[s];
    f := CheckGroupRows(HWSHELF, x.wires, s);
    if f.Some? { return; }
    f := CheckGroupRows(CAL, x.cal, s);
    if f.Some? { return; }
    var bad := MarkAll(pca, Wired(h, PCA, s), OnShelf(x, PCA));
    if bad < |OnShelf(x, PCA)| { return Some(Fault(s, HWSHELF, WireKey(PCA, bad))); }
    bad := MarkAll(pcf, Wired(h, PCF, s), OnShelf(x, PCF));
    if bad < |OnShelf(x, PCF)| { return Some(Fault(s, HWSHELF, WireKey(PCF, bad))); }
    bad := MarkAll(soil, Wired(h, SOIL, s), OnShelf(x, SOIL));
    if bad < |OnShelf(x, SOIL)| { return Some(Fault(s, HWSHELF, WireKey(SOIL, bad))); }
    if NumAt(x.cal, 4) >= NumAt(x.cal, 5) { return Some(Fault(s, CAL, "MIN_OK")); }
    var p := 0;
    while p < 2
      invariant p <= 2 && forall q :: 0 <= q < p ==> NumAt(x.cal, q) > NumAt(x.cal, q + 2)
    {
      if NumAt(x.cal, p) <= NumAt(x.cal, p + 2) { return Some(Fault(s, CAL, if p == 0 then "DRY_A" else "DRY_B")); }
      p := p + 1;
    }
    f := None;
  }

  /**
   hg_hw_validate: passes exactly the planes whose rows are in bounds, whose probes are
   calibrated the right way round, and on which no channel, pin or input is wired twice; a
   fault on a shelf is on the first shelf that has one.
   */
  method HgHwValidate(h: Plane) returns (f: Option<Fault>)
    requires Shaped(h)
    ensures f == HwFault(h)
    ensures f.None? <==> PlaneOk(h)
    ensures f.Some? && f.value.shelf >= 0 ==>
      f.value.shelf < Shelves(h) && Good(h, f.value.shelf) && !Good(h, f.value.shelf + 1)
    ensures f.Some? && f.value.shelf < 0 ==>
      !RowsOk(HW, h.zone) || (f.value == Fault(-1, HW, "AUX_PIN") && Good(h, Shelves(h)))
  {
    hide Rows, RowsOk, CheckRows, ClashFree, Marks, OnShelf, Good, HwShelfFault, Wired, AuxPins, NumAt;
    f := CheckGroupRows(HW, h.zone, -1);
    if f.Some? {
      FirstRows(h);
      return;
    }
    var pca, pcf, soil := new bool[16](_ => false), new bool[16](_ => false), new bool[8](_ => false);
    var s := 0;
    NothingWired(h, pca[..], pcf[..], soil[..]);
    while s < NumAt(h.zone, 0) && s < MAX_SHELVES
      invariant s <= Shelves(h) && Good(h, s) && HwFaultFrom(h, 0) == HwFaultFrom(h, s)
      invariant Marks(pca[..], Wired(h, PCA, s)) && Marks(pcf[..], Wired(h, PCF, s)) && Marks(soil[..], Wired(h, SOIL, s))
    {
      f := CheckOneShelfHw(h, s, pca, pcf, soil);
      if f.Some? {
        if Good(h, Shelves(h)) { GoodFront(h, s + 1, Shelves(h)); }
        return;
      }
      s := s + 1;
    }
    f := CheckAuxPins(h, pcf);
  }

  lemma FirstRows(h: Plane)
    requires Shaped(h) && !RowsOk(HW, h.zone)
    ensures !Good(h, Shelves(h))
  {
  }

  lemma NothingWired(h: Plane, pca: seq<bool>, pcf: seq<bool>, soil: seq<bool>)
    requires Shaped(h) && RowsOk(HW, h.zone)
    requires (forall k :: 0 <= k < |pca| ==> !pca[k]) && (forall k :: 0 <= k < |pcf| ==> !pcf[k])
    requires forall k :: 0 <= k < |soil| ==> !soil[k]
    ensures Good(h, 0)
    ensures Marks(pca, Wired(h, PCA, 0)) && Marks(pcf, Wired(h, PCF, 0)) && Marks(soil, Wired(h, SOIL, 0))
  {
  }

  /** The aux loop: the outputs in use share the expander with the pumps and fans. */
  method CheckAuxPins(h: Plane, pcf: array<bool>) returns (f: Option<Fault>)
    requires Shaped(h) && Good(h, Shelves(h)) && pcf.Length == 16 && Marks(pcf[..], Wired(h, PCF, Shelves(h)))
    modifies pcf
    ensures f == HwFaultFrom(h, Shelves(h))
    ensures f.None? <==> PlaneOk(h)
    ensures f.Some? ==> f.value == Fault(-1, HW, "AUX_PIN")
  {
    hide Rows, RowsOk, ClashFree, Marks, ShelfHwOk, Wired;
    ghost var w := Wired(h, PCF, Shelves(h));
    var a := 0;
    assert w + AuxPins(h, 0) == w;
    while a < MAX_AUX
      invariant a <= MAX_AUX && Marks(pcf[..], w + AuxPins(h, a)) && ClashFree(w + AuxPins(h, a), 16)
    {
      var e := h.aux[a];
      if e.kind != 0 {
        assert w + AuxPins(h, a + 1) == w + AuxPins(h, a) + [e.pin as nat];
        var ok := Mark(pcf, w + AuxPins(h, a), e.pin);
        if !ok {
          if a + 1 < MAX_AUX && ClashFree(w + AuxPins(h, MAX_AUX), 16) {
            ghost var rest := AuxPins(h, MAX_AUX)[|AuxPins(h, a + 1)|..];
            assert w + AuxPins(h, MAX_AUX) == w + AuxPins(h, a + 1) + rest;
            FrontClashFree(w + AuxPins(h, a + 1), rest, 16);
          }
          return Some(Fault(-1, HW, "AUX_PIN"));
        }
      } else {
        assert AuxPins(h, a + 1) == AuxPins(h, a);
      }
      a := a + 1;
    }
    f := None;
  }
}
