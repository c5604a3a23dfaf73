/**
 Error paths and their parser: what hg_cfg_validate (components/hg_cfg/hg_cfg_validate.c),
 psvc_zone_fields_fn (components/panel_svc/psvc_zcfg.c) and the JSON merge print, and what
 pcfg_locate (components/panel_ui/pcfg_gen.c) makes of it, zone table only.
 */
module CfgPath {
  import opened Wrappers
  import opened Text
  import opened CfgFields
  import opened CfgMerge
  import V = CfgValidate

  const PATH_MAX: nat := 96

  // ---------------- the printers ----------------

  function Short(s: string, n: nat): string { if |s| > n then s[..n] else s }

  /** fail(): lower case, the shelf as a prefix, and no group name for a SHELF row. */
  function FailPath(f: Fault): string {
    var lg, lk := LowerAll(Short(GroupName(f.group), 11)), LowerAll(Short(f.key, 23));
    if f.shelf >= 0 then
      "shelf[" + Decimal(f.shelf) + "]." + (if f.group == SHELF then lk else lg + "." + lk)
    else lg + "." + lk
  }

  /** cfg_path: the JSON names as they are, behind cfg and the index of the scope. */
  function FieldPath(g: Group, idx: int, key: string): string {
    if Scope(g) == 1 then "cfg.shelf[" + SignedDecimal(idx) + "]." + GroupName(g) + "." + key
    else if Scope(g) == 2 then "cfg.aux[" + SignedDecimal(idx) + "]." + GroupName(g) + "." + key
    else "cfg." + GroupName(g) + "." + key
  }

  // ---------------- the parser ----------------

  /** prefix_ci */
  predicate PrefixCi(s: string, p: string) { |p| <= |s| && CiEq(s[..|p|], p) }

  function StripRoot(p: string): string {
    if PrefixCi(p, "cfg.") then p[4..] else if PrefixCi(p, "hw.") then p[3..] else p
  }

  function DigitRun(s: string): (n: nat)
    ensures n <= |s| && Digits(s[..n])
    ensures n < |s| ==> !IsDigit(s[n])
  {
    if s == "" || !IsDigit(s[0]) then 0 else 1 + DigitRun(s[1..])
  }

  /** strtol: the number at the front and the text behind it; None if there is no number. */
  function Strtol(p: string): Option<(int, string)> {
    var t := SkipSpace(p);
    var u := if t != "" && (t[0] == '-' || t[0] == '+') then t[1..] else t;
    var n := DigitRun(u);
    if n == 0 then None
    else
      var v: int := Value(u[..n]);
      Some((if t[0] == '-' then -v else v, u[n..]))
  }

  /** The index prefix: 0 none, 1 shelf, 2 aux; with the index and the rest of the path. */
  datatype Prefix = Prefix(kind: nat, ix: int, rest: string)

  function Indexed(p: string): Option<Prefix> {
    var kind := if PrefixCi(p, "shelf[") then 1 else if PrefixCi(p, "aux[") then 2 else 0;
    if kind == 0 then Some(Prefix(0, -1, p))
    else
      match Strtol(p[if kind == 1 then 6 else 4..])
      case None => None
      case Some((v, rest)) =>
        if |rest| >= 2 && rest[0] == ']' && rest[1] == '.' then Some(Prefix(kind, v, rest[2..])) else None
  }

  /** hg_group_find: the first group of that name in any letter case. */
  function GroupFind(name: string): Option<Group> {
    if CiEq(name, "ZONECFG") then Some(ZONECFG)
    else if CiEq(name, "SHELF") then Some(SHELF)
    else if CiEq(name, "LIGHT") then Some(LIGHT)
    else if CiEq(name, "WATER") then Some(WATER)
    else if CiEq(name, "FAN") then Some(FAN)
    else if CiEq(name, "VIB") then Some(VIB)
    else if CiEq(name, "AUX") then Some(AUX)
    else if CiEq(name, "HW") then Some(HW)
    else if CiEq(name, "HWSHELF") then Some(HWSHELF)
    else if CiEq(name, "CAL") then Some(CAL)
    else None
  }

  function FindRow(g: Group, key: string, k: nat): (r: nat)
    requires k <= |Rows(g)|
    ensures k <= r <= |Rows(g)| && (r < |Rows(g)| ==> CiEq(Rows(g)[r].key, key))
    ensures forall j :: k <= j < r ==> !CiEq(Rows(g)[j].key, key)
    decreases |Rows(g)| - k
  {
    if k == |Rows(g)| || CiEq(Rows(g)[k].key, key) then k else FindRow(g, key, k + 1)
  }

  datatype Located = Located(group: Group, idx: int, row: nat)

  /** The scope rules and the row look-up at the end of pcfg_locate. */
  function Resolve(g: Group, x: Prefix, key: string): Option<Located> {
    var bad :=
      if Scope(g) == 0 then x.kind != 0
      else if Scope(g) == 1 then x.kind == 2 || (x.kind == 1 && !(0 <= x.ix < MAX_SHELVES))
      else x.kind == 1 || (x.kind == 2 && !(0 <= x.ix < MAX_AUX));
    var k := FindRow(g, key, 0);
    if bad || k == |Rows(g)| then None else Some(Located(g, if Scope(g) == 0 then -1 else x.ix, k))
  }

  function Locate(path: string): Option<Located> {
    if path == "" || |path| >= PATH_MAX then None
    else
      match Indexed(StripRoot(path))
      case None => None
      case Some(x) =>
        var dot := IndexOf(x.rest, '.');
        if dot == |x.rest| then (if x.kind == 1 then Resolve(SHELF, x, x.rest) else None)
        else
          var key := x.rest[dot + 1..];
          if key == "" || IndexOf(key, '.') < |key| then None
          else
            match GroupFind(x.rest[..dot])
            case None => None
            case Some(g) => Resolve(g, x, key)
  }

  // ---------------- parsing back what was printed ----------------

  lemma {:induction false} IndexOfAfter(a: string, b: string)
    requires '.' !in a
    ensures IndexOf(a + "." + b, '.') == |a|
  {
    if a == "" {
      assert a + "." + b == "." + b;
    } else {
      assert (a + "." + b)[1..] == a[1..] + "." + b;
      IndexOfAfter(a[1..], b);
    }
  }

  lemma {:induction false} IndexOfNone(a: string)
    requires '.' !in a
    ensures IndexOf(a, '.') == |a|
  {
  }

  lemma CiEqVia(a: string, b: string, c: string)
    requires CiEq(a, b) && CiEq(a, c)
    ensures CiEq(b, c)
  {
  }

  /** Group names of the same length are different words. */
  lemma NamesTellApart()
    ensures !CiEq("ZONECFG", "HWSHELF") && !CiEq("SHELF", "LIGHT") && !CiEq("SHELF", "WATER") && !CiEq("LIGHT", "WATER")
    ensures !CiEq("FAN", "VIB") && !CiEq("FAN", "AUX") && !CiEq("VIB", "AUX")
    ensures !CiEq("FAN", "CAL") && !CiEq("VIB", "CAL") && !CiEq("AUX", "CAL")
  {
    assert "HWSHELF"[0] == 'H' && "ZONECFG"[0] == 'Z';
    assert "SHELF"[0] == 'S' && "LIGHT"[0] == 'L' && "WATER"[0] == 'W';
    assert "FAN"[0] == 'F' && "VIB"[0] == 'V' && "AUX"[0] == 'A' && "CAL"[0] == 'C';
  }

  lemma Named(name: string, w: string, g: Group)
    requires CiEq(name, GroupName(g)) && CiEq(name, w)
    ensures CiEq(w, GroupName(g)) && |w| == |GroupName(g)|
  {
  }

  lemma FoundGroup(name: string, g: Group)
    requires CiEq(name, GroupName(g))
    ensures GroupFind(name) == Some(g)
  {
    hide CiEq;
    NamesTellApart();
    if CiEq(name, "ZONECFG") { Named(name, "ZONECFG", g); }
    else if CiEq(name, "SHELF") { Named(name, "SHELF", g); }
    else if CiEq(name, "LIGHT") { Named(name, "LIGHT", g); }
    else if CiEq(name, "WATER") { Named(name, "WATER", g); }
    else if CiEq(name, "FAN") { Named(name, "FAN", g); }
    else if CiEq(name, "VIB") { Named(name, "VIB", g); }
    else if CiEq(name, "AUX") { Named(name, "AUX", g); }
    else if CiEq(name, "HW") { Named(name, "HW", g); }
    else if CiEq(name, "HWSHELF") { Named(name, "HWSHELF", g); }
  }

  lemma {:induction false} FoundRow(g: Group, key: string, k: nat, i: nat)
    requires i <= k < |Rows(g)| && CiEq(key, Rows(g)[k].key)
    ensures FindRow(g, key, i) == k
    decreases k - i
  {
    hide Rows;
    if i < k {
      KeysDiffer(g, i, k);
      assert !CiEq(Rows(g)[i].key, key) by {
        if CiEq(Rows(g)[i].key, key) { CiEqVia(key, Rows(g)[i].key, Rows(g)[k].key); }
      }
      FoundRow(g, key, k, i + 1);
    }
  }

  lemma GroupPlain(g: Group)
    ensures '.' !in GroupName(g) && 2 <= |GroupName(g)| <= 7
    ensures '.' !in LowerAll(GroupName(g))
  {
  }

  lemma LowerPlain(k: string)
    requires PlainKey(k)
    ensures PlainKey(LowerAll(k)) && Short(k, 23) == k
  {
  }

  /** group.key behind a prefix, in any letter case, resolves to its row. */
  lemma GroupKeyResolves(g: Group, k: nat, name: string, key: string, x: Prefix)
    requires k < |Rows(g)| && CiEq(name, GroupName(g)) && CiEq(key, Rows(g)[k].key)
    requires '.' !in name && '.' !in key && key != "" && x.rest == name + "." + key
    requires x.kind == 0 || (x.kind == 1 && Scope(g) == 1 && 0 <= x.ix < MAX_SHELVES)
          || (x.kind == 2 && Scope(g) == 2 && 0 <= x.ix < MAX_AUX)
    ensures var dot := IndexOf(x.rest, '.');
      && dot < |x.rest| && x.rest[dot + 1..] == key && IndexOf(key, '.') == |key|
      && GroupFind(x.rest[..dot]) == Some(g)
      && Resolve(g, x, key) == Some(Located(g, if Scope(g) == 0 then -1 else x.ix, k))
  {
    hide CiEq, GroupFind, Rows, FindRow;
    IndexOfAfter(name, key);
    IndexOfNone(key);
    FoundGroup(name, g);
    FoundRow(g, key, k, 0);
    assert x.rest[..|name|] == name && x.rest[|name| + 1..] == key;
  }

  lemma StrtolDigit(i: nat, rest: string)
    requires i < 10 && (rest == "" || !IsDigit(rest[0]))
    ensures Decimal(i) == [Digit(i)]
    ensures Strtol(Decimal(i) + rest) == Some((i as int, rest))
  {
    var p := Decimal(i) + rest;
    assert p[0] == Digit(i) && p[1..] == rest;
    assert SkipSpace(p) == p;
    assert DigitRun(p) == 1;
    assert p[..1] == [Digit(i)] && p[..1][..0] == "";
    assert Value(p[..1]) == i;
  }

  lemma ShelfIndexed(i: nat, tail: string)
    requires i < 10
    ensures Indexed("shelf[" + Decimal(i) + "]." + tail) == Some(Prefix(1, i, tail))
    ensures StripRoot("shelf[" + Decimal(i) + "]." + tail) == "shelf[" + Decimal(i) + "]." + tail
    ensures StripRoot("cfg.shelf[" + Decimal(i) + "]." + tail) == "shelf[" + Decimal(i) + "]." + tail
  {
    hide Strtol, Decimal, Value;
    var rest := "]." + tail;
    var p := "shelf[" + Decimal(i) + "]." + tail;
    StrtolDigit(i, rest);
    assert p == "shelf[" + (Decimal(i) + rest);
    assert p[..6] == "shelf[" && p[6..] == Decimal(i) + rest && rest[2..] == tail;
    assert p[..4][0] == 's' && p[..3][0] == 's';
    var q := "cfg.shelf[" + Decimal(i) + "]." + tail;
    assert q[..4] == "cfg." && q[4..] == p;
  }

  lemma AuxIndexed(i: nat, tail: string)
    requires i < 10
    ensures Indexed("aux[" + Decimal(i) + "]." + tail) == Some(Prefix(2, i, tail))
    ensures StripRoot("cfg.aux[" + Decimal(i) + "]." + tail) == "aux[" + Decimal(i) + "]." + tail
  {
    hide Strtol, Decimal, Value;
    var rest := "]." + tail;
    var p := "aux[" + Decimal(i) + "]." + tail;
    StrtolDigit(i, rest);
    assert p == "aux[" + (Decimal(i) + rest);
    assert p[..4] == "aux[" && p[4..] == Decimal(i) + rest && rest[2..] == tail;
    if |p| >= 6 { assert p[..6][0] == 'a'; }
    var q := "cfg.aux[" + Decimal(i) + "]." + tail;
    assert q[..4] == "cfg." && q[4..] == p;
  }

  /** A path without an index prefix is left as it is. */
  lemma PlainIndexed(p: string)
    requires |p| >= 4 && Upper(p[0]) != 'S' && p[3] != '['
    ensures Indexed(p) == Some(Prefix(0, -1, p))
  {
    assert |p| >= 6 ==> p[..6][0] == p[0];
    assert p[..4][3] == p[3];
    assert Upper("shelf["[0]) == 'S' && Upper("aux["[3]) == '[' && Upper(p[3]) != '[';
  }

  lemma ShortPath(i: nat, name: string, key: string)
    requires i < 10 && |name| <= 7 && |key| <= 16
    ensures |"cfg.shelf[" + Decimal(i) + "]." + name + "." + key| < PATH_MAX
    ensures |"cfg.aux[" + Decimal(i) + "]." + name + "." + key| < PATH_MAX
  {
  }

  lemma ShelfFieldLocates(g: Group, idx: int, k: nat)
    requires IsSlot(g, idx) && k < |Rows(g)| && Scope(g) == 1
    ensures Locate(FieldPath(g, idx, Rows(g)[k].key)) == Some(Located(g, idx, k))
  {
    hide Rows, Decimal, Indexed, StripRoot, Resolve, GroupFind, IndexOf, CiEq, GroupName;
    var name, key := GroupName(g), Rows(g)[k].key;
    FieldWords(g, k);
    var tail := name + "." + key;
    ShelfIndexed(idx, tail);
    ShortPath(idx, name, key);
    GroupKeyResolves(g, k, name, key, Prefix(1, idx, tail));
    assert FieldPath(g, idx, key) == "cfg.shelf[" + Decimal(idx) + "]." + tail;
  }

  lemma AuxFieldLocates(idx: int, k: nat)
    requires IsSlot(AUX, idx) && k < |Rows(AUX)|
    ensures Locate(FieldPath(AUX, idx, Rows(AUX)[k].key)) == Some(Located(AUX, idx, k))
  {
    hide Rows, Decimal, Indexed, StripRoot, Resolve, GroupFind, IndexOf, CiEq, GroupName;
    var name, key := GroupName(AUX), Rows(AUX)[k].key;
    FieldWords(AUX, k);
    var tail := name + "." + key;
    AuxIndexed(idx, tail);
    ShortPath(idx, name, key);
    GroupKeyResolves(AUX, k, name, key, Prefix(2, idx, tail));
    assert FieldPath(AUX, idx, key) == "cfg.aux[" + Decimal(idx) + "]." + tail;
  }

  lemma ZoneFieldLocates(k: nat)
    requires k < |Rows(ZONECFG)|
    ensures Locate(FieldPath(ZONECFG, -1, Rows(ZONECFG)[k].key)) == Some(Located(ZONECFG, -1, k))
  {
    hide Rows, Indexed, StripRoot, Resolve, GroupFind, IndexOf, CiEq;
    var name, key := "ZONECFG", Rows(ZONECFG)[k].key;
    FieldWords(ZONECFG, k);
    var tail := name + "." + key;
    ZoneRoot(tail);
    assert tail[0] == 'Z' && tail[3] == 'E';
    PlainIndexed(tail);
    GroupKeyResolves(ZONECFG, k, name, key, Prefix(0, -1, tail));
    assert FieldPath(ZONECFG, -1, key) == "cfg." + tail;
  }

  /** What the two words of a field's path are like. */
  lemma FieldWords(g: Group, k: nat)
    requires k < |Rows(g)|
    ensures var name, key := GroupName(g), Rows(g)[k].key;
      && '.' !in name && 2 <= |name| <= 7 && '.' !in key && key != "" && |key| <= 16
      && CiEq(name, name) && CiEq(key, key)
  {
    hide Rows;
    GroupPlain(g);
    KeysPlain(g, k);
    KeyNotEmpty(g, k);
  }

  /** Every path printed for a field and an in-range index locates back to that field. */
  lemma FieldPathLocates(g: Group, idx: int, k: nat)
    requires IsSlot(g, idx) && k < |Rows(g)|
    ensures Locate(FieldPath(g, idx, Rows(g)[k].key)) == Some(Located(g, idx, k))
  {
    hide Rows, FieldPath, Locate;
    if Scope(g) == 1 { ShelfFieldLocates(g, idx, k); }
    else if Scope(g) == 2 { AuxFieldLocates(idx, k); }
    else { ZoneFieldLocates(k); }
  }

  lemma ZoneRoot(tail: string)
    ensures StripRoot("cfg." + tail) == tail
  {
  }

  lemma KeyNotEmpty(g: Group, k: nat)
    requires k < |Rows(g)|
    ensures Rows(g)[k].key != ""
  {
    hide Rows, Tagged, TaggedFrom;
    var tags := TagsOf(g);
    TaggedRow(Rows(g), tags, k);
  }

  lemma TaggedRow(rows: seq<Field>, tags: seq<Tag>, k: nat)
    requires Tagged(rows, tags) && k < |rows|
    ensures rows[k].key != ""
  {
    hide TagOf, TaggedFrom;
    TaggedAt(rows, tags, 0, k);
  }

  /** A bad value reported by the JSON merge is printed with the very same path. */
  lemma JsonPathIsFieldPath(g: Group, idx: int, key: string)
    requires IsSlot(g, idx)
    ensures JsonPath(g, idx, key) == FieldPath(g, idx, key)
  {
    hide Decimal, GroupName;
    if idx >= 0 {
      var d, tail := Decimal(idx), GroupName(g) + "." + key;
      assert "cfg." + ("shelf" + ("[" + d + "]") + ".") == "cfg.shelf[" + d + "].";
      assert "cfg." + ("aux" + ("[" + d + "]") + ".") == "cfg.aux[" + d + "].";
    } else {
      assert "cfg." + "" == "cfg.";
    }
  }

  // ---------------- validation's own paths ----------------

  /** A fault names a row of a config group, with a shelf exactly for the shelf-scoped groups. */
  ghost predicate FaultOk(f: Fault) {
    && !IsHw(f.group)
    && (if Scope(f.group) == 1 then 0 <= f.shelf < MAX_SHELVES else f.shelf == -1)
    && exists k: nat :: k < |Rows(f.group)| && Rows(f.group)[k].key == f.key
  }

  lemma RowFault(g: Group, v: seq<Val>, shelf: int)
    requires |v| == |Rows(g)| && !IsHw(g) && (if Scope(g) == 1 then 0 <= shelf < MAX_SHELVES else shelf == -1)
    ensures CheckRows(g, v, shelf).Some? ==> FaultOk(CheckRows(g, v, shelf).value)
  {
    hide Rows, InBounds;
  }

  /** The keys the validator spells out itself are rows too. */
  lemma SpelledKeys(s: nat)
    requires s < MAX_SHELVES
    ensures FaultOk(Fault(-1, ZONECFG, "NAME")) && FaultOk(Fault(s, SHELF, "CROP")) && FaultOk(Fault(s, SHELF, "ENABLED"))
    ensures FaultOk(Fault(s, LIGHT, "OFF")) && FaultOk(Fault(s, WATER, "DOSE_S")) && FaultOk(Fault(s, WATER, "MAX_DOSES"))
  {
    assert Rows(ZONECFG)[0].key == "NAME" && Rows(SHELF)[0].key == "CROP" && Rows(SHELF)[1].key == "ENABLED";
    assert Rows(LIGHT)[1].key == "OFF" && Rows(WATER)[4].key == "DOSE_S" && Rows(WATER)[6].key == "MAX_DOSES";
  }

  lemma {:induction false} AuxFault(m: seq<Byte>, a: nat)
    requires |m| == SIZE && a <= MAX_AUX
    ensures CheckAux(m, a).Some? ==> FaultOk(CheckAux(m, a).value)
    decreases MAX_AUX - a
  {
    hide CheckRows, Vals, FaultOk, Rows;
    if a < MAX_AUX {
      RowFault(AUX, Vals(m, AUX, a), -1);
      AuxFault(m, a + 1);
    }
  }

  lemma ShelfFault(m: seq<Byte>, s: nat, hw: Option<Hw>)
    requires |m| == SIZE && s < MAX_SHELVES
    ensures CheckShelf(m, s, hw).Some? ==> FaultOk(CheckShelf(m, s, hw).value)
  {
    hide CheckRows, Vals, FaultOk, Rows, Str16Ok;
    SpelledKeys(s);
    RowFault(SHELF, Vals(m, SHELF, s), s);
    RowFault(LIGHT, Vals(m, LIGHT, s), s);
    RowFault(WATER, Vals(m, WATER, s), s);
    RowFault(FAN, Vals(m, FAN, s), s);
    RowFault(VIB, Vals(m, VIB, s), s);
  }

  lemma {:induction false} ShelvesFault(m: seq<Byte>, s: nat, hw: Option<Hw>)
    requires |m| == SIZE && s <= MAX_SHELVES
    ensures CheckShelves(m, s, hw).Some? ==> FaultOk(CheckShelves(m, s, hw).value)
    decreases MAX_SHELVES - s
  {
    hide CheckShelf, FaultOk;
    if s < MAX_SHELVES {
      ShelfFault(m, s, hw);
      ShelvesFault(m, s + 1, hw);
    }
  }

  lemma ValidateFault(m: seq<Byte>, hw: Option<Hw>)
    requires |m| == SIZE
    ensures Validate(m, hw).Some? ==> FaultOk(Validate(m, hw).value)
  {
    hide CheckRows, CheckAux, CheckShelves, Vals, FaultOk, Rows, Str16Ok;
    SpelledKeys(0);
    RowFault(ZONECFG, Vals(m, ZONECFG, -1), -1);
    AuxFault(m, 0);
    ShelvesFault(m, 0, hw);
  }

  /** The lower-case words of a fault's path. */
  lemma FaultWords(g: Group, k: nat)
    requires k < |Rows(g)|
    ensures var lg, lk := LowerAll(Short(GroupName(g), 11)), LowerAll(Short(Rows(g)[k].key, 23));
      && CiEq(lg, GroupName(g)) && CiEq(lk, Rows(g)[k].key) && '.' !in lg && '.' !in lk && lk != ""
      && 2 <= |lg| <= 7 && |lk| <= 16
  {
    hide Rows, LowerAll;
    GroupPlain(g);
    KeysPlain(g, k);
    KeyNotEmpty(g, k);
    LowerPlain(Rows(g)[k].key);
    LowerIsSame(GroupName(g));
    LowerIsSame(Rows(g)[k].key);
  }

  lemma ShelfFaultLocates(g: Group, shelf: nat, k: nat)
    requires k < |Rows(g)| && Scope(g) == 1 && shelf < MAX_SHELVES
    ensures Locate(FailPath(Fault(shelf, g, Rows(g)[k].key))) == Some(Located(g, shelf, k))
  {
    hide Rows, Decimal, Indexed, StripRoot, Resolve, GroupFind, IndexOf, CiEq, GroupName, LowerAll, Short;
    var lg, lk := LowerAll(Short(GroupName(g), 11)), LowerAll(Short(Rows(g)[k].key, 23));
    FaultWords(g, k);
    StrtolDigit(shelf, "");
    if g == SHELF {
      ShelfIndexed(shelf, lk);
      BareKeyResolves(k, lk, shelf);
    } else {
      var tail := lg + "." + lk;
      ShelfIndexed(shelf, tail);
      GroupKeyResolves(g, k, lg, lk, Prefix(1, shelf, tail));
    }
  }

  /** A SHELF key carries no group name in a fault's path. */
  lemma BareKeyResolves(k: nat, key: string, shelf: nat)
    requires k < |Rows(SHELF)| && CiEq(key, Rows(SHELF)[k].key) && '.' !in key && shelf < MAX_SHELVES
    ensures IndexOf(key, '.') == |key|
    ensures Resolve(SHELF, Prefix(1, shelf, key), key) == Some(Located(SHELF, shelf, k))
  {
    hide Rows, CiEq, FindRow;
    IndexOfNone(key);
    FoundRow(SHELF, key, k, 0);
  }

  lemma ZoneFaultLocates(g: Group, k: nat)
    requires k < |Rows(g)| && (g == ZONECFG || g == AUX)
    ensures Locate(FailPath(Fault(-1, g, Rows(g)[k].key))) == Some(Located(g, -1, k))
  {
    hide Rows, Indexed, StripRoot, Resolve, GroupFind, IndexOf, CiEq, LowerAll, Short;
    var lg, lk := LowerAll(Short(GroupName(g), 11)), LowerAll(Short(Rows(g)[k].key, 23));
    FaultWords(g, k);
    var tail := lg + "." + lk;
    LowerNames();
    PlainIndexed(tail);
    NoRoot(tail);
    GroupKeyResolves(g, k, lg, lk, Prefix(0, -1, tail));
  }

  lemma LowerNames()
    ensures LowerAll(Short(GroupName(ZONECFG), 11)) == "zonecfg" && LowerAll(Short(GroupName(AUX), 11)) == "aux"
    ensures LowerAll(Short(GroupName(HW), 11)) == "hw"
  {
  }

  lemma NoRoot(p: string)
    requires |p| >= 4 && Upper(p[0]) != 'C' && Upper(p[0]) != 'H'
    ensures StripRoot(p) == p
  {
  }

  /**
   Every path hg_cfg_validate fails with locates to the offending row, with its shelf for a
   shelf fault and -1 for a zone or aux fault.
   */
  lemma FaultLocates(m: seq<Byte>, hw: Option<Hw>)
    requires |m| == SIZE && Validate(m, hw).Some?
    ensures var f := Validate(m, hw).value;
      exists k: nat :: k < |Rows(f.group)| && Rows(f.group)[k].key == f.key
        && Locate(FailPath(f)) == Some(Located(f.group, f.shelf, k))
  {
    hide Rows, Locate, FailPath, Validate;
    ValidateFault(m, hw);
    var f := Validate(m, hw).value;
    var k: nat :| k < |Rows(f.group)| && Rows(f.group)[k].key == f.key;
    if Scope(f.group) == 1 { ShelfFaultLocates(f.group, f.shelf, k); } else { ZoneFaultLocates(f.group, k); }
  }

  /**
   The hardware plane's zone-wide paths are another matter: their group name doubles as a
   root the parser strips, so none of them locates. Its shelf paths do.
   */
  lemma HardwareFaults(g: Group, shelf: int, k: nat)
    requires IsHw(g) && k < |Rows(g)| && (if g == HW then shelf == -1 else 0 <= shelf < MAX_SHELVES)
    ensures Locate(FailPath(Fault(shelf, g, Rows(g)[k].key))) ==
      if g == HW then None else Some(Located(g, shelf, k))
  {
    if g == HW {
      KeysPlain(HW, k);
      HwZoneLost(Rows(HW)[k].key);
    } else {
      ShelfFaultLocates(g, shelf, k);
    }
  }

  /** Whatever key a zone-wide hardware path carries, be it a row's or the aux pins' own. */
  lemma HwZoneLost(key: string)
    requires PlainKey(key)
    ensures Locate(FailPath(Fault(-1, HW, key))) == None
  {
    hide Rows, Indexed, Resolve, GroupFind, IndexOf, CiEq, LowerAll, Short;
    var lk := LowerAll(Short(key, 23));
    LowerPlain(key);
    LowerNames();
    assert "hw" + "." + lk == "hw." + lk;
    HwRoot(lk);
    IndexOfNone(lk);
    NoIndex(lk);
  }

  /** A hardware fault names a row, of a shelf or of the zone, or the aux pins. */
  ghost predicate HwFaultOk(f: Fault) {
    && IsHw(f.group)
    && (if f.group == HW then f.shelf == -1 else 0 <= f.shelf < MAX_SHELVES)
    && (f == Fault(-1, HW, "AUX_PIN") || exists k: nat :: k < |Rows(f.group)| && Rows(f.group)[k].key == f.key)
  }

  lemma HwRowFault(g: Group, v: seq<Val>, shelf: int)
    requires |v| == |Rows(g)| && IsHw(g) && (if g == HW then shelf == -1 else 0 <= shelf < MAX_SHELVES)
    ensures CheckRows(g, v, shelf).Some? ==> HwFaultOk(CheckRows(g, v, shelf).value)
  {
    hide Rows, InBounds;
  }

  /** The keys hg_hw_validate spells out itself are rows too, all but AUX_PIN. */
  lemma SpelledHwKeys(s: nat, b: V.Bus, k: nat)
    requires s < MAX_SHELVES
    ensures HwFaultOk(Fault(s, HWSHELF, V.WireKey(b, k)))
    ensures HwFaultOk(Fault(s, CAL, "MIN_OK")) && HwFaultOk(Fault(s, CAL, "DRY_A")) && HwFaultOk(Fault(s, CAL, "DRY_B"))
  {
    hide Rows;
    HwShelfKeys();
    CalKeys();
  }

  lemma HwShelfKeys()
    ensures |Rows(HWSHELF)| == 11
    ensures Rows(HWSHELF)[0].key == "LED_W" && Rows(HWSHELF)[1].key == "LED_R" && Rows(HWSHELF)[6].key == "VIB"
    ensures Rows(HWSHELF)[2].key == "PUMP" && Rows(HWSHELF)[3].key == "FAN"
    ensures Rows(HWSHELF)[4].key == "SOIL_A" && Rows(HWSHELF)[5].key == "SOIL_B"
  {
  }

  lemma CalKeys()
    ensures |Rows(CAL)| == 6
    ensures Rows(CAL)[0].key == "DRY_A" && Rows(CAL)[1].key == "DRY_B" && Rows(CAL)[4].key == "MIN_OK"
  {
  }

  lemma HwShelfNamesRow(h: V.Plane, s: nat)
    requires V.Shaped(h) && s < MAX_SHELVES
    ensures V.HwShelfFault(h, s).Some? ==> HwFaultOk(V.HwShelfFault(h, s).value) && V.HwShelfFault(h, s).value.shelf == s
  {
    hide Rows, CheckRows, HwFaultOk, V.FirstClash, V.Wired, V.OnShelf, V.WireKey;
    HwRowFault(HWSHELF, h.shelf[s].wires, s);
    HwRowFault(CAL, h.shelf[s].cal, s);
    FaultShelf(HWSHELF, h.shelf[s].wires, s);
    FaultShelf(CAL, h.shelf[s].cal, s);
    forall b: V.Bus, k: nat ensures HwFaultOk(Fault(s, HWSHELF, V.WireKey(b, k))) { SpelledHwKeys(s, b, k); }
    SpelledHwKeys(s, V.PCA, 0);
  }

  lemma FaultShelf(g: Group, v: seq<Val>, shelf: int)
    requires |v| == |Rows(g)|
    ensures CheckRows(g, v, shelf).Some? ==> CheckRows(g, v, shelf).value.shelf == shelf
  {
    hide Rows, InBounds;
  }

  lemma {:induction false} HwFromNamesRow(h: V.Plane, s: nat)
    requires V.Shaped(h) && s <= V.Shelves(h)
    ensures V.HwFaultFrom(h, s).Some? ==> HwFaultOk(V.HwFaultFrom(h, s).value)
    decreases V.Shelves(h) - s
  {
    hide HwFaultOk, V.HwShelfFault, V.Wired, V.ClashFree, V.Shaped;
    if s < V.Shelves(h) {
      HwShelfNamesRow(h, s);
      HwFromNamesRow(h, s + 1);
    } else {
      assert HwFaultOk(Fault(-1, HW, "AUX_PIN")) by { AuxPinOk(); }
    }
  }

  lemma AuxPinOk()
    ensures HwFaultOk(Fault(-1, HW, "AUX_PIN")) && PlainKey("AUX_PIN")
  {
  }

  /**
   For every plane hg_hw_validate refuses: the path it reports locates exactly if the fault
   is on a shelf, and then to the row it names on that shelf.
   */
  lemma HwFaultLocates(h: V.Plane)
    requires V.Shaped(h) && V.HwFault(h).Some?
    ensures var f := V.HwFault(h).value;
      && (Locate(FailPath(f)).Some? <==> f.shelf >= 0)
      && (f.shelf >= 0 ==>
            exists k: nat :: k < |Rows(f.group)| && Rows(f.group)[k].key == f.key
              && Locate(FailPath(f)) == Some(Located(f.group, f.shelf, k)))
  {
    hide Rows, Locate, FailPath, CheckRows, V.HwFaultFrom;
    HwRowFault(HW, h.zone, -1);
    HwFromNamesRow(h, 0);
    var f := V.HwFault(h).value;
    if f == Fault(-1, HW, "AUX_PIN") {
      AuxPinOk();
      HwZoneLost("AUX_PIN");
    } else {
      var k: nat :| k < |Rows(f.group)| && Rows(f.group)[k].key == f.key;
      HardwareFaults(f.group, f.shelf, k);
    }
  }

  lemma HwRoot(tail: string)
    ensures StripRoot("hw." + tail) == tail
  {
    var q := "hw." + tail;
    assert q[..3] == "hw." && q[3..] == tail;
    if |q| >= 4 { assert q[..4][0] == 'h'; }
    assert Upper("cfg."[0]) == 'C';
  }

  /** A bare word has no index prefix, or none that parses into something without a group. */
  lemma NoIndex(p: string)
    requires '.' !in p
    ensures Indexed(p).Some? ==> Indexed(p).value == Prefix(0, -1, p)
  {
    hide CiEq;
    var kind := if PrefixCi(p, "shelf[") then 1 else if PrefixCi(p, "aux[") then 2 else 0;
    if kind != 0 {
      var u := p[if kind == 1 then 6 else 4..];
      StrtolTail(u);
      if Strtol(u).Some? && |Strtol(u).value.1| >= 2 { assert Strtol(u).value.1[1] in u; }
    }
  }

  lemma StrtolTail(u: string)
    ensures Strtol(u).Some? ==> forall c :: c in Strtol(u).value.1 ==> c in u
  {
    hide Value, Digits;
    SpaceTail(u);
  }

  lemma {:induction false} SpaceTail(u: string)
    ensures forall c :: c in SkipSpace(u) ==> c in u
  {
    if u != "" && IsSpace(u[0]) { SpaceTail(u[1..]); }
  }

  // ---------------- a batch of edits ----------------

  /** One edit of psvc_zone_fields_fn: a row of the table, an index, the new text. */
  datatype Edit = Edit(g: Group, k: nat, idx: int, text: string)

  datatype Edited = Edited(m: seq<Byte>, bad: Option<string>)

  /** The index an edit really uses. */
  function SlotIdx(e: Edit): int { if Scope(e.g) == 0 then -1 else e.idx }

  function EditOne(m: seq<Byte>, e: Edit): (r: Edited)
    requires |m| == SIZE && e.k < |Rows(e.g)|
    ensures |r.m| == SIZE && (r.bad.Some? ==> r.m == m)
  {
    var key := Rows(e.g)[e.k].key;
    if IsHw(e.g) then Edited(m, Some("hw." + GroupName(e.g) + "." + key))
    else if !IsSlot(e.g, SlotIdx(e)) then Edited(m, Some(FieldPath(e.g, SlotIdx(e), key)))
    else
      RowFits(e.g, SlotIdx(e), e.k);
      var w := Write(Rows(e.g)[e.k], m, At(e.g, SlotIdx(e)), e.text);
      if w.1 != 0 then Edited(m, Some(FieldPath(e.g, SlotIdx(e), key))) else Edited(w.0, None)
  }

  predicate EditsOk(es: seq<Edit>) { forall i :: 0 <= i < |es| ==> es[i].k < |Rows(es[i].g)| }

  function EditAll(m: seq<Byte>, es: seq<Edit>): (r: Edited)
    requires |m| == SIZE && EditsOk(es)
    ensures |r.m| == SIZE
    decreases |es|
  {
    if es == [] then Edited(m, None)
    else
      var r := EditOne(m, es[0]);
      if r.bad.Some? then r else EditAll(r.m, es[1..])
  }

  /** psvc_zone_fields_fn: the edits in order, stopping at the first bad one. */
  method ZoneFields(cfg: seq<Byte>, es: seq<Edit>) returns (r: Edited)
    requires |cfg| == SIZE && EditsOk(es)
    ensures r == EditAll(cfg, es)
  {
    hide EditOne, Rows;
    var m := cfg;
    var i := 0;
    while i < |es|
      invariant i <= |es| && |m| == SIZE
      invariant EditAll(cfg, es) == EditAll(m, es[i..])
    {
      assert es[i..][0] == es[i] && es[i..][1..] == es[i + 1..];
      r := EditOne(m, es[i]);
      if r.bad.Some? { return; }
      m := r.m;
      i := i + 1;
    }
    r := Edited(m, None);
  }

  /**
   A refused batch names its first bad edit: all before it went in, and the reported path
   locates to that edit's row when it is a config row with an index in range.
   */
  lemma {:induction false} FirstBadEdit(m: seq<Byte>, es: seq<Edit>) returns (n: nat)
    requires |m| == SIZE && EditsOk(es) && EditAll(m, es).bad.Some?
    ensures n < |es| && EditAll(m, es[..n]) == Edited(EditAll(m, es).m, None)
    ensures EditOne(EditAll(m, es).m, es[n]).bad == EditAll(m, es).bad
    ensures !IsHw(es[n].g) && IsSlot(es[n].g, SlotIdx(es[n])) ==>
      Locate(EditAll(m, es).bad.value) == Some(Located(es[n].g, SlotIdx(es[n]), es[n].k))
    decreases |es|
  {
    hide Rows, Locate, FieldPath, Write, IsSlot;
    var r := EditOne(m, es[0]);
    if r.bad.Some? {
      n := 0;
      assert es[..0] == [];
      if !IsHw(es[0].g) && IsSlot(es[0].g, SlotIdx(es[0])) { FieldPathLocates(es[0].g, SlotIdx(es[0]), es[0].k); }
    } else {
      n := FirstBadEdit(r.m, es[1..]);
      assert es[1..][n] == es[n + 1] && es[..n + 1][1..] == es[1..][..n] && es[..n + 1][0] == es[0];
      n := n + 1;
    }
  }
}
