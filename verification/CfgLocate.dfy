/**
 What pcfg_locate (components/panel_ui/pcfg_gen.c) accepts, in both directions: a path is
 located exactly if it spells a row of the table behind an index that row's scope allows.
 */
module CfgLocate {
  import opened Wrappers
  import opened Text
  import opened CfgFields
  import opened CfgPath

  // ---------------- the number in an index ----------------

  predicate Blank(s: string) { forall i :: 0 <= i < |s| ==> IsSpace(s[i]) }

  /** Blanks, a sign or none, digits, and what is no digit. */
  predicate Parts(p: string, blanks: string, sign: string, digits: string, rest: string) {
    && p == blanks + (sign + (digits + rest)) && Blank(blanks) && sign in {"", "+", "-"}
    && digits != "" && Digits(digits) && (rest != "" ==> !IsDigit(rest[0]))
  }

  function Signed(sign: string, digits: string): int
    requires Digits(digits)
  {
    if sign == "-" then 0 - Value(digits) else Value(digits)
  }

  /** A number as strtol reads one. */
  ghost predicate Spelled(p: string, v: int, rest: string) {
    exists blanks, sign, digits :: Parts(p, blanks, sign, digits, rest) && v == Signed(sign, digits)
  }

  lemma {:induction false} BlanksSkipped(blanks: string, t: string)
    requires Blank(blanks) && (t != "" ==> !IsSpace(t[0]))
    ensures SkipSpace(blanks + t) == t
  {
    if blanks == "" {
      assert blanks + t == t;
    } else {
      assert (blanks + t)[1..] == blanks[1..] + t;
      BlanksSkipped(blanks[1..], t);
    }
  }

  lemma {:induction false} SkippedBlanks(p: string) returns (blanks: string)
    ensures p == blanks + SkipSpace(p) && Blank(blanks)
    ensures SkipSpace(p) != "" ==> !IsSpace(SkipSpace(p)[0])
  {
    if p != "" && IsSpace(p[0]) {
      var more := SkippedBlanks(p[1..]);
      blanks := [p[0]] + more;
      assert p == [p[0]] + p[1..];
    } else {
      blanks := "";
    }
  }

  lemma {:induction false} DigitsRun(digits: string, rest: string)
    requires Digits(digits) && (rest != "" ==> !IsDigit(rest[0]))
    ensures DigitRun(digits + rest) == |digits|
  {
    if digits == "" {
      assert digits + rest == rest;
    } else {
      assert (digits + rest)[1..] == digits[1..] + rest;
      DigitsRun(digits[1..], rest);
    }
  }

  lemma StrtolParts(p: string, blanks: string, sign: string, digits: string, rest: string)
    requires Parts(p, blanks, sign, digits, rest)
    ensures Strtol(p) == Some((Signed(sign, digits), rest))
  {
    hide SkipSpace, DigitRun, Value, Blank;
    var u := digits + rest;
    var t := sign + u;
    assert u[0] == digits[0];
    SignOff(sign, u);
    BlanksSkipped(blanks, t);
    DigitsRun(digits, rest);
    assert u[..|digits|] == digits && u[|digits|..] == rest;
  }

  /** What is left of a number once its sign is taken off. */
  lemma SignOff(sign: string, u: string)
    requires sign in {"", "+", "-"} && u != "" && IsDigit(u[0])
    ensures var t := sign + u;
      && !IsSpace(t[0]) && (t[0] == '-' <==> sign == "-")
      && (if t[0] == '-' || t[0] == '+' then t[1..] else t) == u
  {
    var t := sign + u;
    if sign == "" { assert t == u; } else { assert t[1..] == u; }
  }

  lemma StrtolSpells(p: string)
    requires Strtol(p).Some?
    ensures Spelled(p, Strtol(p).value.0, Strtol(p).value.1)
  {
    hide SkipSpace, DigitRun, Value, Blank;
    var blanks := SkippedBlanks(p);
    var t := SkipSpace(p);
    var signed := t != "" && (t[0] == '-' || t[0] == '+');
    var sign := if signed then t[..1] else "";
    var u := if signed then t[1..] else t;
    var digits, rest := u[..DigitRun(u)], u[DigitRun(u)..];
    assert u == digits + rest && t == sign + u;
    assert sign in {"", "+", "-"} by { if signed { assert sign == [t[0]]; } }
    assert Parts(p, blanks, sign, digits, rest);
    if signed { assert t[0] == sign[0]; } else { assert t[0] == digits[0]; }
  }

  /** strtol takes exactly the spelled numbers, with their value and what follows. */
  lemma StrtolIff(p: string, v: int, rest: string)
    ensures Strtol(p) == Some((v, rest)) <==> Spelled(p, v, rest)
  {
    hide Strtol, Blank, Digits, Value;
    if Spelled(p, v, rest) {
      var blanks, sign, digits :| Parts(p, blanks, sign, digits, rest) && v == Signed(sign, digits);
      StrtolParts(p, blanks, sign, digits, rest);
    }
    if Strtol(p).Some? { StrtolSpells(p); }
  }

  // ---------------- the whole path ----------------

  /** An index is given for the row's own scope and within it, or not at all; then it is -1. */
  predicate InScope(g: Group, x: Prefix, idx: int) {
    || (x.kind == 0 && idx == -1)
    || (x.kind == 1 && Scope(g) == 1 && 0 <= idx < 4 && idx == x.ix)
    || (x.kind == 2 && Scope(g) == 2 && 0 <= idx < 2 && idx == x.ix)
  }

  /** Group and key in any letter case; behind a shelf index the SHELF rows go without their group. */
  predicate Says(x: Prefix, g: Group, key: string) {
    CiEq(x.rest, GroupName(g) + "." + key) || (x.kind == 1 && g == SHELF && CiEq(x.rest, key))
  }

  ghost predicate Names(path: string, g: Group, idx: int, k: nat) {
    && 0 < |path| <= 95 && k < |Rows(g)|
    && exists x :: Indexed(StripRoot(path)) == Some(x) && InScope(g, x, idx) && Says(x, g, Rows(g)[k].key)
  }

  lemma NoDot(a: string, b: string)
    requires CiEq(a, b) && '.' !in b
    ensures '.' !in a
  {
    forall i | 0 <= i < |a| ensures a[i] != '.' {
      assert b[i] in b;
    }
  }

  lemma PlainIndex(p: string)
    ensures Indexed(p).Some? ==> Indexed(p).value.kind <= 2 && (Indexed(p).value.kind == 0 ==> Indexed(p).value.ix == -1)
  {
    hide Strtol, PrefixCi;
  }

  /** A name, a dot and a key, in any letter case, split at that dot. */
  lemma CiSplit(rest: string, name: string, key: string)
    requires CiEq(rest, name + "." + key)
    ensures |rest| == |name| + 1 + |key|
    ensures rest == rest[..|name|] + "." + rest[|name| + 1..]
    ensures CiEq(rest[..|name|], name) && CiEq(rest[|name| + 1..], key)
  {
    var whole := name + "." + key;
    assert whole[|name|] == '.' && Upper(rest[|name|]) == Upper('.');
    assert forall i :: 0 <= i < |name| ==> whole[i] == name[i];
    assert forall i :: 0 <= i < |key| ==> whole[|name| + 1 + i] == key[i];
  }

  lemma CiJoin(a: string, b: string, name: string, key: string)
    requires CiEq(a, name) && CiEq(b, key)
    ensures CiEq(a + "." + b, name + "." + key)
  {
  }

  lemma CiBack(a: string, b: string)
    ensures CiEq(a, b) == CiEq(b, a)
  {
  }

  /** Group and key resolve to their row. */
  lemma PairLocates(path: string, x: Prefix, g: Group, idx: int, k: nat)
    requires 0 < |path| <= 95 && k < |Rows(g)| && Indexed(StripRoot(path)) == Some(x) && InScope(g, x, idx)
    requires CiEq(x.rest, GroupName(g) + "." + Rows(g)[k].key)
    ensures Locate(path) == Some(Located(g, idx, k))
  {
    hide Rows, Indexed, StripRoot, CiEq, GroupFind, GroupName, Resolve;
    var key := Rows(g)[k].key;
    PlainIndex(StripRoot(path));
    FieldWords(g, k);
    CiSplit(x.rest, GroupName(g), key);
    var name, last := x.rest[..|GroupName(g)|], x.rest[|GroupName(g)| + 1..];
    NoDot(name, GroupName(g));
    NoDot(last, key);
    SameLength(last, key);
    GroupKeyResolves(g, k, name, last, x);
  }

  /** A bare key behind a shelf index is one of the SHELF rows. */
  lemma KeyLocates(path: string, x: Prefix, idx: int, k: nat)
    requires 0 < |path| <= 95 && k < |Rows(SHELF)| && Indexed(StripRoot(path)) == Some(x) && InScope(SHELF, x, idx)
    requires x.kind == 1 && CiEq(x.rest, Rows(SHELF)[k].key)
    ensures Locate(path) == Some(Located(SHELF, idx, k))
  {
    hide Rows, Indexed, StripRoot, CiEq, GroupFind, FindRow;
    FieldWords(SHELF, k);
    NoDot(x.rest, Rows(SHELF)[k].key);
    IndexOfNone(x.rest);
    FoundRow(SHELF, x.rest, k, 0);
  }

  lemma NamesLocate(path: string, g: Group, idx: int, k: nat)
    requires Names(path, g, idx, k)
    ensures Locate(path) == Some(Located(g, idx, k))
  {
    hide Rows, Indexed, StripRoot, CiEq, GroupName, InScope, Locate;
    var x :| Indexed(StripRoot(path)) == Some(x) && InScope(g, x, idx) && Says(x, g, Rows(g)[k].key);
    if CiEq(x.rest, GroupName(g) + "." + Rows(g)[k].key) {
      PairLocates(path, x, g, idx, k);
    } else {
      KeyLocates(path, x, idx, k);
    }
  }

  lemma SameLength(a: string, b: string)
    requires CiEq(a, b)
    ensures |a| == |b|
  {
  }

  lemma FoundName(name: string)
    requires GroupFind(name).Some?
    ensures CiEq(name, GroupName(GroupFind(name).value))
  {
    hide CiEq;
  }

  lemma LocateNames(path: string)
    requires Locate(path).Some?
    ensures var r := Locate(path).value; Names(path, r.group, r.idx, r.row)
  {
    hide Rows, Indexed, StripRoot, CiEq, GroupFind, FindRow, GroupName;
    var r := Locate(path).value;
    var x := Indexed(StripRoot(path)).value;
    var key := Rows(r.group)[r.row].key;
    PlainIndex(StripRoot(path));
    var dot := IndexOf(x.rest, '.');
    if dot == |x.rest| {
      CiBack(key, x.rest);
    } else {
      var name, last := x.rest[..dot], x.rest[dot + 1..];
      FoundName(name);
      CiBack(key, last);
      CiJoin(name, last, GroupName(r.group), key);
      assert x.rest == name + "." + last;
    }
    assert InScope(r.group, x, r.idx) && Says(x, r.group, key);
  }

  /** A path locates to a row exactly if it names it. */
  lemma LocateIff(path: string, g: Group, idx: int, k: nat)
    ensures Locate(path) == Some(Located(g, idx, k)) <==> Names(path, g, idx, k)
  {
    hide Locate, Names;
    if Names(path, g, idx, k) { NamesLocate(path, g, idx, k); }
    if Locate(path).Some? { LocateNames(path); }
  }
}
