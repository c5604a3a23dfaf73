/**
 The text forms the configuration code shares: case-insensitive comparison, decimal
 numbers as %d prints and strtol reads them, and HH:MM times
 (components/hg_cfg/hg_cfg_fields.c).
 */
module Text {
  import opened Wrappers

  // ---------------- letters ----------------

  function Upper(c: char): char { if 'a' <= c <= 'z' then (c as int - 32) as char else c }

  function Lower(c: char): char { if 'A' <= c <= 'Z' then (c as int + 32) as char else c }

  function LowerAll(s: string): (r: string)
    ensures |r| == |s| && forall i :: 0 <= i < |s| ==> r[i] == Lower(s[i])
  {
    seq(|s|, i requires 0 <= i < |s| => Lower(s[i]))
  }

  /** ci_eq */
  predicate CiEq(a: string, b: string) {
    |a| == |b| && forall i :: 0 <= i < |a| ==> Upper(a[i]) == Upper(b[i])
  }

  lemma LowerIsSame(s: string)
    ensures CiEq(LowerAll(s), s)
  {
  }

  lemma UpperLower(a: char, b: char)
    ensures Upper(a) == Upper(b) <==> Lower(a) == Lower(b)
  {
  }

  /** Equal up to letter case: equal once both are in lower case. */
  lemma CiEqIsLower(a: string, b: string)
    ensures CiEq(a, b) <==> LowerAll(a) == LowerAll(b)
  {
    hide Upper, Lower;
    forall i | 0 <= i < |a| && i < |b| ensures Upper(a[i]) == Upper(b[i]) <==> Lower(a[i]) == Lower(b[i]) {
      UpperLower(a[i], b[i]);
    }
    if LowerAll(a) == LowerAll(b) {
      assert |a| == |LowerAll(a)| == |b|;
      forall i | 0 <= i < |a| ensures Upper(a[i]) == Upper(b[i]) {
        assert LowerAll(a)[i] == LowerAll(b)[i];
      }
    }
  }

  // ---------------- decimal ----------------

  predicate IsDigit(c: char) { '0' <= c <= '9' }

  predicate Digits(s: string) { forall i :: 0 <= i < |s| ==> IsDigit(s[i]) }

  function Digit(n: nat): (c: char)
    requires n < 10
    ensures IsDigit(c)
  {
    ('0' as int + n) as char
  }

  function Decimal(n: nat): (r: string)
    ensures r != "" && Digits(r)
  {
    if n < 10 then [Digit(n)] else Decimal(n / 10) + [Digit(n % 10)]
  }

  /** The number a digit string spells. */
  function Value(s: string): nat
    requires Digits(s)
  {
    if s == "" then 0 else 10 * Value(s[..|s| - 1]) + (s[|s| - 1] as int - '0' as int)
  }

  lemma {:induction false} ValueOfDecimal(n: nat)
    ensures Value(Decimal(n)) == n
  {
    var d := Decimal(n);
    if n >= 10 {
      ValueOfDecimal(n / 10);
      assert d[..|d| - 1] == Decimal(n / 10);
    } else {
      assert d[..0] == "";
    }
  }

  function SignedDecimal(n: int): (r: string)
    ensures r != ""
  {
    if n < 0 then "-" + Decimal(-n) else Decimal(n)
  }

  predicate IsSpace(c: char) { c == ' ' || '\t' <= c <= '\r' }

  function SkipSpace(s: string): string {
    if s != "" && IsSpace(s[0]) then SkipSpace(s[1..]) else s
  }

  /** parse_int: strtol to the very end; None for anything left over or no digits at all. */
  function ParseInt(s: string): Option<int> {
    var t := SkipSpace(s);
    var u := if t != "" && (t[0] == '-' || t[0] == '+') then t[1..] else t;
    if u == "" || !Digits(u) then None
    else
      var v: int := Value(u);
      Some(if t[0] == '-' then -v else v)
  }

  /** What %d prints, strtol reads back. */
  lemma ParseOfSigned(n: int)
    ensures ParseInt(SignedDecimal(n)) == Some(n)
  {
    hide Decimal;
    var d := Decimal(if n < 0 then -n else n);
    ValueOfDecimal(if n < 0 then -n else n);
    assert IsDigit(d[0]);
    if n < 0 { assert SignedDecimal(n)[1..] == d; }
  }

  // ---------------- HH:MM ----------------

  function Two(n: nat): (s: string)
    requires n < 100
    ensures |s| == 2 && Digits(s)
  {
    [Digit(n / 10), Digit(n % 10)]
  }

  function HhmmFormat(minutes: nat): string {
    var m := minutes % 1440;
    Two(m / 60) + ":" + Two(m % 60)
  }

  /** The position of the first occurrence of c, |s| if there is none. */
  function IndexOf(s: string, c: char): (i: nat)
    ensures i <= |s| && (i < |s| ==> s[i] == c)
    ensures forall k :: 0 <= k < i ==> s[k] != c
  {
    if s == "" || s[0] == c then 0 else 1 + IndexOf(s[1..], c)
  }

  /** HH:MM or integer minutes; None for anything outside 0..1439. */
  function HhmmParse(s: string): Option<int> {
    var colon := IndexOf(s, ':');
    if colon == |s| then
      match ParseInt(s)
      case Some(v) => if 0 <= v <= 1439 then Some(v) else None
      case None => None
    else if !(1 <= colon <= 2) || |s| - colon - 1 != 2 then None
    else
      match ParseInt(s[..colon])
      case None => None
      case Some(h) =>
        match ParseInt(s[colon + 1..])
        case None => None
        case Some(m) => if 0 <= h <= 23 && 0 <= m <= 59 then Some(60 * h + m) else None
  }

  lemma HhmmParseRange(s: string)
    ensures HhmmParse(s).Some? ==> 0 <= HhmmParse(s).value <= 1439
  {
  }

  lemma ParseTwo(n: nat)
    requires n < 100
    ensures ParseInt(Two(n)) == Some(n)
  {
    var s := Two(n);
    assert s[..1] == [Digit(n / 10)] && s[..1][..0] == "";
    assert Value(s[..1]) == n / 10;
  }

  /** Every minute of the day survives being printed and parsed. */
  lemma HhmmRoundTrip(m: nat)
    requires m < 1440
    ensures HhmmParse(HhmmFormat(m)) == Some(m)
  {
    hide ParseInt, Two;
    var s := HhmmFormat(m);
    ParseTwo(m / 60);
    ParseTwo(m % 60);
    assert s[2] == ':' && s[..2] == Two(m / 60) && s[3..] == Two(m % 60);
    assert IsDigit(s[..2][0]) && IsDigit(s[..2][1]);
  }

  lemma {:induction false} IndexOfIs(s: string, c: char, i: nat)
    requires i < |s| && s[i] == c && forall k :: 0 <= k < i ==> s[k] != c
    ensures IndexOf(s, c) == i
  {
  }

  lemma {:induction false} NoColon(s: string)
    requires Digits(s)
    ensures IndexOf(s, ':') == |s|
  {
    if s != "" { NoColon(s[1..]); }
  }

  /** A clock reading, the hour in one digit or two: every one of a day, and no other. */
  lemma HhmmReads(h: nat, m: nat)
    requires h < 100 && m < 100
    ensures HhmmParse(Two(h) + ":" + Two(m)) == if h < 24 && m < 60 then Some(60 * h + m) else None
    ensures h < 10 ==> HhmmParse(Decimal(h) + ":" + Two(m)) == if m < 60 then Some(60 * h + m) else None
  {
    hide ParseInt, Two;
    ParseTwo(h);
    ParseTwo(m);
    HhmmSplit(Two(h), Two(m));
    if h < 10 {
      ParseOfSigned(h);
      HhmmSplit(Decimal(h), Two(m));
    }
  }

  lemma HhmmSplit(h: string, m: string)
    requires Digits(h) && 1 <= |h| <= 2 && Digits(m) && |m| == 2
    ensures IndexOf(h + ":" + m, ':') == |h|
    ensures (h + ":" + m)[..|h|] == h && (h + ":" + m)[|h| + 1..] == m
  {
    var s := h + ":" + m;
    forall k | 0 <= k < |h| ensures s[k] != ':' { assert s[k] == h[k] && IsDigit(h[k]); }
    IndexOfIs(s, ':', |h|);
  }

  /** Without a colon it is minutes of the day. */
  lemma MinutesRead(n: nat)
    ensures HhmmParse(Decimal(n)) == if n <= 1439 then Some(n) else None
  {
    hide ParseInt, Decimal;
    ParseOfSigned(n);
    NoColon(Decimal(n));
  }

  // ---------------- enumerations ----------------

  function FindName(names: seq<string>, val: string, i: nat): (r: nat)
    requires i <= |names|
    ensures i <= r <= |names| && (r < |names| ==> CiEq(names[r], val))
    ensures forall k :: i <= k < r ==> !CiEq(names[k], val)
    decreases |names| - i
  {
    if i == |names| || CiEq(names[i], val) then i else FindName(names, val, i + 1)
  }

  /** A name in any letter case, or the number of one. */
  function EnumParse(names: seq<string>, val: string): Option<int> {
    var i := FindName(names, val, 0);
    if i < |names| then Some(i)
    else
      match ParseInt(val)
      case Some(v) => if 0 <= v < |names| then Some(v) else None
      case None => None
  }

  predicate NamesDiffer(names: seq<string>) {
    forall i, j :: 0 <= i < j < |names| ==> !CiEq(names[i], names[j])
  }

  /** An enumeration is read by name in any letter case, else by number, else not at all. */
  lemma EnumReads(names: seq<string>, val: string)
    requires NamesDiffer(names)
    ensures forall i: nat :: i < |names| && LowerAll(val) == LowerAll(names[i]) ==> EnumParse(names, val) == Some(i)
    ensures (forall i: nat :: i < |names| ==> LowerAll(val) != LowerAll(names[i])) ==>
      EnumParse(names, val) ==
        if ParseInt(val).Some? && 0 <= ParseInt(val).value < |names| then ParseInt(val) else None
  {
    hide CiEq, LowerAll, ParseInt;
    forall i: nat | i < |names| ensures CiEq(names[i], val) <==> LowerAll(val) == LowerAll(names[i]) {
      CiEqIsLower(names[i], val);
    }
    var r := FindName(names, val, 0);
    forall i: nat | i < |names| && LowerAll(val) == LowerAll(names[i]) ensures i == r {
      if r < i { SameNames(names, val, r, i); }
    }
  }

  lemma SameNames(names: seq<string>, val: string, r: nat, i: nat)
    requires NamesDiffer(names) && r < i < |names| && CiEq(names[i], val)
    ensures !CiEq(names[r], val)
  {
    assert !CiEq(names[r], names[i]);
  }

  lemma EnumRoundTrip(names: seq<string>, i: nat)
    requires i < |names| && NamesDiffer(names)
    ensures EnumParse(names, names[i]) == Some(i)
  {
  }
}
