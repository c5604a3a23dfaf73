/**
 components/hg_json/hg_json_cfg.c over a JSON tree: exporting a zone's config and merging
 a document into one. Parsing and printing the JSON text, and the list of warnings, are not
 part of this model; the "hw" branch of a document only ever produces warnings.
 */
module CfgJson {
  import opened Wrappers
  import opened Text
  import opened CfgFields

  datatype Json =
    | Null | Bool(b: bool) | Num(v: real) | Str(s: string) | Arr(items: seq<Json>) | Obj(members: seq<Member>)

  datatype Member = Member(name: string, value: Json)

  // ---------------- one leaf ----------------

  /** strtol on text that hg_field_read printed. */
  function NumberOf(text: string): int {
    match ParseInt(text)
    case Some(v) => v
    case None => 0
  }

  /** field_to_json, from the text hg_field_read gives. */
  function ToJson(f: Field, text: string): Json {
    match f.kind
    case BOOL => Json.Bool(text != "" && text[0] != '0')
    case U8 => Json.Num(NumberOf(text) as real)
    case U16 => Json.Num(NumberOf(text) as real)
    case PIN => Json.Num(if text == "NONE" then NONE_PIN as real else NumberOf(text) as real)
    case _ => Json.Str(text)
  }

  const INT_MAX: int := 0x7FFF_FFFF

  /** (int)valuedouble: the fraction is dropped; beyond int the model saturates. */
  function ToInt(v: real): int {
    var n := if v >= 0.0 then v.Floor else -((-v).Floor);
    if n > INT_MAX then INT_MAX else if n < -INT_MAX - 1 then -INT_MAX - 1 else n
  }

  /** hgj_json_to_text: None when the JSON kind is not the one the field wants. */
  function FromJson(f: Field, j: Json): Option<string> {
    match f.kind
    case BOOL => if j.Bool? then Some(if j.b then "1" else "0") else None
    case U8 => if j.Num? then Some(SignedDecimal(ToInt(j.v))) else None
    case U16 => if j.Num? then Some(SignedDecimal(ToInt(j.v))) else None
    case PIN => if j.Num? then Some(SignedDecimal(ToInt(j.v))) else None
    case _ => if j.Str? then Some(Cut(j.s)) else None
  }

  /** One member applied to its field: the memory afterwards and 0, or unchanged and -2. */
  function Apply(f: Field, m: seq<Byte>, base: nat, j: Json): (r: (seq<Byte>, int))
    requires Fits(f, m, base)
    ensures |r.0| == |m|
  {
    match FromJson(f, j)
    case None => (m, -2)
    case Some(t) =>
      var w := Write(f, m, base, t);
      if w.1 != 0 then (m, -2) else (w.0, 0)
  }

  // ---------------- a leaf survives export and merge ----------------

  lemma IntRoundTrip(n: int)
    requires 0 <= n <= 65535
    ensures ToInt(n as real) == n && NumberOf(Decimal(n)) == n
  {
    hide Decimal, ParseInt;
    ParseOfSigned(n);
  }

  lemma EncodedInt(f: Field, n: int)
    requires (f.kind == U8 || f.kind == U16) && f.min <= n <= f.max && RowOk(f)
    ensures var e := Encode(f, SignedDecimal(n));
      && e.Bytes? && |e.b| == Width(f.kind)
      && (if f.kind == U16 then Word(e.b, 0) == n else e.b[0] == n)
  {
    hide ParseInt, SignedDecimal, NamesDiffer;
    ParseOfSigned(n);
    if f.kind == U16 { TwoBytes(n); }
  }

  lemma NumberLeaf(f: Field, c: seq<Byte>, cbase: nat, m: seq<Byte>, base: nat)
    requires Fits(f, c, cbase) && Fits(f, m, base) && RowOk(f) && (f.kind == U8 || f.kind == U16)
    requires Allowed(f, ValOf(f, c, cbase))
    ensures LeafCarried(f, c, cbase, m, base)
  {
    hide ParseInt, Decimal, NamesDiffer, Splice, EncodeInt;
    var n := ValOf(f, c, cbase).n;
    assert Read(f, c, cbase) == Decimal(n);
    IntRoundTrip(n);
    EncodedInt(f, n);
    SplicedVal(f, m, base, Encode(f, SignedDecimal(n)).b);
  }

  /** The exported leaf, applied, gives the field the value it had where it came from. */
  predicate LeafCarried(f: Field, c: seq<Byte>, cbase: nat, m: seq<Byte>, base: nat)
    requires Fits(f, c, cbase) && Fits(f, m, base)
  {
    var a := Apply(f, m, base, ToJson(f, Read(f, c, cbase)));
    a.1 == 0 && ValOf(f, a.0, base) == ValOf(f, c, cbase)
  }

  lemma BoolWords()
    ensures CiEq("1", "1") && CiEq("0", "0") && !CiEq("0", "ON") && !CiEq("0", "ENABLE") && !CiEq("0", "1")
    ensures Decimal(0) == "0" && Decimal(1) == "1"
  {
    assert Upper("0"[0]) != Upper("1"[0]);
  }

  lemma BoolLeaf(f: Field, c: seq<Byte>, cbase: nat, m: seq<Byte>, base: nat)
    requires Fits(f, c, cbase) && Fits(f, m, base) && f.kind == BOOL
    requires Allowed(f, ValOf(f, c, cbase))
    ensures LeafCarried(f, c, cbase, m, base)
  {
    hide CiEq, Decimal, Splice;
    BoolWords();
    var n := ValOf(f, c, cbase).n;
    SplicedVal(f, m, base, [n]);
  }

  lemma EnumLeaf(f: Field, c: seq<Byte>, cbase: nat, m: seq<Byte>, base: nat)
    requires Fits(f, c, cbase) && Fits(f, m, base) && f.kind == ENUM && RowOk(f)
    requires Allowed(f, ValOf(f, c, cbase))
    ensures LeafCarried(f, c, cbase, m, base)
  {
    hide EnumParse, NamesDiffer, Splice;
    var n := ValOf(f, c, cbase).n;
    EnumRoundTrip(f.enums, n);
    SplicedVal(f, m, base, [n]);
  }

  lemma HhmmLeaf(f: Field, c: seq<Byte>, cbase: nat, m: seq<Byte>, base: nat)
    requires Fits(f, c, cbase) && Fits(f, m, base) && f.kind == HHMM
    requires Allowed(f, ValOf(f, c, cbase))
    ensures LeafCarried(f, c, cbase, m, base)
  {
    hide HhmmParse, Splice;
    var n := ValOf(f, c, cbase).n;
    HhmmRoundTrip(n);
    TwoBytes(n);
    assert Cut(HhmmFormat(n)) == HhmmFormat(n);
    SplicedVal(f, m, base, [n % 256, n / 256 % 256]);
  }

  lemma StrLeaf(f: Field, c: seq<Byte>, cbase: nat, m: seq<Byte>, base: nat)
    requires Fits(f, c, cbase) && Fits(f, m, base) && f.kind == STR16
    requires Allowed(f, ValOf(f, c, cbase))
    ensures LeafCarried(f, c, cbase, m, base)
  {
    hide Splice, EncodeStr, StrOk;
    var at := cbase + f.offset;
    var t := ValOf(f, c, cbase).s.value;
    assert CStr(c[at..]) == t by {
      var near := c[at..at + STR_LEN];
      assert forall i :: 0 <= i < STR_LEN ==> c[at..][i] == near[i];
      CStrIs(c[at..], t);
    }
    TextFits(t);
    EncodedStr(t);
    SplicedVal(f, m, base, EncodeStr(t).b);
  }

  lemma TextFits(t: string)
    requires StrOk(t)
    ensures Cut(Cut(t)) == t
  {
  }

  /** A pin is carried over unless it is unconnected: NONE goes out as 255, which no row takes back. */
  lemma PinLeafIff(f: Field, c: seq<Byte>, cbase: nat, m: seq<Byte>, base: nat)
    requires Fits(f, c, cbase) && Fits(f, m, base) && RowOk(f) && f.kind == PIN
    requires Allowed(f, ValOf(f, c, cbase))
    ensures LeafCarried(f, c, cbase, m, base) <==> ValOf(f, c, cbase).n != 255
    ensures ToJson(f, Read(f, c, cbase)) == Json.Num(ValOf(f, c, cbase).n as real)
  {
    hide ParseInt, Decimal, NamesDiffer, Splice, EncodeInt, CiEq, RowOk, LowerAll;
    var n := ValOf(f, c, cbase).n;
    PinText(n);
    IntRoundTrip(n);
    PinBounds(f);
    NumberVerdict(f, Decimal(n));
    ParseOfSigned(n);
    if n != 255 { SplicedVal(f, m, base, [n]); }
  }

  lemma PinBounds(f: Field)
    requires RowOk(f) && f.kind == PIN
    ensures 0 <= f.min <= f.max < 255
  {
  }

  lemma PinText(n: nat)
    ensures Decimal(n) != "NONE" && LowerAll(Decimal(n)) != "none"
  {
    assert IsDigit(Decimal(n)[0]);
    assert LowerAll(Decimal(n))[0] == Lower(Decimal(n)[0]);
    assert "NONE"[0] == 'N' && "none"[0] == 'n';
  }

  /** The whole part of a number above -1, towards zero. */
  function Whole(v: real): nat
    requires v > -1.0
  {
    if v >= 0.0 then v.Floor else 0
  }

  /** What a document's number does to a numeric field: its whole part, if the row's bounds have it. */
  lemma NumberMerged(f: Field, m: seq<Byte>, base: nat, v: real)
    requires Fits(f, m, base) && RowOk(f) && (f.kind == U8 || f.kind == U16 || f.kind == PIN)
    ensures var a := Apply(f, m, base, Json.Num(v));
      if v > -1.0 && f.min <= Whole(v) <= f.max then a.1 == 0 && ValOf(f, a.0, base) == Val.Num(Whole(v))
      else a == (m, -2)
  {
    hide ParseInt, SignedDecimal, NamesDiffer, Splice, EncodeInt, CiEq, RowOk, LowerAll, Encode;
    var n := ToInt(v);
    WholeIs(f, v);
    ParseOfSigned(n);
    SignedText(n);
    NumberVerdict(f, SignedDecimal(n));
    EncodeWidth(f, SignedDecimal(n));
    if f.min <= n <= f.max {
      BoundsFit(f);
      var b := Encode(f, SignedDecimal(n)).b;
      SplicedVal(f, m, base, b);
      WordOf(n);
    }
  }

  lemma WordOf(n: nat)
    requires n <= 65535
    ensures n / 256 < 256 && Word([n % 256, n / 256], 0) == n
  {
  }

  lemma BoundsFit(f: Field)
    requires RowOk(f)
    ensures 0 <= f.min <= f.max && (f.kind == U16 ==> f.max <= 65535) && (f.kind == U8 || f.kind == PIN ==> f.max <= 254)
  {
  }

  lemma WholeIs(f: Field, v: real)
    requires RowOk(f) && (f.kind == U8 || f.kind == U16 || f.kind == PIN)
    ensures f.min <= ToInt(v) <= f.max <==> v > -1.0 && f.min <= Whole(v) <= f.max
    ensures v > -1.0 && f.min <= Whole(v) <= f.max ==> ToInt(v) == Whole(v)
  {
  }

  lemma SignedText(n: int)
    ensures LowerAll(SignedDecimal(n)) != "none"
  {
    hide Decimal;
    var d := SignedDecimal(n);
    assert d[0] == '-' || IsDigit(d[0]);
    assert LowerAll(d)[0] == Lower(d[0]);
    assert "none"[0] == 'n';
  }

  /** Any field that may be exported: allowed values are carried over exactly. */
  lemma LeafRoundTrip(f: Field, c: seq<Byte>, cbase: nat, m: seq<Byte>, base: nat)
    requires Fits(f, c, cbase) && Fits(f, m, base) && RowOk(f) && f.kind != PIN
    requires Allowed(f, ValOf(f, c, cbase))
    ensures LeafCarried(f, c, cbase, m, base)
  {
    hide LeafCarried, Allowed, RowOk;
    match f.kind
    case U8 => NumberLeaf(f, c, cbase, m, base);
    case U16 => NumberLeaf(f, c, cbase, m, base);
    case BOOL => BoolLeaf(f, c, cbase, m, base);
    case ENUM => EnumLeaf(f, c, cbase, m, base);
    case HHMM => HhmmLeaf(f, c, cbase, m, base);
    case STR16 => StrLeaf(f, c, cbase, m, base);
  }

  /** Whatever is applied with success leaves an allowed value and changes only the field's own bytes. */
  lemma ApplyAllowed(f: Field, m: seq<Byte>, base: nat, j: Json)
    requires Fits(f, m, base) && RowOk(f)
    ensures var a := Apply(f, m, base, j);
      && (a.1 == 0 ==> Allowed(f, ValOf(f, a.0, base))) && (a.1 != 0 ==> a == (m, -2))
      && (forall i :: 0 <= i < |m| && !(base + f.offset <= i < base + f.offset + Width(f.kind)) ==> a.0[i] == m[i])
  {
    hide Allowed, Encode, FromJson, RowOk, ValOf;
    match FromJson(f, j)
    case None =>
    case Some(t) =>
      EncodeWidth(f, t);
      if Write(f, m, base, t).1 == 0 { WriteAllowed(f, m, base, t); }
  }
}
