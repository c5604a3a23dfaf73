/**
 The field table of components/hg_cfg/hg_cfg_fields.c over the packed hg_zone_cfg_t, with
 the generic read and write. Bytes are numbers 0 to 255; text is what the CLI and the JSON
 layer exchange.
 */
module CfgFields {
  import opened Wrappers
  import opened Text

  const SIZE: nat := 336
  const MAX_SHELVES: nat := 4
  const MAX_AUX: nat := 2
  const STR_LEN: nat := 16
  const NONE_PIN: int := 255
  const TEXT_MAX: nat := 31

  type Byte = b: int | 0 <= b < 256

  type Cfg = m: seq<Byte> | |m| == SIZE witness seq(SIZE, _ => 0)

  datatype Group = ZONECFG | SHELF | LIGHT | WATER | FAN | VIB | AUX | HW | HWSHELF | CAL

  datatype Kind = U8 | U16 | BOOL | HHMM | ENUM | STR16 | PIN

  datatype Field = Field(group: Group, key: string, offset: nat, kind: Kind, min: int, max: int, enums: seq<string>)

  function GroupName(g: Group): string {
    match g
    case ZONECFG => "ZONECFG"
    case SHELF => "SHELF"
    case LIGHT => "LIGHT"
    case WATER => "WATER"
    case FAN => "FAN"
    case VIB => "VIB"
    case AUX => "AUX"
    case HW => "HW"
    case HWSHELF => "HWSHELF"
    case CAL => "CAL"
  }

  function ZoneRows(): seq<Field> {
    [
      Field(ZONECFG, "NAME", 8, STR16, 0, 15, []),
      Field(ZONECFG, "LINKLOSS_S", 6, U16, 10, 600, [])]
  }

  function ShelfRows(): seq<Field> {
    [
      Field(SHELF, "CROP", 0, STR16, 0, 15, []),
      Field(SHELF, "ENABLED", 16, BOOL, 0, 1, []),
      Field(SHELF, "PROFILE", 17, U8, 0, 16, [])]
  }

  function LightRows(): seq<Field> {
    [
      Field(LIGHT, "ON", 0, HHMM, 0, 1439, []),
      Field(LIGHT, "OFF", 2, HHMM, 0, 1439, []),
      Field(LIGHT, "WHITE", 4, U8, 0, 100, []),
      Field(LIGHT, "RED", 5, U8, 0, 100, []),
      Field(LIGHT, "RAMP_MIN", 6, U8, 0, 120, []),
      Field(LIGHT, "DLI", 8, U16, 0, 1000, [])]
  }

  function WaterRows(): seq<Field> {
    [
      Field(WATER, "MODE", 0, ENUM, 0, 1, ["OFF", "AUTO"]),
      Field(WATER, "TARGET", 1, U8, 0, 100, []),
      Field(WATER, "HYST", 2, U8, 1, 30, []),
      Field(WATER, "SETTLE_MIN", 3, U8, 1, 60, []),
      Field(WATER, "DOSE_S", 4, U16, 1, 300, []),
      Field(WATER, "INTERVAL_MIN", 6, U16, 10, 1440, []),
      Field(WATER, "MAX_DOSES", 8, U8, 0, 24, []),
      Field(WATER, "DIFF_MAX", 9, U8, 5, 50, []),
      Field(WATER, "WIN_START", 10, HHMM, 0, 1439, []),
      Field(WATER, "WIN_END", 12, HHMM, 0, 1439, [])]
  }

  function FanRows(): seq<Field> {
    [
      Field(FAN, "MODE", 0, ENUM, 0, 3, ["OFF", "ON", "LIGHT", "CYCLE"]),
      Field(FAN, "ON_MIN", 1, U8, 0, 60, []),
      Field(FAN, "PERIOD_MIN", 2, U16, 0, 1440, [])]
  }

  function VibRows(): seq<Field> {
    [
      Field(VIB, "MODE", 0, ENUM, 0, 1, ["OFF", "PULSE"]),
      Field(VIB, "INTENSITY", 1, U8, 20, 100, []),
      Field(VIB, "PULSE_S", 2, U8, 1, 30, []),
      Field(VIB, "INTERVAL_MIN", 4, U16, 5, 1440, []),
      Field(VIB, "START", 6, HHMM, 0, 1439, []),
      Field(VIB, "END", 8, HHMM, 0, 1439, [])]
  }

  function AuxRows(): seq<Field> {
    [
      Field(AUX, "MODE", 0, ENUM, 0, 1, ["OFF", "PULSE"]),
      Field(AUX, "PULSE_S", 1, U8, 1, 30, []),
      Field(AUX, "INTERVAL_MIN", 2, U16, 5, 1440, []),
      Field(AUX, "START", 4, HHMM, 0, 1439, []),
      Field(AUX, "END", 6, HHMM, 0, 1439, [])]
  }

  function HwRows(): seq<Field> {
    [
      Field(HW, "SHELVES", 0, U8, 1, 4, []),
      Field(HW, "PCA_ADDR", 1, U8, 0, 127, []),
      Field(HW, "PCF_ADDR", 2, U8, 0, 127, []),
      Field(HW, "SOIL_BACKEND", 3, ENUM, 0, 1, ["INTERNAL", "ADS1115"]),
      Field(HW, "PCF_ACTLOW", 4, U16, 0, 65535, []),
      Field(HW, "PCA_HZ", 6, U16, 200, 1500, [])]
  }

  function HwShelfRows(): seq<Field> {
    [
      Field(HWSHELF, "LED_W", 0, PIN, 0, 15, []),
      Field(HWSHELF, "LED_R", 1, PIN, 0, 15, []),
      Field(HWSHELF, "PUMP", 2, PIN, 0, 15, []),
      Field(HWSHELF, "FAN", 3, PIN, 0, 15, []),
      Field(HWSHELF, "SOIL_A", 4, PIN, 0, 7, []),
      Field(HWSHELF, "SOIL_B", 5, PIN, 0, 7, []),
      Field(HWSHELF, "VIB", 24, PIN, 0, 15, []),
      Field(HWSHELF, "LED_MAX_W", 6, U8, 0, 100, []),
      Field(HWSHELF, "LED_MAX_R", 7, U8, 0, 100, []),
      Field(HWSHELF, "PUMP_MAX_RUN_S", 20, U16, 1, 300, []),
      Field(HWSHELF, "PUMP_MAX_DAILY_S", 22, U16, 1, 3600, [])]
  }

  function CalRows(): seq<Field> {
    [
      Field(CAL, "DRY_A", 8, U16, 0, 3300, []),
      Field(CAL, "DRY_B", 10, U16, 0, 3300, []),
      Field(CAL, "WET_A", 12, U16, 0, 3300, []),
      Field(CAL, "WET_B", 14, U16, 0, 3300, []),
      Field(CAL, "MIN_OK", 16, U16, 0, 3300, []),
      Field(CAL, "MAX_OK", 18, U16, 0, 3300, [])]
  }

  /** The rows of one group, in table order. */
  function Rows(g: Group): seq<Field> {
    match g
    case ZONECFG => ZoneRows()
    case SHELF => ShelfRows()
    case LIGHT => LightRows()
    case WATER => WaterRows()
    case FAN => FanRows()
    case VIB => VibRows()
    case AUX => AuxRows()
    case HW => HwRows()
    case HWSHELF => HwShelfRows()
    case CAL => CalRows()
  }

  /** 0 zone-scoped, 1 shelf-scoped, 2 aux-scoped. */
  function Scope(g: Group): nat {
    if g == ZONECFG || g == HW then 0 else if g == AUX then 2 else 1
  }

  predicate IsHw(g: Group) { g == HW || g == HWSHELF || g == CAL }

  /** group_base into the config plane; None is the NULL an index out of range gets. */
  function Base(g: Group, idx: int): Option<nat>
    requires !IsHw(g)
  {
    if Scope(g) == 1 && !(0 <= idx < MAX_SHELVES) then None
    else if Scope(g) == 2 && !(0 <= idx < MAX_AUX) then None
    else
      match g
      case ZONECFG => Some(0)
      case SHELF => Some(48 + 72 * idx)
      case LIGHT => Some(48 + 72 * idx + 24)
      case WATER => Some(48 + 72 * idx + 36)
      case FAN => Some(48 + 72 * idx + 52)
      case VIB => Some(48 + 72 * idx + 56)
      case AUX => Some(24 + 8 * idx)
  }

  function Width(k: Kind): nat {
    match k
    case U16 => 2
    case HHMM => 2
    case STR16 => STR_LEN
    case _ => 1
  }

  // ---------------- what a field holds ----------------

  datatype Val = Num(n: nat) | Str(s: Option<string>)

  /** The bytes before the first NUL, all of them if there is none. */
  function CStr(m: seq<Byte>): (s: string)
    ensures |s| <= |m|
    ensures forall i :: 0 <= i < |s| ==> s[i] == m[i] as char && m[i] != 0
    ensures |s| < |m| ==> m[|s|] == 0
  {
    if m == [] || m[0] == 0 then "" else [m[0] as char] + CStr(m[1..])
  }

  /** A 16-byte string field: its text if it is terminated inside the field. */
  function Str16(m: seq<Byte>, at: nat): Option<string>
    requires at + STR_LEN <= |m|
  {
    var s := CStr(m[at..at + STR_LEN]);
    if |s| < STR_LEN then Some(s) else None
  }

  function Word(m: seq<Byte>, at: nat): nat
    requires at + 2 <= |m|
  {
    var lo: int, hi: int := m[at], m[at + 1];
    lo + 256 * hi
  }

  predicate Fits(f: Field, m: seq<Byte>, base: nat) { base + f.offset + Width(f.kind) <= |m| }

  /** The field's raw contents. */
  function ValOf(f: Field, m: seq<Byte>, base: nat): Val
    requires Fits(f, m, base)
  {
    match f.kind
    case STR16 => Str(Str16(m, base + f.offset))
    case U16 => Num(Word(m, base + f.offset))
    case HHMM => Num(Word(m, base + f.offset))
    case _ => Num(m[base + f.offset])
  }

  // ---------------- hg_field_read and hg_field_write ----------------

  function Cut(s: string): string { if |s| > TEXT_MAX then s[..TEXT_MAX] else s }

  function Read(f: Field, m: seq<Byte>, base: nat): string
    requires Fits(f, m, base)
  {
    match f.kind
    case STR16 => Cut(CStr(m[base + f.offset..]))
    case BOOL => Decimal(m[base + f.offset])
    case ENUM => if m[base + f.offset] < |f.enums| then f.enums[m[base + f.offset]] else "?"
    case HHMM => HhmmFormat(Word(m, base + f.offset))
    case PIN => if m[base + f.offset] == NONE_PIN then "NONE" else Decimal(m[base + f.offset])
    case U8 => Decimal(m[base + f.offset])
    case U16 => Decimal(Word(m, base + f.offset))
  }

  predicate StrOk(s: string) {
    |s| < STR_LEN && forall i :: 0 <= i < |s| ==> ' ' < s[i] <= '~'
  }

  /** The bytes a field's text stands for, or why it is refused (-1 bad text, -2 out of range). */
  datatype Encoded = Bytes(b: seq<Byte>) | Bad(rc: int)

  function EncodeInt(f: Field, text: string): Encoded {
    match ParseInt(text)
    case None => Bad(-1)
    case Some(v) =>
      if v < f.min || v > f.max then Bad(-2)
      else if f.kind == U16 then Bytes([v % 256, v / 256 % 256]) else Bytes([v % 256])
  }

  function EncodeStr(text: string): (r: Encoded)
    ensures r.Bytes? ==> |r.b| == STR_LEN
  {
    if StrOk(text) then
      Bytes(seq(STR_LEN, i => if 0 <= i < |text| then (assert ' ' < text[i] <= '~'; text[i] as int) else 0))
    else Bad(-1)
  }

  function Encode(f: Field, text: string): Encoded {
    match f.kind
    case STR16 => EncodeStr(text)
    case BOOL =>
      if CiEq(text, "ON") || CiEq(text, "ENABLE") || CiEq(text, "1") then Bytes([1])
      else if CiEq(text, "OFF") || CiEq(text, "DISABLE") || CiEq(text, "0") then Bytes([0])
      else Bad(-1)
    case ENUM =>
      (match EnumParse(f.enums, text)
       case Some(v) => Bytes([v % 256])
       case None => Bad(-1))
    case HHMM =>
      (match HhmmParse(text)
       case Some(v) => Bytes([v % 256, v / 256 % 256])
       case None => Bad(-1))
    case PIN => if CiEq(text, "NONE") then Bytes([NONE_PIN]) else EncodeInt(f, text)
    case U8 => EncodeInt(f, text)
    case U16 => EncodeInt(f, text)
  }

  lemma EncodeWidth(f: Field, text: string)
    ensures Encode(f, text).Bytes? ==> |Encode(f, text).b| == Width(f.kind)
  {
    hide EnumParse, HhmmParse, ParseInt, CiEq, StrOk;
  }

  function Splice(m: seq<Byte>, at: nat, b: seq<Byte>): (r: seq<Byte>)
    requires at + |b| <= |m|
    ensures |r| == |m|
  {
    m[..at] + b + m[at + |b|..]
  }

  function Write(f: Field, m: seq<Byte>, base: nat, text: string): (r: (seq<Byte>, int))
    requires Fits(f, m, base)
    ensures |r.0| == |m| && (r.1 != 0 ==> r.0 == m)
  {
    EncodeWidth(f, text);
    match Encode(f, text)
    case Bytes(b) => (Splice(m, base + f.offset, b), 0)
    case Bad(rc) => (m, if rc == 0 then -1 else rc)
  }

  // ---------------- round trips ----------------

  /** The field holds a value its row allows; a string holds no blanks. */
  predicate Allowed(f: Field, v: Val) {
    match f.kind
    case STR16 => v.Str? && v.s.Some? && StrOk(v.s.value)
    case ENUM => v.Num? && v.n < |f.enums|
    case HHMM => v.Num? && v.n <= 1439
    case PIN => v.Num? && (v.n == NONE_PIN || f.min <= v.n <= f.max)
    case BOOL => v.Num? && v.n <= 1
    case _ => v.Num? && f.min <= v.n <= f.max
  }

  /** Rows make sense: bounds fit the width, enumeration names differ and fit a byte. */
  predicate RowOk(f: Field) {
    && 0 <= f.min <= f.max
    && (f.kind == U16 ==> f.max <= 65535)
    && (f.kind == U8 || f.kind == PIN ==> f.max <= 254)
    && (f.kind == ENUM ==> |f.enums| <= 16 && NamesDiffer(f.enums))
    && forall i :: 0 <= i < |f.enums| ==> |f.enums[i]| < STR_LEN
  }

  lemma SplicedVal(f: Field, m: seq<Byte>, base: nat, b: seq<Byte>)
    requires Fits(f, m, base) && |b| == Width(f.kind)
    ensures Fits(f, Splice(m, base + f.offset, b), base)
    ensures ValOf(f, Splice(m, base + f.offset, b), base) ==
      match f.kind
      case STR16 => Str(Str16(b, 0))
      case U16 => Num(Word(b, 0))
      case HHMM => Num(Word(b, 0))
      case _ => Num(b[0])
  {
    var r, at := Splice(m, base + f.offset, b), base + f.offset;
    assert r[at..at + |b|] == b;
    if f.kind == STR16 { assert r[at..at + STR_LEN] == b == b[0..STR_LEN]; }
    assert r[at] == b[0];
    if |b| > 1 { assert r[at + 1] == b[1]; }
  }

  lemma TwoBytes(v: int)
    requires 0 <= v <= 65535
    ensures 0 <= v % 256 < 256 && 0 <= v / 256 % 256 < 256 && v % 256 + 256 * (v / 256 % 256) == v
  {
  }

  lemma {:induction false} CStrIs(m: seq<Byte>, s: string)
    requires |s| < |m| && m[|s|] == 0
    requires forall i :: 0 <= i < |s| ==> s[i] == m[i] as char && m[i] != 0
    ensures CStr(m) == s
  {
  }

  lemma EncodedStr(text: string)
    requires StrOk(text)
    ensures EncodeStr(text).Bytes? && Str16(EncodeStr(text).b, 0) == Some(text)
  {
    var b := EncodeStr(text).b;
    assert b[0..STR_LEN] == b;
    CStrIs(b, text);
  }

  /** Whatever a write accepts leaves an allowed value in the field. */
  lemma WriteAllowed(f: Field, m: seq<Byte>, base: nat, text: string)
    requires Fits(f, m, base) && RowOk(f) && Write(f, m, base, text).1 == 0
    ensures Fits(f, Write(f, m, base, text).0, base)
    ensures Allowed(f, ValOf(f, Write(f, m, base, text).0, base))
  {
    hide ParseInt, CiEq, EnumParse, HhmmParse, Splice, StrOk, EncodeStr, Str16;
    EncodeWidth(f, text);
    var b := Encode(f, text).b;
    SplicedVal(f, m, base, b);
    HhmmParseRange(text);
    EnumParseRange(f.enums, text);
    if f.kind == STR16 { StrOkEncoded(text); EncodedStr(text); }
    if f.kind == HHMM { TwoBytes(HhmmParse(text).value); }
    if f.kind == U16 { TwoBytes(ParseInt(text).value); }
  }

  // ---------------- what a write makes of a text ----------------

  /** A switch is set by three words and cleared by three, in any letter case; no other text counts. */
  lemma SwitchWords(f: Field, text: string)
    requires f.kind == BOOL
    ensures Encode(f, text) ==
      if LowerAll(text) == "on" || LowerAll(text) == "enable" || LowerAll(text) == "1" then Bytes([1])
      else if LowerAll(text) == "off" || LowerAll(text) == "disable" || LowerAll(text) == "0" then Bytes([0])
      else Bad(-1)
  {
    hide CiEq, LowerAll;
    LowerWords();
    CiEqIsLower(text, "ON");
    CiEqIsLower(text, "ENABLE");
    CiEqIsLower(text, "1");
    CiEqIsLower(text, "OFF");
    CiEqIsLower(text, "DISABLE");
    CiEqIsLower(text, "0");
  }

  lemma LowerWords()
    ensures LowerAll("ON") == "on" && LowerAll("ENABLE") == "enable" && LowerAll("1") == "1"
    ensures LowerAll("OFF") == "off" && LowerAll("DISABLE") == "disable" && LowerAll("0") == "0"
    ensures LowerAll("NONE") == "none"
  {
  }

  /** A number is taken within its row's bounds, refused as out of range beyond them, and text as text. */
  lemma NumberVerdict(f: Field, text: string)
    requires RowOk(f) && (f.kind == U8 || f.kind == U16 || (f.kind == PIN && LowerAll(text) != "none"))
    ensures ParseInt(text).None? ==> Encode(f, text) == Bad(-1)
    ensures ParseInt(text).Some? ==>
      var v := ParseInt(text).value;
      Encode(f, text) ==
        if v < f.min || f.max < v then Bad(-2) else if f.kind == U16 then Bytes([v % 256, v / 256]) else Bytes([v])
  {
    hide ParseInt, CiEq, LowerAll;
    LowerWords();
    CiEqIsLower(text, "NONE");
  }

  /** A text is taken if it has at most fifteen characters, none a blank or outside ASCII's printable ones. */
  lemma TextVerdict(f: Field, text: string)
    requires f.kind == STR16
    ensures var fits := |text| <= 15 && forall i :: 0 <= i < |text| ==> 33 <= text[i] as int <= 126;
      && (fits ==> Encode(f, text).Bytes? && Str16(Encode(f, text).b, 0) == Some(text))
      && (!fits ==> Encode(f, text) == Bad(-1))
  {
    if StrOk(text) { EncodedStr(text); }
  }

  /** Whatever is refused is refused with -1, a number out of its row's bounds with -2. */
  lemma RefusalCodes(f: Field, m: seq<Byte>, base: nat, text: string)
    requires Fits(f, m, base) && RowOk(f)
    ensures var rc := Write(f, m, base, text).1;
      && (rc == 0 <==> Encode(f, text).Bytes?)
      && (rc == -2 <==> (f.kind == U8 || f.kind == U16 || (f.kind == PIN && LowerAll(text) != "none"))
                        && ParseInt(text).Some? && !(f.min <= ParseInt(text).value <= f.max))
      && (rc == 0 || rc == -1 || rc == -2)
  {
    hide ParseInt, CiEq, EnumParse, HhmmParse, Splice, StrOk, LowerAll;
    LowerWords();
    CiEqIsLower(text, "NONE");
  }

  /** NONE, in any letter case, leaves a pin unconnected. */
  lemma NoPin(f: Field, text: string)
    requires f.kind == PIN && LowerAll(text) == "none"
    ensures Encode(f, text) == Bytes([255])
  {
    hide CiEq, LowerAll;
    LowerWords();
    CiEqIsLower(text, "NONE");
  }

  lemma StrOkEncoded(text: string)
    ensures EncodeStr(text).Bytes? ==> StrOk(text)
  {
  }

  lemma EnumParseRange(names: seq<string>, val: string)
    ensures EnumParse(names, val).Some? ==> 0 <= EnumParse(names, val).value < |names|
  {
  }

  // ---------------- facts about the table ----------------

  /** Enough of a key to tell any two keys of one group apart. */
  datatype Tag = Tag(n: nat, first: char, third: char, last: char)

  function TagOf(k: string): Tag
    requires k != ""
  {
    Tag(|k|, Upper(k[0]), Upper(k[if |k| > 2 then 2 else 0]), Upper(k[|k| - 1]))
  }

  /** From row i on, the rows' tags are these. */
  predicate TaggedFrom(rows: seq<Field>, tags: seq<Tag>, i: nat)
    requires |rows| == |tags| && i <= |rows|
    decreases |rows| - i
  {
    i == |rows| || (rows[i].key != "" && TagOf(rows[i].key) == tags[i] && TaggedFrom(rows, tags, i + 1))
  }

  /** A key is short enough for every path buffer and has no dot in it. */
  predicate PlainKey(k: string) { |k| <= 16 && '.' !in k }

  predicate PlainFrom(rows: seq<Field>, i: nat)
    requires i <= |rows|
    decreases |rows| - i
  {
    i == |rows| || (PlainKey(rows[i].key) && PlainFrom(rows, i + 1))
  }

  lemma {:induction false} PlainAt(rows: seq<Field>, i: nat, k: nat)
    requires i <= k < |rows| && PlainFrom(rows, i)
    ensures PlainKey(rows[k].key)
    decreases |rows| - i
  {
    hide PlainKey;
    if i < k { PlainAt(rows, i + 1, k); }
  }

  lemma {:induction false} TaggedAt(rows: seq<Field>, tags: seq<Tag>, i: nat, k: nat)
    requires |rows| == |tags| && i <= k < |rows| && TaggedFrom(rows, tags, i)
    ensures rows[k].key != "" && TagOf(rows[k].key) == tags[k]
    decreases |rows| - i
  {
    hide TagOf;
    if i < k { TaggedAt(rows, tags, i + 1, k); }
  }

  predicate AllDiffer(tags: seq<Tag>) { forall i, j :: 0 <= i < j < |tags| ==> tags[i] != tags[j] }

  predicate Tagged(rows: seq<Field>, tags: seq<Tag>) {
    |tags| == |rows| && TaggedFrom(rows, tags, 0) && AllDiffer(tags)
  }

  function ZoneTagList(): seq<Tag> {
    [Tag(4, 'N', 'M', 'E'), Tag(10, 'L', 'N', 'S')]
  }

  function ShelfTagList(): seq<Tag> {
    [Tag(4, 'C', 'O', 'P'), Tag(7, 'E', 'A', 'D'), Tag(7, 'P', 'O', 'E')]
  }

  function LightTagList(): seq<Tag> {
    [
      Tag(2, 'O', 'O', 'N'), Tag(3, 'O', 'F', 'F'), Tag(5, 'W', 'I', 'E'), Tag(3, 'R', 'D', 'D'), Tag(8, 'R', 'M', 'N'),
      Tag(3, 'D', 'I', 'I')]
  }

  function WaterTagList(): seq<Tag> {
    [
      Tag(4, 'M', 'D', 'E'), Tag(6, 'T', 'R', 'T'), Tag(4, 'H', 'S', 'T'), Tag(10, 'S', 'T', 'N'), Tag(6, 'D', 'S', 'S'),
      Tag(12, 'I', 'T', 'N'), Tag(9, 'M', 'X', 'S'), Tag(8, 'D', 'F', 'X'), Tag(9, 'W', 'N', 'T'), Tag(7, 'W', 'N', 'D')]
  }

  function FanTagList(): seq<Tag> {
    [Tag(4, 'M', 'D', 'E'), Tag(6, 'O', '_', 'N'), Tag(10, 'P', 'R', 'N')]
  }

  function VibTagList(): seq<Tag> {
    [
      Tag(4, 'M', 'D', 'E'), Tag(9, 'I', 'T', 'Y'), Tag(7, 'P', 'L', 'S'), Tag(12, 'I', 'T', 'N'), Tag(5, 'S', 'A', 'T'),
      Tag(3, 'E', 'D', 'D')]
  }

  function AuxTagList(): seq<Tag> {
    [
      Tag(4, 'M', 'D', 'E'), Tag(7, 'P', 'L', 'S'), Tag(12, 'I', 'T', 'N'), Tag(5, 'S', 'A', 'T'), Tag(3, 'E', 'D', 'D')]
  }

  function HwTagList(): seq<Tag> {
    [
      Tag(7, 'S', 'E', 'S'), Tag(8, 'P', 'A', 'R'), Tag(8, 'P', 'F', 'R'), Tag(12, 'S', 'I', 'D'), Tag(10, 'P', 'F', 'W'),
      Tag(6, 'P', 'A', 'Z')]
  }

  function HwShelfTagList(): seq<Tag> {
    [
      Tag(5, 'L', 'D', 'W'), Tag(5, 'L', 'D', 'R'), Tag(4, 'P', 'M', 'P'), Tag(3, 'F', 'N', 'N'), Tag(6, 'S', 'I', 'A'),
      Tag(6, 'S', 'I', 'B'), Tag(3, 'V', 'B', 'B'), Tag(9, 'L', 'D', 'W'), Tag(9, 'L', 'D', 'R'), Tag(14, 'P', 'M', 'S'),
      Tag(16, 'P', 'M', 'S')]
  }

  function CalTagList(): seq<Tag> {
    [
      Tag(5, 'D', 'Y', 'A'), Tag(5, 'D', 'Y', 'B'), Tag(5, 'W', 'T', 'A'), Tag(5, 'W', 'T', 'B'), Tag(6, 'M', 'N', 'K'),
      Tag(6, 'M', 'X', 'K')]
  }

  lemma ZoneTags() ensures Tagged(ZoneRows(), ZoneTagList()) {}

  lemma ShelfTags() ensures Tagged(ShelfRows(), ShelfTagList()) {}

  lemma LightTags() ensures Tagged(LightRows(), LightTagList()) {}

  lemma WaterDiffer() ensures AllDiffer(WaterTagList()) {}

  lemma WaterTail() ensures |WaterRows()| == |WaterTagList()| == 10 && TaggedFrom(WaterRows(), WaterTagList(), 5) {}

  lemma WaterHead(i: nat)
    requires i < 5
    ensures |WaterRows()| == |WaterTagList()| == 10
    ensures WaterRows()[i].key != "" && TagOf(WaterRows()[i].key) == WaterTagList()[i]
  {
  }

  lemma WaterTags()
    ensures Tagged(WaterRows(), WaterTagList())
  {
    hide AllDiffer, TagOf, WaterRows, WaterTagList;
    WaterDiffer();
    WaterTail();
    for i := 5 downto 0
      invariant |WaterRows()| == |WaterTagList()| && TaggedFrom(WaterRows(), WaterTagList(), i)
    {
      WaterHead(i);
    }
  }

  lemma FanTags() ensures Tagged(FanRows(), FanTagList()) {}

  lemma VibTags() ensures Tagged(VibRows(), VibTagList()) {}

  lemma AuxTags() ensures Tagged(AuxRows(), AuxTagList()) {}

  lemma HwTags() ensures Tagged(HwRows(), HwTagList()) {}

  lemma HwShelfDiffer() ensures AllDiffer(HwShelfTagList()) {}

  lemma HwShelfTail() ensures |HwShelfRows()| == |HwShelfTagList()| == 11 && TaggedFrom(HwShelfRows(), HwShelfTagList(), 5) {}

  lemma HwShelfHead(i: nat)
    requires i < 5
    ensures |HwShelfRows()| == |HwShelfTagList()| == 11
    ensures HwShelfRows()[i].key != "" && TagOf(HwShelfRows()[i].key) == HwShelfTagList()[i]
  {
  }

  lemma HwShelfTags()
    ensures Tagged(HwShelfRows(), HwShelfTagList())
  {
    hide AllDiffer, TagOf, HwShelfRows, HwShelfTagList;
    HwShelfDiffer();
    HwShelfTail();
    for i := 5 downto 0
      invariant |HwShelfRows()| == |HwShelfTagList()| && TaggedFrom(HwShelfRows(), HwShelfTagList(), i)
    {
      HwShelfHead(i);
    }
  }

  lemma CalTags() ensures Tagged(CalRows(), CalTagList()) {}

  lemma SameTag(a: string, b: string)
    requires a != "" && b != "" && CiEq(a, b)
    ensures TagOf(a) == TagOf(b)
  {
  }

  lemma TagsTellApart(rows: seq<Field>, tags: seq<Tag>, i: nat, j: nat)
    requires Tagged(rows, tags) && i < j < |rows|
    ensures rows[i].key != "" && rows[j].key != "" && !CiEq(rows[i].key, rows[j].key)
  {
    hide CiEq, TagOf, TaggedFrom;
    TaggedAt(rows, tags, 0, i);
    TaggedAt(rows, tags, 0, j);
    if CiEq(rows[i].key, rows[j].key) { SameTag(rows[i].key, rows[j].key); }
  }

  lemma ConfigTagsOf(g: Group) returns (tags: seq<Tag>)
    requires !IsHw(g)
    ensures Tagged(Rows(g), tags)
  {
    hide Tagged, ZoneRows, ShelfRows, LightRows, WaterRows, FanRows, VibRows, AuxRows,
      ZoneTagList, ShelfTagList, LightTagList, WaterTagList, FanTagList, VibTagList, AuxTagList;
    match g
    case ZONECFG => ZoneTags(); tags := ZoneTagList();
    case SHELF => ShelfTags(); tags := ShelfTagList();
    case LIGHT => LightTags(); tags := LightTagList();
    case WATER => WaterTags(); tags := WaterTagList();
    case FAN => FanTags(); tags := FanTagList();
    case VIB => VibTags(); tags := VibTagList();
    case AUX => AuxTags(); tags := AuxTagList();
  }

  lemma HwTagsOf(g: Group) returns (tags: seq<Tag>)
    requires IsHw(g)
    ensures Tagged(Rows(g), tags)
  {
    hide Tagged, HwRows, HwShelfRows, CalRows, HwTagList, HwShelfTagList, CalTagList;
    match g
    case HW => HwTags(); tags := HwTagList();
    case HWSHELF => HwShelfTags(); tags := HwShelfTagList();
    case CAL => CalTags(); tags := CalTagList();
  }

  lemma TagsOf(g: Group) returns (tags: seq<Tag>)
    ensures Tagged(Rows(g), tags)
  {
    hide Tagged, Rows;
    if IsHw(g) { tags := HwTagsOf(g); } else { tags := ConfigTagsOf(g); }
  }

  /** No two keys of a group are the same word. */
  lemma KeysDiffer(g: Group, i: nat, j: nat)
    requires i < j < |Rows(g)|
    ensures Rows(g)[i].key != "" && Rows(g)[j].key != "" && !CiEq(Rows(g)[i].key, Rows(g)[j].key)
  {
    hide Rows, Tagged, CiEq;
    var tags := TagsOf(g);
    TagsTellApart(Rows(g), tags, i, j);
  }

  lemma ZonePlain() ensures PlainFrom(ZoneRows(), 0) {}

  lemma ShelfPlain() ensures PlainFrom(ShelfRows(), 0) {}

  lemma LightPlainTail() ensures |LightRows()| == 6 && PlainFrom(LightRows(), 3) {}

  lemma LightPlainHead(i: nat)
    requires i < 3
    ensures |LightRows()| == 6 && PlainKey(LightRows()[i].key)
  {
  }

  lemma LightPlain()
    ensures PlainFrom(LightRows(), 0)
  {
    hide PlainKey, LightRows;
    LightPlainTail();
    for i := 3 downto 0
      invariant |LightRows()| == 6 && PlainFrom(LightRows(), i)
    {
      LightPlainHead(i);
    }
  }

  lemma WaterPlainTail() ensures |WaterRows()| == 10 && PlainFrom(WaterRows(), 5) {}

  lemma WaterPlainHead(i: nat)
    requires i < 5
    ensures |WaterRows()| == 10 && PlainKey(WaterRows()[i].key)
  {
  }

  lemma WaterPlain()
    ensures PlainFrom(WaterRows(), 0)
  {
    hide PlainKey, WaterRows;
    WaterPlainTail();
    for i := 5 downto 0
      invariant |WaterRows()| == 10 && PlainFrom(WaterRows(), i)
    {
      WaterPlainHead(i);
    }
  }

  lemma FanPlain() ensures PlainFrom(FanRows(), 0) {}

  lemma VibPlainTail() ensures |VibRows()| == 6 && PlainFrom(VibRows(), 3) {}

  lemma VibPlainHead(i: nat)
    requires i < 3
    ensures |VibRows()| == 6 && PlainKey(VibRows()[i].key)
  {
  }

  lemma VibPlain()
    ensures PlainFrom(VibRows(), 0)
  {
    hide PlainKey, VibRows;
    VibPlainTail();
    for i := 3 downto 0
      invariant |VibRows()| == 6 && PlainFrom(VibRows(), i)
    {
      VibPlainHead(i);
    }
  }

  lemma AuxPlain() ensures PlainFrom(AuxRows(), 0) {}

  lemma HwPlainTail() ensures |HwRows()| == 6 && PlainFrom(HwRows(), 3) {}

  lemma HwPlainHead(i: nat)
    requires i < 3
    ensures |HwRows()| == 6 && PlainKey(HwRows()[i].key)
  {
  }

  lemma HwPlain()
    ensures PlainFrom(HwRows(), 0)
  {
    hide PlainKey, HwRows;
    HwPlainTail();
    for i := 3 downto 0
      invariant |HwRows()| == 6 && PlainFrom(HwRows(), i)
    {
      HwPlainHead(i);
    }
  }

  lemma HwShelfPlainTail() ensures |HwShelfRows()| == 11 && PlainFrom(HwShelfRows(), 5) {}

  lemma HwShelfPlainHead(i: nat)
    requires i < 5
    ensures |HwShelfRows()| == 11 && PlainKey(HwShelfRows()[i].key)
  {
  }

  lemma HwShelfPlain()
    ensures PlainFrom(HwShelfRows(), 0)
  {
    hide PlainKey, HwShelfRows;
    HwShelfPlainTail();
    for i := 5 downto 0
      invariant |HwShelfRows()| == 11 && PlainFrom(HwShelfRows(), i)
    {
      HwShelfPlainHead(i);
    }
  }

  lemma CalPlain() ensures PlainFrom(CalRows(), 0) {}

  lemma KeysPlain(g: Group, k: nat)
    requires k < |Rows(g)|
    ensures PlainKey(Rows(g)[k].key)
  {
    hide PlainFrom, ZoneRows, ShelfRows, LightRows, WaterRows, FanRows, VibRows, AuxRows, HwRows, HwShelfRows, CalRows;
    assert PlainFrom(Rows(g), 0) by {
      match g
      case ZONECFG => ZonePlain();
      case SHELF => ShelfPlain();
      case LIGHT => LightPlain();
      case WATER => WaterPlain();
      case FAN => FanPlain();
      case VIB => VibPlain();
      case AUX => AuxPlain();
      case HW => HwPlain();
      case HWSHELF => HwShelfPlain();
      case CAL => CalPlain();
    }
    PlainAt(Rows(g), 0, k);
  }

  // ---------------- the layout of the config groups ----------------

  /** The bytes of its struct that a group's rows may use. */
  function Lo(g: Group): nat { if g == ZONECFG then 6 else 0 }

  function Hi(g: Group): nat {
    match g
    case ZONECFG => 24
    case SHELF => 18
    case LIGHT => 12
    case WATER => 16
    case FAN => 4
    case VIB => 10
    case AUX => 8
    case _ => 0
  }

  /** Row f is well formed and lies inside its group's bytes. */
  predicate Placed(g: Group, f: Field) {
    RowOk(f) && f.group == g && f.kind != PIN && Lo(g) <= f.offset && f.offset + Width(f.kind) <= Hi(g)
  }

  predicate PlacedFrom(g: Group, rows: seq<Field>, i: nat)
    requires i <= |rows|
    decreases |rows| - i
  {
    i == |rows| || (Placed(g, rows[i]) && PlacedFrom(g, rows, i + 1))
  }

  lemma {:induction false} PlacedAt(g: Group, rows: seq<Field>, i: nat, k: nat)
    requires i <= k < |rows| && PlacedFrom(g, rows, i)
    ensures Placed(g, rows[k])
    decreases |rows| - i
  {
    hide Placed;
    if i < k { PlacedAt(g, rows, i + 1, k); }
  }

  predicate Apart(f: Field, e: Field) {
    f.offset + Width(f.kind) <= e.offset || e.offset + Width(e.kind) <= f.offset
  }

  /** Rows are well formed, lie inside the group's bytes, and do not overlap. */
  predicate LaidOut(g: Group, rows: seq<Field>) {
    && PlacedFrom(g, rows, 0)
    && forall i, j :: 0 <= i < |rows| && 0 <= j < |rows| && i != j ==> Apart(rows[i], rows[j])
  }

  lemma NamesOfTwo(a: string, b: string)
    requires |a| != |b|
    ensures NamesDiffer([a, b])
  {
  }

  lemma FanNames()
    ensures NamesDiffer(["OFF", "ON", "LIGHT", "CYCLE"])
  {
    var names := ["OFF", "ON", "LIGHT", "CYCLE"];
    assert |names[0]| == 3 && |names[1]| == 2 && |names[2]| == |names[3]| == 5;
    assert names[2][0] == 'L' && names[3][0] == 'C';
    assert Upper(names[2][0]) != Upper(names[3][0]);
    forall i, j | 0 <= i < j < 4 ensures !CiEq(names[i], names[j]) {
      assert |names[i]| != |names[j]| || (i == 2 && j == 3);
    }
  }

  /** Rows that follow one another in the struct do not overlap. */
  predicate InOrder(rows: seq<Field>, i: nat)
    decreases |rows| - i
  {
    i + 1 >= |rows| || (rows[i].offset + Width(rows[i].kind) <= rows[i + 1].offset && InOrder(rows, i + 1))
  }

  lemma {:induction false} OrderApart(rows: seq<Field>, i: nat, k: nat, j: nat)
    requires i <= k < j < |rows| && InOrder(rows, i)
    ensures rows[k].offset + Width(rows[k].kind) <= rows[j].offset
    decreases j - i
  {
    hide Width;
    if i < k {
      OrderApart(rows, i + 1, k, j);
    } else if k + 1 < j {
      OrderApart(rows, k + 1, k + 1, j);
      assert Width(rows[k + 1].kind) >= 0;
    }
  }

  lemma InOrderLayout(g: Group, rows: seq<Field>)
    requires PlacedFrom(g, rows, 0) && InOrder(rows, 0)
    ensures LaidOut(g, rows)
  {
    hide PlacedFrom, InOrder, Width;
    forall i, j | 0 <= i < j < |rows| ensures rows[i].offset + Width(rows[i].kind) <= rows[j].offset {
      OrderApart(rows, 0, i, j);
    }
  }

  lemma ZoneLayout() ensures LaidOut(ZONECFG, ZoneRows()) {}

  lemma ShelfLayout() ensures LaidOut(SHELF, ShelfRows()) {}

  lemma LightPlaced() ensures PlacedFrom(LIGHT, LightRows(), 0) {}

  lemma LightOrder() ensures InOrder(LightRows(), 0) {}

  lemma LightLayout()
    ensures LaidOut(LIGHT, LightRows())
  {
    hide PlacedFrom, InOrder, LightRows, LaidOut;
    LightPlaced();
    LightOrder();
    InOrderLayout(LIGHT, LightRows());
  }

  lemma WaterPlaced()
    ensures PlacedFrom(WATER, WaterRows(), 0)
  {
    hide NamesDiffer;
    NamesOfTwo("OFF", "AUTO");
  }

  lemma WaterOrder() ensures InOrder(WaterRows(), 0) {}

  lemma WaterLayout()
    ensures LaidOut(WATER, WaterRows())
  {
    hide PlacedFrom, InOrder, WaterRows, LaidOut;
    WaterPlaced();
    WaterOrder();
    InOrderLayout(WATER, WaterRows());
  }

  lemma FanLayout()
    ensures LaidOut(FAN, FanRows())
  {
    hide NamesDiffer;
    FanNames();
  }

  lemma VibLayout()
    ensures LaidOut(VIB, VibRows())
  {
    hide NamesDiffer;
    NamesOfTwo("OFF", "PULSE");
  }

  lemma AuxLayout()
    ensures LaidOut(AUX, AuxRows())
  {
    hide NamesDiffer;
    NamesOfTwo("OFF", "PULSE");
  }

  lemma Layout(g: Group)
    requires !IsHw(g)
    ensures LaidOut(g, Rows(g))
  {
    hide LaidOut, ZoneRows, ShelfRows, LightRows, WaterRows, FanRows, VibRows, AuxRows;
    match g
    case ZONECFG => ZoneLayout();
    case SHELF => ShelfLayout();
    case LIGHT => LightLayout();
    case WATER => WaterLayout();
    case FAN => FanLayout();
    case VIB => VibLayout();
    case AUX => AuxLayout();
  }
}
