/**
 Bytes as they sit in flash, on the wire and in a blob, and the little-endian
 codecs every persisted header of the firmware is packed with.

 A byte is a `bv8`, so that NOR programming (AND) and the CRC shift register can be
 written with the operators the C code uses. 32-bit words that are only compared,
 stored or fed to the CRC are `bv32`; lengths and versions, which the code
 compares with sizes, are integers with their width stated.
 */
module Bytes {

  type u16 = x: int | 0 <= x < 0x1_0000
  type u32 = x: int | 0 <= x < 0x1_0000_0000

  /** The byte with a given value, found by counting up to it. */
  function ByteOf(n: int): bv8
    requires 0 <= n < 256
  {
    if n == 0 then 0 else ByteOf(n - 1) + 1
  }

  lemma Successor(b: bv8)
    requires b != 255
    ensures (b + 1) as int == (b as int) + 1
  {
  }

  lemma {:induction false} ByteOfValue(n: int)
    requires 0 <= n < 256
    ensures ByteOf(n) as int == n
  {
    if n > 0 {
      ByteOfValue(n - 1);
      Successor(ByteOf(n - 1));
    }
  }

  lemma SameValue(b: bv8, c: bv8)
    requires b as int == c as int
    ensures b == c
  {
    assert (b as int) as bv8 == b;
    assert (c as int) as bv8 == c;
  }

  lemma ByteOfBack(b: bv8)
    ensures ByteOf(b as int) == b
  {
    ByteOfValue(b as int);
    SameValue(b, ByteOf(b as int));
  }

  // ---- 16 bits, read back as a number ----

  function Le16(v: u16): (s: seq<bv8>)
    ensures |s| == 2
  {
    [ByteOf(v % 256), ByteOf(v / 256)]
  }

  function Rd16(s: seq<bv8>): (v: u16)
    requires |s| == 2
  {
    (s[0] as int) + 256 * (s[1] as int)
  }

  lemma Rd16Le16(v: u16)
    ensures Rd16(Le16(v)) == v
  {
    hide ByteOf;
    ByteOfValue(v % 256);
    ByteOfValue(v / 256);
  }

  lemma DivModByte(v: int, lo: int, hi: int)
    requires 0 <= lo < 256 && 0 <= hi < 256 && v == lo + 256 * hi
    ensures v % 256 == lo && v / 256 == hi
  {
  }

  lemma Le16Rd16(s: seq<bv8>)
    requires |s| == 2
    ensures Le16(Rd16(s)) == s
  {
    hide ByteOf;
    DivModByte(Rd16(s), s[0] as int, s[1] as int);
    ByteOfBack(s[0]);
    ByteOfBack(s[1]);
  }

  // ---- 32 bits, read back as a machine word ----

  function Le32(v: bv32): (s: seq<bv8>)
    ensures |s| == 4
  {
    [(v & 0xFF) as bv8, ((v >> 8) & 0xFF) as bv8, ((v >> 16) & 0xFF) as bv8, (v >> 24) as bv8]
  }

  function Rd32(s: seq<bv8>): bv32
    requires |s| == 4
  {
    (s[0] as bv32) | ((s[1] as bv32) << 8) | ((s[2] as bv32) << 16) | ((s[3] as bv32) << 24)
  }

  lemma Rd32Le32(v: bv32)
    ensures Rd32(Le32(v)) == v
  {
  }

  lemma Le32Rd32(s: seq<bv8>)
    requires |s| == 4
    ensures Le32(Rd32(s)) == s
  {
  }

  // ---- 32 bits, read back as a number (lengths and generations) ----

  function Le32Nat(v: u32): (s: seq<bv8>)
    ensures |s| == 4
  {
    Le16(v % 0x1_0000) + Le16(v / 0x1_0000)
  }

  function Rd32Nat(s: seq<bv8>): (v: u32)
    requires |s| == 4
  {
    Rd16(s[..2]) + 0x1_0000 * Rd16(s[2..])
  }

  lemma Rd32Le32Nat(v: u32)
    ensures Rd32Nat(Le32Nat(v)) == v
  {
    var s := Le32Nat(v);
    assert s[..2] == Le16(v % 0x1_0000) && s[2..] == Le16(v / 0x1_0000);
    Rd16Le16(v % 0x1_0000);
    Rd16Le16(v / 0x1_0000);
  }

  lemma Le32NatRd32Nat(s: seq<bv8>)
    requires |s| == 4
    ensures Le32Nat(Rd32Nat(s)) == s
  {
    hide Le16, Rd16;
    DivModHalf(Rd32Nat(s), Rd16(s[..2]), Rd16(s[2..]));
    Le16Rd16(s[..2]);
    Le16Rd16(s[2..]);
    assert s == s[..2] + s[2..];
  }

  lemma DivModHalf(v: int, lo: int, hi: int)
    requires 0 <= lo < 0x1_0000 && v == lo + 0x1_0000 * hi
    ensures v % 0x1_0000 == lo && v / 0x1_0000 == hi
  {
  }

  // ---- runs of one value ----

  function Fill(b: bv8, n: nat): (s: seq<bv8>)
    ensures |s| == n
    ensures forall i :: 0 <= i < n ==> s[i] == b
  {
    seq(n, _ => b)
  }
}
