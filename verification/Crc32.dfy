/**
 hg_crc32 (components/hg_blob/hg_blob.c): CRC-32/ISO-HDLC, bit by bit, with the
 register inverted on entry and exit so that one call's result seeds the next.

 The reference it is proved against is the table-driven form of section 8 of
 RFC 1952 (`TableCrc` below).
 */
module Crc32 {
  function Xor(x: bv32, y: bv32): bv32 { x ^ y }

  /** What is left of the register when its lowest bit falls out. */
  function Shifted(c: bv32): bv32 { c >> 1 }

  /** The polynomial if a 1 fell out, else nothing. */
  function Taken(c: bv32): bv32 { 0xEDB88320 & (0 - (c & 1)) }

  /** One turn of the inner loop. */
  function Bit(c: bv32): bv32 { Xor(Shifted(c), Taken(c)) }

  function Bits(c: bv32, k: nat): bv32 {
    if k == 0 then c else Bit(Bits(c, k - 1))
  }

  function Feed(c: bv32, b: bv8): bv32 {
    Bits(Xor(c, b as bv32), 8)
  }

  /** The register after the bytes of `s`, without the inversions. */
  function Run(c: bv32, s: seq<bv8>): bv32 {
    if s == [] then c else Feed(Run(c, s[..|s| - 1]), s[|s| - 1])
  }

  function Not(x: bv32): bv32 { !x }

  function Crc(seed: bv32, s: seq<bv8>): bv32 {
    Not(Run(Not(seed), s))
  }

  /** hg_crc32 itself: the C nested loop over a local register. */
  method HgCrc32(seed: bv32, buf: seq<bv8>) returns (r: bv32)
    ensures r == Crc(seed, buf)
    ensures r == TableCrc(seed, buf)
  {
    hide Run, Xor, Shifted, Taken, Not, TableCrc;
    var c := Not(seed);
    var p := 0;
    RunEmpty(c);
    assert buf[..0] == [];
    while p < |buf|
      invariant 0 <= p <= |buf|
      invariant c == Run(Not(seed), buf[..p])
    {
      ghost var before := c;
      c := Xor(c, buf[p] as bv32);
      for k := 0 to 8
        invariant c == Bits(Xor(before, buf[p] as bv32), k)
      {
        c := Xor(Shifted(c), Taken(c));
      }
      RunNext(Not(seed), buf, p);
      p := p + 1;
    }
    assert buf[..p] == buf;
    r := Not(c);
    BitLoopIsTable(seed, buf);
  }

  lemma RunNext(c: bv32, s: seq<bv8>, p: nat)
    requires p < |s|
    ensures Run(c, s[..p + 1]) == Feed(Run(c, s[..p]), s[p])
  {
    hide Feed;
    assert s[..p + 1][..p] == s[..p];
  }

  lemma RunEmpty(c: bv32)
    ensures Run(c, []) == c
  {
  }

  // ---------------- chaining ----------------

  lemma {:induction false} RunAppend(c: bv32, a: seq<bv8>, b: seq<bv8>)
    ensures Run(c, a + b) == Run(Run(c, a), b)
  {
    hide Feed;
    if b == [] {
      assert a + b == a;
    } else {
      var b' := b[..|b| - 1];
      assert (a + b)[..|a + b| - 1] == a + b';
      RunAppend(c, a, b');
    }
  }

  /** Feeding a previous result back in continues the same CRC, wherever the buffer is cut. */
  lemma Chains(seed: bv32, a: seq<bv8>, b: seq<bv8>)
    ensures Crc(Crc(seed, a), b) == Crc(seed, a + b)
  {
    hide Run, Not;
    NotNot(Run(Not(seed), a));
    RunAppend(Not(seed), a, b);
  }

  lemma NotNot(x: bv32)
    ensures Not(Not(x)) == x
  {
  }

  // ---------------- the shift register is linear and injective ----------------
  //
  // The proofs below hide the bit-vector definitions and use only these few laws, so
  // that each stays a short equational argument.

  lemma XorComm(a: bv32, b: bv32)
    ensures Xor(a, b) == Xor(b, a)
  {
  }

  lemma XorAssoc(a: bv32, b: bv32, c: bv32)
    ensures Xor(Xor(a, b), c) == Xor(a, Xor(b, c))
  {
  }

  lemma XorCancel(a: bv32, b: bv32)
    ensures Xor(Xor(a, b), b) == a
  {
  }

  lemma XorZero(a: bv32)
    ensures Xor(a, 0) == a
  {
  }

  lemma XorSwap(a: bv32, b: bv32, c: bv32, d: bv32)
    ensures Xor(Xor(a, b), Xor(c, d)) == Xor(Xor(a, c), Xor(b, d))
  {
    hide Xor;
    calc {
      Xor(Xor(a, b), Xor(c, d));
      { XorAssoc(a, b, Xor(c, d)); }
      Xor(a, Xor(b, Xor(c, d)));
      { XorAssoc(b, c, d); XorComm(b, c); XorAssoc(c, b, d); }
      Xor(a, Xor(c, Xor(b, d)));
      { XorAssoc(a, c, Xor(b, d)); }
      Xor(Xor(a, c), Xor(b, d));
    }
  }

  lemma ShiftedXor(x: bv32, y: bv32)
    ensures Shifted(Xor(x, y)) == Xor(Shifted(x), Shifted(y))
  {
  }

  lemma TakenXor(x: bv32, y: bv32)
    ensures Taken(Xor(x, y)) == Xor(Taken(x), Taken(y))
  {
  }

  lemma {:induction false} BitsXor(x: bv32, y: bv32, k: nat)
    ensures Bits(Xor(x, y), k) == Xor(Bits(x, k), Bits(y, k))
  {
    hide Xor, Shifted, Taken;
    if k > 0 {
      BitsXor(x, y, k - 1);
      var x', y' := Bits(x, k - 1), Bits(y, k - 1);
      ShiftedXor(x', y');
      TakenXor(x', y');
      XorSwap(Shifted(x'), Shifted(y'), Taken(x'), Taken(y'));
    }
  }

  lemma BitInjective(x: bv32, y: bv32)
    requires Bit(x) == Bit(y)
    ensures x == y
  {
  }

  lemma {:induction false} BitsInjective(x: bv32, y: bv32, k: nat)
    requires Bits(x, k) == Bits(y, k)
    ensures x == y
  {
    hide Bit;
    if k > 0 {
      BitInjective(Bits(x, k - 1), Bits(y, k - 1));
      BitsInjective(x, y, k - 1);
    }
  }

  lemma {:induction false} BitsAdd(c: bv32, j: nat, k: nat)
    ensures Bits(Bits(c, j), k) == Bits(c, j + k)
  {
    hide Bit;
    if k > 0 {
      BitsAdd(c, j, k - 1);
    }
  }

  /** Equal tails cannot bring two different registers together again. */
  lemma {:induction false} RunInjective(x: bv32, y: bv32, s: seq<bv8>)
    requires Run(x, s) == Run(y, s)
    ensures x == y
  {
    hide Bits, Xor;
    if s != [] {
      var t := s[..|s| - 1];
      var b := s[|s| - 1] as bv32;
      BitsInjective(Xor(Run(x, t), b), Xor(Run(y, t), b), 8);
      XorCancel(Run(x, t), b);
      XorCancel(Run(y, t), b);
      RunInjective(x, y, t);
    }
  }

  // ---------------- the table form of RFC 1952 ----------------

  /** Entry n of the RFC's crc_table: k turns of its make_crc_table loop, eight for the table. */
  function TableEntry(n: bv32, k: nat): bv32 {
    if k == 0 then n
    else
      var c := TableEntry(n, k - 1);
      if c & 1 == 1 then 0xEDB88320 ^ (c >> 1) else c >> 1
  }

  function TableFeed(c: bv32, b: bv8): bv32 {
    TableEntry((c ^ (b as bv32)) & 0xFF, 8) ^ (c >> 8)
  }

  function TableRun(c: bv32, s: seq<bv8>): bv32 {
    if s == [] then c else TableFeed(TableRun(c, s[..|s| - 1]), s[|s| - 1])
  }

  function Inverted(x: bv32): bv32 { x ^ 0xFFFFFFFF }

  function TableCrc(crc: bv32, s: seq<bv8>): bv32 {
    Inverted(TableRun(Inverted(crc), s))
  }

  lemma BranchIsMask(c: bv32)
    ensures Bit(c) == if c & 1 == 1 then 0xEDB88320 ^ (c >> 1) else c >> 1
  {
    if c & 1 == 1 {
      assert Taken(c) == 0xEDB88320;
    } else {
      assert c & 1 == 0;
      assert Taken(c) == 0;
    }
  }

  lemma {:induction false} EntryIsBits(n: bv32, k: nat)
    ensures TableEntry(n, k) == Bits(n, k)
  {
    hide Bit;
    if k > 0 {
      EntryIsBits(n, k - 1);
      BranchIsMask(Bits(n, k - 1));
    }
  }

  lemma NestedTurns(c: bv32)
    requires c & 0xFF == 0
    ensures Bit(Bit(Bit(Bit(Bit(Bit(Bit(Bit(c)))))))) == c >> 8
  {
  }

  /** With the low byte clear nothing falls out in eight turns: they are a plain shift. */
  lemma EightShifts(c: bv32)
    requires c & 0xFF == 0
    ensures Bits(c, 8) == c >> 8
  {
    hide Bit;
    NestedTurns(c);
    assert Bits(c, 1) == Bit(c);
    assert Bits(c, 3) == Bit(Bit(Bit(c)));
    assert Bits(c, 5) == Bit(Bit(Bits(c, 3)));
    assert Bits(c, 7) == Bit(Bit(Bits(c, 5)));
  }

  lemma SplitLow(c: bv32, b: bv8)
    ensures Xor(c, b as bv32) == Xor((c ^ (b as bv32)) & 0xFF, c & 0xFFFFFF00)
    ensures (c & 0xFFFFFF00) & 0xFF == 0
    ensures (c & 0xFFFFFF00) >> 8 == c >> 8
  {
  }

  lemma TableFeedXor(c: bv32, b: bv8)
    ensures TableFeed(c, b) == Xor(TableEntry((c ^ (b as bv32)) & 0xFF, 8), c >> 8)
  {
  }

  lemma FeedIsTableFeed(c: bv32, b: bv8)
    ensures Feed(c, b) == TableFeed(c, b)
  {
    hide Xor, Bits, TableEntry, TableFeed;
    SplitLow(c, b);
    var lo, hi := (c ^ (b as bv32)) & 0xFF, c & 0xFFFFFF00;
    BitsXor(lo, hi, 8);
    EightShifts(hi);
    EntryIsBits(lo, 8);
    TableFeedXor(c, b);
  }

  lemma {:induction false} RunIsTableRun(c: bv32, s: seq<bv8>)
    ensures Run(c, s) == TableRun(c, s)
  {
    hide Feed, TableFeed;
    if s != [] {
      RunIsTableRun(c, s[..|s| - 1]);
      FeedIsTableFeed(Run(c, s[..|s| - 1]), s[|s| - 1]);
    }
  }

  /** The bit loop computes the CRC of section 8 of RFC 1952, for every seed and buffer. */
  lemma BitLoopIsTable(seed: bv32, s: seq<bv8>)
    ensures Crc(seed, s) == TableCrc(seed, s)
  {
    hide Run, TableRun, Not, Inverted;
    NotInverts(seed);
    RunIsTableRun(Not(seed), s);
    NotInverts(Run(Not(seed), s));
  }

  lemma NotInverts(x: bv32)
    ensures Not(x) == Inverted(x)
  {
  }

  // ---------------- bursts of up to four bytes ----------------

  /** Byte i of a window, moved up to where it will be when its turn comes. */
  function Lane(b: bv8, i: nat): bv32
    requires i <= 3
  {
    if i == 0 then b as bv32 else if i == 1 then (b as bv32) << 8
    else if i == 2 then (b as bv32) << 16 else (b as bv32) << 24
  }

  /** Up to four bytes packed little-endian into one word. */
  function Pack(w: seq<bv8>): bv32
    requires |w| <= 4
  {
    if w == [] then 0 else Xor(Pack(w[..|w| - 1]), Lane(w[|w| - 1], |w| - 1))
  }

  lemma LaneShift(b: bv8, i: nat)
    requires 1 <= i <= 3
    ensures Lane(b, i) & 0xFF == 0 && Lane(b, i) >> 8 == Lane(b, i - 1)
  {
    if i == 1 {
      assert Lane(b, 1) >> 8 == b as bv32;
    } else if i == 2 {
      assert Lane(b, 2) >> 8 == (b as bv32) << 8;
    } else {
      assert Lane(b, 3) >> 8 == (b as bv32) << 16;
    }
  }

  /** Eight turns take a byte down one lane. */
  lemma LaneDown(b: bv8, i: nat)
    requires 1 <= i <= 3
    ensures Bits(Lane(b, i), 8) == Lane(b, i - 1)
  {
    hide Bits, Lane;
    LaneShift(b, i);
    EightShifts(Lane(b, i));
  }

  /** A byte that arrives i bytes later is the same byte, i lanes higher, XORed in at once. */
  lemma {:induction false} Defer(b: bv8, i: nat)
    requires i <= 3
    ensures Bits(Lane(b, i), 8 * i) == b as bv32
  {
    hide Bits, Lane;
    if i == 0 {
      DeferNone(b);
    } else {
      LaneDown(b, i);
      Defer(b, i - 1);
      BitsAdd(Lane(b, i), 8, 8 * (i - 1));
      assert 8 + 8 * (i - 1) == 8 * i;
    }
  }

  lemma DeferNone(b: bv8)
    ensures Bits(Lane(b, 0), 0) == b as bv32
  {
  }

  /** A window of n <= 4 bytes is one XOR into the register followed by 8n turns. */
  lemma {:induction false} RunIsPacked(c: bv32, w: seq<bv8>)
    requires |w| <= 4
    ensures Run(c, w) == Bits(Xor(c, Pack(w)), 8 * |w|)
  {
    hide Xor, Bit, Lane;
    if w == [] {
      XorZero(c);
    } else {
      hide Bits;
      var v, b, i := w[..|w| - 1], w[|w| - 1], |w| - 1;
      RunIsPacked(c, v);
      Defer(b, i);
      var x := Xor(c, Pack(v));
      BitsXor(x, Lane(b, i), 8 * i);
      BitsAdd(Xor(x, Lane(b, i)), 8 * i, 8);
      XorAssoc(c, Pack(v), Lane(b, i));
    }
  }

  /** The four lanes side by side; an absent byte is a zero lane. */
  function Lanes(a: bv8, b: bv8, c: bv8, d: bv8): bv32 {
    Xor(Xor(Xor(Lane(a, 0), Lane(b, 1)), Lane(c, 2)), Lane(d, 3))
  }

  lemma LowLanes(a: bv8, b: bv8, c: bv8, d: bv8)
    ensures Lanes(a, b, c, d) & 0xFF == a as bv32
    ensures (Lanes(a, b, c, d) >> 8) & 0xFF == b as bv32
  {
  }

  lemma HighLanes(a: bv8, b: bv8, c: bv8, d: bv8)
    ensures (Lanes(a, b, c, d) >> 16) & 0xFF == c as bv32
    ensures Lanes(a, b, c, d) >> 24 == d as bv32
  {
  }

  lemma LanesInjective(a: bv8, b: bv8, c: bv8, d: bv8, a': bv8, b': bv8, c': bv8, d': bv8)
    requires Lanes(a, b, c, d) == Lanes(a', b', c', d')
    ensures a == a' && b == b' && c == c' && d == d'
  {
    hide Lanes;
    LowLanes(a, b, c, d);
    LowLanes(a', b', c', d');
    HighLanes(a, b, c, d);
    HighLanes(a', b', c', d');
  }

  lemma LaneZero(i: nat)
    requires i <= 3
    ensures Lane(0, i) == 0
  {
  }

  function At(w: seq<bv8>, i: nat): bv8 {
    if i < |w| then w[i] else 0
  }

  lemma {:induction false} PackIsLanes(w: seq<bv8>)
    requires |w| <= 4
    ensures Pack(w) == Lanes(At(w, 0), At(w, 1), At(w, 2), At(w, 3))
  {
    hide Lane, Xor;
    LaneZero(0); LaneZero(1); LaneZero(2); LaneZero(3);
    XorZero(0);
    if w == [] {
    } else {
      var v := w[..|w| - 1];
      PackIsLanes(v);
      XorZero(Lane(At(w, 0), 0));
      XorZero(Xor(Lane(At(w, 0), 0), Lane(At(w, 1), 1)));
      XorZero(Xor(Xor(Lane(At(w, 0), 0), Lane(At(w, 1), 1)), Lane(At(w, 2), 2)));
      XorComm(0, Lane(At(w, 0), 0));
    }
  }

  lemma PackInjective(v: seq<bv8>, w: seq<bv8>)
    requires |v| == |w| <= 4 && Pack(v) == Pack(w)
    ensures v == w
  {
    hide Pack, Lanes;
    PackIsLanes(v);
    PackIsLanes(w);
    LanesInjective(At(v, 0), At(v, 1), At(v, 2), At(v, 3), At(w, 0), At(w, 1), At(w, 2), At(w, 3));
  }

  lemma WindowInjective(c: bv32, v: seq<bv8>, w: seq<bv8>)
    requires |v| == |w| <= 4 && Run(c, v) == Run(c, w)
    ensures v == w
  {
    hide Xor, Bits, Pack, Run;
    RunIsPacked(c, v);
    RunIsPacked(c, w);
    BitsInjective(Xor(c, Pack(v)), Xor(c, Pack(w)), 8 * |v|);
    XorComm(c, Pack(v)); XorCancel(Pack(v), c);
    XorComm(c, Pack(w)); XorCancel(Pack(w), c);
    PackInjective(v, w);
  }

  /** Two buffers that agree outside a window of at most four bytes never share a CRC. */
  lemma BurstChangesCrc(seed: bv32, pre: seq<bv8>, v: seq<bv8>, w: seq<bv8>, post: seq<bv8>)
    requires |v| == |w| <= 4 && v != w
    ensures Crc(seed, pre + v + post) != Crc(seed, pre + w + post)
  {
    hide Run, Not;
    RunAppend(Not(seed), pre + v, post);
    RunAppend(Not(seed), pre, v);
    RunAppend(Not(seed), pre + w, post);
    RunAppend(Not(seed), pre, w);
    var c := Run(Not(seed), pre);
    if Crc(seed, pre + v + post) == Crc(seed, pre + w + post) {
      NotInjective(Run(Run(c, v), post), Run(Run(c, w), post));
      RunInjective(Run(c, v), Run(c, w), post);
      WindowInjective(c, v, w);
    }
  }

  lemma NotInjective(x: bv32, y: bv32)
    requires Not(x) == Not(y)
    ensures x == y
  {
  }
}
