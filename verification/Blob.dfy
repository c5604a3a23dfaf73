/**
 The hg_blob envelope (components/hg_blob/hg_blob.c): a 16-byte header in front of a
 payload, carrying a magic, a layout version, the payload length, a generation and a
 CRC chained over the header's first twelve bytes and the payload.
 */
module Blob {
  import opened Bytes
  import Crc32

  const HDR_LEN: nat := 16

  /** hg_blob_rc_t together with what a successful unwrap writes out. */
  datatype Unwrapped =
    | Ok(payload: seq<bv8>, gen: u32)
    | Migrated(payload: seq<bv8>, gen: u32)
    | EShort | EMagic | ELength | ECrc | EVersionNewer | EVersionOld
  {
    predicate Accepted() { Ok? || Migrated? }
  }

  // ---------------- the layout ----------------

  function Prefix(magic: bv32, version: u16, len: u16, gen: u32): (s: seq<bv8>)
    ensures |s| == 12
  {
    Le32(magic) + Le16(version) + Le16(len) + Le32Nat(gen)
  }

  function Checksum(prefix: seq<bv8>, payload: seq<bv8>): bv32 {
    Crc32.Crc(Crc32.Crc(0, prefix), payload)
  }

  function Wrap(magic: bv32, version: u16, gen: u32, payload: seq<bv8>): (s: seq<bv8>)
    requires |payload| < 0x1_0000
    ensures |s| == HDR_LEN + |payload|
  {
    var p := Prefix(magic, version, |payload|, gen);
    p + Le32(Checksum(p, payload)) + payload
  }

  // the header fields of any buffer long enough to hold them

  function MagicOf(s: seq<bv8>): bv32 requires |s| >= HDR_LEN { Rd32(s[0..4]) }
  function VersionOf(s: seq<bv8>): u16 requires |s| >= HDR_LEN { Rd16(s[4..6]) }
  function LenOf(s: seq<bv8>): u16 requires |s| >= HDR_LEN { Rd16(s[6..8]) }
  function GenOf(s: seq<bv8>): u32 requires |s| >= HDR_LEN { Rd32Nat(s[8..12]) }
  function CrcOf(s: seq<bv8>): bv32 requires |s| >= HDR_LEN { Rd32(s[12..16]) }

  function Padded(payload: seq<bv8>, cap: nat): (s: seq<bv8>)
    requires |payload| <= cap
    ensures |s| == cap
  {
    payload + Fill(0, cap - |payload|)
  }

  /** The checks of hg_blob_unwrap in its order: magic, length, CRC, and only then the version. */
  function Unwrap(magic: bv32, curVer: u16, minCompat: u16, s: seq<bv8>, cap: u16): Unwrapped {
    if |s| < HDR_LEN then EShort
    else if MagicOf(s) != magic then EMagic
    else
      var len := LenOf(s);
      if len > cap || HDR_LEN + len > |s| then ELength
      else
        var payload := s[HDR_LEN..HDR_LEN + len];
        if Checksum(s[..12], payload) != CrcOf(s) then ECrc
        else if VersionOf(s) > curVer then EVersionNewer
        else if VersionOf(s) < minCompat then EVersionOld
        else if VersionOf(s) < curVer || len < cap then Migrated(Padded(payload, cap), GenOf(s))
        else Ok(Padded(payload, cap), GenOf(s))
  }

  // ---------------- the C functions ----------------

  method Wr16(out: array<bv8>, off: nat, v: u16)
    requires off + 2 <= out.Length
    modifies out
    ensures out[..] == old(out[..off]) + Le16(v) + old(out[off + 2..])
  {
    out[off] := ByteOf(v % 256);
    out[off + 1] := ByteOf(v / 256);
  }

  method Wr32(out: array<bv8>, off: nat, v: bv32)
    requires off + 4 <= out.Length
    modifies out
    ensures out[..] == old(out[..off]) + Le32(v) + old(out[off + 4..])
  {
    out[off] := (v & 0xFF) as bv8;
    out[off + 1] := ((v >> 8) & 0xFF) as bv8;
    out[off + 2] := ((v >> 16) & 0xFF) as bv8;
    out[off + 3] := (v >> 24) as bv8;
  }

  /** wr32 of a word kept as a number: low half, then high half. */
  method Wr32Nat(out: array<bv8>, off: nat, v: u32)
    requires off + 4 <= out.Length
    modifies out
    ensures out[..] == old(out[..off]) + Le32Nat(v) + old(out[off + 4..])
  {
    hide Le16;
    Wr16(out, off, v % 0x1_0000);
    Wr16(out, off + 2, v / 0x1_0000);
  }

  method CopyInto(out: array<bv8>, off: nat, src: seq<bv8>)
    requires off + |src| <= out.Length
    modifies out
    ensures out[..] == old(out[..off]) + src + old(out[off + |src|..])
  {
    for i := 0 to |src|
      invariant forall k :: 0 <= k < i ==> out[off + k] == src[k]
      invariant forall k :: 0 <= k < off || off + i <= k < out.Length ==> out[k] == old(out[k])
    {
      out[off + i] := src[i];
    }
  }

  method WrHeader(out: array<bv8>, magic: bv32, version: u16, len: u16, gen: u32)
    requires out.Length >= 12
    modifies out
    ensures out[..] == Prefix(magic, version, len, gen) + old(out[12..])
  {
    hide Le32, Le16, Le32Nat;
    ghost var body := out[12..];
    Wr32(out, 0, magic);
    assert out[12..] == body;
    Wr16(out, 4, version);
    assert out[12..] == body && out[..6] == Le32(magic) + Le16(version);
    Wr16(out, 6, len);
    assert out[12..] == body && out[..8] == Le32(magic) + Le16(version) + Le16(len);
    Wr32Nat(out, 8, gen);
    assert out[12..] == body;
  }

  /** hg_blob_wrap: the bytes written, or 0 with the buffer untouched when it is too small. */
  method HgBlobWrap(magic: bv32, version: u16, gen: u32, payload: seq<bv8>, out: array<bv8>)
    returns (n: nat)
    requires |payload| < 0x1_0000
    modifies out
    ensures out.Length < HDR_LEN + |payload| ==> n == 0 && out[..] == old(out[..])
    ensures out.Length >= HDR_LEN + |payload| ==>
              n == HDR_LEN + |payload|
              && out[..] == Wrap(magic, version, gen, payload) + old(out[n..])
  {
    hide Le32, Le32Nat, Prefix, Crc32.Crc, Crc32.TableCrc;
    if out.Length < HDR_LEN + |payload| { return 0; }
    ghost var was := out[..];
    WrHeader(out, magic, version, |payload|, gen);
    ghost var p := Prefix(magic, version, |payload|, gen);
    ghost var s1 := out[..];
    CopyInto(out, HDR_LEN, payload);
    ghost var s2 := out[..];
    Assembled(was, p, s1, payload, s2);
    assert out[..12] == s2[..12];
    var c := Crc32.HgCrc32(0, out[..12]);
    c := Crc32.HgCrc32(c, payload);
    Wr32(out, 12, c);
    n := HDR_LEN + |payload|;
    assert out[..] == s2[..12] + Le32(c) + s2[16..];
    assert out[..] == (p + Le32(Checksum(p, payload)) + payload) + was[n..];
  }

  /** Writing the header and then the payload behind it, seen on the buffer's contents. */
  lemma Assembled(was: seq<bv8>, p: seq<bv8>, s1: seq<bv8>, payload: seq<bv8>, s2: seq<bv8>)
    requires |p| == 12 && |was| >= HDR_LEN + |payload|
    requires s1 == p + was[12..]
    requires s2 == s1[..HDR_LEN] + payload + s1[HDR_LEN + |payload|..]
    ensures |s2| == |was| && s2[..12] == p && s2[HDR_LEN..] == payload + was[HDR_LEN + |payload|..]
  {
  }

  /** hg_blob_unwrap: writes the payload buffer only when it accepts. */
  method HgBlobUnwrap(magic: bv32, curVer: u16, minCompat: u16, s: seq<bv8>, payloadOut: array<bv8>)
    returns (rc: Unwrapped)
    requires payloadOut.Length < 0x1_0000
    modifies payloadOut
    ensures rc == Unwrap(magic, curVer, minCompat, s, payloadOut.Length)
    ensures payloadOut[..] == if rc.Accepted() then rc.payload else old(payloadOut[..])
  {
    hide Rd32, Rd16, Rd32Nat, Crc32.Crc, Crc32.TableCrc;
    if |s| < HDR_LEN { return EShort; }
    if Rd32(s[0..4]) != magic { return EMagic; }
    var len := Rd16(s[6..8]);
    if len > payloadOut.Length || HDR_LEN + len > |s| { return ELength; }
    var c := Crc32.HgCrc32(0, s[..12]);
    c := Crc32.HgCrc32(c, s[HDR_LEN..HDR_LEN + len]);
    if c != Rd32(s[12..16]) { return ECrc; }
    var ver := Rd16(s[4..6]);
    if ver > curVer { return EVersionNewer; }
    if ver < minCompat { return EVersionOld; }
    CopyInto(payloadOut, 0, Fill(0, payloadOut.Length));
    CopyInto(payloadOut, 0, s[HDR_LEN..HDR_LEN + len]);
    assert payloadOut[..] == Padded(s[HDR_LEN..HDR_LEN + len], payloadOut.Length);
    rc := if ver < curVer || len < payloadOut.Length then Migrated(payloadOut[..], Rd32Nat(s[8..12]))
          else Ok(payloadOut[..], Rd32Nat(s[8..12]));
  }

  // ---------------- what the pair promises ----------------

  lemma FieldsOfWrap(magic: bv32, version: u16, gen: u32, payload: seq<bv8>, tail: seq<bv8>)
    requires |payload| < 0x1_0000
    ensures var s := Wrap(magic, version, gen, payload) + tail;
            && MagicOf(s) == magic && VersionOf(s) == version && LenOf(s) == |payload| && GenOf(s) == gen
            && s[..12] == Prefix(magic, version, |payload|, gen)
            && CrcOf(s) == Checksum(s[..12], payload)
            && s[HDR_LEN..HDR_LEN + |payload|] == payload
  {
    hide Le32, Rd32, Le32Nat, Rd32Nat, Le16, Rd16, Checksum;
    var p := Prefix(magic, version, |payload|, gen);
    var s := Wrap(magic, version, gen, payload) + tail;
    assert s[0..4] == Le32(magic) && s[4..6] == Le16(version) && s[6..8] == Le16(|payload|)
        && s[8..12] == Le32Nat(gen) && s[..12] == p && s[12..16] == Le32(Checksum(p, payload));
    Rd32Le32(magic);
    Rd16Le16(version);
    Rd16Le16(|payload|);
    Rd32Le32Nat(gen);
    Rd32Le32(Checksum(p, payload));
  }

  /**
   Unwrap undoes wrap, whatever follows the envelope in the buffer; a payload of an
   older layout or a shorter one comes back zero-extended and marked as migrated.
   */
  lemma UnwrapWrap(magic: bv32, version: u16, gen: u32, payload: seq<bv8>, tail: seq<bv8>,
                   curVer: u16, minCompat: u16, cap: u16)
    requires |payload| <= cap && minCompat <= version <= curVer
    ensures Unwrap(magic, curVer, minCompat, Wrap(magic, version, gen, payload) + tail, cap)
         == if version == curVer && |payload| == cap then Ok(payload, gen)
            else Migrated(payload + Fill(0, cap - |payload|), gen)
  {
    hide MagicOf, VersionOf, LenOf, GenOf, CrcOf, Checksum, Prefix, Wrap;
    FieldsOfWrap(magic, version, gen, payload, tail);
    assert payload + Fill(0, 0) == payload;
  }

  /** Which of the two version errors a well-formed envelope draws. */
  lemma UnwrapWrongVersion(magic: bv32, version: u16, gen: u32, payload: seq<bv8>, tail: seq<bv8>,
                           curVer: u16, minCompat: u16, cap: u16)
    requires minCompat <= curVer && !(minCompat <= version <= curVer) && |payload| < 0x1_0000
    ensures Unwrap(magic, curVer, minCompat, Wrap(magic, version, gen, payload) + tail, cap)
         == if |payload| > cap then ELength
            else if version > curVer then EVersionNewer else EVersionOld
  {
    hide MagicOf, VersionOf, LenOf, GenOf, CrcOf, Checksum, Prefix, Wrap;
    FieldsOfWrap(magic, version, gen, payload, tail);
  }

  /** Nothing but the output of wrap is accepted: the accepted bytes are one envelope, then a tail. */
  lemma AcceptedIsWrapped(magic: bv32, curVer: u16, minCompat: u16, s: seq<bv8>, cap: u16)
    requires Unwrap(magic, curVer, minCompat, s, cap).Accepted()
    ensures var u := Unwrap(magic, curVer, minCompat, s, cap);
            var len := LenOf(s);
            && len <= cap && HDR_LEN + len <= |s|
            && minCompat <= VersionOf(s) <= curVer
            && s == Wrap(magic, VersionOf(s), u.gen, s[HDR_LEN..HDR_LEN + len]) + s[HDR_LEN + len..]
            && u.payload == Padded(s[HDR_LEN..HDR_LEN + len], cap)
  {
    hide Le32, Rd32, Le32Nat, Rd32Nat, Le16, Rd16, Checksum;
    var len := LenOf(s);
    var payload := s[HDR_LEN..HDR_LEN + len];
    Le32Rd32(s[0..4]);
    Le16Rd16(s[4..6]);
    Le16Rd16(s[6..8]);
    Le32NatRd32Nat(s[8..12]);
    Le32Rd32(s[12..16]);
    Cut(s, HDR_LEN + len);
    assert s[..12] == Prefix(magic, VersionOf(s), len, GenOf(s));
  }

  lemma Cut(s: seq<bv8>, n: nat)
    requires HDR_LEN <= n <= |s|
    ensures s == s[..12] + s[12..16] + s[HDR_LEN..n] + s[n..]
    ensures s[..12] == s[0..4] + s[4..6] + s[6..8] + s[8..12]
  {
  }

  /**
   Corruption confined to any four consecutive payload bytes is always refused with the
   CRC error: `v` is what was wrapped at that place and `w` what arrived.
   */
  lemma BurstInPayloadIsRefused(magic: bv32, version: u16, gen: u32,
                                pre: seq<bv8>, v: seq<bv8>, w: seq<bv8>, post: seq<bv8>, tail: seq<bv8>,
                                curVer: u16, minCompat: u16, cap: u16)
    requires |v| == |w| <= 4 && v != w
    requires |pre + v + post| <= cap
    ensures var sent := Wrap(magic, version, gen, pre + v + post);
            var got := sent[..HDR_LEN + |pre|] + w + sent[HDR_LEN + |pre| + |v|..];
            && |got| == |sent|
            && Unwrap(magic, curVer, minCompat, got + tail, cap) == ECrc
  {
    hide Checksum, Prefix, Le32, Rd32, Rd16, Rd32Nat, Wrap;
    var sent := Wrap(magic, version, gen, pre + v + post);
    FieldsOfWrap(magic, version, gen, pre + v + post, []);
    assert sent + [] == sent && sent[HDR_LEN..HDR_LEN + |pre + v + post|] == sent[HDR_LEN..];
    Replaced(sent, pre, v, w, post, tail);
    ChecksumTellsBursts(sent[..12], pre, v, w, post);
  }

  /** Only payload bytes differ between what was sent and what arrived. */
  lemma Replaced(sent: seq<bv8>, pre: seq<bv8>, v: seq<bv8>, w: seq<bv8>, post: seq<bv8>, tail: seq<bv8>)
    requires |v| == |w| && |sent| == HDR_LEN + |pre + v + post|
    requires sent[HDR_LEN..] == pre + v + post
    ensures var got := sent[..HDR_LEN + |pre|] + w + sent[HDR_LEN + |pre| + |v|..];
            var s := got + tail;
            && |got| == |sent| && s[..12] == sent[..12]
            && s[0..4] == sent[0..4] && s[6..8] == sent[6..8] && s[12..16] == sent[12..16]
            && s[HDR_LEN..HDR_LEN + |pre + w + post|] == pre + w + post
  {
    var got := sent[..HDR_LEN + |pre|] + w + sent[HDR_LEN + |pre| + |v|..];
    var s := got + tail;
    assert sent[HDR_LEN..HDR_LEN + |pre|] == sent[HDR_LEN..][..|pre|] == pre;
    assert sent[..HDR_LEN + |pre|] == sent[..HDR_LEN] + pre;
    assert sent[HDR_LEN + |pre| + |v|..] == sent[HDR_LEN..][|pre| + |v|..] == post;
    assert s == sent[..HDR_LEN] + (pre + w + post) + tail;
    assert s[..HDR_LEN] == sent[..HDR_LEN];
    assert s[..12] == s[..HDR_LEN][..12] && sent[..12] == sent[..HDR_LEN][..12];
    assert forall i, j :: 0 <= i <= j <= HDR_LEN ==> s[i..j] == s[..HDR_LEN][i..j] == sent[..HDR_LEN][i..j] == sent[i..j];
  }

  lemma ChecksumTellsBursts(p: seq<bv8>, pre: seq<bv8>, v: seq<bv8>, w: seq<bv8>, post: seq<bv8>)
    requires |v| == |w| <= 4 && v != w
    ensures Checksum(p, pre + v + post) != Checksum(p, pre + w + post)
  {
    hide Crc32.Crc;
    Crc32.BurstChangesCrc(Crc32.Crc(0, p), pre, v, w, post);
  }
}
