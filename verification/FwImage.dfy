/**
 The zone image as it is stored (components/fw_srv/fw_srv.c, components/panel_svc/fw_sink_zone.c):
 a 16-byte header, magic, length, CRC and a reserved word, and the raw image behind it.
 */
module FwImage {
  import opened Wrappers
  import opened Bytes
  import Crc32

  const HDR_LEN: nat := 16
  const MAGIC: bv32 := 0x57464748

  function Header(len: u32, crc: bv32): (s: seq<bv8>)
    ensures |s| == HDR_LEN
  {
    Le32(MAGIC) + Le32Nat(len) + Le32(crc) + Le32(0)
  }

  /** What the validator makes of a partition's contents: no image, or exactly these bytes. */
  function Image(m: seq<bv8>): Option<seq<bv8>> {
    if |m| < HDR_LEN || Rd32(m[0..4]) != MAGIC then None
    else
      var len := Rd32Nat(m[4..8]);
      if len == 0 || HDR_LEN + len > |m| then None
      else if Crc32.Crc(0, m[HDR_LEN..HDR_LEN + len]) != Rd32(m[8..12]) then None
      else Some(m[HDR_LEN..HDR_LEN + len])
  }

  /** One erased byte in the magic is enough: no image. */
  lemma ErasedMagic(m: seq<bv8>, i: nat)
    requires |m| >= HDR_LEN && i < 4 && m[i] == 0xFF
    ensures Image(m) == None
  {
    hide Le32, Rd32;
    MagicBytes();
    assert m[0..4][i] == m[i];
    Le32Rd32(m[0..4]);
  }

  lemma MagicBytes()
    ensures Le32(MAGIC) == [0x48, 0x47, 0x46, 0x57]
  {
  }

  lemma HighByteErased(s: seq<bv8>)
    requires |s| == 4 && s[3] == 0xFF
    ensures Rd32Nat(s) >= 0xFF00_0000
  {
  }

  /**
   The header written behind a complete body, cut after any of its bytes: the validator
   sees no image or the complete one, never anything else.
   */
  lemma TornHeader(m: seq<bv8>, img: seq<bv8>, k: nat)
    requires k <= HDR_LEN && HDR_LEN + |img| <= |m| <= 0xFF00_0000
    requires m[..HDR_LEN] == Header(|img|, Crc32.Crc(0, img))[..k] + Fill(0xFF, HDR_LEN - k)
    requires m[HDR_LEN..HDR_LEN + |img|] == img
    ensures Image(m) == None || Image(m) == Some(img)
    ensures k == HDR_LEN && img != [] ==> Image(m) == Some(img)
  {
    hide Rd32, Rd32Nat, Le32, Le32Nat, Crc32.Crc;
    var h := Header(|img|, Crc32.Crc(0, img));
    assert forall i :: 0 <= i < k ==> m[i] == m[..HDR_LEN][i] == h[i];
    assert forall i :: k <= i < HDR_LEN ==> m[i] == m[..HDR_LEN][i] == 0xFF;
    if k < 4 {
      ErasedMagic(m, 3);
    } else if k < 8 {
      HighByteErased(m[4..8]);
    } else {
      assert m[4..8] == h[4..8] == Le32Nat(|img|);
      Rd32Le32Nat(|img|);
      if k == HDR_LEN {
        assert m[0..4] == h[0..4] == Le32(MAGIC);
        Rd32Le32(MAGIC);
        assert m[8..12] == h[8..12] == Le32(Crc32.Crc(0, img));
        Rd32Le32(Crc32.Crc(0, img));
      }
    }
  }
}
