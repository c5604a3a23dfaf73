/**
 What the config reconciler keeps and sends: hg_zone_cfg_t and hg_zone_hw_t as packed
 bytes inside hg_blob envelopes (components/hg_cfg/hg_cfg_types.h). Of the config's fields
 only the first two matter here: the generation in bytes 0..3 and the source in byte 4.
 */
module CfgEnvelope {
  import opened Bytes
  import Blob
  import Crc32

  const MAGIC_CFG: bv32 := 0x46434748
  const MAGIC_HW: bv32 := 0x57484748
  const VER: nat := 1
  const CFG_LEN: nat := 336
  const HW_LEN: nat := 160
  const BLOB_LEN: nat := 352
  const SRC_MASTER: bv8 := 1

  type Payload = p: seq<bv8> | |p| == CFG_LEN witness Fill(0, CFG_LEN)

  /** The embedded generation, and everything the operator can set. */
  function EmbeddedGen(p: Payload): u32 { Rd32Nat(p[0..4]) }
  function Settings(p: Payload): seq<bv8> { p[5..] }

  function Stamp(p: Payload, gen: u32): (r: Payload) {
    Le32Nat(gen) + [SRC_MASTER] + Settings(p)
  }

  function PayloadCrc(p: seq<bv8>): bv32 { Crc32.Crc(0, p) }

  function CfgBlob(gen: u32, p: Payload): (b: seq<bv8>)
    ensures |b| == BLOB_LEN
  {
    Blob.Wrap(MAGIC_CFG, VER, gen, p)
  }

  function HwBlob(gen: u32, p: seq<bv8>): (b: seq<bv8>)
    requires |p| == HW_LEN
    ensures |b| == Blob.HDR_LEN + HW_LEN
  {
    Blob.Wrap(MAGIC_HW, VER, gen, p)
  }

  function Inner(blob: seq<bv8>): Payload
    requires |blob| == BLOB_LEN
  {
    blob[Blob.HDR_LEN..]
  }

  /** hg_blob_unwrap as the pull path calls it, one plane or the other. */
  function UnwrapPlane(kind: nat, bytes: seq<bv8>): (u: Blob.Unwrapped)
    ensures u.Accepted() ==> |u.payload| == if kind == 1 then CFG_LEN else HW_LEN
  {
    if kind == 1 then Blob.Unwrap(MAGIC_CFG, VER, VER, bytes, CFG_LEN)
    else Blob.Unwrap(MAGIC_HW, VER, VER, bytes, HW_LEN)
  }

  lemma InnerOfBlob(gen: u32, p: Payload)
    ensures Inner(CfgBlob(gen, p)) == p
  {
  }

  lemma StampKeeps(p: Payload, gen: u32)
    ensures Settings(Stamp(p, gen)) == Settings(p)
    ensures EmbeddedGen(Stamp(p, gen)) == gen
    ensures Stamp(p, gen)[4] == SRC_MASTER
  {
    hide Bytes.Le32Nat, Bytes.Rd32Nat;
    Rd32Le32Nat(gen);
    assert Stamp(p, gen)[0..4] == Le32Nat(gen);
  }

  /** What was wrapped for the CFG plane unwraps to the same generation and bytes. */
  lemma CfgUnwraps(gen: u32, p: Payload)
    ensures UnwrapPlane(1, CfgBlob(gen, p)) == Blob.Ok(p, gen)
  {
    hide Blob.Wrap, Blob.Unwrap;
    Blob.UnwrapWrap(MAGIC_CFG, VER, gen, p, [], VER, VER, CFG_LEN);
    assert CfgBlob(gen, p) + [] == CfgBlob(gen, p);
  }

  lemma HwUnwraps(gen: u32, p: seq<bv8>)
    requires |p| == HW_LEN
    ensures UnwrapPlane(2, HwBlob(gen, p)) == Blob.Ok(p, gen)
  {
    hide Blob.Wrap, Blob.Unwrap;
    Blob.UnwrapWrap(MAGIC_HW, VER, gen, p, [], VER, VER, HW_LEN);
    assert HwBlob(gen, p) + [] == HwBlob(gen, p);
  }
}
