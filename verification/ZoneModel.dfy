/**
 The zone's side of the contract (components/hg_model/hg_model.c): a pushed config is
 applied verbatim, a local edit bumps the generation, and a heartbeat reports the embedded
 generation with the CRC of the packed payload. Of the HW plane only its CRC is kept.
 */
module ZoneModel {
  import opened Bytes
  import opened CfgEnvelope
  import Crc32

  const SRC_LOCAL: bv8 := 0

  /** gen_next: one up, skipping 0 on wrap. */
  function GenNext(g: u32): u32 { if g == 0xFFFF_FFFF then 1 else g + 1 }

  /** Never 0, and 1 again after 0 or the last. */
  lemma GenNextIs(g: u32)
    ensures 1 <= GenNext(g) <= 0xFFFF_FFFF && GenNext(g) != g
    ensures GenNext(g) == 1 <==> g in {0, 0xFFFF_FFFF}
    ensures g < 0xFFFF_FFFF ==> GenNext(g) - g == 1
  {
  }

  /** A config as an edit leaves it: the callback's settings under the next generation. */
  function Edited(was: Payload, work: Payload): (r: Payload) {
    Le32Nat(GenNext(EmbeddedGen(work))) + [SRC_LOCAL] + Settings(work)
  }

  function CfgInfoOf(p: Payload): (u32, bv32) { (EmbeddedGen(p), PayloadCrc(p)) }

  class Model {
    var cfg: Payload
    var count: nat
    var dirtyCfg: bool

    constructor (boot: Payload)
      ensures cfg == boot && count == 0 && !dirtyCfg
    {
      cfg, count, dirtyCfg := boot, 0, false;
    }

    /** hg_model_apply_cfg: generation and source are whatever the payload carries. */
    method ApplyCfg(p: Payload)
      modifies this
      ensures cfg == p && count == old(count) + 1 && dirtyCfg
    {
      cfg := p;
      dirtyCfg := true;
      count := count + 1;
    }

    /**
     hg_model_edit: `work` is the copy the callback changed, `changed` whether it reported a
     config change, `valid` what the validators say of it.
     */
    method Edit(work: Payload, changed: bool, valid: bool) returns (rc: int)
      modifies this
      ensures rc == if changed && !valid then -2 else 0
      ensures cfg == if rc != 0 then old(cfg) else if changed then Edited(old(cfg), work) else work
      ensures rc != 0 ==> count == old(count) && dirtyCfg == old(dirtyCfg)
      ensures rc == 0 ==> count == old(count) + 1 && dirtyCfg == (old(dirtyCfg) || changed)
    {
      if changed && !valid { return -2; }
      cfg := work;
      if changed { cfg := Le32Nat(GenNext(EmbeddedGen(cfg))) + [SRC_LOCAL] + cfg[5..]; }
      count := count + 1;
      dirtyCfg := dirtyCfg || changed;
      rc := 0;
    }

    method CfgInfo() returns (gen: u32, crc: bv32)
      ensures (gen, crc) == CfgInfoOf(cfg)
    {
      gen := EmbeddedGen(cfg);
      crc := Crc32.HgCrc32(0, cfg);
    }
  }

  /** A local edit keeps the callback's settings and always reports another generation, never 0. */
  lemma EditShows(was: Payload, work: Payload)
    ensures CfgInfoOf(Edited(was, work)).0 == GenNext(EmbeddedGen(work)) != EmbeddedGen(work)
    ensures CfgInfoOf(Edited(was, work)).0 != 0
    ensures Settings(Edited(was, work)) == Settings(work)
  {
    hide Bytes.Le32Nat, Bytes.Rd32Nat, PayloadCrc;
    Rd32Le32Nat(GenNext(EmbeddedGen(work)));
    assert Edited(was, work)[0..4] == Le32Nat(GenNext(EmbeddedGen(work)));
  }
}
