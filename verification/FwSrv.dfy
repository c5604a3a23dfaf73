/**
 components/fw_srv/fw_srv.c: the published verdict on the zone image, the writer claim
 that keeps readers and writers of the partition apart, and the validator itself.
 */
module FwSrv {
  import opened Wrappers
  import opened Bytes
  import opened Flash
  import opened FwImage
  import Crc32

  const CHUNK: nat := 4096

  /**
   validate_image: streamed through a 4 KB buffer, the CRC chained from chunk to chunk.
   An unreadable partition counts as "no image"; a readable one is judged exactly.
   */
  method ValidateImage(part: Partition) returns (rc: Option<u32>)
    requires part.Valid()
    modifies part`faults
    ensures part.Valid() && part.faults >= old(part.faults)
    ensures rc.Some? ==> Image(part.mem[..]).Some? && rc.value == |Image(part.mem[..]).value|
    ensures rc.None? && part.faults == old(part.faults) ==> Image(part.mem[..]).None?
  {
    hide Rd32, Rd32Nat, Crc32.Crc, Crc32.TableCrc, Replay;
    var ok, hdr := part.Read(0, HDR_LEN);
    if !ok { return None; }
    ghost var m := part.mem[..];
    assert hdr[0..4] == m[0..4] && hdr[4..8] == m[4..8] && hdr[8..12] == m[8..12];
    if Rd32(hdr[0..4]) != MAGIC { return None; }
    var len := Rd32Nat(hdr[4..8]);
    var want := Rd32(hdr[8..12]);
    if len == 0 || HDR_LEN + len > part.mem.Length { return None; }

    var rem, off, crc: bv32 := len, HDR_LEN, 0;
    EmptyCrc(m[HDR_LEN..HDR_LEN]);
    while rem > 0
      invariant rem >= 0 && rem + off == HDR_LEN + len && HDR_LEN <= off
      invariant part.Valid() && part.faults >= old(part.faults)
      invariant crc == Crc32.Crc(0, m[HDR_LEN..off])
    {
      var n := if rem < CHUNK then rem else CHUNK;
      var good, chunk := part.Read(off, n);
      if !good { return None; }
      Crc32.Chains(0, m[HDR_LEN..off], chunk);
      assert m[HDR_LEN..off] + chunk == m[HDR_LEN..off + n];
      crc := Crc32.HgCrc32(crc, chunk);
      off := off + n;
      rem := rem - n;
    }
    if crc != want { return None; }
    return Some(len);
  }

  lemma EmptyCrc(s: seq<bv8>)
    requires s == []
    ensures Crc32.Crc(0, s) == 0
  {
  }

  /** httpd_send on one connection: some bytes, or none once it is closed, in error or out of time. */
  class Socket {
    ghost var cut: bool

    constructor ()
      ensures !cut
    {
      cut := false;
    }

    method Send(n: nat) returns (k: int)
      requires n > 0
      modifies this
      ensures k <= n && (cut <==> old(cut) || k <= 0)
    {
      k := *;
      if k > n { k := n; }
      if k <= 0 { cut := true; }
    }
  }

  /** The statics of fw_srv.c. */
  class Server {
    const part: Partition
    var imgOk: bool
    var imgLen: u32
    var writer: bool
    var streaming: int

    constructor (p: Partition)
      ensures part == p && !imgOk && imgLen == 0 && !writer && streaming == 0
    {
      part := p;
      imgOk, imgLen, writer, streaming := false, 0, false, 0;
    }

    /** The published verdict is about the bytes that are there now. */
    ghost predicate Fresh()
      reads this, part.mem
    {
      imgOk ==> Image(part.mem[..]).Some? && imgLen == |Image(part.mem[..]).value|
    }

    method Revalidate() returns (rc: int)
      requires part.Valid()
      modifies this`imgOk, this`imgLen, part`faults
      ensures part.Valid() && part.faults >= old(part.faults)
      ensures Fresh() && imgOk == (rc == 0)
      ensures rc == 0 || rc == -1
      ensures part.faults == old(part.faults) ==> (rc == 0 <==> Image(part.mem[..]).Some?)
    {
      hide Image, Replay;
      var v := ValidateImage(part);
      imgOk := v.Some?;
      imgLen := if v.Some? then v.value else 0;
      rc := if v.Some? then 0 else -1;
    }

    method WriterClaim() returns (rc: int)
      modifies this`writer
      ensures rc == (if !old(writer) && streaming == 0 then 0 else -1)
      ensures writer == (old(writer) || rc == 0)
    {
      rc := -1;
      if !writer && streaming == 0 {
        writer := true;
        rc := 0;
      }
    }

    method WriterRelease()
      modifies this`writer
      ensures !writer
    {
      writer := false;
    }

    method ImageOk() returns (ok: bool)
      ensures ok == (imgOk && !writer)
    {
      ok := imgOk && !writer;
    }

    /** send_all: short sends are continued; the peer, the socket or the budget may end it early. */
    method SendAll(sock: Socket, buf: seq<bv8>) returns (ok: bool, sent: seq<bv8>)
      modifies sock
      ensures sent <= buf && (ok <==> sent == buf) && (old(sock.cut) ==> sock.cut)
      ensures !ok ==> sock.cut
    {
      sent := [];
      while |sent| < |buf|
        invariant sent <= buf && (old(sock.cut) ==> sock.cut)
      {
        var n := sock.Send(|buf| - |sent|);
        if n <= 0 { return false, sent; }
        sent := sent + buf[|sent|..|sent| + n];
      }
      ok := true;
    }

    static lemma ChunkJoins(m: seq<bv8>, a: nat, b: nat, c: nat, d: nat)
      requires a <= b <= c <= d <= |m|
      ensures m[a..b] + m[b..c] == m[a..c] && m[a..b] <= m[a..d] && m[a..c] <= m[a..d]
    {
    }

    static lemma PrefixJoins(s: seq<bv8>, p: seq<bv8>, q: seq<bv8>)
      requires p <= q
      ensures s + p <= s + q
    {
    }

    /** The chunk loop of zone_bin_get over `len` image bytes. */
    method SendBody(sock: Socket, len: nat) returns (sent: seq<bv8>, complete: bool)
      requires part.Valid() && HDR_LEN + len <= |part.mem[..]|
      modifies sock, part`faults
      ensures part.Valid() && part.faults >= old(part.faults)
      ensures !complete ==> sock.cut || part.faults > old(part.faults)
      ensures sent <= part.mem[HDR_LEN..HDR_LEN + len]
      ensures complete <==> |sent| == len
    {
      hide Image, Replay;
      ghost var m := part.mem[..];
      sent := [];
      var rem, off := len, HDR_LEN;
      while rem > 0
        invariant rem >= 0 && off + rem == HDR_LEN + len && HDR_LEN <= off
        invariant sent == m[HDR_LEN..off] && part.Valid() && part.faults >= old(part.faults)
      {
        var n := if rem < CHUNK then rem else CHUNK;
        var ok, chunk := part.Read(off, n);
        ChunkJoins(m, HDR_LEN, off, off + n, HDR_LEN + len);
        if !ok { break; }
        assert chunk == m[off..off + n];
        var all, piece := SendAll(sock, chunk);
        PrefixJoins(sent, piece, chunk);
        sent := sent + piece;
        if !all { break; }
        off := off + n;
        rem := rem - n;
      }
      complete := rem == 0;
    }

    /**
     zone_bin_get, with nothing else running: 404, or the head of the response and then the
     image read from flash chunk by chunk. A transfer that is cut short has sent a prefix of
     it, and was cut short by the socket or the flash.
     */
    method ZoneBinGet(sock: Socket, head: seq<bv8>) returns (found: bool, announced: u32, sent: seq<bv8>, complete: bool)
      requires part.Valid() && Fresh() && 0 <= streaming < 255
      modifies this`streaming, sock, part`faults
      ensures streaming == old(streaming)
      ensures found == (imgOk && !writer)
      ensures found ==> Image(part.mem[..]).Some? && announced == |Image(part.mem[..]).value|
      ensures found ==> sent <= Image(part.mem[..]).value
      ensures complete <==> found && |sent| == announced
      ensures found && !complete ==> sock.cut || part.faults > old(part.faults)
    {
      hide Image, Replay;
      found, announced, sent, complete := imgOk && !writer, 0, [], false;
      if !found { return; }
      streaming := streaming + 1;
      announced := imgLen;
      ImageBody(part.mem[..]);
      assert part.mem[..][HDR_LEN..HDR_LEN + imgLen] == part.mem[HDR_LEN..HDR_LEN + imgLen];
      var headed, text := SendAll(sock, head);
      if headed { sent, complete := SendBody(sock, imgLen); }
      streaming := if streaming != 0 then streaming - 1 else 0;
    }
  }

  lemma ImageBody(m: seq<bv8>)
    ensures Image(m).Some? ==> HDR_LEN + |Image(m).value| <= |m| && Image(m).value != []
                               && Image(m).value == m[HDR_LEN..HDR_LEN + |Image(m).value|]
  {
  }
}
