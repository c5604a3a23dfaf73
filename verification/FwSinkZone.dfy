/**
 components/panel_svc/fw_sink_zone.c: header sector erased first, then the rest, the body
 streamed in behind the header with its CRC chained, and the header written last.
 */
module FwSinkZone {
  import opened Wrappers
  import opened Flash
  import opened FwImage
  import opened ZoneTrace
  import FwSrv
  import Crc32

  /** One more step of the bulk erase, after i whole ones. */
  lemma {:induction false} StepErased(off: nat, i: nat, at: nat, done: nat)
    requires at == off + i * ERASE_STEP && 0 < done <= ERASE_STEP
    ensures BodyErases(off, at) + [Erase(at, done)] == BodyErases(off, at + done)
    decreases i
  {
    if i > 0 {
      StepErased(off + ERASE_STEP, i - 1, at, done);
      assert [Erase(off, ERASE_STEP)] + BodyErases(off + ERASE_STEP, at) + [Erase(at, done)]
          == [Erase(off, ERASE_STEP)] + (BodyErases(off + ERASE_STEP, at) + [Erase(at, done)]);
    } else {
      assert BodyErases(at + ERASE_STEP, at + done) == [];
    }
  }

  lemma NoneErased(off: nat)
    ensures BodyErases(off, off) == []
  {
  }

  lemma Aligned(i: nat, size: nat, done: nat)
    requires size % SECTOR == 0 && done % SECTOR == 0
    ensures (SECTOR + i * ERASE_STEP) % SECTOR == 0
    ensures (size - (SECTOR + i * ERASE_STEP)) % SECTOR == 0
    ensures (SECTOR + i * ERASE_STEP + done) % SECTOR == 0
  {
    var k, d := size / SECTOR, done / SECTOR;
    Multiple(1 + 16 * i);
    Multiple(k - 1 - 16 * i);
    Multiple(1 + 16 * i + d);
  }

  lemma Multiple(k: int)
    ensures (k * SECTOR) % SECTOR == 0
  {
  }

  /** The statics of fw_sink_zone.c; `calls` is the install so far, `start` where its operations begin in the log. */
  class Sink {
    const srv: FwSrv.Server
    const part: Partition
    var crc: bv32
    var len: int
    var off: nat
    ghost var calls: seq<Call>
    ghost var start: nat

    ghost predicate Valid()
      reads this, srv, part, part.mem
    {
      && srv.part == part && part.Valid()
      && Fits(part.mem.Length, calls) && PhaseOf(calls) != Wrong
      && start <= |part.log| && part.log == part.log[..start] + Ops(part.mem.Length, calls)
      && (PhaseOf(calls) == Open ==>
            crc == Crc32.Crc(0, Written(calls)) && len == |Written(calls)| && off == HDR_LEN + len)
      && srv.Fresh()
      && (PhaseOf(calls) == Open || PhaseOf(calls) == Broken ==> !srv.imgOk)
    }

    /** The contents when this install began. */
    ghost function Before(): seq<bv8>
      reads this, part
      requires start <= |part.log|
    {
      Replay(part.base, part.log[..start])
    }

    constructor (s: FwSrv.Server)
      requires s.part.Valid() && s.Fresh()
      ensures Valid() && srv == s && part == s.part && calls == []
    {
      srv, part := s, s.part;
      crc, len, off := 0, 0, 0;
      calls, start := [], |s.part.log|;
    }

    /** A new install begins: nothing has been called yet. */
    ghost method Arm()
      requires Valid()
      modifies this`calls, this`start
      ensures Valid() && calls == [] && start == |part.log|
    {
      calls, start := [], |part.log|;
    }

    lemma Contents()
      requires Valid()
      ensures part.mem[..] == Replay(Before(), Ops(part.mem.Length, calls))
    {
      hide Replay, Ops, FwSrv.Server.Fresh;
      ReplayAppend(part.base, part.log[..start], Ops(part.mem.Length, calls));
    }

    /** What the flash holds after the calls so far, in the vocabulary of ZoneTrace. */
    lemma State()
      requires Valid()
      ensures PhaseState(PhaseOf(calls), Before(), part.mem[..], Written(calls))
      ensures PhaseOf(calls) == Closed || PhaseOf(calls) == Finished || PhaseOf(calls) == Broken ==>
                Settled(part.mem[..], Written(calls))
    {
      hide Replay, Ops, FwSrv.Server.Fresh, HeaderTorn, Filling, Image;
      Contents();
      CutAnywhere(Before(), calls);
      var m, img := part.mem[..], Written(calls);
      if PhaseOf(calls) == Broken {
        var k :| HeaderTorn(m, img, k);
        TornIsSettled(m, img, k);
      } else if PhaseOf(calls) == Finished {
        TornIsSettled(m, img, HDR_LEN);
      }
    }

    /** The call just made, entered in the record. */
    lemma Recorded(c: Call, was: seq<Call>, log: seq<Op>)
      requires part.Valid() && start <= |part.log| && calls == was + [c]
      requires Fits(part.mem.Length, calls)
      ensures calls[..|calls| - 1] == was
      ensures PhaseOf(calls) == Next(PhaseOf(was), c)
      ensures Written(calls) == Written(was) + (if c.Write? && c.out.Done? then c.data else [])
      ensures Fits(part.mem.Length, was)
      ensures start <= |log| && log == log[..start] + Ops(part.mem.Length, was)
              && part.log == log + OpsOf(part.mem.Length, Written(was), c)
              ==> part.log == part.log[..start] + Ops(part.mem.Length, calls)
    {
      hide OpsOf;
      assert calls[..|calls| - 1] == was;
      FitsFront(part.mem.Length, calls);
      var size := part.mem.Length;
      if start <= |log| && log == log[..start] + Ops(size, was) && part.log == log + OpsOf(size, Written(was), c) {
        assert part.log[..start] == log[..start];
        assert Ops(size, calls) == Ops(size, was) + OpsOf(size, Written(was), c);
      }
    }

    /** erase_header: the verdict is dropped the moment the header is gone. */
    method EraseHeader() returns (rc: int)
      requires part.Valid() && srv.part == part && srv.Fresh()
      modifies part`log, part`faults, part.mem, srv`imgOk, srv`imgLen
      ensures part.Valid() && srv.Fresh()
      ensures rc == 0 || rc == -1
      ensures part.faults >= old(part.faults) && (rc != 0 ==> part.faults > old(part.faults))
      ensures rc == 0 ==> part.log == old(part.log) + [Erase(0, SECTOR)] && !srv.imgOk
      ensures rc != 0 ==> part.log == old(part.log) && part.mem[..] == old(part.mem[..])
      ensures rc != 0 ==> srv.imgOk == old(srv.imgOk) && srv.imgLen == old(srv.imgLen)
    {
      hide Image, Replay;
      var ok, done := part.EraseRange(0, SECTOR);
      if !ok { return -1; }
      ReplayStep(part.base, old(part.log), Erase(0, SECTOR));
      HeaderGone(old(part.mem[..]));
      var v := srv.Revalidate();
      return 0;
    }

    lemma HeaderGone(m: seq<bv8>)
      requires SECTOR <= |m|
      ensures Image(Apply(m, Erase(0, SECTOR))) == None
    {
    }

    lemma BeginRecorded(contentLen: nat, out: Outcome, was: seq<Call>, log: seq<Op>)
      requires part.Valid() && part.mem.Length < 0x1_0000_0000 && start <= |log|
      requires PhaseOf(was) == Idle && Fits(part.mem.Length, was)
      requires log == log[..start] + Ops(part.mem.Length, was)
      requires calls == was + [Call.Begin(contentLen, out)]
      requires out.Broke? ==> out.at * SECTOR < part.mem.Length
      requires part.log == log + EraseUpTo(if out.Done? then part.mem.Length else out.at * SECTOR)
      ensures Fits(part.mem.Length, calls) && PhaseOf(calls) == (if out.Done? then Open else Refused)
      ensures Written(calls) == [] && Crc32.Crc(0, Written(calls)) == 0
      ensures start <= |part.log| && part.log[..start] == log[..start]
      ensures part.log == part.log[..start] + Ops(part.mem.Length, calls)
    {
      hide Ops;
      assert was == [];
      assert calls[..|calls| - 1] == was;
      Recorded(Call.Begin(contentLen, out), was, log);
      FwSrv.EmptyCrc(Written(calls));
    }

    /** The bulk erase of zone_begin: 64 KB steps, the last one whatever is left. */
    method EraseBody() returns (ok: bool, ghost erased: nat)
      requires part.Valid()
      modifies part`log, part`faults, part.mem
      ensures part.Valid()
      ensures part.log == old(part.log) + BodyErases(SECTOR, erased)
      ensures SECTOR <= erased <= part.mem.Length && erased % SECTOR == 0
      ensures ok ==> erased == part.mem.Length
      ensures !ok ==> erased < part.mem.Length
      ensures ok <==> part.faults == old(part.faults)
      ensures part.faults >= old(part.faults)
    {
      hide Replay, BodyErases;
      var at := SECTOR;
      ghost var i := 0;
      NoneErased(SECTOR);
      while at < part.mem.Length
        invariant at == SECTOR + i * ERASE_STEP && part.Valid() && part.faults == old(part.faults)
        invariant part.log == old(part.log) + BodyErases(SECTOR, if at < part.mem.Length then at else part.mem.Length)
        decreases part.mem.Length - at
      {
        var n := if part.mem.Length - at > ERASE_STEP then ERASE_STEP else part.mem.Length - at;
        Aligned(i, part.mem.Length, 0);
        var good, done := part.EraseRange(at, n);
        Aligned(i, part.mem.Length, done);
        if done > 0 { StepErased(SECTOR, i, at, done); }
        if !good { return false, at + done; }
        at := at + ERASE_STEP;
        i := i + 1;
      }
      return true, part.mem.Length;
    }

    /** zone_begin: header sector first, then the rest in 64 KB steps. */
    method Begin(contentLen: nat) returns (rc: int, ghost out: Outcome)
      requires Valid() && PhaseOf(calls) == Idle
      modifies this, part`log, part`faults, part.mem, srv`imgOk, srv`imgLen
      ensures Valid() && start == old(start)
      ensures part.log[..start] == old(part.log[..start])
      ensures calls == old(calls) + [Call.Begin(contentLen, out)]
      ensures (rc == 0) == out.Done?
      ensures rc == 0 || rc == -1
      ensures part.faults >= old(part.faults) && (rc != 0 ==> part.faults > old(part.faults))
    {
      hide Image, Replay, Fits, Ops, Written, PhaseOf;
      ghost var was, log := calls, part.log;
      rc := EraseHeader();
      if rc != 0 {
        out := Broke(0);
        calls := calls + [Call.Begin(contentLen, out)];
        BeginRecorded(contentLen, out, was, log);
        return;
      }
      var ok, erased := EraseBody();
      if !ok {
        rc, out := -1, Broke(erased / SECTOR);
        calls := calls + [Call.Begin(contentLen, out)];
        BeginRecorded(contentLen, out, was, log);
        return;
      }
      out := Done;
      calls := calls + [Call.Begin(contentLen, out)];
      crc, len, off := 0, 0, HDR_LEN;
      BeginRecorded(contentLen, out, was, log);
    }

    /** zone_write: the next bytes of the body, and their CRC. */
    method Write(buf: seq<bv8>) returns (rc: int, ghost out: Outcome)
      requires Valid() && PhaseOf(calls) == Open
      modifies this, part`log, part`faults, part.mem
      ensures Valid() && start == old(start)
      ensures part.log[..start] == old(part.log[..start])
      ensures calls == old(calls) + [Call.Write(buf, out)]
      ensures (rc == 0) == out.Done?
      ensures rc == 0 || rc == -1
      ensures rc == 0 <==> HDR_LEN + |Written(old(calls))| + |buf| <= part.mem.Length && part.faults == old(part.faults)
      ensures part.faults >= old(part.faults)
    {
      hide Image, Replay, Ops, Written, PhaseOf, Crc32.Crc, Crc32.TableCrc;
      ghost var was, log := calls, part.log;
      var ok, done := part.Write(off, buf);
      if !ok {
        out := Broke(done);
        calls := calls + [Call.Write(buf, out)];
        WriteRecorded(buf, out, was, log);
        return -1, out;
      }
      Crc32.Chains(0, Written(was), buf);
      crc := Crc32.HgCrc32(crc, buf);
      off := off + |buf|;
      len := len + |buf|;
      out := Done;
      calls := calls + [Call.Write(buf, out)];
      assert buf[..|buf|] == buf;
      WriteRecorded(buf, out, was, log);
      return 0, out;
    }

    lemma WriteRecorded(buf: seq<bv8>, out: Outcome, was: seq<Call>, log: seq<Op>)
      requires part.Valid() && part.mem.Length < 0x1_0000_0000 && start <= |log|
      requires PhaseOf(was) == Open && Fits(part.mem.Length, was)
      requires log == log[..start] + Ops(part.mem.Length, was)
      requires calls == was + [Call.Write(buf, out)]
      requires out.Done? ==> HDR_LEN + |Written(was)| + |buf| <= part.mem.Length
      requires out.Broke? ==> out.at <= |buf|
      requires var n := if out.Done? then |buf| else out.at;
               part.log == if n == 0 then log else log + [Program(HDR_LEN + |Written(was)|, buf[..n])]
      ensures Fits(part.mem.Length, calls) && PhaseOf(calls) == (if out.Done? then Open else Broken)
      ensures Written(calls) == Written(was) + (if out.Done? then buf else [])
      ensures start <= |part.log| && part.log[..start] == log[..start]
      ensures part.log == part.log[..start] + Ops(part.mem.Length, calls)
    {
      hide Ops;
      assert calls[..|calls| - 1] == was && buf[..|buf|] == buf;
      Recorded(Call.Write(buf, out), was, log);
    }

    /** zone_finish: the header last, then a read-back of the whole image. */
    method Finish() returns (rc: int, resLen: int, ghost out: Outcome)
      requires Valid() && PhaseOf(calls) == Open
      modifies this`calls, part`log, part`faults, part.mem, srv`imgOk, srv`imgLen
      ensures Valid() && start == old(start)
      ensures part.log[..start] == old(part.log[..start])
      ensures calls == old(calls) + [Call.Finish(out)]
      ensures (rc == 0) == out.Done?
      ensures rc == 0 || rc == -1
      ensures rc == 0 ==> resLen == |Written(calls)| && srv.imgOk && srv.imgLen == resLen
                          && Image(part.mem[..]) == Some(Written(calls))
      ensures part.faults >= old(part.faults)
      ensures rc != 0 ==> part.faults > old(part.faults) || Written(calls) == []
    {
      hide Image, Replay, Ops, Written, PhaseOf, Crc32.Crc, Crc32.TableCrc, Header;
      ghost var was, log, m := calls, part.log, part.mem[..];
      resLen := len;
      State();
      var hdr := Header(len, crc);
      assert hdr[..HDR_LEN] == hdr;
      var ok, done := part.Write(0, hdr);
      if !ok {
        out := Broke(done);
        calls := calls + [Call.Finish(out)];
        FinishRecorded(out, was, log);
        return -1, resLen, out;
      }
      ReplayStep(part.base, log, Program(0, hdr));
      if Written(was) != [] { HeaderStored(m, Written(was)); }
      var v := srv.Revalidate();
      out := if v == 0 then Done else Broke(HDR_LEN);
      calls := calls + [Call.Finish(out)];
      FinishRecorded(out, was, log);
      if v == 0 { State(); }
      return v, resLen, out;
    }

    /** A whole header over a complete body is an image. */
    static lemma HeaderStored(m: seq<bv8>, img: seq<bv8>)
      requires |m| <= 0xFF00_0000 && Filling(m, img) && img != []
      ensures Image(Apply(m, Program(0, Header(|img|, Crc32.Crc(0, img))))) == Some(img)
    {
      hide Image, Header, Crc32.Crc, Apply;
      var h := Header(|img|, Crc32.Crc(0, img));
      HeaderWrite(m, img, HDR_LEN);
      assert h[..HDR_LEN] == h;
      OneOp(m, Program(0, h));
      var r := Apply(m, Program(0, h));
      assert r[HDR_LEN..HDR_LEN + |img|] == img;
      TornHeader(r, img, HDR_LEN);
    }

    lemma FinishRecorded(out: Outcome, was: seq<Call>, log: seq<Op>)
      requires part.Valid() && part.mem.Length < 0x1_0000_0000 && start <= |log|
      requires PhaseOf(was) == Open && Fits(part.mem.Length, was)
      requires log == log[..start] + Ops(part.mem.Length, was)
      requires calls == was + [Call.Finish(out)]
      requires out.Broke? ==> out.at <= HDR_LEN
      requires var n := if out.Done? then HDR_LEN else out.at;
               var h := Header(|Written(was)|, Crc32.Crc(0, Written(was)));
               part.log == if n == 0 then log else log + [Program(0, h[..n])]
      ensures Fits(part.mem.Length, calls) && PhaseOf(calls) == (if out.Done? then Finished else Broken)
      ensures Written(calls) == Written(was)
      ensures start <= |part.log| && part.log[..start] == log[..start]
      ensures part.log == part.log[..start] + Ops(part.mem.Length, calls)
    {
      hide Ops, Header, Crc32.Crc;
      assert calls[..|calls| - 1] == was && Written(was) + [] == Written(was);
      var h := Header(|Written(was)|, Crc32.Crc(0, Written(was)));
      assert h[..HDR_LEN] == h;
      Recorded(Call.Finish(out), was, log);
    }

    /** zone_cancel: without its header sector there is no image. */
    method Cancel() returns (ghost out: Outcome)
      requires Valid() && (PhaseOf(calls) == Open || PhaseOf(calls) == Broken)
      modifies this`calls, part`log, part`faults, part.mem, srv`imgOk, srv`imgLen
      ensures Valid() && start == old(start) && PhaseOf(calls) == Closed
      ensures part.log[..start] == old(part.log[..start])
      ensures calls == old(calls) + [Call.Cancel(out)]
      ensures !srv.imgOk
      ensures out.Broke? ==> part.faults > old(part.faults)
      ensures out.Done? ==> Image(part.mem[..]) == None
    {
      hide Image, Replay, Ops, Written, PhaseOf;
      ghost var was, log := calls, part.log;
      ghost var m := part.mem[..];
      var rc := EraseHeader();
      out := if rc == 0 then Done else Broke(0);
      calls := calls + [Call.Cancel(out)];
      CancelRecorded(out, was, log);
      if rc == 0 {
        ReplayStep(part.base, log, Erase(0, SECTOR));
        HeaderGone(m);
      }
    }

    lemma CancelRecorded(out: Outcome, was: seq<Call>, log: seq<Op>)
      requires part.Valid() && part.mem.Length < 0x1_0000_0000 && start <= |log|
      requires (PhaseOf(was) == Open || PhaseOf(was) == Broken) && Fits(part.mem.Length, was)
      requires log == log[..start] + Ops(part.mem.Length, was)
      requires calls == was + [Call.Cancel(out)]
      requires part.log == if out.Done? then log + [Erase(0, SECTOR)] else log
      ensures Fits(part.mem.Length, calls) && PhaseOf(calls) == Closed && Written(calls) == Written(was)
      ensures start <= |part.log| && part.log[..start] == log[..start]
      ensures part.log == part.log[..start] + Ops(part.mem.Length, calls)
    {
      hide Ops;
      assert calls[..|calls| - 1] == was && Written(was) + [] == Written(was);
      Recorded(Call.Cancel(out), was, log);
    }
  }
}
