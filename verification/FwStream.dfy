/**
 GET /fw/zone.bin beside the writers of zone_fw (components/fw_srv/fw_srv.c,
 components/panel_svc/psvc_fw.c), step by step in any interleaving.

 There is one httpd task, so one GET is in progress at a time, read in 4 KB chunks
 through one static buffer and sent in pieces of any size. On the ESP32 the validator
 uses that same buffer, so here every validation overwrites it with arbitrary bytes.
 A writer is whatever sink-call sequence the install core makes (ZoneTrace), broken into
 flash operations and publications of the verdict.
 */
module FwStream {
  import opened Wrappers
  import opened Flash
  import opened FwImage
  import opened ZoneTrace
  import FwSrv

  /** One thing a writer does: a flash operation, or a revalidation that may hit a read error. */
  datatype Micro = Do(op: Op) | Publish(ioError: bool)

  /** zone_bin_get between its admission and its exit; `img` is what the verdict admitted. */
  datatype Get = Idle | Live(announced: nat, img: seq<bv8>, sent: seq<bv8>, chunk: nat, pos: nat)

  datatype State = State(
    mem: seq<bv8>, imgOk: bool, imgLen: nat, writer: bool, streaming: int,
    prog: seq<Micro>, sbuf: seq<bv8>, get: Get)

  datatype Action =
    | GetStart | GetRead | GetSend(k: nat) | GetAbort | GetDone
    | Claim(calls: seq<Call>, io: seq<bool>) | WriterStep(junk: seq<bv8>) | Release

  // ---------------- the writer's program ----------------

  function DoAll(ops: seq<Op>): (r: seq<Micro>)
    ensures |r| == |ops|
  {
    seq(|ops|, i requires 0 <= i < |ops| => Do(ops[i]))
  }

  /** A sink call as fw_sink_zone.c runs it: where it revalidates, and where it does not. */
  function MicroOf(size: nat, written: seq<bv8>, c: Call, io: bool): seq<Micro>
    requires |written| < 0x1_0000_0000
  {
    var ops := OpsOf(size, written, c);
    match c
    case Begin(_, _) => if ops == [] then [] else [Do(ops[0]), Publish(io)] + DoAll(ops[1..])
    case Write(_, _) => DoAll(ops)
    case Finish(Done) => DoAll(ops) + [Publish(false)]
    case Finish(Broke(at)) => DoAll(ops) + (if at < HDR_LEN then [] else [Publish(true)])
    case Cancel(Done) => DoAll(ops) + [Publish(io)]
    case Cancel(Broke(_)) => []
  }

  function Program(size: nat, calls: seq<Call>, io: seq<bool>): seq<Micro>
    requires HDR_LEN + |Written(calls)| <= size < 0x1_0000_0000
  {
    if calls == [] then []
    else
      var front := calls[..|calls| - 1];
      Program(size, front, io)
      + MicroOf(size, Written(front), calls[|calls| - 1], |calls| <= |io| && io[|calls| - 1])
  }

  /** The partition and the published verdict about it. */
  datatype Verdict = Verdict(mem: seq<bv8>, ok: bool, len: nat)

  predicate Fresh(v: Verdict) {
    v.ok ==> Image(v.mem).Some? && v.len == |Image(v.mem).value|
  }

  function Micro1(v: Verdict, m: Micro): Verdict {
    match m
    case Do(op) => v.(mem := Apply(v.mem, op))
    case Publish(ioError) =>
      var img := Image(v.mem);
      if ioError || img.None? then Verdict(v.mem, false, 0) else Verdict(v.mem, true, |img.value|)
  }

  function MicroAll(v: Verdict, p: seq<Micro>): Verdict
    decreases |p|
  {
    if p == [] then v else MicroAll(Micro1(v, p[0]), p[1..])
  }

  lemma {:induction false} MicroAppend(v: Verdict, p: seq<Micro>, q: seq<Micro>)
    ensures MicroAll(v, p + q) == MicroAll(MicroAll(v, p), q)
    decreases |p|
  {
    hide Micro1;
    if p == [] {
      assert p + q == q;
    } else {
      assert (p + q)[1..] == p[1..] + q;
      MicroAppend(Micro1(v, p[0]), p[1..], q);
    }
  }

  /** While the verdict is "no image", flash operations cannot make it stale. */
  lemma {:induction false} QuietOps(v: Verdict, ops: seq<Op>)
    requires !v.ok
    ensures !MicroAll(v, DoAll(ops)).ok
    ensures |MicroAll(v, DoAll(ops)).mem| == |v.mem|
    decreases |ops|
  {
    if ops != [] {
      assert DoAll(ops)[1..] == DoAll(ops[1..]);
      QuietOps(v.(mem := Apply(v.mem, ops[0])), ops[1..]);
    }
  }

  lemma LastPublish(v: Verdict, p: seq<Micro>, io: bool)
    ensures MicroAll(v, p + [Publish(io)]) == Micro1(MicroAll(v, p), Publish(io))
    ensures Fresh(MicroAll(v, p + [Publish(io)]))
  {
    MicroAppend(v, p, [Publish(io)]);
    assert [Publish(io)][1..] == [];
  }

  lemma {:induction false} SameSize(v: Verdict, p: seq<Micro>)
    ensures |MicroAll(v, p).mem| == |v.mem|
    decreases |p|
  {
    if p != [] { SameSize(Micro1(v, p[0]), p[1..]); }
  }

  /** Erasing the header sector and revalidating leaves "no image", whatever the reader says. */
  lemma EraseAndPublish(v: Verdict, io: bool)
    requires |v.mem| >= SECTOR
    ensures !MicroAll(v, [Do(Erase(0, SECTOR)), Publish(io)]).ok
  {
    hide Image;
    ErasedMagic(Apply(v.mem, Erase(0, SECTOR)), 0);
    LastPublish(v, [Do(Erase(0, SECTOR))], io);
    assert [Do(Erase(0, SECTOR))] + [Publish(io)] == [Do(Erase(0, SECTOR)), Publish(io)];
    assert [Do(Erase(0, SECTOR))][1..] == [];
  }

  /** What the writer's program keeps, call by call: a fresh verdict, and "no image" while filling. */
  lemma {:induction false} ProgramKeepsFresh(v: Verdict, calls: seq<Call>, io: seq<bool>)
    requires SECTOR <= |v.mem| < 0x1_0000_0000 && Fits(|v.mem|, calls) && PhaseOf(calls) != Wrong && Fresh(v)
    ensures var r := MicroAll(v, Program(|v.mem|, calls, io));
            && Fresh(r) && (PhaseOf(calls) == Open || PhaseOf(calls) == Broken ==> !r.ok)
  {
    hide Image, MicroOf, Fresh, OpsOf;
    if calls != [] {
      var front, c := calls[..|calls| - 1], calls[|calls| - 1];
      FitsFront(|v.mem|, calls);
      ProgramKeepsFresh(v, front, io);
      var r := MicroAll(v, Program(|v.mem|, front, io));
      SameSize(v, Program(|v.mem|, front, io));
      var b := |calls| <= |io| && io[|calls| - 1];
      MicroAppend(v, Program(|v.mem|, front, io), MicroOf(|v.mem|, Written(front), c, b));
      CallKeepsFresh(r, PhaseOf(front), Written(front), c, b);
    } else {
      assert MicroAll(v, []) == v;
    }
  }

  lemma CallKeepsFresh(v: Verdict, p: Phase, written: seq<bv8>, c: Call, io: bool)
    requires SECTOR <= |v.mem| < 0x1_0000_0000 && |written| < 0x1_0000_0000
    requires Fresh(v) && (p == Open || p == Broken ==> !v.ok) && Next(p, c) != Wrong
    ensures var r := MicroAll(v, MicroOf(|v.mem|, written, c, io));
            && Fresh(r) && (Next(p, c) == Open || Next(p, c) == Broken ==> !r.ok)
  {
    hide Image, Header, Prog;
    var ops := OpsOf(|v.mem|, written, c);
    match c {
      case Begin(_, _) =>
        if ops == [] {
          assert MicroAll(v, []) == v;
        } else {
          assert ops[0] == Erase(0, SECTOR);
          EraseAndPublish(v, io);
          MicroAppend(v, [Do(ops[0]), Publish(io)], DoAll(ops[1..]));
          QuietOps(MicroAll(v, [Do(ops[0]), Publish(io)]), ops[1..]);
        }
      case Write(_, _) =>
        QuietOps(v, ops);
      case Finish(out) =>
        QuietOps(v, ops);
        LastPublish(v, DoAll(ops), false);
        LastPublish(v, DoAll(ops), true);
        assert DoAll(ops) + [] == DoAll(ops);
      case Cancel(out) =>
        LastPublish(v, DoAll(ops), io);
        assert MicroAll(v, []) == v;
    }
  }

  // ---------------- steps and runs ----------------

  function V(s: State): Verdict { Verdict(s.mem, s.imgOk, s.imgLen) }

  function StreamEnd(n: int): int { if n != 0 then n - 1 else 0 }

  ghost predicate Step(s: State, a: Action, s': State) {
    match a
    case GetStart =>
      s.get.Idle? && s' == (if s.imgOk && !s.writer
                            then s.(streaming := (s.streaming + 1) % 256,
                                    get := Live(s.imgLen, if Image(s.mem).Some? then Image(s.mem).value else [], [], 0, 0))
                            else s)
    case GetRead =>
      && s.get.Live? && s.get.pos == s.get.chunk && |s.get.sent| < s.get.announced
      && var n := if s.get.announced - |s.get.sent| < FwSrv.CHUNK then s.get.announced - |s.get.sent| else FwSrv.CHUNK;
         var off := HDR_LEN + |s.get.sent|;
         && off + n <= |s.mem| && n <= |s.sbuf|
         && s' == s.(sbuf := s.mem[off..off + n] + s.sbuf[n..], get := s.get.(chunk := n, pos := 0))
    case GetSend(k) =>
      && s.get.Live? && 0 < k && s.get.pos + k <= s.get.chunk <= |s.sbuf|
      && s' == s.(get := s.get.(sent := s.get.sent + s.sbuf[s.get.pos..s.get.pos + k], pos := s.get.pos + k))
    case GetAbort =>
      s.get.Live? && s' == s.(streaming := StreamEnd(s.streaming), get := Get.Idle)
    case GetDone =>
      && s.get.Live? && |s.get.sent| == s.get.announced
      && s' == s.(streaming := StreamEnd(s.streaming), get := Get.Idle)
    case Claim(calls, io) =>
      && Fits(|s.mem|, calls) && PhaseOf(calls) != Wrong && |s.mem| < 0x1_0000_0000
      && s' == (if !s.writer && s.streaming == 0
                then s.(writer := true, prog := Program(|s.mem|, calls, io)) else s)
    case WriterStep(junk) =>
      && s.writer && s.prog != [] && |junk| == FwSrv.CHUNK
      && var v := Micro1(V(s), s.prog[0]);
         s' == s.(mem := v.mem, imgOk := v.ok, imgLen := v.len, prog := s.prog[1..],
                  sbuf := if s.prog[0].Publish? then junk else s.sbuf)
    case Release =>
      s.writer && s.prog == [] && s' == s.(writer := false)
  }

  /** After boot validation: nobody reads, nobody writes, and the verdict is about the flash. */
  ghost predicate Boot(s: State) {
    && SECTOR <= |s.mem| <= 0xFF00_0000 && |s.sbuf| == FwSrv.CHUNK
    && Fresh(V(s)) && !s.writer && s.prog == [] && s.streaming == 0 && s.get == Get.Idle
  }

  ghost predicate Run(ss: seq<State>, acts: seq<Action>) {
    && |ss| == |acts| + 1 && Boot(ss[0])
    && forall i :: 0 <= i < |acts| ==> Step(ss[i], acts[i], ss[i + 1])
  }

  // ---------------- the invariant ----------------

  /** A stream in progress: the image it was admitted to is still there, and it has sent a prefix of it. */
  ghost predicate Streaming(s: State)
    requires s.get.Live?
  {
    var g := s.get;
    && Image(s.mem) == Some(g.img) && g.announced == |g.img|
    && g.sent <= g.img
    && g.pos <= g.chunk <= |s.sbuf| && |g.sent| + (g.chunk - g.pos) <= |g.img|
    && (forall i :: g.pos <= i < g.chunk ==> s.sbuf[i] == g.img[|g.sent| + (i - g.pos)])
  }

  ghost predicate Inv(s: State) {
    && SECTOR <= |s.mem| <= 0xFF00_0000 && |s.sbuf| == FwSrv.CHUNK
    && s.streaming == (if s.get.Live? then 1 else 0)
    && (!s.writer ==> s.prog == [] && Fresh(V(s)))
    && (s.writer ==> s.get.Idle? && Fresh(MicroAll(V(s), s.prog)))
    && (s.get.Live? ==> Streaming(s))
  }

  lemma ReadIsImage(s: State, s': State)
    requires Inv(s) && Step(s, GetRead, s')
    ensures Inv(s')
  {
    hide Fresh, MicroAll, Image;
    var g := s.get;
    var n := s'.get.chunk;
    var off := HDR_LEN + |g.sent|;
    FwSrv.ImageBody(s.mem);
    forall i | 0 <= i < n ensures s'.sbuf[i] == g.img[|g.sent| + i] {
      assert s'.sbuf[i] == s.mem[off..off + n][i] == s.mem[off + i];
      assert s.mem[HDR_LEN..HDR_LEN + |g.img|][|g.sent| + i] == s.mem[off + i];
    }
  }

  lemma SendIsImage(s: State, k: nat, s': State)
    requires Inv(s) && Step(s, GetSend(k), s')
    ensures Inv(s')
  {
    hide Fresh, MicroAll, Image;
    var g := s.get;
    var piece := s.sbuf[g.pos..g.pos + k];
    assert piece == g.img[|g.sent|..|g.sent| + k];
    assert g.sent + piece == g.img[..|g.sent| + k];
  }

  lemma ClaimKeeps(s: State, calls: seq<Call>, io: seq<bool>, s': State)
    requires Inv(s) && Step(s, Claim(calls, io), s')
    ensures Inv(s') && (s.get.Live? ==> s' == s)
  {
    hide Image, Fresh, MicroAll, Program, Streaming;
    if !s.writer && s.streaming == 0 { ProgramKeepsFresh(V(s), calls, io); }
  }

  lemma WriterKeeps(s: State, junk: seq<bv8>, s': State)
    requires Inv(s) && Step(s, WriterStep(junk), s')
    ensures Inv(s') && !s.get.Live?
  {
    hide Image, Fresh, Micro1, Streaming;
    SameSize1(V(s), s.prog[0]);
  }

  lemma ReleaseKeeps(s: State, s': State)
    requires Inv(s) && Step(s, Release, s')
    ensures Inv(s') && !s.get.Live?
  {
    hide Image, Fresh, MicroAll, Streaming;
    MicroNone(V(s));
  }

  lemma InvStep(s: State, a: Action, s': State)
    requires Inv(s) && Step(s, a, s')
    ensures Inv(s')
    ensures s.get.Live? ==> s'.mem == s.mem
    ensures s.get.Live? && s'.get.Live? ==> s'.get.img == s.get.img && s'.get.announced == s.get.announced
  {
    hide Image, MicroAll;
    match a {
      case GetRead => ReadIsImage(s, s');
      case GetSend(k) => SendIsImage(s, k, s');
      case Claim(calls, io) => ClaimKeeps(s, calls, io, s');
      case WriterStep(junk) => WriterKeeps(s, junk, s');
      case Release => ReleaseKeeps(s, s');
      case _ =>
    }
  }

  lemma SameSize1(v: Verdict, m: Micro)
    ensures |Micro1(v, m).mem| == |v.mem|
  {
  }

  lemma MicroNone(v: Verdict)
    ensures MicroAll(v, []) == v
  {
  }

  lemma {:induction false} RunInv(ss: seq<State>, acts: seq<Action>, i: nat)
    requires Run(ss, acts) && i < |ss|
    ensures Inv(ss[i])
  {
    hide Step, Image, Fresh, MicroAll;
    if i > 0 {
      RunInv(ss, acts, i - 1);
      InvStep(ss[i - 1], acts[i - 1], ss[i]);
    }
  }

  // ---------------- the theorems ----------------

  /** No byte is erased or rewritten under a live stream, in any run. */
  lemma FlashFrozenUnderStream(ss: seq<State>, acts: seq<Action>, i: nat)
    requires Run(ss, acts) && i < |acts| && ss[i].get.Live?
    ensures ss[i + 1].mem == ss[i].mem && !ss[i].writer
  {
    hide Step, Image, Fresh, MicroAll;
    RunInv(ss, acts, i);
    InvStep(ss[i], acts[i], ss[i + 1]);
  }

  /** While one stream stays live its image, its length and the flash are those of its admission. */
  lemma {:induction false} StreamKept(ss: seq<State>, acts: seq<Action>, i: nat, j: nat)
    requires Run(ss, acts) && i <= j < |ss|
    requires forall k :: i <= k <= j ==> ss[k].get.Live?
    ensures ss[j].mem == ss[i].mem && ss[j].get.img == ss[i].get.img && ss[j].get.announced == ss[i].get.announced
  {
    hide Step, Inv;
    if i < j {
      StreamKept(ss, acts, i, j - 1);
      RunInv(ss, acts, j - 1);
      InvStep(ss[j - 1], acts[j - 1], ss[j]);
    }
  }

  /**
   A stream that completes delivers exactly the bytes of the image whose verdict admitted
   it, and as many as its Content-Length announced: `i` is the step that admitted it, `j`
   the step that completes it.
   */
  lemma CompletedStreamIsExact(ss: seq<State>, acts: seq<Action>, i: nat, j: nat)
    requires Run(ss, acts) && i < j < |acts|
    requires acts[i] == GetStart && ss[i + 1].get.Live?
    requires forall k :: i < k <= j ==> ss[k].get.Live?
    requires acts[j] == GetDone
    ensures ss[i].imgOk && !ss[i].writer
    ensures Image(ss[i].mem) == Some(ss[j].get.sent)
    ensures ss[j].get.announced == ss[i].imgLen == |ss[j].get.sent|
    ensures forall k :: i <= k <= j + 1 ==> ss[k].mem == ss[i].mem
  {
    hide Image, Fresh, MicroAll, Streaming;
    assert Step(ss[i], acts[i], ss[i + 1]) && Step(ss[j], acts[j], ss[j + 1]);
    RunInv(ss, acts, i);
    RunInv(ss, acts, j);
    StreamingNow(ss[j]);
    assert ss[j].get.sent == ss[j].get.img;
    StreamKept(ss, acts, i + 1, j);
    forall k | i < k <= j ensures ss[k].mem == ss[i].mem {
      StreamKept(ss, acts, i + 1, k);
    }
  }

  lemma StreamingNow(s: State)
    requires s.get.Live? && Streaming(s)
    ensures Image(s.mem) == Some(s.get.img) && s.get.announced == |s.get.img| && s.get.sent <= s.get.img
  {
  }

  /** A zone is let in exactly on a good verdict with no writer, a writer exactly when nobody writes or streams. */
  lemma AdmittedIff(ss: seq<State>, acts: seq<Action>, i: nat)
    requires Run(ss, acts) && i < |acts|
    ensures acts[i].GetStart? ==> (ss[i + 1].get.Live? <==> ss[i].imgOk && !ss[i].writer)
    ensures acts[i].Claim? ==> (ss[i].writer != ss[i + 1].writer <==> !ss[i].writer && ss[i].get.Idle?)
  {
    hide Image, Fresh, MicroAll, Streaming, Program;
    RunInv(ss, acts, i);
  }

  /**
   Nothing ever stands in the way of a live stream: what is read can be sent in pieces of any
   size, what is sent up is followed by the next read, and when all is sent it ends.
   */
  lemma StreamGoesOn(ss: seq<State>, acts: seq<Action>, i: nat, k: nat)
    requires Run(ss, acts) && i < |ss| && ss[i].get.Live?
    ensures var g := ss[i].get;
      && (g.pos < g.chunk && 0 < k <= g.chunk - g.pos ==>
            exists s' :: Step(ss[i], GetSend(k), s') && s'.get.Live? && |s'.get.sent| == |g.sent| + k)
      && (g.pos == g.chunk && |g.sent| < g.announced ==>
            exists s' :: Step(ss[i], GetRead, s') && s'.get.Live? && s'.get.pos < s'.get.chunk && s'.get.sent == g.sent)
      && (|g.sent| == g.announced ==>
            exists s' :: Step(ss[i], GetDone, s') && s'.get.Idle? && s'.streaming == 0)
  {
    hide Image, Fresh, MicroAll;
    RunInv(ss, acts, i);
    var s, g := ss[i], ss[i].get;
    FwSrv.ImageBody(s.mem);
    if g.pos < g.chunk && 0 < k <= g.chunk - g.pos {
      var piece := s.sbuf[g.pos..g.pos + k];
      assert Step(s, GetSend(k), s.(get := g.(sent := g.sent + piece, pos := g.pos + k)));
    }
    if g.pos == g.chunk && |g.sent| < g.announced {
      var n := if g.announced - |g.sent| < FwSrv.CHUNK then g.announced - |g.sent| else FwSrv.CHUNK;
      var off := HDR_LEN + |g.sent|;
      assert Step(s, GetRead, s.(sbuf := s.mem[off..off + n] + s.sbuf[n..], get := g.(chunk := n, pos := 0)));
    }
    if |g.sent| == g.announced {
      assert Step(s, GetDone, s.(streaming := 0, get := Get.Idle));
    }
  }

  /** A writer can always go on to the end of its program, and then let go of the partition. */
  lemma WriterEnds(ss: seq<State>, acts: seq<Action>, i: nat, junk: seq<bv8>)
    requires Run(ss, acts) && i < |ss| && ss[i].writer && |junk| == FwSrv.CHUNK
    ensures ss[i].prog != [] ==> exists s' :: Step(ss[i], WriterStep(junk), s') && s'.writer && s'.prog == ss[i].prog[1..]
    ensures ss[i].prog == [] ==> exists s' :: Step(ss[i], Release, s') && !s'.writer && s'.mem == ss[i].mem
  {
    hide Image, Fresh, MicroAll, Micro1;
    var s := ss[i];
    if s.prog == [] {
      assert Step(s, Release, s.(writer := false));
    } else {
      var v := Micro1(V(s), s.prog[0]);
      assert Step(s, WriterStep(junk),
                  s.(mem := v.mem, imgOk := v.ok, imgLen := v.len, prog := s.prog[1..],
                     sbuf := if s.prog[0].Publish? then junk else s.sbuf));
    }
  }

  lemma {:induction false} OpsAll(v: Verdict, ops: seq<Op>)
    ensures MicroAll(v, DoAll(ops)).mem == Replay(v.mem, ops)
    decreases |ops|
  {
    if ops == [] {
      MicroNone(v);
    } else {
      assert DoAll(ops)[1..] == DoAll(ops[1..]);
      OpsAll(v.(mem := Apply(v.mem, ops[0])), ops[1..]);
      assert [ops[0]] + ops[1..] == ops;
      ReplayAppend(v.mem, [ops[0]], ops[1..]);
      OneOp(v.mem, ops[0]);
    }
  }

  lemma OnlyPublish(v: Verdict, io: bool)
    ensures MicroAll(v, [Publish(io)]).mem == v.mem
  {
    assert [Publish(io)][1..] == [];
  }

  lemma CallOps(v: Verdict, written: seq<bv8>, c: Call, io: bool)
    requires |written| < 0x1_0000_0000
    ensures MicroAll(v, MicroOf(|v.mem|, written, c, io)).mem == Replay(v.mem, OpsOf(|v.mem|, written, c))
  {
    hide Image, Header, Apply;
    var ops := OpsOf(|v.mem|, written, c);
    OpsAll(v, ops);
    match c {
      case Begin(_, _) =>
        if ops != [] { BeginOps(v, ops, io); } else { MicroNone(v); }
      case Finish(out) =>
        assert DoAll(ops) + [] == DoAll(ops);
        OpsPublish(v, ops, out.Broke?);
      case Cancel(out) =>
        OpsPublish(v, ops, io);
        MicroNone(v);
      case _ =>
    }
  }

  lemma OpsPublish(v: Verdict, ops: seq<Op>, io: bool)
    ensures MicroAll(v, DoAll(ops) + [Publish(io)]).mem == Replay(v.mem, ops)
  {
    hide Image, Apply;
    OpsAll(v, ops);
    MicroAppend(v, DoAll(ops), [Publish(io)]);
    OnlyPublish(MicroAll(v, DoAll(ops)), io);
  }

  lemma BeginOps(v: Verdict, ops: seq<Op>, io: bool)
    requires ops != []
    ensures MicroAll(v, [Do(ops[0]), Publish(io)] + DoAll(ops[1..])).mem == Replay(v.mem, ops)
  {
    hide Image, Apply;
    var head := [Do(ops[0])];
    assert [Do(ops[0]), Publish(io)] + DoAll(ops[1..]) == head + ([Publish(io)] + DoAll(ops[1..]));
    MicroAppend(v, head, [Publish(io)] + DoAll(ops[1..]));
    assert head == DoAll([ops[0]]);
    OpsAll(v, [ops[0]]);
    var w := MicroAll(v, head);
    MicroAppend(w, [Publish(io)], DoAll(ops[1..]));
    OnlyPublish(w, io);
    OpsAll(MicroAll(w, [Publish(io)]), ops[1..]);
    assert [ops[0]] + ops[1..] == ops;
    ReplayAppend(v.mem, [ops[0]], ops[1..]);
  }

  /** What the writer's program does to the flash is what its sink calls do. */
  lemma {:induction false} ProgramOps(v: Verdict, calls: seq<Call>, io: seq<bool>)
    requires HDR_LEN + |Written(calls)| <= |v.mem| < 0x1_0000_0000
    ensures MicroAll(v, Program(|v.mem|, calls, io)).mem == Replay(v.mem, Ops(|v.mem|, calls))
    decreases |calls|
  {
    hide MicroOf, OpsOf, Apply;
    if calls == [] {
      MicroNone(v);
    } else {
      var front, c := calls[..|calls| - 1], calls[|calls| - 1];
      ProgramOps(v, front, io);
      var r := MicroAll(v, Program(|v.mem|, front, io));
      var b := |calls| <= |io| && io[|calls| - 1];
      SameSize(v, Program(|v.mem|, front, io));
      MicroAppend(v, Program(|v.mem|, front, io), MicroOf(|v.mem|, Written(front), c, b));
      CallOps(r, Written(front), c, b);
      ReplayAppend(v.mem, Ops(|v.mem|, front), OpsOf(|v.mem|, Written(front), c));
    }
  }

  /** The last thing a finished program does is publish what it has read back. */
  lemma FinishPublishes(v: Verdict, calls: seq<Call>, io: seq<bool>)
    requires HDR_LEN + |Written(calls)| <= |v.mem| < 0x1_0000_0000 && PhaseOf(calls) == Finished
    ensures var r := MicroAll(v, Program(|v.mem|, calls, io));
            r.ok == Image(r.mem).Some? && (r.ok ==> r.len == |Image(r.mem).value|)
  {
    hide Image, Apply, OpsOf;
    var front, c := calls[..|calls| - 1], calls[|calls| - 1];
    var b := |calls| <= |io| && io[|calls| - 1];
    assert c == Finish(Done);
    var ops := OpsOf(|v.mem|, Written(front), c);
    assert Program(|v.mem|, calls, io) == Program(|v.mem|, front, io) + DoAll(ops) + [Publish(false)];
    LastPublish(v, Program(|v.mem|, front, io) + DoAll(ops), false);
  }

  /** As long as the writer has the partition, its program goes on as it was claimed with. */
  lemma {:induction false} WriterGoesOn(ss: seq<State>, acts: seq<Action>, i: nat, j: nat)
    requires Run(ss, acts) && i < j < |ss| && acts[i].Claim? && !ss[i].writer
    requires forall k :: i < k <= j ==> ss[k].writer
    ensures Fits(|ss[i].mem|, acts[i].calls) && SECTOR <= |ss[i].mem| <= 0xFF00_0000
    ensures MicroAll(V(ss[j]), ss[j].prog) == MicroAll(V(ss[i]), Program(|ss[i].mem|, acts[i].calls, acts[i].io))
  {
    hide Image, Fresh, Micro1, Streaming, Program, Fits;
    RunInv(ss, acts, i);
    assert Step(ss[i], acts[i], ss[i + 1]);
    if j > i + 1 {
      WriterGoesOn(ss, acts, i, j - 1);
      RunInv(ss, acts, j - 1);
      assert Step(ss[j - 1], acts[j - 1], ss[j]);
    }
  }

  /** A finished install is what the next zone is handed: the verdict is good and about those bytes. */
  lemma InstalledIsServed(ss: seq<State>, acts: seq<Action>, i: nat, j: nat)
    requires Run(ss, acts) && i < j < |acts| && acts[i].Claim? && !ss[i].writer && acts[j].Release?
    requires forall k :: i < k <= j ==> ss[k].writer
    requires PhaseOf(acts[i].calls) == Finished && Written(acts[i].calls) != []
    ensures ss[j + 1].imgOk && !ss[j + 1].writer && ss[j + 1].imgLen == |Written(acts[i].calls)|
    ensures Image(ss[j + 1].mem) == Some(Written(acts[i].calls))
  {
    hide Image, Micro1, Program, Ops, Replay, Inv;
    WriterGoesOn(ss, acts, i, j);
    assert Step(ss[j], acts[j], ss[j + 1]);
    MicroNone(V(ss[j]));
    var v, calls := V(ss[i]), acts[i].calls;
    FinishPublishes(v, calls, acts[i].io);
    ProgramOps(v, calls, acts[i].io);
    FinishedImage(v.mem, calls);
  }

  /** A zone is never handed a Content-Length for bytes that are not a validated image. */
  lemma AdmittedLengthIsTrue(ss: seq<State>, acts: seq<Action>, i: nat)
    requires Run(ss, acts) && i < |ss| && ss[i].imgOk && !ss[i].writer
    ensures Image(ss[i].mem).Some? && ss[i].imgLen == |Image(ss[i].mem).value|
  {
    hide Step, Image;
    RunInv(ss, acts, i);
  }
}
