/**
 What a zone install does to flash, as a sequence of sink calls and the flash
 operations each of them stands for (components/panel_svc/fw_sink_zone.c). An operation
 may break off half-way, and the power may go between any two of them.
 */
module ZoneTrace {
  import opened Wrappers
  import opened Bytes
  import opened Flash
  import opened FwImage
  import Crc32

  const ERASE_STEP: nat := 65536

  /** `Broke(at)`: at sectors (begin) or bytes (write, finish) were done before the failure. */
  datatype Outcome = Done | Broke(at: nat)

  datatype Call =
    | Begin(len: nat, out: Outcome)
    | Write(data: seq<bv8>, out: Outcome)
    | Finish(out: Outcome)
    | Cancel(out: Outcome)

  // ---------------- the operations behind a call ----------------

  /** The bulk erase loop: 64 KB steps, the last one whatever is left. */
  function BodyErases(off: nat, end: nat): seq<Op>
    decreases end - off
  {
    if off >= end then []
    else
      var n := if end - off > ERASE_STEP then ERASE_STEP else end - off;
      [Erase(off, n)] + BodyErases(off + ERASE_STEP, end)
  }

  function Prog(off: nat, data: seq<bv8>): seq<Op> {
    if data == [] then [] else [Program(off, data)]
  }

  function EraseUpTo(end: nat): seq<Op> {
    if end == 0 then [] else [Erase(0, SECTOR)] + BodyErases(SECTOR, end)
  }

  function OpsOf(size: nat, written: seq<bv8>, c: Call): seq<Op>
    requires |written| < 0x1_0000_0000
  {
    match c
    case Begin(_, Done) => EraseUpTo(size)
    case Begin(_, Broke(at)) => EraseUpTo(at * SECTOR)
    case Write(data, Done) => Prog(HDR_LEN + |written|, data)
    case Write(data, Broke(at)) => Prog(HDR_LEN + |written|, if at < |data| then data[..at] else data)
    case Finish(Done) => [Program(0, Header(|written|, Crc32.Crc(0, written)))]
    case Finish(Broke(at)) =>
      Prog(0, Header(|written|, Crc32.Crc(0, written))[..if at < HDR_LEN then at else HDR_LEN])
    case Cancel(Done) => [Erase(0, SECTOR)]
    case Cancel(Broke(_)) => []
  }

  /** The bytes the sink has stored: those of every write that succeeded. */
  function Written(calls: seq<Call>): seq<bv8> {
    if calls == [] then []
    else
      var c := calls[|calls| - 1];
      Written(calls[..|calls| - 1]) + (if c.Write? && c.out.Done? then c.data else [])
  }

  function Ops(size: nat, calls: seq<Call>): seq<Op>
    requires HDR_LEN + |Written(calls)| <= size < 0x1_0000_0000
  {
    if calls == [] then []
    else
      var front := calls[..|calls| - 1];
      Ops(size, front) + OpsOf(size, Written(front), calls[|calls| - 1])
  }

  // ---------------- the order the install core calls in ----------------

  datatype Phase = Idle | Open | Refused | Broken | Finished | Closed | Wrong

  function Next(p: Phase, c: Call): Phase {
    match (p, c)
    case (Idle, Begin(_, out)) => if out.Done? then Open else Refused
    case (Open, Write(_, out)) => if out.Done? then Open else Broken
    case (Open, Finish(out)) => if out.Done? then Finished else Broken
    case (Open, Cancel(_)) => Closed
    case (Broken, Cancel(_)) => Closed
    case _ => Wrong
  }

  function PhaseOf(calls: seq<Call>): Phase {
    if calls == [] then Idle else Next(PhaseOf(calls[..|calls| - 1]), calls[|calls| - 1])
  }

  // ---------------- the state of flash in each phase ----------------

  predicate HeaderTorn(m: seq<bv8>, img: seq<bv8>, k: nat)
    requires |img| < 0x1_0000_0000
  {
    && k <= HDR_LEN && HDR_LEN + |img| <= |m|
    && m[..HDR_LEN] == Header(|img|, Crc32.Crc(0, img))[..k] + Fill(0xFF, HDR_LEN - k)
    && Holds(m, img)
  }

  predicate Holds(m: seq<bv8>, img: seq<bv8>)
    requires HDR_LEN + |img| <= |m|
  {
    forall i :: 0 <= i < |img| ==> m[HDR_LEN + i] == img[i]
  }

  /** A new image is going in: nothing in the header, `img` behind it, the rest still blank. */
  predicate Filling(m: seq<bv8>, img: seq<bv8>) {
    && HDR_LEN + |img| <= |m|
    && (forall i :: 0 <= i < HDR_LEN ==> m[i] == 0xFF)
    && Holds(m, img)
    && (forall i :: HDR_LEN + |img| <= i < |m| ==> m[i] == 0xFF)
  }

  /** Never anything but no image or the complete new one. */
  predicate Settled(m: seq<bv8>, img: seq<bv8>) {
    Image(m) == None || Image(m) == Some(img)
  }

  ghost predicate PhaseState(p: Phase, base: seq<bv8>, m: seq<bv8>, img: seq<bv8>)
    requires |img| < 0x1_0000_0000
  {
    match p
    case Idle => m == base && img == []
    case Refused => m == base || Image(m) == None
    case Open => Filling(m, img)
    case Broken => exists k :: HeaderTorn(m, img, k)
    case Finished => HeaderTorn(m, img, HDR_LEN)
    case Closed => Settled(m, img)
    case Wrong => true
  }

  lemma Cleared(d: bv8)
    ensures And(0xFF, d) == d
  {
  }

  lemma FillingHasNoImage(m: seq<bv8>, img: seq<bv8>)
    requires Filling(m, img)
    ensures Image(m) == None
  {
  }

  lemma {:induction false} BodyEraseAt(m: seq<bv8>, off: nat, end: nat, i: nat)
    requires end <= |m| && i < |m|
    ensures Replay(m, BodyErases(off, end))[i] == if off <= i < end then 0xFF else m[i]
    decreases end - off
  {
    if off < end {
      hide Replay;
      var n := if end - off > ERASE_STEP then ERASE_STEP else end - off;
      var rest := BodyErases(off + ERASE_STEP, end);
      ReplayAppend(m, [Erase(off, n)], rest);
      OneOp(m, Erase(off, n));
      BodyEraseAt(Apply(m, Erase(off, n)), off + ERASE_STEP, end, i);
    }
  }

  predicate SparesHeader(ops: seq<Op>) {
    forall i :: 0 <= i < |ops| ==> ops[i].off >= HDR_LEN
  }

  lemma {:induction false} BodyErasesSpareHeader(off: nat, end: nat)
    requires off >= HDR_LEN
    ensures SparesHeader(BodyErases(off, end))
    decreases end - off
  {
    if off < end {
      BodyErasesSpareHeader(off + ERASE_STEP, end);
    }
  }

  lemma {:induction false} HeaderSpared(m: seq<bv8>, ops: seq<Op>)
    requires SparesHeader(ops)
    ensures forall i :: 0 <= i < HDR_LEN && i < |m| ==> Replay(m, ops)[i] == m[i]
  {
    if ops != [] {
      HeaderSpared(m, ops[..|ops| - 1]);
    }
  }

  lemma OneOp(m: seq<bv8>, op: Op)
    ensures Replay(m, [op]) == Apply(m, op)
  {
  }

  /** From the first operation of begin on, at every cut, there is no image. */
  lemma EraseCuts(m: seq<bv8>, end: nat, k: nat)
    requires |m| >= SECTOR && 0 < k <= |EraseUpTo(end)|
    ensures Image(Replay(m, EraseUpTo(end)[..k])) == None
  {
    hide Image;
    var body := BodyErases(SECTOR, end);
    var ops := EraseUpTo(end);
    assert ops[..k] == [Erase(0, SECTOR)] + body[..k - 1];
    ReplayAppend(m, [Erase(0, SECTOR)], body[..k - 1]);
    OneOp(m, Erase(0, SECTOR));
    BodyErasesSpareHeader(SECTOR, end);
    HeaderSpared(Apply(m, Erase(0, SECTOR)), body[..k - 1]);
    ErasedMagic(Replay(m, ops[..k]), 0);
  }

  lemma EraseAll(m: seq<bv8>)
    requires SECTOR <= |m|
    ensures Filling(Replay(m, EraseUpTo(|m|)), [])
  {
    ReplayAppend(m, [Erase(0, SECTOR)], BodyErases(SECTOR, |m|));
    OneOp(m, Erase(0, SECTOR));
    var m' := Apply(m, Erase(0, SECTOR));
    forall i: nat | i < |m| ensures Replay(m', BodyErases(SECTOR, |m|))[i] == 0xFF {
      BodyEraseAt(m', SECTOR, |m|, i);
    }
  }

  lemma ProgramFills(m: seq<bv8>, img: seq<bv8>, data: seq<bv8>, i: nat)
    requires Filling(m, img) && HDR_LEN + |img| + |data| <= |m| && i < |m|
    ensures Apply(m, Program(HDR_LEN + |img|, data))[i]
         == if i < HDR_LEN then 0xFF else if i < HDR_LEN + |img| then img[i - HDR_LEN]
            else if i < HDR_LEN + |img| + |data| then data[i - HDR_LEN - |img|] else 0xFF
  {
    hide And;
    var off := HDR_LEN + |img|;
    if off <= i < off + |data| {
      Cleared(data[i - off]);
    } else if HDR_LEN <= i < off {
      assert m[HDR_LEN + (i - HDR_LEN)] == img[i - HDR_LEN];
    }
  }

  lemma WriteFills(m: seq<bv8>, img: seq<bv8>, data: seq<bv8>)
    requires Filling(m, img) && HDR_LEN + |img| + |data| <= |m|
    ensures Filling(Replay(m, Prog(HDR_LEN + |img|, data)), img + data)
  {
    hide Apply;
    if data == [] {
      assert img + data == img;
    } else {
      OneOp(m, Program(HDR_LEN + |img|, data));
      var r := Apply(m, Program(HDR_LEN + |img|, data));
      forall i: nat | i < |m|
        ensures r[i] == if i < HDR_LEN then 0xFF else if i < HDR_LEN + |img| then img[i - HDR_LEN]
                        else if i < HDR_LEN + |img| + |data| then data[i - HDR_LEN - |img|] else 0xFF
      {
        ProgramFills(m, img, data, i);
      }
    }
  }

  /** Programming the first k header bytes over a blank header leaves exactly a torn header. */
  lemma HeaderWrite(m: seq<bv8>, img: seq<bv8>, k: nat)
    requires Filling(m, img) && |img| < 0x1_0000_0000 && k <= HDR_LEN
    ensures HeaderTorn(Replay(m, Prog(0, Header(|img|, Crc32.Crc(0, img))[..k])), img, k)
  {
    hide And, Header, Crc32.Crc;
    var h := Header(|img|, Crc32.Crc(0, img));
    var r := Replay(m, Prog(0, h[..k]));
    if k == 0 {
      assert h[..0] == [];
    } else {
      OneOp(m, Program(0, h[..k]));
      forall i | 0 <= i < k ensures r[i] == h[i] {
        Cleared(h[i]);
      }
    }
    assert r[..HDR_LEN] == h[..k] + Fill(0xFF, HDR_LEN - k);
  }

  lemma TornIsSettled(m: seq<bv8>, img: seq<bv8>, k: nat)
    requires |m| <= 0xFF00_0000 && |img| < 0x1_0000_0000 && HeaderTorn(m, img, k)
    ensures Settled(m, img)
  {
    hide Image, Header, Crc32.Crc;
    assert m[HDR_LEN..HDR_LEN + |img|] == img;
    TornHeader(m, img, k);
  }

  // ---------------- one call ----------------

  /** The phase advances as the flash does, and no cut inside the call shows anything else. */
  lemma CallSafe(p: Phase, base: seq<bv8>, m: seq<bv8>, img: seq<bv8>, c: Call)
    requires |base| == |m| && SECTOR <= |m| <= 0xFF00_0000
    requires c.Write? && c.out.Done? ==> HDR_LEN + |img| + |c.data| <= |m|
    requires c.Begin? && c.out.Broke? ==> c.out.at * SECTOR < |m|
    requires HDR_LEN + |img| <= |m|
    requires PhaseState(p, base, m, img) && Next(p, c) != Wrong
    ensures var img' := img + (if c.Write? && c.out.Done? then c.data else []);
            var ops := OpsOf(|m|, img, c);
            && PhaseState(Next(p, c), base, Replay(m, ops), img')
            && (forall k :: 0 < k <= |ops| ==> Settled(Replay(m, ops[..k]), img'))
            && (!c.Finish? ==> forall k :: 0 < k <= |ops| ==> Image(Replay(m, ops[..k])) == None)
  {
    hide Image, Header, Crc32.Crc;
    var ops := OpsOf(|m|, img, c);
    assert ops[..|ops|] == ops;
    assert img + [] == img;
    match c {
      case Begin(_, out) =>
        BeginSafe(p, base, m, img, c);
      case Write(data, out) =>
        WriteSafe(p, base, m, img, c);
      case Finish(out) =>
        FinishSafe(m, img, c);
      case Cancel(out) =>
        CancelSafe(p, base, m, img, c);
    }
  }

  lemma BeginSafe(p: Phase, base: seq<bv8>, m: seq<bv8>, img: seq<bv8>, c: Call)
    requires |base| == |m| && SECTOR <= |m| <= 0xFF00_0000 && |img| < 0x1_0000_0000
    requires c.Begin? && p == Idle && PhaseState(p, base, m, img)
    requires c.out.Broke? ==> c.out.at * SECTOR < |m|
    ensures var ops := OpsOf(|m|, img, c);
            && PhaseState(Next(p, c), base, Replay(m, ops), img)
            && (forall k :: 0 < k <= |ops| ==> Image(Replay(m, ops[..k])) == None)
  {
    hide Image;
    var ops := OpsOf(|m|, img, c);
    var end := if c.out.Done? then |m| else c.out.at * SECTOR;
    forall k | 0 < k <= |ops| ensures Image(Replay(m, ops[..k])) == None {
      EraseCuts(m, end, k);
    }
    if c.out.Done? {
      EraseAll(m);
    } else if ops != [] {
      assert ops[..|ops|] == ops;
    }
  }

  lemma WriteSafe(p: Phase, base: seq<bv8>, m: seq<bv8>, img: seq<bv8>, c: Call)
    requires |base| == |m| && SECTOR <= |m| <= 0xFF00_0000 && |img| < 0x1_0000_0000
    requires c.Write? && p == Open && Filling(m, img)
    requires c.out.Done? ==> HDR_LEN + |img| + |c.data| <= |m|
    ensures var img' := img + (if c.out.Done? then c.data else []);
            var ops := OpsOf(|m|, img, c);
            && |ops| <= 1 && Image(Replay(m, ops)) == None
            && PhaseState(Next(p, c), base, Replay(m, ops), img')
  {
    hide Image, Header, Crc32.Crc, And;
    var off := HDR_LEN + |img|;
    var ops := OpsOf(|m|, img, c);
    if c.out.Done? {
      WriteFills(m, img, c.data);
      FillingHasNoImage(Replay(m, ops), img + c.data);
    } else {
      assert img + [] == img;
      var r := Replay(m, ops);
      HeaderSpared(m, ops);
      if ops != [] { OneOp(m, ops[0]); }
      assert r[..HDR_LEN] == Header(|img|, Crc32.Crc(0, img))[..0] + Fill(0xFF, HDR_LEN);
      assert HeaderTorn(r, img, 0);
      ErasedMagic(r, 0);
    }
  }

  lemma FinishSafe(m: seq<bv8>, img: seq<bv8>, c: Call)
    requires |m| <= 0xFF00_0000 && |img| < 0x1_0000_0000
    requires c.Finish? && Filling(m, img)
    ensures var ops := OpsOf(|m|, img, c);
            && |ops| <= 1 && Settled(Replay(m, ops), img)
            && (if c.out.Done? then HeaderTorn(Replay(m, ops), img, HDR_LEN)
                else exists k :: HeaderTorn(Replay(m, ops), img, k))
  {
    hide Image, Header, Crc32.Crc, HeaderTorn;
    var h := Header(|img|, Crc32.Crc(0, img));
    var k := if c.out.Broke? && c.out.at < HDR_LEN then c.out.at else HDR_LEN;
    assert h[..HDR_LEN] == h;
    HeaderWrite(m, img, k);
    assert OpsOf(|m|, img, c) == Prog(0, h[..k]);
    TornIsSettled(Replay(m, Prog(0, h[..k])), img, k);
  }

  lemma CancelSafe(p: Phase, base: seq<bv8>, m: seq<bv8>, img: seq<bv8>, c: Call)
    requires |base| == |m| && SECTOR <= |m| <= 0xFF00_0000 && |img| < 0x1_0000_0000
    requires c.Cancel? && (p == Open || p == Broken) && PhaseState(p, base, m, img)
    ensures var ops := OpsOf(|m|, img, c);
            && |ops| <= 1 && Settled(Replay(m, ops), img)
            && (c.out.Done? ==> Image(Replay(m, ops)) == None)
  {
    hide Image, Header, Crc32.Crc;
    if c.out.Done? {
      OneOp(m, Erase(0, SECTOR));
      ErasedMagic(Apply(m, Erase(0, SECTOR)), 0);
    } else if p == Open {
      FillingHasNoImage(m, img);
    } else {
      var k :| HeaderTorn(m, img, k);
      TornIsSettled(m, img, k);
    }
  }

  // ---------------- a whole install ----------------

  predicate Fits(size: nat, calls: seq<Call>) {
    && HDR_LEN + |Written(calls)| <= size
    && forall i :: 0 <= i < |calls| && calls[i].Begin? && calls[i].out.Broke? ==> calls[i].out.at * SECTOR < size
  }

  lemma FitsFront(size: nat, calls: seq<Call>)
    requires calls != [] && Fits(size, calls)
    ensures Fits(size, calls[..|calls| - 1])
  {
  }

  /** What every cut of an install so far shows: no image at all until the header is written. */
  ghost predicate CutsSafe(base: seq<bv8>, ops: seq<Op>, finishing: bool, img: seq<bv8>) {
    && (forall k :: 0 < k <= |ops| ==> Settled(Replay(base, ops[..k]), img))
    && (!finishing ==> forall k :: 0 < k <= |ops| ==> Image(Replay(base, ops[..k])) == None)
  }

  predicate HasFinish(calls: seq<Call>) {
    calls != [] && (HasFinish(calls[..|calls| - 1]) || calls[|calls| - 1].Finish?)
  }

  /** Nothing is written once finish has been called. */
  lemma {:induction false} AfterFinish(calls: seq<Call>)
    requires HasFinish(calls)
    ensures PhaseOf(calls) == Finished || PhaseOf(calls) == Broken || PhaseOf(calls) == Closed || PhaseOf(calls) == Wrong
  {
    if HasFinish(calls[..|calls| - 1]) {
      AfterFinish(calls[..|calls| - 1]);
    }
  }

  /** Safe so far, and safe at every cut of the next call: safe. */
  lemma CutsExtend(base: seq<bv8>, done: seq<Op>, more: seq<Op>, f: bool, f': bool, img: seq<bv8>, img': seq<bv8>)
    requires CutsSafe(base, done, f, img)
    requires forall k :: 0 < k <= |more| ==> Settled(Replay(Replay(base, done), more[..k]), img')
    requires !f' ==> forall k :: 0 < k <= |more| ==> Image(Replay(Replay(base, done), more[..k])) == None
    requires (f ==> f' && img == img')
    ensures CutsSafe(base, done + more, f', img')
  {
    hide Image, Replay;
    forall k | 0 < k <= |done + more|
      ensures Settled(Replay(base, (done + more)[..k]), img')
      ensures !f' ==> Image(Replay(base, (done + more)[..k])) == None
    {
      if k <= |done| {
        assert (done + more)[..k] == done[..k];
      } else {
        assert (done + more)[..k] == done + more[..k - |done|];
        ReplayAppend(base, done, more[..k - |done|]);
      }
    }
  }

  /** Every power cut of an install in progress, by induction over the calls made so far. */
  lemma {:induction false} CutAnywhere(base: seq<bv8>, calls: seq<Call>)
    requires SECTOR <= |base| <= 0xFF00_0000 && Fits(|base|, calls) && PhaseOf(calls) != Wrong
    ensures PhaseState(PhaseOf(calls), base, Replay(base, Ops(|base|, calls)), Written(calls))
    ensures CutsSafe(base, Ops(|base|, calls), HasFinish(calls), Written(calls))
  {
    hide Image, OpsOf, PhaseState, Replay, CutsSafe;
    if calls == [] {
      NothingDone(base);
    } else {
      var front, c := calls[..|calls| - 1], calls[|calls| - 1];
      FitsFront(|base|, calls);
      CutAnywhere(base, front);
      var done, more := Ops(|base|, front), OpsOf(|base|, Written(front), c);
      CallSafe(PhaseOf(front), base, Replay(base, done), Written(front), c);
      ReplayAppend(base, done, more);
      if HasFinish(front) { AfterFinish(front); }
      assert Written(front) + [] == Written(front);
      CutsExtend(base, done, more, HasFinish(front), HasFinish(calls), Written(front), Written(calls));
    }
  }

  lemma NothingDone(base: seq<bv8>)
    ensures Replay(base, []) == base && PhaseState(Idle, base, base, []) && CutsSafe(base, [], false, [])
  {
  }

  /**
   Cut the power after any number of flash operations: the validator then accepts the
   untouched old image (nothing had happened yet), no image, or the complete new one, and
   the last only once finish, which follows the last byte, has been called.
   */
  lemma PowerCut(base: seq<bv8>, calls: seq<Call>, k: nat)
    requires SECTOR <= |base| <= 0xFF00_0000 && Fits(|base|, calls) && PhaseOf(calls) != Wrong
    requires k <= |Ops(|base|, calls)|
    ensures var cut := Image(Replay(base, Ops(|base|, calls)[..k]));
            if k == 0 then cut == Image(base)
            else cut == None || (HasFinish(calls) && cut == Some(Written(calls)))
  {
    hide Image;
    CutAnywhere(base, calls);
  }

  /** After a successful finish the validator accepts exactly the bytes streamed in. */
  lemma FinishedImage(base: seq<bv8>, calls: seq<Call>)
    requires SECTOR <= |base| <= 0xFF00_0000 && Fits(|base|, calls)
    requires PhaseOf(calls) == Finished && Written(calls) != []
    ensures Image(Replay(base, Ops(|base|, calls))) == Some(Written(calls))
  {
    hide Image, Header, Crc32.Crc, Ops, Replay, CutsSafe, PhaseOf, Written, Fits;
    CutAnywhere(base, calls);
    var m := Replay(base, Ops(|base|, calls));
    assert m[HDR_LEN..HDR_LEN + |Written(calls)|] == Written(calls);
    TornHeader(m, Written(calls), HDR_LEN);
  }
}
