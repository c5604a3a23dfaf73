/**
 psvc_fw_install_with (components/panel_svc/psvc_fw.c): the install core. The environment,
 the sink and the source are injected there; here each is what it will answer, so that a
 statement about the method is one about every behaviour of all three.
 */
module FwInstall {
  import opened Flash
  import opened FwImage
  import opened ZoneTrace
  import opened Wrappers

  const BUF: nat := 4096
  const ID_BYTES: nat := 112
  const LOW_HEAP_B: nat := 40 * 1024

  datatype Kind = MasterImage | ZoneImage

  datatype Rc =
    | OK | INVALID | UPLOAD_ACTIVE | FLEET_ACTIVE | TRIAL_PENDING | NO_SLOT | LOW_HEAP | INTERNAL
    | TOO_LARGE | IMAGE_MISMATCH | ZONE_FW_BUSY | WRITE_FAILED | STALLED | RECV_FAILED

  /** psvc_fw_env_t: what each of its functions answers. */
  datatype Env = Env(claim: bool, fleetIdle: bool, heapFree: nat, wdtToken: bool, zoneFwFree: bool)

  /** psvc_fw_sink_t: `write` lists the answers of successive writes, the rest succeed. */
  datatype SinkScript = SinkScript(
    ready: int, max: nat, begin: Outcome, write: seq<Outcome>, finish: Outcome, cancel: Outcome)

  /** One answer of the source; an exhausted source is silent for good and so reports a stall. */
  datatype Resp = Again | Stalled | Failed | Data(bytes: seq<bv8>)

  datatype Ev =
    | Claim(got: bool) | Release
    | WdtBegin(token: bool) | WdtEnd(token: bool)
    | Identify(accepted: bool)
    | ZoneFwClaim(got: bool) | ZoneFwRelease
    | OnSink(call: Call)

  datatype Stats = Stats(consumed: nat, started: bool, srcFailed: bool)

  function Bytes(src: seq<Resp>): seq<bv8> {
    if src == [] then []
    else Bytes(src[..|src| - 1]) + (if src[|src| - 1].Data? then src[|src| - 1].bytes else [])
  }

  /** Every byte handed to a write, whether or not the write succeeded. */
  function Handed(calls: seq<Call>): seq<bv8> {
    if calls == [] then []
    else Handed(calls[..|calls| - 1]) + (if calls[|calls| - 1].Write? then calls[|calls| - 1].data else [])
  }

  function OnSinkAll(calls: seq<Call>): (r: seq<Ev>)
    ensures |r| == |calls|
  {
    seq(|calls|, i requires 0 <= i < |calls| => OnSink(calls[i]))
  }

  /** The first refusal of the guards, in their order. */
  function Guard(env: Env, sink: SinkScript, len: nat): Rc {
    if !env.fleetIdle then FLEET_ACTIVE
    else if sink.ready == -2 then TRIAL_PENDING
    else if sink.ready != 0 then NO_SLOT
    else if env.heapFree < LOW_HEAP_B then LOW_HEAP
    else if sink.max == 0 then INTERNAL
    else if len > sink.max then TOO_LARGE
    else OK
  }

  /** Who is let in, and which guard each refusal names. */
  lemma GuardIff(env: Env, sink: SinkScript, len: nat)
    ensures Guard(env, sink, len) == OK
      <==> env.fleetIdle && sink.ready == 0 && 40 * 1024 <= env.heapFree && 0 < sink.max && len <= sink.max
    ensures match Guard(env, sink, len)
            case FLEET_ACTIVE => !env.fleetIdle
            case TRIAL_PENDING => env.fleetIdle && sink.ready == -2
            case NO_SLOT => env.fleetIdle && sink.ready !in {0, -2}
            case LOW_HEAP => env.fleetIdle && sink.ready == 0 && env.heapFree < 40 * 1024
            case INTERNAL => env.fleetIdle && sink.ready == 0 && 40 * 1024 <= env.heapFree && sink.max == 0
            case TOO_LARGE => env.fleetIdle && sink.ready == 0 && 40 * 1024 <= env.heapFree && 0 < sink.max < len
            case rc => rc == OK
  {
  }

  /** What stands between the guards and the first sink call. */
  function Preamble(identified: Option<bool>, zoneFw: Option<bool>): seq<Ev> {
    (if identified.None? then [] else [Identify(identified.value)])
    + (if zoneFw.None? then [] else [ZoneFwClaim(zoneFw.value)])
  }

  /** An admitted run up to its latest sink call. */
  function Front(env: Env, identified: Option<bool>, zoneFw: Option<bool>, calls: seq<Call>): seq<Ev> {
    [Claim(true), WdtBegin(env.wdtToken)] + Preamble(identified, zoneFw) + OnSinkAll(calls)
  }

  lemma FrontOpens(env: Env)
    ensures Front(env, None, None, []) == [Claim(true), WdtBegin(env.wdtToken)]
  {
  }

  lemma FrontIdentify(env: Env, b: bool)
    ensures Front(env, Some(b), None, []) == Front(env, None, None, []) + [Identify(b)]
  {
  }

  lemma FrontClaim(env: Env, identified: Option<bool>, b: bool)
    ensures Front(env, identified, Some(b), []) == Front(env, identified, None, []) + [ZoneFwClaim(b)]
  {
  }

  lemma FrontCall(env: Env, identified: Option<bool>, zoneFw: Option<bool>, calls: seq<Call>, c: Call)
    ensures Front(env, identified, zoneFw, calls + [c]) == Front(env, identified, zoneFw, calls) + [OnSink(c)]
  {
  }

  function Closing(token: bool, zoneFw: Option<bool>): seq<Ev> {
    [WdtEnd(token)] + (if zoneFw == Some(true) then [ZoneFwRelease] else []) + [Release]
  }

  /**
   A whole admitted run: one claim, one watchdog subscription, at most one identity check
   and one zone_fw claim, then the sink calls, then everything taken given back once.
   */
  ghost predicate AdmittedRun(env: Env, kind: Kind, ev: seq<Ev>, calls: seq<Call>,
                              identified: Option<bool>, zoneFw: Option<bool>) {
    && ev == Front(env, identified, zoneFw, calls) + Closing(env.wdtToken, zoneFw)
    && (zoneFw.Some? ==> kind == ZoneImage && identified == Some(true) && zoneFw.value == env.zoneFwFree)
    && (calls != [] ==> identified == Some(true) && (kind == ZoneImage ==> zoneFw == Some(true)))
  }

  /** Enough to tell the image by: the identity bytes, or the whole file. */
  predicate Ready(got: nat, len: nat) { got >= ID_BYTES || got == len }

  /** The one verdict on the identity: on what there was when there first was enough. */
  ghost predicate Judged(src: seq<Resp>, n: nat, len: nat, isImage: seq<bv8> -> bool, verdict: Option<bool>)
    requires n <= |src|
  {
    match verdict
    case None => forall k :: 0 <= k <= n ==> !Ready(|Bytes(src[..k])|, len)
    case Some(accepted) =>
      exists m :: 0 <= m <= n && Ready(|Bytes(src[..m])|, len) && accepted == isImage(Bytes(src[..m]))
        && forall k :: 0 <= k < m ==> !Ready(|Bytes(src[..k])|, len)
  }

  /** What the i-th write is given: 4 KB, or the rest of the file. */
  function Piece(len: nat, i: nat): int { if len - i * BUF > BUF then BUF else len - i * BUF }

  /** The i-th call gets the sink's own answer; after the begin every call but the last two is a write. */
  predicate ScriptedAt(c: Call, i: nat, sink: SinkScript, len: nat) {
    match c
    case Begin(l, out) => i == 0 && l == len && out == sink.begin
    case Finish(out) => out == sink.finish
    case Cancel(out) => out == sink.cancel
    case Write(data, out) =>
      i > 0 && |data| == Piece(len, i - 1) && out == (if i - 1 < |sink.write| then sink.write[i - 1] else Done)
  }

  predicate Scripted(calls: seq<Call>, sink: SinkScript, len: nat) {
    forall i :: 0 <= i < |calls| ==> ScriptedAt(calls[i], i, sink, len)
  }

  /** The sink itself failed. */
  predicate SinkBroke(calls: seq<Call>) {
    exists i :: 0 <= i < |calls| && calls[i].out.Broke? && !calls[i].Cancel?
  }

  lemma BrokeGrows(calls: seq<Call>, c: Call)
    ensures SinkBroke(calls + [c]) == (SinkBroke(calls) || (c.out.Broke? && !c.Cancel?))
  {
    assert forall i :: 0 <= i < |calls| ==> (calls + [c])[i] == calls[i];
    assert (calls + [c])[|calls|] == c;
  }

  /** How much is asked for: the rest of the file, or of the 4 KB block. */
  function Want(got: nat, len: nat): int { if len - got > BUF - got % BUF then BUF - got % BUF else len - got }

  /** The k-th answer brings nothing or no more than was asked for. */
  predicate Smooth(src: seq<Resp>, k: nat, len: nat)
    requires k < |src|
  {
    src[k].Again? || (src[k].Data? && |src[k].bytes| <= Want(|Bytes(src[..k])|, len))
  }

  /** A source that brings the whole file before anything else. */
  ghost predicate Fed(src: seq<Resp>, len: nat) {
    exists m :: 0 <= m <= |src| && |Bytes(src[..m])| == len && forall k :: 0 <= k < m ==> Smooth(src, k, len)
  }

  lemma {:induction false} BytesGrow(src: seq<Resp>, m: nat, n: nat)
    requires m <= n <= |src|
    ensures Bytes(src[..m]) <= Bytes(src[..n])
    decreases n
  {
    if m < n {
      BytesGrow(src, m, n - 1);
      NextResp(src, n - 1);
    }
  }

  lemma FedNow(src: seq<Resp>, n: nat, len: nat)
    requires n <= |src| && |Bytes(src[..n])| == len && forall k :: 0 <= k < n ==> Smooth(src, k, len)
    ensures Fed(src, len)
  {
  }

  /** A source that stops short, or brings too much, is none that brings the whole file. */
  lemma NotFed(src: seq<Resp>, n: nat, len: nat)
    requires n <= |src| && |Bytes(src[..n])| < len && (n == |src| || !Smooth(src, n, len))
    ensures !Fed(src, len)
  {
    hide Bytes;
    forall m | 0 <= m <= |src| && |Bytes(src[..m])| == len ensures exists k :: 0 <= k < m && !Smooth(src, k, len) {
      if m <= n {
        BytesGrow(src, m, n);
      } else {
        assert !Smooth(src, n, len);
      }
    }
  }

  lemma JudgedNext(src: seq<Resp>, n: nat, len: nat, isImage: seq<bv8> -> bool, was: Option<bool>, now: Option<bool>)
    requires n < |src| && Judged(src, n, len, isImage, was)
    requires was.Some? ==> now == was
    requires was.None? ==>
      now == (if Ready(|Bytes(src[..n + 1])|, len) then Some(isImage(Bytes(src[..n + 1]))) else None)
    ensures Judged(src, n + 1, len, isImage, now)
  {
    hide Bytes;
  }

  lemma NextResp(src: seq<Resp>, n: nat)
    requires n < |src|
    ensures Bytes(src[..n + 1]) == Bytes(src[..n]) + (if src[n].Data? then src[n].bytes else [])
  {
    assert src[..n + 1][..n] == src[..n];
  }

  lemma Appended(calls: seq<Call>, c: Call)
    ensures PhaseOf(calls + [c]) == Next(PhaseOf(calls), c)
    ensures HasFinish(calls + [c]) == (HasFinish(calls) || c.Finish?)
    ensures Written(calls + [c]) == Written(calls) + (if c.Write? && c.out.Done? then c.data else [])
    ensures Handed(calls + [c]) == Handed(calls) + (if c.Write? then c.data else [])
  {
  }

  lemma ScriptedGrows(calls: seq<Call>, c: Call, sink: SinkScript, len: nat)
    requires Scripted(calls, sink, len) && ScriptedAt(c, |calls|, sink, len)
    ensures Scripted(calls + [c], sink, len)
  {
  }

  lemma NothingYet(src: seq<Resp>, len: nat, isImage: seq<bv8> -> bool, sink: SinkScript)
    ensures Bytes(src[..0]) == [] && PhaseOf([]) == Idle && !HasFinish([]) && Delivered([], [], []) && InOrder([], [])
    ensures Scripted([], sink, len) && !SinkBroke([]) && Bytes(src[..0]) == []
    ensures len > 0 ==> Judged(src, 0, len, isImage, None)
  {
  }

  /** Everything received is written or still in the buffer, in order. */
  ghost predicate Delivered(got: seq<bv8>, calls: seq<Call>, buf: seq<bv8>) {
    got == Written(calls) + buf && Handed(calls) == Written(calls)
  }

  /** Writes are a prefix of what was received, the successful ones a prefix of those. */
  ghost predicate InOrder(got: seq<bv8>, calls: seq<Call>) {
    Handed(calls) <= got && Written(calls) <= Handed(calls)
  }

  lemma DeliveredMore(got: seq<bv8>, calls: seq<Call>, buf: seq<bv8>, more: seq<bv8>)
    requires Delivered(got, calls, buf)
    ensures Delivered(got + more, calls, buf + more) && InOrder(got + more, calls)
    ensures calls == [] ==> got + more == buf + more
  {
  }

  /** One more call, whatever it is, keeps the order; a successful write empties the buffer. */
  lemma DeliveredCall(got: seq<bv8>, calls: seq<Call>, buf: seq<bv8>, c: Call)
    requires Delivered(got, calls, buf)
    requires c.Write? ==> c.data == buf
    ensures InOrder(got, calls + [c])
    ensures c.Write? && c.out.Done? ==> Delivered(got, calls + [c], [])
    ensures !c.Write? ==> Delivered(got, calls + [c], buf)
    ensures buf == [] && !c.Write? ==> Written(calls + [c]) == got
  {
  }

  lemma InOrderCall(got: seq<bv8>, calls: seq<Call>, c: Call)
    requires InOrder(got, calls) && !c.Write?
    ensures InOrder(got, calls + [c])
  {
  }

  /** The locals of the install loop: the trace so far, the buffer, and how far the install has come. */
  datatype Run = Run(ev: seq<Ev>, calls: seq<Call>, identified: Option<bool>, zoneFw: Option<bool>,
                     buf: seq<bv8>, begun: bool, writes: nat)

  /** One install's parameters. */
  datatype Job = Job(env: Env, sink: SinkScript, kind: Kind, len: nat, isImage: seq<bv8> -> bool)

  /** True of the loop whether it goes on or has just stopped. */
  ghost predicate Sound(j: Job, r: Run, got: seq<bv8>) {
    && r.ev == Front(j.env, r.identified, r.zoneFw, r.calls)
    && InOrder(got, r.calls) && |got| <= j.len
    && Scripted(r.calls, j.sink, j.len)
    && (r.zoneFw.Some? ==> j.kind == ZoneImage && r.identified == Some(true) && r.zoneFw.value == j.env.zoneFwFree)
    && (r.calls != [] ==> r.identified == Some(true) && (j.kind == ZoneImage ==> r.zoneFw == Some(true)))
    && (!r.begun ==> r.calls == [] || PhaseOf(r.calls) == Refused)
    && (r.begun ==> PhaseOf(r.calls) == Open || PhaseOf(r.calls) == Broken)
  }

  /** The buffer holds what came after the whole blocks written. */
  predicate Filled(r: Run, got: seq<bv8>) {
    && |got| == r.writes * BUF + |r.buf|
    && |r.calls| == (if r.begun then r.writes + 1 else 0) && (!r.begun ==> r.writes == 0)
  }

  /** True at the head of the loop. */
  ghost predicate Live(j: Job, r: Run, got: seq<bv8>) {
    && Sound(j, r, got) && Delivered(got, r.calls, r.buf) && !HasFinish(r.calls) && !SinkBroke(r.calls)
    && (|got| < j.len ==> Filled(r, got))
    && (if r.begun then PhaseOf(r.calls) == Open && |r.buf| < BUF && (|got| == j.len ==> r.buf == [])
        else r.calls == [] && r.identified == None && r.zoneFw == None && |r.buf| < ID_BYTES && |got| < j.len)
    && (r.begun ==> r.identified == Some(true) && (j.kind == ZoneImage ==> r.zoneFw == Some(true)))
    && r.identified != Some(false) && r.zoneFw != Some(false)
  }

  /** A refusal explains itself: the two verdicts are reported under their own codes and nothing else is. */
  ghost predicate Explained(j: Job, r: Run, rc: Rc) {
    && !HasFinish(r.calls)
    && (rc == IMAGE_MISMATCH <==> r.identified == Some(false))
    && (rc == ZONE_FW_BUSY <==> r.zoneFw == Some(false))
    && (rc == WRITE_FAILED <==> SinkBroke(r.calls))
    && (PhaseOf(r.calls) == Refused || PhaseOf(r.calls) == Broken ==> rc == WRITE_FAILED)
  }

  /** begin or write, and what its answer means. */
  method CallSink(j: Job, r: Run, ghost got: seq<bv8>, c: Call) returns (rc: Rc, r': Run)
    requires Sound(j, r, got) && Delivered(got, r.calls, r.buf) && !HasFinish(r.calls) && !SinkBroke(r.calls)
    requires r.identified == Some(true) && (j.kind == ZoneImage ==> r.zoneFw == Some(true)) && r.zoneFw != Some(false)
    requires (c.Begin? && r.calls == [] && !r.begun) || (c.Write? && c.data == r.buf && r.begun && PhaseOf(r.calls) == Open)
    requires ScriptedAt(c, |r.calls|, j.sink, j.len)
    ensures Sound(j, r', got) && rc == (if c.out.Done? then OK else WRITE_FAILED)
    ensures r'.calls == r.calls + [c] && r'.identified == r.identified && r'.zoneFw == r.zoneFw
    ensures r'.buf == (if c.Write? && rc == OK then [] else r.buf)
    ensures !HasFinish(r'.calls) && SinkBroke(r'.calls) == (rc != OK)
    ensures r'.writes == (if c.Write? && rc == OK then r.writes + 1 else r.writes)
    ensures rc == OK ==> r'.begun && PhaseOf(r'.calls) == Open && Delivered(got, r'.calls, r'.buf)
    ensures rc != OK ==> Explained(j, r', rc)
  {
    hide Bytes, Written, HasFinish, Front, Scripted, Delivered, InOrder, SinkBroke;
    Appended(r.calls, c);
    DeliveredCall(got, r.calls, r.buf, c);
    FrontCall(j.env, r.identified, r.zoneFw, r.calls, c);
    ScriptedGrows(r.calls, c, j.sink, j.len);
    BrokeGrows(r.calls, c);
    assert PhaseOf([]) == Idle;
    r' := r.(calls := r.calls + [c], ev := r.ev + [OnSink(c)]);
    if c.out.Broke? { return WRITE_FAILED, r'; }
    r' := if c.Write? then r'.(buf := [], writes := r.writes + 1) else r'.(begun := true);
    rc := OK;
  }

  /** Enough has come to tell the image by: identify it, claim zone_fw for a zone image, begin. */
  method IdentifyAndBegin(j: Job, r: Run, ghost got: seq<bv8>) returns (rc: Rc, r': Run)
    requires Sound(j, r, got) && Delivered(got, r.calls, r.buf)
    requires !HasFinish(r.calls) && !SinkBroke(r.calls) && Filled(r, got)
    requires !r.begun && r.calls == [] && r.identified == None && r.zoneFw == None
    ensures Sound(j, r', got) && r'.identified == Some(j.isImage(got))
    ensures rc == OK ==>
      && Delivered(got, r'.calls, r'.buf) && !HasFinish(r'.calls) && !SinkBroke(r'.calls) && Filled(r', got)
      && r'.begun && PhaseOf(r'.calls) == Open && r'.buf == r.buf && r'.writes == 0
      && r'.identified == Some(true) && r'.zoneFw != Some(false) && (j.kind == ZoneImage ==> r'.zoneFw == Some(true))
    ensures rc != OK ==> Explained(j, r', rc)
    ensures rc in {OK, IMAGE_MISMATCH, ZONE_FW_BUSY, WRITE_FAILED}
  {
    hide Bytes, Written, HasFinish, Front, Scripted, Delivered, InOrder, SinkBroke;
    BufferIsAll(got, r.buf);
    FrontIdentify(j.env, j.isImage(r.buf));
    rc, r' := OK, r.(identified := Some(j.isImage(r.buf)), ev := r.ev + [Identify(j.isImage(r.buf))]);
    if !j.isImage(r.buf) { return IMAGE_MISMATCH, r'; }
    if j.kind == ZoneImage {
      FrontClaim(j.env, r'.identified, j.env.zoneFwFree);
      r' := r'.(zoneFw := Some(j.env.zoneFwFree), ev := r'.ev + [ZoneFwClaim(j.env.zoneFwFree)]);
      if !j.env.zoneFwFree { return ZONE_FW_BUSY, r'; }
    }
    rc, r' := CallSink(j, r', got, Call.Begin(j.len, j.sink.begin));
  }

  /** The bytes just received, in the buffer: identify once, begin once, write when full or complete. */
  method Advance(j: Job, r: Run, ghost got: seq<bv8>, complete: bool) returns (rc: Rc, r': Run)
    requires Sound(j, r, got) && Delivered(got, r.calls, r.buf) && |r.buf| <= BUF && r.buf != []
    requires !HasFinish(r.calls) && !SinkBroke(r.calls) && Filled(r, got)
    requires |got| <= j.len && complete == (|got| == j.len)
    requires r.begun && j.kind == ZoneImage ==> r.zoneFw == Some(true)
    requires if r.begun then PhaseOf(r.calls) == Open && r.identified == Some(true) && r.zoneFw != Some(false)
             else r.calls == [] && r.identified == None && r.zoneFw == None
    ensures rc == OK ==> Live(j, r', got)
    ensures rc != OK ==> Sound(j, r', got) && Explained(j, r', rc)
    ensures r'.identified ==
      (if r.begun then r.identified else if Ready(|got|, j.len) then Some(j.isImage(got)) else None)
    ensures rc in {OK, IMAGE_MISMATCH, ZONE_FW_BUSY, WRITE_FAILED}
  {
    hide Bytes, Written, HasFinish, PhaseOf, Front, Scripted, Delivered, InOrder, SinkBroke, Explained, Sound;
    rc, r' := OK, r;
    if !r.begun && (|r.buf| >= ID_BYTES || complete) {
      rc, r' := IdentifyAndBegin(j, r', got);
      if rc != OK { return; }
    }
    if r'.begun && (|r'.buf| == BUF || complete) {
      var w := Call.Write(r'.buf, if r'.writes < |j.sink.write| then j.sink.write[r'.writes] else Done);
      rc, r' := CallSink(j, r', got, w);
    }
  }

  /** finish or cancel. */
  method EndSink(j: Job, r: Run, ghost got: seq<bv8>, c: Call) returns (r': Run)
    requires Sound(j, r, got) && r.begun
    requires (c.Finish? && PhaseOf(r.calls) == Open) || c.Cancel?
    requires ScriptedAt(c, |r.calls|, j.sink, j.len)
    ensures SinkBroke(r'.calls) == (SinkBroke(r.calls) || (c.Finish? && c.out.Broke?))
    ensures r' == r.(calls := r.calls + [c], ev := r'.ev)
    ensures r'.ev == Front(j.env, r.identified, r.zoneFw, r'.calls)
    ensures InOrder(got, r'.calls) && Scripted(r'.calls, j.sink, j.len)
    ensures PhaseOf(r'.calls) == Next(PhaseOf(r.calls), c) && Written(r'.calls) == Written(r.calls)
    ensures PhaseOf(r'.calls) == Broken ==> Sound(j, r', got)
    ensures HasFinish(r'.calls) == (HasFinish(r.calls) || c.Finish?)
  {
    hide Bytes, Written, PhaseOf, HasFinish, Front, Scripted, Delivered, InOrder, SinkBroke;
    Appended(r.calls, c);
    NothingYet([], j.len, j.isImage, j.sink);
    assert Written(r.calls) + [] == Written(r.calls);
    BrokeGrows(r.calls, c);
    InOrderCall(got, r.calls, c);
    FrontCall(j.env, r.identified, r.zoneFw, r.calls, c);
    ScriptedGrows(r.calls, c, j.sink, j.len);
    r' := r.(calls := r.calls + [c], ev := r.ev + [OnSink(c)]);
  }

  lemma LiveWritten(got: seq<bv8>, calls: seq<Call>, buf: seq<bv8>)
    requires Delivered(got, calls, buf) && buf == []
    ensures Written(calls) == got
  {
  }

  /** After the loop: finish what succeeded, cancel what began and did not, give everything back. */
  method WindUp(j: Job, r: Run, ghost got: seq<bv8>, stop: Rc) returns (rc: Rc, r': Run)
    requires Sound(j, r, got)
    requires stop == OK ==> Live(j, r, got) && |got| == j.len
    requires stop != OK ==> Explained(j, r, stop)
    ensures AdmittedRun(j.env, j.kind, r'.ev, r'.calls, r'.identified, r'.zoneFw)
    ensures r'.identified == r.identified && r'.zoneFw == r.zoneFw
    ensures InOrder(got, r'.calls) && Scripted(r'.calls, j.sink, j.len)
    ensures PhaseOf(r'.calls) == Idle || PhaseOf(r'.calls) == Refused
            || PhaseOf(r'.calls) == Finished || PhaseOf(r'.calls) == Closed
    ensures rc == OK <==> PhaseOf(r'.calls) == Finished
    ensures rc == OK ==> stop == OK
    ensures HasFinish(r'.calls) == (stop == OK)
    ensures stop == OK ==> Written(r'.calls) == got
    ensures rc == (if stop != OK then stop else if j.sink.finish.Broke? then WRITE_FAILED else OK)
    ensures PhaseOf(r'.calls) == Refused ==> rc == WRITE_FAILED
    ensures rc == WRITE_FAILED <==> SinkBroke(r'.calls)
  {
    hide Bytes, Written, PhaseOf, HasFinish, Front, Scripted, Delivered, InOrder, SinkBroke;
    rc, r' := stop, r;
    NothingYet([], j.len, j.isImage, j.sink);
    if rc == OK {
      LiveWritten(got, r.calls, r.buf);
      r' := EndSink(j, r', got, Call.Finish(j.sink.finish));
      if j.sink.finish.Broke? { rc := WRITE_FAILED; }
    }
    if rc != OK && r'.begun {
      r' := EndSink(j, r', got, Call.Cancel(j.sink.cancel));
    }
    var ev := r'.ev + [WdtEnd(j.env.wdtToken)];
    if r'.zoneFw == Some(true) { ev := ev + [ZoneFwRelease]; }
    ev := ev + [Release];
    CloseOut(r'.ev, j.env.wdtToken, r'.zoneFw);
    r' := r'.(ev := ev);
  }

  lemma CloseOut(ev: seq<Ev>, token: bool, zoneFw: Option<bool>)
    ensures ev + Closing(token, zoneFw)
         == (if zoneFw == Some(true) then ev + [WdtEnd(token)] + [ZoneFwRelease] else ev + [WdtEnd(token)]) + [Release]
  {
  }

  /** What the source did: n answers taken, and why no more of them. */
  ghost predicate SourceSays(src: seq<Resp>, n: nat, len: nat, rc: Rc) {
    && n <= |src| && |Bytes(src[..n])| <= len && (forall k :: 0 <= k < n ==> Smooth(src, k, len))
    && (rc == STALLED ==> n == |src| || src[n].Stalled?)
    && (rc == RECV_FAILED ==> n < |src| && !src[n].Stalled? && !Smooth(src, n, len))
    && (rc == STALLED || rc == RECV_FAILED ==> !Fed(src, len))
  }

  /** Between two answers: how much is asked for, and that stopping here is accounted for. */
  lemma LiveWants(j: Job, r: Run, got: seq<bv8>, rc: Rc)
    requires Live(j, r, got) && |got| < j.len && rc in {STALLED, RECV_FAILED}
    ensures |r.buf| < BUF && (r.begun ==> r.identified.Some?) && (!r.begun ==> r.identified.None? && !Ready(|got|, j.len))
    ensures Want(|got|, j.len) == if j.len - |got| > BUF - |r.buf| then BUF - |r.buf| else j.len - |got|
    ensures Sound(j, r, got) && Explained(j, r, rc)
  {
  }

  /** The bytes of one answer, in the buffer, are ready to be dealt with. */
  lemma LiveMore(j: Job, r: Run, got: seq<bv8>, more: seq<bv8>)
    requires Live(j, r, got) && |got| < j.len && 0 < |more| <= Want(|got|, j.len)
    ensures var r', all := r.(buf := r.buf + more), got + more;
            && |all| <= j.len && Sound(j, r', all) && Delivered(all, r'.calls, r'.buf) && |r'.buf| <= BUF && r'.buf != []
            && !HasFinish(r'.calls) && !SinkBroke(r'.calls) && Filled(r', all)
            && (r.begun && j.kind == ZoneImage ==> r.zoneFw == Some(true))
            && if r.begun then PhaseOf(r.calls) == Open && r.identified == Some(true) && r.zoneFw != Some(false)
               else r.calls == [] && r.identified == None && r.zoneFw == None
  {
    hide Written, HasFinish, Front, Scripted, Delivered, InOrder, SinkBroke, PhaseOf;
    DeliveredMore(got, r.calls, r.buf, more);
  }

  lemma LiveStarts(j: Job)
    requires j.len > 0
    ensures Live(j, Run([Claim(true), WdtBegin(j.env.wdtToken)], [], None, None, [], false, 0), [])
  {
    NothingYet([], j.len, j.isImage, j.sink);
    FrontOpens(j.env);
  }

  /** The receive loop of an admitted install, from the watchdog subscription on. */
  method Receive(j: Job, src: seq<Resp>) returns (rc: Rc, r: Run, n: nat)
    requires j.len > 0
    ensures SourceSays(src, n, j.len, rc) && Judged(src, n, j.len, j.isImage, r.identified)
    ensures rc == OK ==> Live(j, r, Bytes(src[..n])) && |Bytes(src[..n])| == j.len
    ensures rc != OK ==> Sound(j, r, Bytes(src[..n])) && Explained(j, r, rc)
    ensures rc in {OK, STALLED, RECV_FAILED, IMAGE_MISMATCH, ZONE_FW_BUSY, WRITE_FAILED}
  {
    hide Bytes, Written, PhaseOf, HasFinish, Front, Judged, Scripted, Delivered, InOrder, SinkBroke, Fed;
    hide Live, Sound, Filled, Explained, Want;
    NothingYet(src, j.len, j.isImage, j.sink);
    LiveStarts(j);
    rc, n := OK, 0;
    r := Run([Claim(true), WdtBegin(j.env.wdtToken)], [], None, None, [], false, 0);
    var got := 0;
    while got < j.len
      invariant 0 <= n <= |src| && got == |Bytes(src[..n])| <= j.len && rc == OK
      invariant Live(j, r, Bytes(src[..n])) && Judged(src, n, j.len, j.isImage, r.identified)
      invariant forall k :: 0 <= k < n ==> Smooth(src, k, j.len)
      decreases |src| - n
    {
      LiveWants(j, r, Bytes(src[..n]), STALLED);
      LiveWants(j, r, Bytes(src[..n]), RECV_FAILED);
      var want := if j.len - got > BUF - |r.buf| then BUF - |r.buf| else j.len - got;
      var resp := if n < |src| then src[n] else Stalled;
      if resp.Stalled? {
        NotFed(src, n, j.len);
        return STALLED, r, n;
      }
      if resp.Failed? || (resp.Data? && |resp.bytes| > want) {
        NotFed(src, n, j.len);
        return RECV_FAILED, r, n;
      }
      NextResp(src, n);
      n := n + 1;
      if resp.Again? || resp.bytes == [] {
        assert Bytes(src[..n]) == Bytes(src[..n - 1]);
        JudgedNext(src, n - 1, j.len, j.isImage, r.identified, r.identified);
        continue;
      }
      LiveMore(j, r, Bytes(src[..n - 1]), resp.bytes);
      ghost var was := r.identified;
      r := r.(buf := r.buf + resp.bytes);
      got := got + |resp.bytes|;
      rc, r := Advance(j, r, Bytes(src[..n]), got == j.len);
      JudgedNext(src, n - 1, j.len, j.isImage, was, r.identified);
      if rc != OK { return; }
    }
  }

  /** The streaming half: receive, then wind up. */
  method Stream(j: Job, src: seq<Resp>) returns (rc: Rc, r: Run, n: nat)
    requires j.len > 0
    ensures SourceSays(src, n, j.len, rc) && InOrder(Bytes(src[..n]), r.calls)
    ensures AdmittedRun(j.env, j.kind, r.ev, r.calls, r.identified, r.zoneFw)
    ensures Judged(src, n, j.len, j.isImage, r.identified) && Scripted(r.calls, j.sink, j.len)
    ensures PhaseOf(r.calls) == Idle || PhaseOf(r.calls) == Refused
            || PhaseOf(r.calls) == Finished || PhaseOf(r.calls) == Closed
    ensures rc == OK <==> PhaseOf(r.calls) == Finished
    ensures rc == OK ==> HasFinish(r.calls)
    ensures HasFinish(r.calls) ==> Written(r.calls) == Bytes(src[..n]) && |Bytes(src[..n])| == j.len
    ensures PhaseOf(r.calls) == Refused ==> rc == WRITE_FAILED
    ensures rc == IMAGE_MISMATCH <==> r.identified == Some(false)
    ensures rc == ZONE_FW_BUSY <==> r.zoneFw == Some(false)
    ensures rc == WRITE_FAILED <==> SinkBroke(r.calls)
    ensures rc in {OK, STALLED, RECV_FAILED, IMAGE_MISMATCH, ZONE_FW_BUSY, WRITE_FAILED}
  {
    hide Bytes, Written, PhaseOf, HasFinish, Front, Judged, Scripted, Delivered, InOrder, AdmittedRun, SinkBroke, Fed;
    rc, r, n := Receive(j, src);
    rc, r := WindUp(j, r, Bytes(src[..n]), rc);
  }

  lemma BufferIsAll(got: seq<bv8>, buf: seq<bv8>)
    requires Delivered(got, [], buf)
    ensures got == buf
  {
  }

  method Install(env: Env, sink: SinkScript, kind: Kind, len: nat, src: seq<Resp>, isImage: seq<bv8> -> bool)
    returns (rc: Rc, st: Stats, ev: seq<Ev>, calls: seq<Call>, n: nat,
             identified: Option<bool>, zoneFw: Option<bool>)
    // the guards: nothing but the claim is touched, and it is given back
    ensures len == 0 ==> rc == INVALID && ev == []
    ensures len > 0 && !env.claim ==> rc == UPLOAD_ACTIVE && ev == [Claim(false)]
    ensures len > 0 && env.claim && Guard(env, sink, len) != OK ==>
              rc == Guard(env, sink, len) && ev == [Claim(true), Release]
    ensures st.started == (len > 0 && env.claim && Guard(env, sink, len) == OK)
    ensures !st.started ==> calls == [] && n == 0
    // an admitted run
    ensures st.started ==> AdmittedRun(env, kind, ev, calls, identified, zoneFw)
    // the bytes: in order, a prefix of the source, and all of them on success
    ensures n <= |src| && InOrder(Bytes(src[..n]), calls)
    ensures |Bytes(src[..n])| <= len && st.consumed == |Bytes(src[..n])|
    ensures rc == OK ==> HasFinish(calls)
    ensures HasFinish(calls) ==> Written(calls) == Bytes(src[..n]) && |Written(calls)| == len
    // the calls: begin once, cancel exactly when begun and not OK
    ensures PhaseOf(calls) == Idle || PhaseOf(calls) == Refused || PhaseOf(calls) == Finished || PhaseOf(calls) == Closed
    ensures st.started ==> (rc == OK <==> PhaseOf(calls) == Finished)
    ensures PhaseOf(calls) == Refused ==> rc == WRITE_FAILED
    // identity is judged once, on at least the identity bytes or the whole file
    ensures st.started ==> Judged(src, n, len, isImage, identified)
    ensures rc == IMAGE_MISMATCH <==> identified == Some(false)
    ensures rc == ZONE_FW_BUSY <==> zoneFw == Some(false)
    ensures st.srcFailed <==> rc == STALLED || rc == RECV_FAILED
    // every failure report is the environment's, never the core's own invention
    ensures Scripted(calls, sink, len)
    ensures rc == WRITE_FAILED <==> SinkBroke(calls)
    ensures SourceSays(src, n, len, rc)
    // and with nothing wrong, it is done
    ensures st.started ==>
      (rc == OK <==>
        && Fed(src, len) && identified == Some(true)
        && (kind == ZoneImage ==> env.zoneFwFree) && !SinkBroke(calls))
    ensures st.started ==> rc in {OK, STALLED, RECV_FAILED, IMAGE_MISMATCH, ZONE_FW_BUSY, WRITE_FAILED}
  {
    calls, n, ev, st := [], 0, [], Stats(0, false, false);
    identified, zoneFw := None, None;
    if len == 0 { rc := INVALID; return; }
    ev := [Claim(env.claim)];
    if !env.claim { rc := UPLOAD_ACTIVE; return; }

    rc := OK;
    if !env.fleetIdle { rc := FLEET_ACTIVE; }
    else if sink.ready == -2 { rc := TRIAL_PENDING; }
    else if sink.ready != 0 { rc := NO_SLOT; }
    else if env.heapFree < LOW_HEAP_B { rc := LOW_HEAP; }
    else if sink.max == 0 { rc := INTERNAL; }
    else if len > sink.max { rc := TOO_LARGE; }
    if rc != OK {
      ev := ev + [Release];
      return;
    }

    var r;
    rc, r, n := Stream(Job(env, sink, kind, len, isImage), src);
    calls, ev, identified, zoneFw := r.calls, r.ev, r.identified, r.zoneFw;
    if rc == OK { FedNow(src, n, len); }
    st := Stats(|Bytes(src[..n])|, true, rc == STALLED || rc == RECV_FAILED);
  }

  // ---------------- the core and the zone sink together ----------------

  lemma {:induction false} ScriptFits(j: Job, calls: seq<Call>, size: nat)
    requires Scripted(calls, j.sink, j.len) && HDR_LEN + |Written(calls)| <= size
    requires j.sink.begin.Broke? ==> j.sink.begin.at * SECTOR < size
    ensures Fits(size, calls)
  {
  }

  /**
   An install into zone_fw, from any source, under any failures of the flash, with the
   power cut after any of its operations: the partition then holds what it held before,
   no image, or all of what was streamed in. OK means the last of these, byte for byte.
   */
  method InstallZone(env: Env, sink: SinkScript, len: nat, src: seq<Resp>, isImage: seq<bv8> -> bool, base: seq<bv8>)
    returns (rc: Rc, calls: seq<Call>, n: nat)
    requires SECTOR <= |base| <= 0xFF00_0000
    requires sink.max == |base| - HDR_LEN
    requires sink.begin.Broke? ==> sink.begin.at * SECTOR < |base|
    ensures n <= |src| && |Written(calls)| + HDR_LEN <= |base|
    ensures var ops := Ops(|base|, calls);
            forall k :: 0 <= k <= |ops| ==>
              var cut := Image(Replay(base, ops[..k]));
              (k == 0 && cut == Image(base)) || cut == None || (cut == Some(Written(calls)) && |cut.value| == len)
    ensures rc == OK ==> Image(Replay(base, Ops(|base|, calls))) == Some(Bytes(src[..n])) && |Bytes(src[..n])| == len
  {
    hide Bytes, Image, Ops, Replay, Judged, InOrder, AdmittedRun;
    var st, ev, identified, zoneFw;
    rc, st, ev, calls, n, identified, zoneFw := Install(env, sink, ZoneImage, len, src, isImage);
    if !st.started {
      NothingCut(base);
      return;
    }
    assert |Written(calls)| <= len by { assert InOrder(Bytes(src[..n]), calls); WrittenBound(Bytes(src[..n]), calls); }
    ScriptFits(Job(env, sink, ZoneImage, len, isImage), calls, |base|);
    CutsOfInstall(base, calls, len);
    if rc == OK { FinishedImage(base, calls); }
  }

  lemma NothingCut(base: seq<bv8>)
    requires SECTOR <= |base| < 0x1_0000_0000
    ensures Written([]) == [] && Ops(|base|, []) == [] && Replay(base, []) == base
  {
  }

  lemma WrittenBound(got: seq<bv8>, calls: seq<Call>)
    requires InOrder(got, calls)
    ensures |Written(calls)| <= |got|
  {
  }

  lemma CutsOfInstall(base: seq<bv8>, calls: seq<Call>, len: nat)
    requires SECTOR <= |base| <= 0xFF00_0000 && Fits(|base|, calls) && HDR_LEN + |Written(calls)| <= |base|
    requires PhaseOf(calls) != Wrong
    ensures var ops := Ops(|base|, calls);
            forall k :: 0 <= k <= |ops| ==>
              var cut := Image(Replay(base, ops[..k]));
              (k == 0 && cut == Image(base)) || cut == None || (HasFinish(calls) && cut == Some(Written(calls)))
  {
    hide Image, Ops, Replay;
    forall k | 0 <= k <= |Ops(|base|, calls)|
      ensures var cut := Image(Replay(base, Ops(|base|, calls)[..k]));
              (k == 0 && cut == Image(base)) || cut == None || (HasFinish(calls) && cut == Some(Written(calls)))
    {
      PowerCut(base, calls, k);
    }
  }
}
