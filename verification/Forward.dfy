/**
 components/node_mgr/node_mgr_fwd.c: one forwarded console line in flight. The caller
 submits, arms, waits, and hands over with the completion hook on the node_mgr task.
 */
module Forward {
  import opened Wrappers
  import opened RingTracker
  import opened Text

  const DETAIL_MAX: nat := 125

  datatype Fwd = Fwd(
    active: bool, done: bool, waiter: bool, seqNo: nat, status: nat, detail: string,
    failToken: Option<string>, zone: nat, verbSet: bool)

  const OFF := Fwd(false, false, false, 0, 0, "", None, 0, false)

  // ---------------- the two text tests ----------------

  function SkipSpaces(line: string): string {
    if line != "" && line[0] == ' ' then SkipSpaces(line[1..]) else line
  }

  predicate VerbIsSet(line: string) {
    var t := SkipSpaces(line);
    && |t| >= 3
    && (t[0] == 'S' || t[0] == 's') && (t[1] == 'E' || t[1] == 'e') && (t[2] == 'T' || t[2] == 't')
    && (|t| == 3 || t[3] == ' ')
  }

  predicate ReplyIsOk(detail: string) {
    |detail| >= 2 && detail[0] == 'O' && detail[1] == 'K'
    && (|detail| == 2 || detail[2] == ' ' || detail[2] == '\n')
  }

  /** The first space-separated word of a line. */
  function FirstWord(line: string): string {
    if line == "" then "" else if line[0] == ' ' then FirstWord(line[1..]) else Word(line)
  }

  function Word(line: string): (r: string)
    ensures |r| <= |line|
    ensures r == "" <==> line == "" || line[0] == ' '
  {
    if line == "" || line[0] == ' ' then "" else [line[0]] + Word(line[1..])
  }

  predicate SameWord(a: string, b: string) {
    |a| == |b| && forall i :: 0 <= i < |a| ==> Upper(a[i]) == b[i]
  }

  /** verb_is_set holds exactly when the first word is SET in any letter case. */
  lemma {:induction false} VerbIsFirstWord(line: string)
    ensures VerbIsSet(line) <==> SameWord(FirstWord(line), "SET")
  {
    if line != "" && line[0] == ' ' {
      VerbIsFirstWord(line[1..]);
    } else {
      WordShape(line);
    }
  }

  /** The first word of t, read letter by letter against a pattern. */
  predicate WordIs(t: string, p: string) {
    if p == "" then t == "" || t[0] == ' '
    else t != "" && t[0] != ' ' && Upper(t[0]) == p[0] && WordIs(t[1..], p[1..])
  }

  lemma {:induction false} WordMatches(t: string, p: string)
    ensures SameWord(Word(t), p) <==> WordIs(t, p)
  {
    if t != "" && t[0] != ' ' && p != "" {
      WordMatches(t[1..], p[1..]);
      var w := Word(t[1..]);
      assert forall i :: 0 <= i < |w| ==> w[i] == Word(t)[i + 1];
      assert forall i :: 0 <= i < |p| - 1 ==> p[1..][i] == p[i + 1];
      assert SameWord(Word(t), p) ==> SameWord(w, p[1..]);
      if Upper(t[0]) == p[0] && SameWord(w, p[1..]) {
        forall i | 0 <= i < |p| ensures Upper(Word(t)[i]) == p[i] {
          if i > 0 { assert Upper(w[i - 1]) == p[1..][i - 1]; }
        }
      }
    }
  }

  lemma WordShape(t: string)
    requires t == "" || t[0] != ' '
    ensures SameWord(FirstWord(t), "SET") <==>
      |t| >= 3 && Upper(t[0]) == 'S' && Upper(t[1]) == 'E' && Upper(t[2]) == 'T' && (|t| == 3 || t[3] == ' ')
  {
    hide SameWord, Word;
    WordMatches(t, "SET");
    assert "SET"[1..] == "ET" && "ET"[1..] == "T" && "T"[1..] == "";
    if |t| >= 3 {
      assert t[1..][1..] == t[2..] && t[2..][1..] == t[3..];
      assert WordIs(t, "SET") <==> t[0] != ' ' && Upper(t[0]) == 'S' && WordIs(t[1..], "ET");
      assert WordIs(t[1..], "ET") <==> t[1] != ' ' && Upper(t[1]) == 'E' && WordIs(t[2..], "T");
      assert WordIs(t[2..], "T") <==> t[2] != ' ' && Upper(t[2]) == 'T' && WordIs(t[3..], "");
    } else if |t| == 2 {
      assert t[1..][1..] == "" && !WordIs("", "T");
    }
    if t == "" { EmptyIsNotSet(); }
  }

  lemma EmptyIsNotSet()
    ensures !SameWord("", "SET")
  {
  }

  // ---------------- what the two tests stand for ----------------

  predicate IsSetLine(line: string) { SameWord(FirstWord(line), "SET") }

  /** The zone's reply line is OK alone, or OK and more after a blank or a line end. */
  predicate SaysOk(detail: string) { detail == "OK" || "OK " <= detail || "OK\n" <= detail }

  lemma OkIff(detail: string)
    ensures ReplyIsOk(detail) <==> SaysOk(detail)
  {
    if |detail| >= 3 { assert detail[..3] == [detail[0], detail[1], detail[2]]; }
    if |detail| == 2 { assert detail == [detail[0], detail[1]]; }
  }

  // ---------------- the hook and the caller's critical sections ----------------

  function Trunc(s: string): string { if |s| > DETAIL_MAX then s[..DETAIL_MAX] else s }

  /** nmgr_fwd_on_ev takes the event only for the armed sequence number. */
  predicate Takes(f: Fwd, q: nat) { f.active && q == f.seqNo }

  function OnEv(f: Fwd, q: nat, ev: TrkEv): Fwd {
    if !Takes(f, q) then f
    else
      var g := f.(active := false, done := true);
      if ev.Done? then g.(status := ev.status, detail := Trunc(ev.detail), failToken := None)
      else g.(failToken := Some(ev.token))
  }

  /** The zone whose cache has to go: the armed line was a SET and its zone answered OK. */
  function Adopt(f: Fwd, q: nat, ev: TrkEv): Option<nat> {
    if Takes(f, q) && ev.Done? && f.verbSet && ev.status == 0 && ReplyIsOk(ev.detail) then Some(f.zone) else None
  }

  function Arm(f: Fwd, q: nat, zone: nat, line: string): Fwd {
    f.(seqNo := q, active := true, done := false, failToken := None,
       zone := zone, verbSet := VerbIsSet(line), waiter := true)
  }

  /** The event is the armed call's own, for zone z, and says that the zone has done the line. */
  predicate Confirmed(f: Fwd, q: nat, ev: TrkEv, z: nat) {
    f.active && f.seqNo == q && f.zone == z && f.verbSet && ev.Done? && ev.status == 0 && SaysOk(ev.detail)
  }

  lemma AdoptIff(f: Fwd, q: nat, ev: TrkEv, z: nat)
    ensures Adopt(f, q, ev) == Some(z) <==> Confirmed(f, q, ev, z)
  {
    hide ReplyIsOk, SaysOk;
    if ev.Done? { OkIff(ev.detail); }
  }

  function GiveUp(f: Fwd): Fwd { f.(waiter := false, active := false) }

  datatype Result = Reply(ok: bool, text: string) | Err(token: string)

  function ResultOf(f: Fwd, used: bool): Result {
    match f.failToken
    case Some(t) => Err(if used && t == "ZONE_UNKNOWN" then "ZONE_OFFLINE" else t)
    case None => Reply(f.status == 0, f.detail)
  }

  class Forwarder {
    var active: bool
    var done: bool
    var waiter: bool
    var seqNo: nat
    var status: nat
    var detail: string
    var failToken: Option<string>
    var zone: nat
    var verbSet: bool

    ghost function Abs(): Fwd
      reads this
    {
      Fwd(active, done, waiter, seqNo, status, detail, failToken, zone, verbSet)
    }

    constructor ()
      ensures Abs() == OFF
    {
      active, done, waiter, seqNo, status, detail := false, false, false, 0, 0, "";
      failToken, zone, verbSet := None, 0, false;
    }

    method FwdOnEv(q: nat, ev: TrkEv) returns (notify: bool, adopt: Option<nat>)
      modifies this
      ensures Abs() == OnEv(old(Abs()), q, ev) && adopt == Adopt(old(Abs()), q, ev)
      ensures notify == (Takes(old(Abs()), q) && waiter)
    {
      adopt := None;
      if !active || q != seqNo { return false, None; }
      active, done := false, true;
      if ev.Done? {
        status, detail, failToken := ev.status, Trunc(ev.detail), None;
        if verbSet && ev.status == 0 && ReplyIsOk(ev.detail) { adopt := Some(zone); }
      } else {
        failToken := Some(ev.token);
      }
      notify := waiter;
    }

    method ArmFor(q: nat, z: nat, line: string)
      modifies this
      ensures Abs() == Arm(old(Abs()), q, z, line)
    {
      seqNo, active, done, failToken := q, true, false, None;
      zone, verbSet := z, VerbIsSet(line);
      waiter := true;
    }

    /** The critical section after the first wait ran out. */
    method TimedOut() returns (orphaned: bool)
      modifies this
      ensures orphaned == !old(done)
      ensures Abs() == if orphaned then GiveUp(old(Abs())) else old(Abs())
    {
      orphaned := !done;
      if orphaned { waiter, active := false, false; }
    }
  }

  // ---------------- every interleaving of one caller and the node_mgr task ----------------

  datatype Pc = Idle | Sent(q: nat) | Waiting(q: nat) | SecondWait(q: nat) | Reading(q: nat)

  /**
   `owes`: the hook has committed to a notification it has not given yet. `got`: the event
   the hook took for this call. The mutex s_busy leaves one caller at a time. As the code
   does, the model takes a committed notification to arrive within the second wait.
   */
  datatype State = State(f: Fwd, pc: Pc, pending: bool, owes: bool, got: Option<TrkEv>, last: Option<Result>)

  datatype Action =
    | Submit(q: nat) | ArmIt(zone: nat, line: string) | Event(q: nat, ev: TrkEv) | Give
    | Wake | TimeUp | Wake2 | Finish(used: bool)

  predicate Enabled(s: State, a: Action) {
    match a
    case Submit(_) => s.pc.Idle?
    case ArmIt(_, _) => s.pc.Sent?
    case Event(_, _) => !s.owes
    case Give => s.owes
    case Wake => s.pc.Waiting? && s.pending
    case TimeUp => s.pc.Waiting? && !s.pending
    case Wake2 => s.pc.SecondWait? && s.pending
    case Finish(_) => s.pc.Reading?
  }

  function Step(s: State, a: Action): State
    requires Enabled(s, a)
  {
    match a
    case Submit(q) => s.(pc := Sent(q), got := None, last := None)
    case ArmIt(zone, line) => s.(pc := Waiting(s.pc.q), f := Arm(s.f, s.pc.q, zone, line))
    case Event(q, ev) =>
      s.(f := OnEv(s.f, q, ev), owes := Takes(s.f, q) && s.f.waiter, got := if Takes(s.f, q) then Some(ev) else s.got)
    case Give => s.(owes := false, pending := true)
    case Wake => s.(pc := Reading(s.pc.q), pending := false)
    case TimeUp =>
      if s.f.done then s.(pc := SecondWait(s.pc.q))
      else s.(pc := Idle, f := GiveUp(s.f), last := Some(Err("ZONE_TIMEOUT")))
    case Wake2 => s.(pc := Reading(s.pc.q), pending := false)
    case Finish(used) => s.(pc := Idle, last := Some(ResultOf(s.f, used)))
  }

  predicate Holds(f: Fwd, ev: TrkEv) {
    f.done && !f.active
    && if ev.Done? then f.failToken.None? && f.status == ev.status && f.detail == Trunc(ev.detail)
       else f.failToken == Some(ev.token)
  }

  predicate Inv(s: State) {
    match s.pc
    case Idle => !s.pending && !s.owes && !s.f.active
    case Sent(_) => !s.pending && !s.owes && !s.f.active && s.got.None?
    case Waiting(q) =>
      s.f.seqNo == q && s.f.waiter
      && if s.got.None? then s.f.active && !s.f.done && !s.pending && !s.owes
         else Holds(s.f, s.got.value) && s.pending != s.owes
    case SecondWait(_) => s.got.Some? && Holds(s.f, s.got.value) && s.pending != s.owes
    case Reading(_) => s.got.Some? && Holds(s.f, s.got.value) && !s.pending && !s.owes
  }

  /** The result of a finished call is the zone's answer if the hook took one, else the timeout. */
  ghost predicate LastOk(s: State) {
    s.pc.Idle? && s.last.Some? ==>
      match s.got
      case None => s.last == Some(Err("ZONE_TIMEOUT"))
      case Some(ev) => exists used :: Answers(s.last.value, ev, used)
  }

  lemma InvStep(s: State, a: Action)
    requires Inv(s) && LastOk(s) && Enabled(s, a)
    ensures Inv(Step(s, a)) && LastOk(Step(s, a))
  {
    if a.Finish? { assert Answers(Step(s, a).last.value, s.got.value, a.used); }
  }

  predicate Init(s: State) { s.pc.Idle? && !s.pending && !s.owes && !s.f.active && s.last.None? }

  ghost predicate IsRun(ss: seq<State>, acts: seq<Action>) {
    && |ss| == |acts| + 1 && Init(ss[0])
    && forall k :: 0 <= k < |acts| ==> Enabled(ss[k], acts[k]) && ss[k + 1] == Step(ss[k], acts[k])
  }

  lemma {:induction false} RunInv(ss: seq<State>, acts: seq<Action>, k: nat)
    requires IsRun(ss, acts) && k < |ss|
    ensures Inv(ss[k]) && LastOk(ss[k])
  {
    hide Step, Inv, LastOk, Enabled;
    if k == 0 {
      InitInv(ss[0]);
    } else {
      RunInv(ss, acts, k - 1);
      InvStep(ss[k - 1], acts[k - 1]);
      assert ss[k - 1 + 1] == Step(ss[k - 1], acts[k - 1]);
    }
  }

  lemma InitInv(s: State)
    requires Init(s)
    ensures Inv(s) && LastOk(s)
  {
  }

  /** Event k is the one the hook took for the call submitted at step b. */
  ghost predicate TakenAt(ss: seq<State>, acts: seq<Action>, b: nat, k: nat)
    requires IsRun(ss, acts)
  {
    b < k < |acts| && acts[b].Submit? && acts[k].Event? && acts[k].q == acts[b].q && Takes(ss[k].f, acts[k].q)
  }

  /** A result taken for the current call came for the sequence number this call submitted. */
  lemma {:induction false} GotIsOwn(ss: seq<State>, acts: seq<Action>, b: nat, k: nat)
    requires IsRun(ss, acts) && b < k < |ss| && acts[b].Submit?
    requires forall n :: b < n < k ==> !acts[n].Submit?
    ensures ss[k].pc.Idle? || ss[k].pc.q == acts[b].q
    ensures ss[k].got.Some? ==>
      exists n: nat :: n < k && TakenAt(ss, acts, b, n) && acts[n].ev == ss[k].got.value
  {
    hide OnEv, Arm, VerbIsSet;
    if k > b + 1 {
      GotIsOwn(ss, acts, b, k - 1);
      RunInv(ss, acts, k - 1);
      var p, a := ss[k - 1], acts[k - 1];
      assert ss[k - 1 + 1] == Step(p, a) && Enabled(p, a);
      if a.Event? && Takes(p.f, a.q) {
        assert TakenAt(ss, acts, b, k - 1);
      } else if p.got.Some? {
        var n: nat :| n < k - 1 && TakenAt(ss, acts, b, n) && acts[n].ev == p.got.value;
        assert TakenAt(ss, acts, b, n);
      }
    } else {
      assert ss[b + 1] == Step(ss[b], acts[b]);
    }
  }

  /** What the caller is told of an event, `used` being whether the zone is in the table as it reads it. */
  predicate Answers(r: Result, ev: TrkEv, used: bool) {
    match ev
    case Done(status, detail) => r == Reply(status == 0, if |detail| <= 125 then detail else detail[..125])
    case Fail(t) => r == Err(if t == "ZONE_UNKNOWN" && used then "ZONE_OFFLINE" else t)
  }

  /** Step f reads the result of the event taken at n, before step k. */
  ghost predicate ReadAt(acts: seq<Action>, n: nat, f: nat, k: nat, r: Result)
    requires n < |acts| && k <= |acts| && acts[n].Event?
  {
    n < f < k && acts[f].Finish? && Answers(r, acts[n].ev, acts[f].used)
  }

  /** A call that is over after its event was taken has read it. */
  lemma {:induction false} ReadWhenOver(ss: seq<State>, acts: seq<Action>, b: nat, n: nat, k: nat)
    requires IsRun(ss, acts) && n < k < |ss| && TakenAt(ss, acts, b, n)
    requires forall m :: b < m < k ==> !acts[m].Submit?
    ensures ss[k].pc.Idle? ==> ss[k].last.Some? && exists f: nat :: ReadAt(acts, n, f, k, ss[k].last.value)
    decreases k
  {
    hide Arm, VerbIsSet;
    RunInv(ss, acts, k - 1);
    assert ss[k - 1 + 1] == Step(ss[k - 1], acts[k - 1]) && Enabled(ss[k - 1], acts[k - 1]);
    if k > n + 1 {
      TakenIsGot(ss, acts, b, n, k - 1);
      ReadWhenOver(ss, acts, b, n, k - 1);
      if ss[k - 1].pc.Idle? {
        var f: nat :| ReadAt(acts, n, f, k - 1, ss[k - 1].last.value);
        assert ss[k].pc.Idle? ==> ReadAt(acts, n, f, k, ss[k].last.value);
      } else if ss[k].pc.Idle? {
        assert ReadAt(acts, n, k - 1, k, ss[k].last.value);
      }
    }
  }

  /**
   What a finished call returned, whatever interleaved with it: the answer to the very line
   it submitted if the hook took an event for it, and ZONE_TIMEOUT only if it took none.
   */
  lemma ReplyIsOwn(ss: seq<State>, acts: seq<Action>, b: nat, k: nat)
    requires IsRun(ss, acts) && b < k < |ss| && acts[b].Submit? && ss[k].pc.Idle?
    requires forall n :: b < n < k ==> !acts[n].Submit?
    requires ss[k].last.Some?
    ensures forall n: nat :: n < k && TakenAt(ss, acts, b, n) ==>
      exists f: nat :: ReadAt(acts, n, f, k, ss[k].last.value)
    ensures (forall n: nat :: n < k ==> !TakenAt(ss, acts, b, n)) ==> ss[k].last.value == Err("ZONE_TIMEOUT")
  {
    hide OnEv, Arm, Step, Trunc, Enabled, Answers, Takes;
    RunInv(ss, acts, k);
    GotIsOwn(ss, acts, b, k);
    forall n: nat | n < k && TakenAt(ss, acts, b, n)
      ensures exists f: nat :: ReadAt(acts, n, f, k, ss[k].last.value)
    {
      ReadWhenOver(ss, acts, b, n, k);
    }
  }

  /** The event the hook took stays the call's answer until the next submit: there is only one. */
  lemma {:induction false} TakenIsGot(ss: seq<State>, acts: seq<Action>, b: nat, n: nat, k: nat)
    requires IsRun(ss, acts) && n < k < |ss| && TakenAt(ss, acts, b, n)
    requires forall m :: b < m < k ==> !acts[m].Submit?
    ensures ss[k].got == Some(acts[n].ev) && !ss[k].f.active && !ss[k].pc.Sent?
    decreases k
  {
    hide Arm, VerbIsSet, Trunc;
    RunInv(ss, acts, k - 1);
    assert ss[k - 1 + 1] == Step(ss[k - 1], acts[k - 1]) && Enabled(ss[k - 1], acts[k - 1]);
    if k > n + 1 {
      TakenIsGot(ss, acts, b, n, k - 1);
    }
  }

  // ---------------- when an answer gets through ----------------

  /** The call submitted at b armed at m and has not run out of time by step n. */
  predicate ArmedAt(acts: seq<Action>, b: nat, m: nat, n: nat)
    requires n <= |acts|
  {
    b < m < n && acts[m].ArmIt? && forall l :: m < l < n ==> !acts[l].TimeUp?
  }

  ghost predicate Armed(acts: seq<Action>, b: nat, n: nat)
    requires n <= |acts|
  {
    exists m: nat :: ArmedAt(acts, b, m, n)
  }

  lemma ArmedNext(acts: seq<Action>, b: nat, k: nat)
    requires b < k < |acts|
    ensures Armed(acts, b, k + 1) <==> acts[k].ArmIt? || (Armed(acts, b, k) && !acts[k].TimeUp?)
  {
    if acts[k].ArmIt? { assert ArmedAt(acts, b, k, k + 1); }
    if Armed(acts, b, k) && !acts[k].TimeUp? {
      var m: nat :| ArmedAt(acts, b, m, k);
      assert ArmedAt(acts, b, m, k + 1);
    }
    if Armed(acts, b, k + 1) && !acts[k].ArmIt? {
      var m: nat :| ArmedAt(acts, b, m, k + 1);
      assert !acts[k].TimeUp? && ArmedAt(acts, b, m, k);
    }
  }

  /** Step n brings an event with the call's own number while it is armed. */
  ghost predicate InTime(acts: seq<Action>, b: nat, n: nat) {
    b < n < |acts| && acts[b].Submit? && acts[n].Event? && acts[n].q == acts[b].q && Armed(acts, b, n)
  }

  /** Where the call stands, told from the actions alone. */
  ghost predicate Told(ss: seq<State>, acts: seq<Action>, b: nat, k: nat)
    requires k < |ss| && k <= |acts|
  {
    && (ss[k].pc.Idle? ==> ss[k].last.Some?)
    && (ss[k].pc.Waiting? ==> Armed(acts, b, k))
    && (ss[k].pc.Sent? || (ss[k].pc.Idle? && ss[k].got.None?) ==> !Armed(acts, b, k))
    && (ss[k].got.None? ==> forall n: nat :: n < k ==> !InTime(acts, b, n))
    && (ss[k].got.Some? ==> exists n: nat :: n < k && InTime(acts, b, n) && acts[n].ev == ss[k].got.value)
  }

  lemma {:induction false} ToldByActions(ss: seq<State>, acts: seq<Action>, b: nat, k: nat)
    requires IsRun(ss, acts) && b < k < |ss| && acts[b].Submit?
    requires forall n :: b < n < k ==> !acts[n].Submit?
    ensures Told(ss, acts, b, k)
    decreases k
  {
    hide OnEv, Arm, VerbIsSet, Trunc, Told;
    if k == b + 1 {
      assert ss[b + 1] == Step(ss[b], acts[b]) && Enabled(ss[b], acts[b]);
      NoneYet(ss, acts, b);
    } else {
      ToldByActions(ss, acts, b, k - 1);
      RunInv(ss, acts, k - 1);
      GotIsOwn(ss, acts, b, k - 1);
      assert ss[k - 1 + 1] == Step(ss[k - 1], acts[k - 1]) && Enabled(ss[k - 1], acts[k - 1]);
      ToldStep(ss, acts, b, k - 1);
    }
  }

  lemma NoneYet(ss: seq<State>, acts: seq<Action>, b: nat)
    requires b + 1 < |ss| && b < |acts| && ss[b + 1].pc.Sent? && ss[b + 1].got.None?
    ensures Told(ss, acts, b, b + 1)
  {
  }

  lemma ToldStep(ss: seq<State>, acts: seq<Action>, b: nat, k: nat)
    requires b < k < |acts| && k + 1 < |ss| && Told(ss, acts, b, k) && acts[b].Submit? && !acts[k].Submit?
    requires Inv(ss[k]) && Enabled(ss[k], acts[k]) && ss[k + 1] == Step(ss[k], acts[k])
    requires ss[k].pc.Idle? || ss[k].pc.q == acts[b].q
    ensures Told(ss, acts, b, k + 1)
  {
    hide Arm, VerbIsSet, Trunc, Armed;
    ArmedNext(acts, b, k);
    var p, r, a := ss[k], ss[k + 1], acts[k];
    if r.got.Some? {
      if r.got == p.got {
        var n: nat :| n < k && InTime(acts, b, n) && acts[n].ev == p.got.value;
        assert n < k + 1 && InTime(acts, b, n);
      } else {
        assert a.Event? && InTime(acts, b, k);
      }
    }
  }

  /** The event the hook takes is the first that comes in time, and that one it always takes. */
  lemma TakenIff(ss: seq<State>, acts: seq<Action>, b: nat, n: nat)
    requires IsRun(ss, acts) && b < n < |acts| && acts[b].Submit?
    requires forall m :: b < m < n ==> !acts[m].Submit?
    ensures TakenAt(ss, acts, b, n) <==> InTime(acts, b, n) && forall m: nat :: m < n ==> !InTime(acts, b, m)
  {
    hide OnEv, Arm, VerbIsSet, Trunc, Step, Armed;
    RunInv(ss, acts, n);
    GotIsOwn(ss, acts, b, n);
    ToldByActions(ss, acts, b, n);
  }

  /**
   Exactly when an answer gets through: a finished call returns the answer of the first event
   with its own number that is processed after it armed and before it ran out of time, even
   in the instant before; and ZONE_TIMEOUT if there was no such event.
   */
  lemma AnswerIff(ss: seq<State>, acts: seq<Action>, b: nat, k: nat)
    requires IsRun(ss, acts) && b < k < |ss| && acts[b].Submit? && ss[k].pc.Idle?
    requires forall n :: b < n < k ==> !acts[n].Submit?
    ensures ss[k].last.Some?
    ensures forall n: nat :: n < k && InTime(acts, b, n) && (forall m: nat :: m < n ==> !InTime(acts, b, m)) ==>
      exists f: nat :: ReadAt(acts, n, f, k, ss[k].last.value)
    ensures (forall n: nat :: n < k ==> !InTime(acts, b, n)) ==> ss[k].last.value == Err("ZONE_TIMEOUT")
  {
    hide OnEv, Arm, Step, Trunc, Enabled, Answers, Takes, Armed, Inv, LastOk;
    ToldByActions(ss, acts, b, k);
    ReplyIsOwn(ss, acts, b, k);
    forall n: nat | b < n < k
      ensures TakenAt(ss, acts, b, n) <==> InTime(acts, b, n) && forall m: nat :: m < n ==> !InTime(acts, b, m)
    {
      TakenIff(ss, acts, b, n);
    }
  }

  /** An event processed between submit and arm is dropped, so delivery of a reply is not promised. */
  lemma EarlyEventIsLost(s: State, q: nat, ev: TrkEv, zone: nat, line: string)
    requires Inv(s) && s.pc == Sent(q)
    ensures Step(s, Event(q, ev)) == s
    ensures var armed := Step(Step(s, Event(q, ev)), ArmIt(zone, line));
            Enabled(armed, TimeUp) && Step(armed, TimeUp).last == Some(Err("ZONE_TIMEOUT"))
  {
  }
}
