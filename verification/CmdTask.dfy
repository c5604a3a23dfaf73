/**
 components/cmd_task/cmd_task.c with components/http_srv/http_cmd.c on top: a pool of four
 command slots handed between callers and the one worker, callers that may time out and
 orphan their slot, and the two HTTP sessions whose reply buffers ride along.

 Any number of caller tasks interleave, each critical section being one step. As the code
 does, the model takes a notification the worker has committed to to arrive within the
 caller's second wait. `holder` and `owner` are history: which task is using a slot or a
 session, None once it has walked away.
 */
module CmdTask {
  import opened Wrappers
  import opened Pigeonhole

  const POOL_N: nat := 4
  const QUEUE_LEN: nat := 8
  const SESSIONS: nat := 2

  /** What the dispatcher answered, and for which line. */
  datatype Reply = Reply(line: nat, code: int)

  /** A reply buffer: an HTTP session's, or one of the caller's own. */
  datatype Buf = Session(i: nat) | Own

  datatype Slot = Slot(
    used: bool, done: bool, waiter: Option<nat>, line: nat, resp: Buf, rc: Option<Reply>, holder: Option<nat>)

  datatype Sess = Sess(busy: bool, owner: Option<nat>)

  /** cmd_task_execute's answers: BUSY without a dispatch, -2, or the dispatcher's own. */
  datatype Result = Busy | Orphaned | Answered(r: Reply)

  datatype Pc =
    | Idle | Want | Claimed(k: nat) | Waiting(k: nat) | Second(k: nat) | Reading(k: nat)
    | Freeing(k: nat, r: Reply) | Back(res: Result) | Sending

  datatype Task = Task(pc: Pc, pending: bool, line: nat, buf: Buf)

  datatype Worker = Listening | Running(k: nat) | Owes(t: nat)

  datatype State = State(slots: seq<Slot>, queue: seq<nat>, worker: Worker, tasks: seq<Task>, sess: seq<Sess>,
                         quarantined: nat)

  // ---------------- the atomic sections ----------------

  /** The first free slot of the pool, or POOL_N. */
  function FirstFree(slots: seq<Slot>, i: nat): (k: nat)
    requires i <= |slots|
    ensures i <= k <= |slots| && (k < |slots| ==> !slots[k].used)
    ensures forall j :: i <= j < k ==> slots[j].used
    decreases |slots| - i
  {
    if i == |slots| || !slots[i].used then i else FirstFree(slots, i + 1)
  }

  function FirstIdle(sess: seq<Sess>, i: nat): (k: nat)
    requires i <= |sess|
    ensures i <= k <= |sess| && (k < |sess| ==> !sess[k].busy)
    ensures forall j :: i <= j < k ==> sess[j].busy
    decreases |sess| - i
  {
    if i == |sess| || !sess[i].busy then i else FirstIdle(sess, i + 1)
  }

  /** The worker's completion: the slot's fate is decided here, one way or the other. */
  function MarkDone(s: Slot, code: int): Slot {
    s.(done := true, rc := Some(Reply(s.line, code)), used := s.used && s.waiter.Some?)
  }

  /** The caller's time-out: only an unfinished slot is orphaned. */
  function Orphan(s: Slot): Slot { s.(waiter := None, holder := None) }

  class Pool {
    var slots: seq<Slot>
    var sess: seq<Sess>
    var quarantined: nat

    constructor ()
      ensures |slots| == POOL_N && |sess| == SESSIONS && quarantined == 0
      ensures forall k :: 0 <= k < POOL_N ==> !slots[k].used && slots[k].holder.None?
      ensures forall i :: 0 <= i < SESSIONS ==> sess[i] == Sess(false, None)
    {
      slots := seq(POOL_N, _ => Slot(false, false, None, 0, Own, None, None));
      sess := seq(SESSIONS, _ => Sess(false, None));
      quarantined := 0;
    }

    /** One pass of the claim loop, under the spinlock. */
    method TryClaim(t: nat) returns (k: nat)
      modifies this`slots
      ensures k == FirstFree(old(slots), 0)
      ensures slots == if k < |old(slots)| then old(slots)[k := old(slots)[k].(used := true, done := false, holder := Some(t))]
                       else old(slots)
    {
      k := 0;
      while k < |slots|
        invariant k <= |slots| && slots == old(slots)
        invariant FirstFree(slots, 0) == FirstFree(slots, k)
      {
        if !slots[k].used {
          slots := slots[k := slots[k].(used := true, done := false, holder := Some(t))];
          return;
        }
        k := k + 1;
      }
    }

    method WorkerDone(k: nat, code: int) returns (notify: Option<nat>)
      requires k < |slots|
      modifies this`slots
      ensures slots == old(slots)[k := MarkDone(old(slots)[k], code)] && notify == old(slots)[k].waiter
    {
      var s := slots[k].(rc := Some(Reply(slots[k].line, code)));
      s := s.(done := true);
      notify := s.waiter;
      if notify.None? { s := s.(used := false); }
      slots := slots[k := s];
    }

    method TimedOut(k: nat) returns (orphaned: bool)
      requires k < |slots|
      modifies this`slots
      ensures orphaned == !old(slots)[k].done
      ensures slots == if orphaned then old(slots)[k := Orphan(old(slots)[k])] else old(slots)
    {
      if !slots[k].done {
        slots := slots[k := slots[k].(waiter := None, holder := None)];
        return true;
      }
      orphaned := false;
    }

    method ClaimSession(t: nat) returns (i: nat)
      modifies this`sess
      ensures i == FirstIdle(old(sess), 0)
      ensures sess == if i < |old(sess)| then old(sess)[i := Sess(true, Some(t))] else old(sess)
    {
      i := 0;
      while i < |sess|
        invariant i <= |sess| && sess == old(sess)
        invariant FirstIdle(sess, 0) == FirstIdle(sess, i)
      {
        if !sess[i].busy {
          sess := sess[i := Sess(true, Some(t))];
          return;
        }
        i := i + 1;
      }
    }

    /** Left busy on purpose: never released, never reused. */
    method Quarantine(i: nat)
      requires i < |sess|
      modifies this`sess, this`quarantined
      ensures sess == old(sess)[i := old(sess)[i].(owner := None)] && quarantined == old(quarantined) + 1
    {
      sess := sess[i := sess[i].(owner := None)];
      quarantined := quarantined + 1;
    }
  }

  // ---------------- every interleaving ----------------

  datatype Act =
    | PlainCall(line: nat) | HttpCall(line: nat) | Claim | NoSlot | Send | SendFull
    | Wake | TimeUp | Wake2 | ReadRc | FreeSlot | Resume | SendReply

  datatype Action = Caller(t: nat, act: Act) | Receive | Finish(code: int) | Give

  predicate CallerCan(s: State, t: nat, act: Act)
    requires t < |s.tasks|
  {
    var k := s.tasks[t];
    && (Holds(k.pc) ==> k.pc.k < |s.slots|)
    && (k.pc != Idle && k.buf.Session? ==> k.buf.i < |s.sess|)
    && match act
       case PlainCall(_) => k.pc == Idle
       case HttpCall(_) => k.pc == Idle
       case Claim => k.pc == Want && FirstFree(s.slots, 0) < |s.slots|
       case NoSlot => k.pc == Want && FirstFree(s.slots, 0) == |s.slots|
       case Send => k.pc.Claimed? && |s.queue| < QUEUE_LEN
       case SendFull => k.pc.Claimed? && |s.queue| >= QUEUE_LEN
       case Wake => k.pc.Waiting? && k.pending
       case TimeUp => k.pc.Waiting? && !k.pending
       case Wake2 => k.pc.Second? && k.pending
       case ReadRc => k.pc.Reading? && s.slots[k.pc.k].rc.Some?
       case FreeSlot => k.pc.Freeing?
       case Resume => k.pc.Back?
       case SendReply => k.pc == Sending && k.buf.Session?
  }

  predicate Enabled(s: State, a: Action) {
    match a
    case Caller(t, act) => t < |s.tasks| && CallerCan(s, t, act)
    case Receive => s.worker == Listening && s.queue != []
    case Finish(_) => s.worker.Running? && s.worker.k < |s.slots|
    case Give => s.worker.Owes? && s.worker.t < |s.tasks|
  }

  function Move(s: State, t: nat, pc: Pc): State
    requires t < |s.tasks|
  {
    s.(tasks := s.tasks[t := s.tasks[t].(pc := pc)])
  }

  function PutSlot(s: State, k: nat, sl: Slot): State
    requires k < |s.slots|
  {
    s.(slots := s.slots[k := sl])
  }

  function CallerStep(s: State, t: nat, act: Act): State
    requires t < |s.tasks| && CallerCan(s, t, act)
  {
    var k := s.tasks[t];
    match act
    case PlainCall(line) => s.(tasks := s.tasks[t := Task(Want, k.pending, line, Own)])
    case HttpCall(line) =>
      var i := FirstIdle(s.sess, 0);
      if i == |s.sess| then s
      else s.(sess := s.sess[i := Sess(true, Some(t))], tasks := s.tasks[t := Task(Want, k.pending, line, Session(i))])
    case Claim =>
      var n := FirstFree(s.slots, 0);
      Move(PutSlot(s, n, s.slots[n].(used := true, done := false, holder := Some(t))), t, Claimed(n))
    case NoSlot => Move(s, t, Back(Busy))
    case Send =>
      var sl := s.slots[k.pc.k].(line := k.line, resp := k.buf, waiter := Some(t));
      Move(PutSlot(s, k.pc.k, sl).(queue := s.queue + [k.pc.k]), t, Waiting(k.pc.k))
    case SendFull => Move(PutSlot(s, k.pc.k, s.slots[k.pc.k].(used := false, holder := None)), t, Back(Busy))
    case Wake => s.(tasks := s.tasks[t := k.(pending := false, pc := Reading(k.pc.k))])
    case TimeUp =>
      if s.slots[k.pc.k].done then Move(s, t, Second(k.pc.k))
      else Move(PutSlot(s, k.pc.k, Orphan(s.slots[k.pc.k])), t, Back(Orphaned))
    case Wake2 => s.(tasks := s.tasks[t := k.(pending := false, pc := Reading(k.pc.k))])
    case ReadRc => Move(s, t, Freeing(k.pc.k, s.slots[k.pc.k].rc.value))
    case FreeSlot =>
      Move(PutSlot(s, k.pc.k, s.slots[k.pc.k].(used := false, holder := None)), t, Back(Answered(k.pc.r)))
    case Resume =>
      if k.buf == Own then Move(s, t, Idle)
      else if k.pc.res == Orphaned then
        Move(s, t, Idle).(sess := s.sess[k.buf.i := s.sess[k.buf.i].(owner := None)], quarantined := s.quarantined + 1)
      else Move(s, t, Sending)
    case SendReply => Move(s, t, Idle).(sess := s.sess[k.buf.i := Sess(false, None)])
  }

  function Step(s: State, a: Action): State
    requires Enabled(s, a)
  {
    match a
    case Caller(t, act) => CallerStep(s, t, act)
    case Receive => s.(queue := s.queue[1..], worker := Running(s.queue[0]))
    case Finish(code) =>
      var k := s.worker.k;
      var w := s.slots[k].waiter;
      PutSlot(s, k, MarkDone(s.slots[k], code)).(worker := if w.Some? then Owes(w.value) else Listening)
    case Give =>
      var t := s.worker.t;
      s.(tasks := s.tasks[t := s.tasks[t].(pending := true)], worker := Listening)
  }

  // ---------------- the invariant ----------------

  /** The worker can still write through the slot: it runs its line or will pick it up. */
  predicate Live(s: State, k: nat) { k in s.queue || s.worker == Running(k) }

  predicate Holds(pc: Pc) { pc.Claimed? || pc.Waiting? || pc.Second? || pc.Reading? || pc.Freeing? }

  predicate Told(s: State, t: nat)
    requires t < |s.tasks|
  {
    s.tasks[t].pending || s.worker == Owes(t)
  }

  /** Told, and by exactly one of the two. */
  predicate ToldOnce(s: State, t: nat)
    requires t < |s.tasks|
  {
    s.tasks[t].pending != (s.worker == Owes(t))
  }

  predicate Replied(sl: Slot, t: Task) { sl.done && sl.rc.Some? && sl.rc.value.line == t.line }

  predicate TaskOk(s: State, t: nat)
    requires t < |s.tasks|
  {
    var k := s.tasks[t];
    && (Holds(k.pc) ==> k.pc.k < |s.slots| && s.slots[k.pc.k].used && s.slots[k.pc.k].holder == Some(t))
    && match k.pc
       case Claimed(n) => !Live(s, n) && !s.slots[n].done && !Told(s, t)
       case Waiting(n) =>
         s.slots[n].waiter == Some(t) && s.slots[n].line == k.line && s.slots[n].resp == k.buf
         && if s.slots[n].done then !Live(s, n) && Replied(s.slots[n], k) && ToldOnce(s, t)
            else Live(s, n) && !Told(s, t)
       case Second(n) => !Live(s, n) && Replied(s.slots[n], k) && ToldOnce(s, t)
       case Reading(n) => !Live(s, n) && Replied(s.slots[n], k) && !Told(s, t)
       case Freeing(n, r) => !Live(s, n) && Replied(s.slots[n], k) && r == s.slots[n].rc.value && !Told(s, t)
       case Back(Answered(r)) => r.line == k.line && !Told(s, t)
       case _ => !Told(s, t)
  }

  predicate SlotOk(s: State, k: nat)
    requires k < |s.slots|
  {
    var sl := s.slots[k];
    if !sl.used then sl.holder.None? && !Live(s, k)
    else
      match sl.holder
      case None => sl.waiter.None? && !sl.done && Live(s, k)
      case Some(t) => t < |s.tasks| && Holds(s.tasks[t].pc) && s.tasks[t].pc.k == k
  }

  predicate QueueOk(s: State) {
    && (forall i :: 0 <= i < |s.queue| ==> s.queue[i] < |s.slots| && s.worker != Running(s.queue[i]))
    && Distinct(s.queue)
    && (s.worker.Running? ==> s.worker.k < |s.slots|)
    && (s.worker.Owes? ==> s.worker.t < |s.tasks|)
  }

  /** The task's HTTP request is using session i. */
  predicate Uses(t: Task, i: nat) { t.pc != Idle && t.buf == Session(i) }

  predicate SessOk(s: State) {
    && (forall t :: 0 <= t < |s.tasks| ==> RequestOk(s, t))
    && (forall i :: 0 <= i < |s.sess| ==> SessionOk(s, i))
  }

  /** A request in progress owns its session; only a request sends a reply. */
  predicate RequestOk(s: State, t: nat)
    requires t < |s.tasks|
  {
    && (s.tasks[t].pc != Idle && s.tasks[t].buf.Session? ==>
          s.tasks[t].buf.i < |s.sess| && s.sess[s.tasks[t].buf.i] == Sess(true, Some(t)))
    && (s.tasks[t].pc == Sending ==> s.tasks[t].buf.Session?)
  }

  predicate SessionOk(s: State, i: nat)
    requires i < |s.sess|
  {
    && (!s.sess[i].busy ==> s.sess[i].owner.None?)
    && (s.sess[i].owner.Some? ==> s.sess[i].owner.value < |s.tasks| && Uses(s.tasks[s.sess[i].owner.value], i))
  }

  /** A buffer the worker can still write belongs to a busy session, and to a caller still waiting or gone for good. */
  predicate WriterOk(s: State, k: nat)
    requires k < |s.slots|
  {
    var sl := s.slots[k];
    Live(s, k) && sl.resp.Session? ==>
      && sl.resp.i < |s.sess| && s.sess[sl.resp.i].busy
      && match sl.holder
         case Some(t) => s.sess[sl.resp.i].owner == Some(t)
         case None => OwnerGone(s, sl.resp.i)
  }

  /** The session's request has walked away, or is just about to learn that it must. */
  predicate OwnerGone(s: State, i: nat)
    requires i < |s.sess|
  {
    match s.sess[i].owner
    case None => true
    case Some(t) => t < |s.tasks| && s.tasks[t].pc == Back(Orphaned)
  }

  predicate Inv(s: State) {
    && |s.slots| == POOL_N && |s.sess| == SESSIONS && QueueOk(s) && SessOk(s)
    && (forall t :: 0 <= t < |s.tasks| ==> TaskOk(s, t))
    && (forall k :: 0 <= k < POOL_N ==> SlotOk(s, k) && WriterOk(s, k))
  }

  // ---------------- it holds in every run ----------------

  /** The invariant, instantiated at one task and one slot; the step lemmas read it here. */
  lemma TaskAt(s: State, t: nat)
    requires Inv(s) && t < |s.tasks|
    ensures TaskOk(s, t)
    ensures RequestOk(s, t)
    ensures Holds(s.tasks[t].pc) ==> SlotOk(s, s.tasks[t].pc.k) && WriterOk(s, s.tasks[t].pc.k)
    ensures s.tasks[t].pc != Idle && s.tasks[t].buf.Session? ==>
      s.tasks[t].buf.i < |s.sess| && s.sess[s.tasks[t].buf.i] == Sess(true, Some(t)) && SessionOk(s, s.tasks[t].buf.i)
  {
    hide TaskOk, SlotOk, WriterOk, QueueOk, SessionOk;
    HeldIndex(s, t);
  }

  lemma HeldIndex(s: State, t: nat)
    requires |s.slots| == POOL_N && t < |s.tasks| && TaskOk(s, t)
    ensures Holds(s.tasks[t].pc) ==> s.tasks[t].pc.k < POOL_N
  {
  }

  lemma SlotAt(s: State, k: nat)
    requires Inv(s) && k < POOL_N
    ensures |s.slots| == POOL_N && SlotOk(s, k) && WriterOk(s, k)
    ensures s.slots[k].holder.Some? && s.slots[k].used ==>
      s.slots[k].holder.value < |s.tasks| && TaskOk(s, s.slots[k].holder.value)
  {
    hide TaskOk, WriterOk, QueueOk, SessOk;
  }

  lemma ReceiveStep(s: State)
    requires Inv(s) && Enabled(s, Receive)
    ensures Inv(Step(s, Receive))
  {
    var r := Step(s, Receive);
    assert s.queue == [s.queue[0]] + r.queue;
    assert forall k :: k in s.queue <==> k == s.queue[0] || k in r.queue;
    assert forall k :: Live(r, k) <==> Live(s, k);
    forall t | 0 <= t < |s.tasks| ensures TaskOk(r, t) { assert TaskOk(s, t); }
    forall k | 0 <= k < POOL_N ensures SlotOk(r, k) && WriterOk(r, k) { assert SlotOk(s, k) && WriterOk(s, k); }
    forall i | 0 <= i < |s.sess| ensures SessionOk(r, i) { assert SessionOk(s, i); }
    forall u | 0 <= u < |s.tasks| ensures RequestOk(r, u) { assert RequestOk(s, u); }
  }

  lemma FinishStep(s: State, code: int)
    requires Inv(s) && Enabled(s, Finish(code))
    ensures Inv(Step(s, Finish(code)))
  {
    var r := Step(s, Finish(code));
    var n := s.worker.k;
    SlotAt(s, n);
    assert n !in s.queue;
    forall t | 0 <= t < |s.tasks| ensures TaskOk(r, t) { assert TaskOk(s, t); }
    forall k | 0 <= k < POOL_N ensures SlotOk(r, k) && WriterOk(r, k) { assert SlotOk(s, k) && WriterOk(s, k); }
    forall i | 0 <= i < |s.sess| ensures SessionOk(r, i) { assert SessionOk(s, i); }
    forall u | 0 <= u < |s.tasks| ensures RequestOk(r, u) { assert RequestOk(s, u); }
  }

  lemma GiveStep(s: State)
    requires Inv(s) && Enabled(s, Give)
    ensures Inv(Step(s, Give))
  {
    var r := Step(s, Give);
    forall t | 0 <= t < |s.tasks| ensures TaskOk(r, t) { assert TaskOk(s, t); }
    forall k | 0 <= k < POOL_N ensures SlotOk(r, k) && WriterOk(r, k) { assert SlotOk(s, k) && WriterOk(s, k); }
    forall i | 0 <= i < |s.sess| ensures SessionOk(r, i) { assert SessionOk(s, i); }
    forall u | 0 <= u < |s.tasks| ensures RequestOk(r, u) { assert RequestOk(s, u); }
  }

  lemma CallStart(s: State, t: nat, act: Act)
    requires Inv(s) && t < |s.tasks| && CallerCan(s, t, act) && (act.PlainCall? || act.HttpCall? || act.NoSlot?)
    ensures Inv(CallerStep(s, t, act))
  {
    hide FirstFree;
    var r := CallerStep(s, t, act);
    TaskAt(s, t);
    if act.HttpCall? && FirstIdle(s.sess, 0) < |s.sess| { assert SessionOk(s, FirstIdle(s.sess, 0)); }
    forall u | 0 <= u < |s.tasks| ensures TaskOk(r, u) { assert TaskOk(s, u); }
    forall k | 0 <= k < POOL_N ensures SlotOk(r, k) && WriterOk(r, k) { assert SlotOk(s, k) && WriterOk(s, k); }
    forall i | 0 <= i < |s.sess| ensures SessionOk(r, i) { assert SessionOk(s, i); }
    forall u | 0 <= u < |s.tasks| ensures RequestOk(r, u) { assert RequestOk(s, u); }
  }

  lemma CallClaim(s: State, t: nat)
    requires Inv(s) && t < |s.tasks| && CallerCan(s, t, Claim)
    ensures Inv(CallerStep(s, t, Claim))
  {
    var r := CallerStep(s, t, Claim);
    var n := FirstFree(s.slots, 0);
    hide FirstFree;
    TaskAt(s, t);
    SlotAt(s, n);
    forall u | 0 <= u < |s.tasks| ensures TaskOk(r, u) { assert TaskOk(s, u); }
    forall k | 0 <= k < POOL_N ensures SlotOk(r, k) && WriterOk(r, k) { assert SlotOk(s, k) && WriterOk(s, k); }
    forall i | 0 <= i < |s.sess| ensures SessionOk(r, i) { assert SessionOk(s, i); }
    forall u | 0 <= u < |s.tasks| ensures RequestOk(r, u) { assert RequestOk(s, u); }
  }

  lemma CallSend(s: State, t: nat)
    requires Inv(s) && t < |s.tasks| && CallerCan(s, t, Send)
    ensures Inv(CallerStep(s, t, Send))
  {
    hide FirstFree;
    var r := CallerStep(s, t, Send);
    TaskAt(s, t);
    var n := s.tasks[t].pc.k;
    assert forall k :: k in r.queue <==> k in s.queue || k == n;
    forall u | 0 <= u < |s.tasks| ensures TaskOk(r, u) { assert TaskOk(s, u); }
    forall k | 0 <= k < POOL_N ensures SlotOk(r, k) && WriterOk(r, k) { assert SlotOk(s, k) && WriterOk(s, k); }
    forall i | 0 <= i < |s.sess| ensures SessionOk(r, i) { assert SessionOk(s, i); }
    forall u | 0 <= u < |s.tasks| ensures RequestOk(r, u) { assert RequestOk(s, u); }
  }

  lemma CallWake(s: State, t: nat, act: Act)
    requires Inv(s) && t < |s.tasks| && CallerCan(s, t, act) && (act.Wake? || act.Wake2?)
    ensures Inv(CallerStep(s, t, act))
  {
    hide FirstFree;
    var r := CallerStep(s, t, act);
    TaskAt(s, t);
    forall u | 0 <= u < |s.tasks| ensures TaskOk(r, u) { assert TaskOk(s, u); }
    forall k | 0 <= k < POOL_N ensures SlotOk(r, k) && WriterOk(r, k) { assert SlotOk(s, k) && WriterOk(s, k); }
    forall i | 0 <= i < |s.sess| ensures SessionOk(r, i) { assert SessionOk(s, i); }
    forall u | 0 <= u < |s.tasks| ensures RequestOk(r, u) { assert RequestOk(s, u); }
  }

  lemma CallTimeUp(s: State, t: nat)
    requires Inv(s) && t < |s.tasks| && CallerCan(s, t, TimeUp)
    ensures Inv(CallerStep(s, t, TimeUp))
  {
    hide FirstFree;
    var r := CallerStep(s, t, TimeUp);
    TaskAt(s, t);
    forall u | 0 <= u < |s.tasks| ensures TaskOk(r, u) { assert TaskOk(s, u); }
    forall k | 0 <= k < POOL_N ensures SlotOk(r, k) { assert SlotOk(s, k); }
    forall k | 0 <= k < POOL_N ensures WriterOk(r, k) { TimeUpWriters(s, t, k); }
    forall i | 0 <= i < |s.sess| ensures SessionOk(r, i) { assert SessionOk(s, i); }
    forall u | 0 <= u < |s.tasks| ensures RequestOk(r, u) { assert RequestOk(s, u); }
  }

  lemma TimeUpWriters(s: State, t: nat, k: nat)
    requires Inv(s) && t < |s.tasks| && CallerCan(s, t, TimeUp) && k < POOL_N
    ensures |CallerStep(s, t, TimeUp).slots| == POOL_N && WriterOk(CallerStep(s, t, TimeUp), k)
  {
    hide FirstFree, SessOk, QueueOk;
    TaskAt(s, t);
    SlotAt(s, k);
    var r := CallerStep(s, t, TimeUp);
    var n := s.tasks[t].pc.k;
    assert Live(r, k) == Live(s, k);
    if Live(r, k) && r.slots[k].resp.Session? {
      var i := r.slots[k].resp.i;
      if k == n {
        assert OwnerGone(r, i);
      } else {
        assert r.slots[k] == s.slots[k];
      }
    }
  }

  lemma CallRead(s: State, t: nat, act: Act)
    requires Inv(s) && t < |s.tasks| && CallerCan(s, t, act) && (act.ReadRc? || act.FreeSlot?)
    ensures Inv(CallerStep(s, t, act))
  {
    hide FirstFree;
    var r := CallerStep(s, t, act);
    TaskAt(s, t);
    forall u | 0 <= u < |s.tasks| ensures TaskOk(r, u) { assert TaskOk(s, u); }
    forall k | 0 <= k < POOL_N ensures SlotOk(r, k) && WriterOk(r, k) { assert SlotOk(s, k) && WriterOk(s, k); }
    forall i | 0 <= i < |s.sess| ensures SessionOk(r, i) { assert SessionOk(s, i); }
    forall u | 0 <= u < |s.tasks| ensures RequestOk(r, u) { assert RequestOk(s, u); }
  }

  lemma CallResume(s: State, t: nat, act: Act)
    requires Inv(s) && t < |s.tasks| && CallerCan(s, t, act) && (act.Resume? || act.SendReply?)
    ensures Inv(CallerStep(s, t, act))
  {
    hide FirstFree, FirstIdle, SlotOk, WriterOk, TaskOk, SessOk;
    var r := CallerStep(s, t, act);
    assert r.slots == s.slots && r.queue == s.queue && r.worker == s.worker;
    forall u: nat | u < |s.tasks| ensures TaskOk(r, u) { ResumeTasks(s, t, act, u); }
    forall k: nat | k < POOL_N ensures SlotOk(r, k) && WriterOk(r, k) { ResumeWriters(s, t, act, k); }
    ResumeSessions(s, t, act);
  }

  lemma ResumeTasks(s: State, t: nat, act: Act, u: nat)
    requires Inv(s) && t < |s.tasks| && CallerCan(s, t, act) && (act.Resume? || act.SendReply?) && u < |s.tasks|
    ensures |CallerStep(s, t, act).tasks| == |s.tasks| && TaskOk(CallerStep(s, t, act), u)
  {
    hide FirstFree, FirstIdle, SlotOk, WriterOk, SessOk, QueueOk;
    TaskAt(s, t);
    TaskAt(s, u);
  }

  lemma ResumeWriters(s: State, t: nat, act: Act, k: nat)
    requires Inv(s) && t < |s.tasks| && CallerCan(s, t, act) && (act.Resume? || act.SendReply?) && k < POOL_N
    ensures |CallerStep(s, t, act).slots| == POOL_N
    ensures SlotOk(CallerStep(s, t, act), k) && WriterOk(CallerStep(s, t, act), k)
  {
    hide FirstFree, SessOk, QueueOk;
    TaskAt(s, t);
    SlotAt(s, k);
    if Live(s, k) && s.slots[k].resp.Session? { SessionAt(s, s.slots[k].resp.i); }
  }

  lemma SessionAt(s: State, i: nat)
    requires Inv(s) && i < |s.sess|
    ensures SessionOk(s, i)
  {
    hide TaskOk, SlotOk, WriterOk, QueueOk;
  }

  lemma ResumeSessions(s: State, t: nat, act: Act)
    requires Inv(s) && t < |s.tasks| && CallerCan(s, t, act) && (act.Resume? || act.SendReply?)
    ensures SessOk(CallerStep(s, t, act))
  {
    hide FirstFree, TaskOk, SlotOk, WriterOk;
    var r := CallerStep(s, t, act);
    TaskAt(s, t);
    forall i | 0 <= i < |s.sess| ensures SessionOk(r, i) { assert SessionOk(s, i); }
    forall u | 0 <= u < |s.tasks| ensures RequestOk(r, u) {
      assert RequestOk(s, u);
      if u != t { assert r.tasks[u] == s.tasks[u]; }
    }
    assert |r.tasks| == |s.tasks| && |r.sess| == |s.sess|;
  }

  // ---------------- what every run has ----------------

  /** The queue never holds more than the pool has slots, so the send never finds it full. */
  lemma SendNeverFails(s: State)
    requires Inv(s)
    ensures |s.queue| <= POOL_N < QUEUE_LEN
  {
    hide TaskOk, SlotOk, WriterOk, SessOk;
    DistinctShort(s.queue, POOL_N);
  }

  lemma CallerInv(s: State, t: nat, act: Act)
    requires Inv(s) && t < |s.tasks| && CallerCan(s, t, act)
    ensures Inv(CallerStep(s, t, act))
  {
    hide Inv, CallerStep;
    match act
    case PlainCall(_) => CallStart(s, t, act);
    case HttpCall(_) => CallStart(s, t, act);
    case NoSlot => CallStart(s, t, act);
    case Claim => CallClaim(s, t);
    case Send => CallSend(s, t);
    case SendFull => SendNeverFails(s);
    case Wake => CallWake(s, t, act);
    case TimeUp => CallTimeUp(s, t);
    case Wake2 => CallWake(s, t, act);
    case ReadRc => CallRead(s, t, act);
    case FreeSlot => CallRead(s, t, act);
    case Resume => CallResume(s, t, act);
    case SendReply => CallResume(s, t, act);
  }

  lemma InvStep(s: State, a: Action)
    requires Inv(s) && Enabled(s, a)
    ensures Inv(Step(s, a))
  {
    match a
    case Caller(t, act) => CallerInv(s, t, act);
    case Receive => ReceiveStep(s);
    case Finish(code) => FinishStep(s, code);
    case Give => GiveStep(s);
  }

  predicate Init(s: State) {
    && |s.slots| == POOL_N && |s.sess| == SESSIONS && s.queue == [] && s.worker == Listening && s.quarantined == 0
    && (forall k :: 0 <= k < POOL_N ==> !s.slots[k].used && s.slots[k].holder.None?)
    && (forall t :: 0 <= t < |s.tasks| ==> s.tasks[t].pc == Idle && !s.tasks[t].pending)
    && (forall i :: 0 <= i < SESSIONS ==> s.sess[i] == Sess(false, None))
  }

  lemma InitInv(s: State)
    requires Init(s)
    ensures Inv(s)
  {
  }

  ghost predicate IsRun(ss: seq<State>, acts: seq<Action>) {
    && |ss| == |acts| + 1 && Init(ss[0])
    && forall k :: 0 <= k < |acts| ==> Enabled(ss[k], acts[k]) && ss[k + 1] == Step(ss[k], acts[k])
  }

  lemma {:induction false} RunInv(ss: seq<State>, acts: seq<Action>, k: nat)
    requires IsRun(ss, acts) && k < |ss|
    ensures Inv(ss[k])
  {
    hide Inv, Step, Enabled, Init;
    if k == 0 {
      InitInv(ss[0]);
    } else {
      RunInv(ss, acts, k - 1);
      assert ss[k - 1 + 1] == Step(ss[k - 1], acts[k - 1]);
      InvStep(ss[k - 1], acts[k - 1]);
    }
  }

  // ---------------- slots ----------------

  /** The step clears the slot's used flag, whichever side does it. */
  predicate Frees(s: State, a: Action, k: nat) {
    match a
    case Caller(t, act) => act.FreeSlot? && t < |s.tasks| && s.tasks[t].pc.Freeing? && s.tasks[t].pc.k == k
    case Finish(_) => s.worker == Running(k) && k < |s.slots| && s.slots[k].waiter.None?
    case _ => false
  }

  predicate Claims(s: State, a: Action, k: nat) {
    a.Caller? && a.act.Claim? && FirstFree(s.slots, 0) == k
  }

  /**
   Each claimed slot is freed exactly once: a claim takes a free slot that the worker can
   no longer write through, a free finds its slot claimed, and nothing else changes the flag.
   */
  lemma ClaimAndFree(ss: seq<State>, acts: seq<Action>, n: nat, k: nat)
    requires IsRun(ss, acts) && n < |acts| && k < POOL_N
    ensures |ss[n].slots| == |ss[n + 1].slots| == POOL_N
    ensures Claims(ss[n], acts[n], k) ==> !ss[n].slots[k].used && ss[n + 1].slots[k].used && !Live(ss[n], k)
    ensures Frees(ss[n], acts[n], k) ==> ss[n].slots[k].used && !ss[n + 1].slots[k].used && !Live(ss[n + 1], k)
    ensures !Claims(ss[n], acts[n], k) && !Frees(ss[n], acts[n], k) ==> ss[n + 1].slots[k].used == ss[n].slots[k].used
  {
    hide IsRun, Inv, Step, Enabled, Frees, Claims, FirstFree, Live;
    RunAt(ss, acts, n);
    RunInv(ss, acts, n);
    FlagStep(ss[n], acts[n], k);
  }

  lemma RunAt(ss: seq<State>, acts: seq<Action>, n: nat)
    requires IsRun(ss, acts) && n < |acts|
    ensures n + 1 < |ss| && Enabled(ss[n], acts[n]) && ss[n + 1] == Step(ss[n], acts[n])
  {
    hide Step, Enabled, Init;
  }

  lemma FlagStep(s: State, a: Action, k: nat)
    requires Inv(s) && Enabled(s, a) && k < POOL_N
    ensures var r := Step(s, a);
      && |s.slots| == |r.slots| == POOL_N
      && (Claims(s, a, k) ==> !s.slots[k].used && r.slots[k].used && !Live(s, k))
      && (Frees(s, a, k) ==> s.slots[k].used && !r.slots[k].used && !Live(r, k))
      && (!Claims(s, a, k) && !Frees(s, a, k) ==> r.slots[k].used == s.slots[k].used)
  {
    hide FirstFree, WriterOk, SessOk;
    SlotAt(s, k);
    if a.Caller? {
      TaskAt(s, a.t);
      SendNeverFails(s);
    }
  }

  // ---------------- callers ----------------

  /** -2 is returned exactly when the wait ran out before the worker had marked the slot done. */
  lemma MinusTwoMeansRunning(s: State, a: Action, t: nat)
    requires Inv(s) && Enabled(s, a) && t < |s.tasks| && |Step(s, a).tasks| == |s.tasks|
    requires s.tasks[t].pc != Back(Orphaned)
    ensures Step(s, a).tasks[t].pc == Back(Orphaned) <==>
      a == Caller(t, TimeUp) && s.tasks[t].pc.k < |s.slots| && !s.slots[s.tasks[t].pc.k].done
    ensures Step(s, a).tasks[t].pc == Back(Orphaned) ==> Live(s, s.tasks[t].pc.k)
  {
    hide FirstFree, FirstIdle, WriterOk, SessOk, SlotOk, QueueOk;
    assert TaskOk(s, t);
  }

  /** Any other answer but BUSY is the dispatcher's answer to the caller's own line. */
  lemma AnswerIsOwn(ss: seq<State>, acts: seq<Action>, n: nat, t: nat)
    requires IsRun(ss, acts) && n < |ss| && t < |ss[n].tasks|
    requires ss[n].tasks[t].pc.Back? && ss[n].tasks[t].pc.res.Answered?
    ensures ss[n].tasks[t].pc.res.r.line == ss[n].tasks[t].line
  {
    hide IsRun, FirstFree, WriterOk, SessOk, SlotOk, QueueOk;
    RunInv(ss, acts, n);
    assert TaskOk(ss[n], t);
  }

  /** A call is refused as busy exactly when it found every slot taken, or the queue full. */
  lemma BusyIff(s: State, a: Action, t: nat)
    requires Inv(s) && Enabled(s, a) && t < |s.tasks| && |Step(s, a).tasks| == |s.tasks|
    requires s.tasks[t].pc != Back(Busy)
    ensures Step(s, a).tasks[t].pc == Back(Busy) <==> a == Caller(t, NoSlot) || a == Caller(t, SendFull)
    ensures a == Caller(t, NoSlot) ==> forall k :: 0 <= k < 4 ==> s.slots[k].used
    ensures a == Caller(t, Claim) ==> exists k :: 0 <= k < 4 && !s.slots[k].used
    ensures a != Caller(t, SendFull)
  {
    hide FirstIdle, WriterOk, SessOk, SlotOk, QueueOk;
    assert TaskOk(s, t);
    SendNeverFails(s);
    var k := FirstFree(s.slots, 0);
    assert k < |s.slots| ==> !s.slots[k].used;
  }

  /** The dispatcher answered the line with the code at step m. */
  ghost predicate DispatchedAt(ss: seq<State>, acts: seq<Action>, m: nat, n: nat, r: Reply)
    requires n <= |acts| && n <= |ss|
  {
    && m < n && acts[m] == Finish(r.code) && ss[m].worker.Running? && ss[m].worker.k < |ss[m].slots|
    && ss[m].slots[ss[m].worker.k].line == r.line
  }

  ghost predicate Dispatched(ss: seq<State>, acts: seq<Action>, n: nat, r: Reply)
    requires n <= |acts| && n <= |ss|
  {
    exists m: nat :: DispatchedAt(ss, acts, m, n, r)
  }

  lemma DispatchedLater(ss: seq<State>, acts: seq<Action>, n: nat)
    requires n < |acts| && n < |ss|
    ensures forall r :: Dispatched(ss, acts, n, r) ==> Dispatched(ss, acts, n + 1, r)
    ensures acts[n].Finish? && ss[n].worker.Running? && ss[n].worker.k < |ss[n].slots| ==>
      Dispatched(ss, acts, n + 1, Reply(ss[n].slots[ss[n].worker.k].line, acts[n].code))
  {
    var next := n + 1;
    forall r | Dispatched(ss, acts, n, r) ensures Dispatched(ss, acts, next, r) {
      var m: nat :| DispatchedAt(ss, acts, m, n, r);
      assert DispatchedAt(ss, acts, m, next, r);
    }
    if acts[n].Finish? && ss[n].worker.Running? && ss[n].worker.k < |ss[n].slots| {
      assert DispatchedAt(ss, acts, n, next, Reply(ss[n].slots[ss[n].worker.k].line, acts[n].code));
    }
  }

  /** Every reply lying in a slot that is done, or on its way back to a caller, was dispatched. */
  ghost predicate AllDispatched(ss: seq<State>, acts: seq<Action>, n: nat)
    requires n <= |acts| && n < |ss|
  {
    var s := ss[n];
    && (forall k :: 0 <= k < |s.slots| && s.slots[k].used && s.slots[k].done && s.slots[k].rc.Some? ==>
          Dispatched(ss, acts, n, s.slots[k].rc.value))
    && (forall t :: 0 <= t < |s.tasks| && s.tasks[t].pc.Freeing? ==> Dispatched(ss, acts, n, s.tasks[t].pc.r))
    && (forall t :: 0 <= t < |s.tasks| && s.tasks[t].pc.Back? && s.tasks[t].pc.res.Answered? ==>
          Dispatched(ss, acts, n, s.tasks[t].pc.res.r))
  }

  lemma DispatchedStep(ss: seq<State>, acts: seq<Action>, n: nat)
    requires n < |acts| && n + 1 < |ss| && Inv(ss[n]) && Enabled(ss[n], acts[n]) && ss[n + 1] == Step(ss[n], acts[n])
    requires AllDispatched(ss, acts, n)
    ensures AllDispatched(ss, acts, n + 1)
  {
    hide FirstFree, FirstIdle, Inv, CallerStep, CallerCan, Dispatched;
    DispatchedLater(ss, acts, n);
    if acts[n].Caller? { CallerReplies(ss[n], acts[n].t, acts[n].act); }
  }

  /** A caller's step leaves every reply where it lay, or takes its own slot's along. */
  lemma CallerReplies(s: State, t: nat, act: Act)
    requires Inv(s) && t < |s.tasks| && CallerCan(s, t, act)
    ensures var r := CallerStep(s, t, act);
      && |r.slots| == |s.slots| && |r.tasks| == |s.tasks|
      && (forall k :: 0 <= k < |s.slots| && r.slots[k].used && r.slots[k].done && r.slots[k].rc.Some? ==>
            s.slots[k].used && s.slots[k].done && s.slots[k].rc == r.slots[k].rc)
      && (forall u :: 0 <= u < |s.tasks| && u != t ==> r.tasks[u].pc == s.tasks[u].pc)
      && (r.tasks[t].pc.Freeing? ==> r.tasks[t].pc == s.tasks[t].pc || OwnReply(s, t, r.tasks[t].pc.r))
      && (r.tasks[t].pc.Back? && r.tasks[t].pc.res.Answered? ==>
            r.tasks[t].pc == s.tasks[t].pc || (s.tasks[t].pc.Freeing? && r.tasks[t].pc.res.r == s.tasks[t].pc.r))
  {
    hide FirstFree, FirstIdle, WriterOk, SessOk, SlotOk, QueueOk;
    TaskAt(s, t);
  }

  predicate OwnReply(s: State, t: nat, r: Reply)
    requires t < |s.tasks|
  {
    exists k :: 0 <= k < |s.slots| && s.slots[k].used && s.slots[k].done && s.slots[k].rc == Some(r)
  }

  lemma {:induction false} RepliesDispatched(ss: seq<State>, acts: seq<Action>, n: nat)
    requires IsRun(ss, acts) && n < |ss|
    ensures AllDispatched(ss, acts, n)
  {
    hide Inv, Step, Enabled, Dispatched;
    if n > 0 {
      RepliesDispatched(ss, acts, n - 1);
      RunInv(ss, acts, n - 1);
      RunAt(ss, acts, n - 1);
      DispatchedStep(ss, acts, n - 1);
    }
  }

  /** What a call is answered is what the dispatcher made of its own line: that line, and that code. */
  lemma AnswerIsDispatched(ss: seq<State>, acts: seq<Action>, n: nat, t: nat)
    requires IsRun(ss, acts) && n < |ss| && t < |ss[n].tasks|
    requires ss[n].tasks[t].pc.Back? && ss[n].tasks[t].pc.res.Answered?
    ensures ss[n].tasks[t].pc.res.r.line == ss[n].tasks[t].line
    ensures exists m: nat :: DispatchedAt(ss, acts, m, n, ss[n].tasks[t].pc.res.r)
  {
    hide IsRun;
    RepliesDispatched(ss, acts, n);
    AnswerIsOwn(ss, acts, n, t);
  }

  /** How many steps of its own a call has at most before it. */
  function StepsLeft(pc: Pc): nat {
    match pc
    case Want => 8
    case Claimed(_) => 7
    case Waiting(_) => 6
    case Second(_) => 5
    case Reading(_) => 4
    case Freeing(_, _) => 3
    case Back(_) => 2
    case Sending => 1
    case Idle => 0
  }

  /**
   Every step of a caller takes its call further, eight at the most, and nobody else's step
   moves it; a call begins with its own line, an HTTP one only with an idle session.
   */
  lemma CallAdvances(s: State, a: Action, t: nat)
    requires Inv(s) && Enabled(s, a) && t < |s.tasks|
    ensures |Step(s, a).tasks| == |s.tasks|
    ensures var k, r := s.tasks[t], Step(s, a).tasks[t];
      if a.Caller? && a.t == t then
        if a.act.PlainCall? then r == Task(Want, k.pending, a.act.line, Own)
        else if a.act.HttpCall? then
          if exists i :: 0 <= i < 2 && !s.sess[i].busy then r.pc == Want && r.line == a.act.line && r.buf.Session?
          else r == k
        else StepsLeft(r.pc) < StepsLeft(k.pc) && r.line == k.line && r.buf == k.buf
      else r.pc == k.pc && r.line == k.line && r.buf == k.buf
  {
    hide FirstFree, WriterOk, SlotOk, QueueOk;
    TaskAt(s, t);
    var i := FirstIdle(s.sess, 0);
    assert i < |s.sess| ==> !s.sess[i].busy;
  }

  /** No call is ever stuck: it has a step to take, or the worker is about to wake it. */
  lemma NeverStuck(s: State, t: nat)
    requires Inv(s) && t < |s.tasks| && s.tasks[t].pc != Idle
    ensures (exists act :: Enabled(s, Caller(t, act))) || (s.worker == Owes(t) && Enabled(s, Give))
  {
    hide FirstFree, FirstIdle, WriterOk, SlotOk, QueueOk, SessOk;
    TaskAt(s, t);
    SendNeverFails(s);
    var act :=
      match s.tasks[t].pc
      case Want => if FirstFree(s.slots, 0) < |s.slots| then Claim else NoSlot
      case Claimed(_) => Send
      case Waiting(_) => if s.tasks[t].pending then Wake else TimeUp
      case Second(_) => Wake2
      case Reading(_) => ReadRc
      case Freeing(_, _) => FreeSlot
      case Back(_) => Resume
      case Sending => SendReply
      case Idle => Resume;
    assert Enabled(s, Caller(t, act)) || s.worker == Owes(t);
  }

  // ---------------- HTTP reply buffers ----------------

  /** Some slot the worker can still write through carries this session's buffer. */
  ghost predicate Writable(s: State, i: nat) {
    exists k: nat :: k < |s.slots| && Live(s, k) && s.slots[k].resp == Session(i)
  }

  /** No request sends a buffer an orphan may still write, and none is handed one. */
  lemma NoSharedBuffer(ss: seq<State>, acts: seq<Action>, n: nat, t: nat)
    requires IsRun(ss, acts) && n < |ss| && t < |ss[n].tasks|
    ensures ss[n].tasks[t].pc == Sending ==> ss[n].tasks[t].buf.Session? && !Writable(ss[n], ss[n].tasks[t].buf.i)
    ensures var i := FirstIdle(ss[n].sess, 0); i < |ss[n].sess| ==> !Writable(ss[n], i)
    ensures forall u, i :: 0 <= u < |ss[n].tasks| && Uses(ss[n].tasks[t], i) && Uses(ss[n].tasks[u], i) ==> u == t
  {
    hide IsRun, FirstFree, FirstIdle;
    RunInv(ss, acts, n);
    var s := ss[n];
    TaskAt(s, t);
    forall i: nat, k: nat | k < |s.slots| && Live(s, k) && s.slots[k].resp == Session(i)
      ensures i < |s.sess| && s.sess[i].busy && (s.tasks[t].pc == Sending ==> s.tasks[t].buf != Session(i))
    {
      SlotAt(s, k);
    }
    forall u, i | 0 <= u < |s.tasks| && Uses(s.tasks[t], i) && Uses(s.tasks[u], i) ensures u == t { TaskAt(s, u); }
  }

  function OwnerlessBusy(sess: seq<Sess>): nat {
    if sess == [] then 0
    else OwnerlessBusy(sess[..|sess| - 1]) + (if sess[|sess| - 1] == Sess(true, None) then 1 else 0)
  }

  lemma {:induction false} OwnerlessUpdate(sess: seq<Sess>, i: nat, v: Sess)
    requires i < |sess|
    ensures OwnerlessBusy(sess[i := v]) ==
      OwnerlessBusy(sess) - (if sess[i] == Sess(true, None) then 1 else 0) + (if v == Sess(true, None) then 1 else 0)
  {
    var n := |sess| - 1;
    if i < n {
      assert sess[i := v][..n] == sess[..n][i := v];
      OwnerlessUpdate(sess[..n], i, v);
    } else {
      assert sess[i := v][..n] == sess[..n];
    }
  }

  /** The counter the status page shows is exactly the sessions lost for good. */
  lemma QuarantineStep(s: State, a: Action)
    requires Inv(s) && Enabled(s, a) && s.quarantined == OwnerlessBusy(s.sess)
    ensures Step(s, a).quarantined == OwnerlessBusy(Step(s, a).sess)
    ensures forall i :: 0 <= i < SESSIONS && s.sess[i] == Sess(true, None) ==> Step(s, a).sess[i] == Sess(true, None)
  {
    hide FirstFree, TaskOk, SlotOk, WriterOk, QueueOk, OwnerlessBusy;
    if a.Caller? {
      TaskAt(s, a.t);
      var k := s.tasks[a.t];
      if a.act.HttpCall? && FirstIdle(s.sess, 0) < |s.sess| {
        OwnerlessUpdate(s.sess, FirstIdle(s.sess, 0), Sess(true, Some(a.t)));
      } else if a.act.SendReply? {
        OwnerlessUpdate(s.sess, k.buf.i, Sess(false, None));
      } else if a.act.Resume? && k.buf.Session? && k.pc.res == Orphaned {
        OwnerlessUpdate(s.sess, k.buf.i, Sess(true, None));
      }
    }
  }

  lemma {:induction false} NoneOwnerless(sess: seq<Sess>)
    requires forall i :: 0 <= i < |sess| ==> sess[i] == Sess(false, None)
    ensures OwnerlessBusy(sess) == 0
  {
    if sess != [] { NoneOwnerless(sess[..|sess| - 1]); }
  }

  /** In every run the quarantine counter is the number of busy sessions no request owns. */
  lemma {:induction false} QuarantineCounts(ss: seq<State>, acts: seq<Action>, n: nat)
    requires IsRun(ss, acts) && n < |ss|
    ensures ss[n].quarantined == OwnerlessBusy(ss[n].sess)
  {
    hide Inv, Step, Enabled;
    if n == 0 {
      NoneOwnerless(ss[0].sess);
    } else {
      QuarantineCounts(ss, acts, n - 1);
      RunInv(ss, acts, n - 1);
      RunAt(ss, acts, n - 1);
      QuarantineStep(ss[n - 1], acts[n - 1]);
    }
  }
}
