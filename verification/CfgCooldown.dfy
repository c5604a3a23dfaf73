/**
 What a failed attempt costs (components/node_mgr/node_mgr_cfgx.c, node_mgr_cfg_latch.c):
 how a transfer can end, how long the ladder waits between attempts, and how long a zone is
 left alone once the ladder has run out.
 */
module CfgCooldown {
  import opened Wrappers
  import opened Bytes
  import opened CfgEnvelope
  import opened RingTracker
  import opened CfgState
  import opened CfgInvariant
  import opened CfgSystem
  import opened CfgMoves
  import opened CfgConfirm
  import opened CfgAdopt
  import opened CfgLatch
  import opened CfgScan
  import opened CfgFairness
  import Forward

  /** The wrap-safe comparison: early up to 2^31 ms before the time, and not early up to 2^31 ms from it on. */
  lemma BeforeMeans(t: bv32, d: bv32)
    ensures 0 < d <= 0x8000_0000 ==> Before(t - d, t)
    ensures d < 0x8000_0000 ==> !Before(t + d, t)
  {
    Back(t, d);
    Ahead(t, d);
    if 0 < d <= 0x8000_0000 { Negated(d); }
  }

  lemma Back(t: bv32, d: bv32)
    ensures (t - d) - t == 0 - d
  {
  }

  lemma Ahead(t: bv32, d: bv32)
    ensures (t + d) - t == d
  {
  }

  lemma Negated(d: bv32)
    requires 0 < d <= 0x8000_0000
    ensures 0 - d >= 0x8000_0000
  {
  }

  // ---------------- how an attempt fails ----------------

  /** The attempt in zone z's slot fails at this step, in a way that waiting may mend. */
  predicate AttemptFails(s: State, a: Action, z: nat)
    requires |s.zones| == ZONES && IsZone(z)
  {
    SlotFor(s, z) &&
    match a
    case CfgEvent(q, ev, _) =>
      q == s.cx.seqNo
      && ((s.cx.st == PULL_ACK && !(ev.Done? && ev.status == 0))
          || (s.cx.st == PUSH_COMMIT && (ev.Fail? || (ev.status != 0 && !NeverRetried(ev.detail)))))
    case ChunkIn(src, feed, _) =>
      s.cx.st == PULL_STREAM && src == z
      && (feed.Bad? || (feed.Complete? && Mangled(s.cx.kind, feed.bytes)))
    case TickAct(_, expired, _, _) => s.cx.st == PULL_STREAM && expired && !At(s, z).clear
    case _ => false
  }

  /** Neither a blob of that plane nor one of a layout too new to read. */
  predicate Mangled(kind: nat, bytes: seq<bv8>) {
    !UnwrapPlane(kind, bytes).Accepted() && !UnwrapPlane(kind, bytes).EVersionNewer?
  }

  function ClockOf(a: Action): bv32 {
    match a
    case CfgEvent(_, _, clock) => clock
    case ChunkIn(_, _, clock) => clock
    case TickAct(_, _, _, clock) => clock
    case _ => 0
  }

  /** The fourth attempt in a row has failed: the transfer is given up. */
  predicate GivesUp(s: State, a: Action, z: nat)
    requires |s.zones| == ZONES && IsZone(z)
  {
    AttemptFails(s, a, z) && s.cx.attempt == 4
  }

  /** The waits between the four attempts. */
  function Wait(attempt: nat): bv32 { if attempt == 1 then 1000 else if attempt == 2 then 2000 else 4000 }

  /** The slot after a failed attempt that is not the last. */
  function Backoff(cx: Slot, clock: bv32): Slot {
    cx.(st := if cx.st == PUSH_COMMIT then RETRY_PUSH else RETRY_PULL, attempt := cx.attempt + 1,
        retryAt := Plus(clock, Wait(cx.attempt)))
  }

  lemma FailStep(s: State, clock: bv32)
    requires Wf(s) && s.cx.st != IDLE
    ensures var r := FailOrRetry(s, s.cx.st == PUSH_COMMIT, false, clock);
      && |r.zones| == ZONES && r.(zones := s.zones, cx := s.cx) == s
      && if s.cx.attempt == 4 then
           r.cx == IDLE_SLOT && At(r, s.cx.zone) == At(s, s.cx.zone).(cooldown := Plus(clock, 30000))
         else r.cx == Backoff(s.cx, clock) && r.zones == s.zones
  {
    hide Plus;
  }

  lemma FailingEvent(s: State, q: nat, ev: TrkEv, clock: bv32, z: nat)
    requires Wf(s) && IsZone(z) && AttemptFails(s, CfgEvent(q, ev, clock), z)
    ensures OnEv(Answered(s, q), q, ev, clock) == FailOrRetry(Answered(s, q), s.cx.st == PUSH_COMMIT, false, clock)
  {
    hide Plus, FailOrRetry, AcceptPush, TerminalReply, NeverRetried;
    if ev.Done? { NeverRetriedIff(ev.detail); }
  }

  lemma FailingChunk(s: State, src: nat, feed: Feed, clock: bv32, z: nat)
    requires Wf(s) && IsZone(z) && AttemptFails(s, ChunkIn(src, feed, clock), z)
    ensures OnChunk(s, src, feed, clock) == FailOrRetry(s, false, false, clock)
  {
    hide Plus, FailOrRetry, UnwrapPlane, StoreCfg, StoreHw;
  }

  lemma FailingTick(s: State, now: bv32, sub: Option<nat>, clock: bv32, z: nat)
    requires Wf(s) && IsZone(z) && AttemptFails(s, TickAct(now, true, sub, clock), z)
    ensures Wf(AfterClears(s)) && AfterClears(s).cx == s.cx && At(AfterClears(s), z) == At(s, z)
    ensures Tick(s, now, true, sub, clock).0 == FailOrRetry(AfterClears(s), false, false, clock)
  {
    hide Plus, FailOrRetry, ClearMasked, TakesPush, TakesScan, TakesWrite, FirstWrite;
    InvWfLength(s);
    ClearMaskedCx(s, 1);
    AfterClearsAt(s, z);
    BranchIs(s);
  }

  /**
   A failed attempt: the next one is due a second, two or four after it; after the fourth the
   slot is free and the zone is marked until thirty seconds later. The zone is otherwise as
   it was.
   */
  lemma AttemptFailed(s: State, a: Action, z: nat)
    requires Inv(s) && Enabled(s, a) && IsZone(z) && |s.zones| == ZONES && AttemptFails(s, a, z)
    ensures |Step(s, a).zones| == ZONES
    ensures if GivesUp(s, a, z) then
              Step(s, a).cx == IDLE_SLOT && At(Step(s, a), z) == At(s, z).(cooldown := Plus(ClockOf(a), 30000))
            else Step(s, a).cx == Backoff(s.cx, ClockOf(a)) && At(Step(s, a), z) == At(s, z)
  {
    hide Plus, Inv, OnEv, OnChunk, Tick, FailOrRetry, AfterClears, UnwrapPlane, NeverRetried, Backoff;
    InvWf(s);
    match a
    case CfgEvent(q, ev, clock) =>
      FailingEvent(s, q, ev, clock, z);
      FailStep(Answered(s, q), clock);
    case ChunkIn(src, feed, clock) =>
      FailingChunk(s, src, feed, clock, z);
      FailStep(s, clock);
    case TickAct(now, expired, sub, clock) =>
      FailingTick(s, now, sub, clock, z);
      FailStep(AfterClears(s), clock);
  }

  // ---------------- how a transfer ends ----------------

  /** The pull's blob has come in whole, or the push has been acknowledged. */
  predicate Succeeds(s: State, a: Action, z: nat) {
    SlotFor(s, z)
    && ((a.ChunkIn? && Pulled(s, a.src, a.feed)) || (a.CfgEvent? && PushAcked(s, a.q, a.ev)))
  }

  /** It has failed for good: a refusal that is never retried, or a blob too new to read. */
  predicate IsRefused(s: State, a: Action, z: nat) {
    SlotFor(s, z)
    && ((a.ChunkIn? && TooNew(s, a.src, a.feed)) || (a.CfgEvent? && Refused(s, a.q, a.ev)))
  }

  /** A transfer leaves the slot in one of four ways, and in none of them unless it is that step. */
  lemma TransferEndsIff(s: State, a: Action, z: nat)
    requires Inv(s) && Enabled(s, a) && IsZone(z) && |s.zones| == ZONES && SlotFor(s, z)
    ensures (Drops(s, a, z) || Succeeds(s, a, z) || IsRefused(s, a, z) || GivesUp(s, a, z)) <==>
      Step(s, a).cx.st == IDLE || (a.TickAct? && SlotFree(s))
    ensures !(a.TickAct? && SlotFree(s)) && Step(s, a).cx.st != IDLE ==> SlotFor(Step(s, a), z)
  {
    hide Plus, Inv, Tick, OnEv, OnChunk, OnCmdEvent, AfterClears, UnwrapPlane, NeverRetried, Forward.Confirmed, Enabled;
    InvWf(s);
    if AttemptFails(s, a, z) { AttemptFailed(s, a, z); }
    if a.TickAct? {
      EndsTick(s, a, z);
    } else if a.CmdEvent? {
      EndsCmd(s, a, z);
    } else if a.CfgEvent? {
      EndsEvent(s, a, z);
    } else if a.ChunkIn? {
      EndsChunk(s, a, z);
    } else {
      hide Plus, Step;
      RequestZone(s, a, z);
    }
  }

  lemma EndsTick(s: State, a: Action, z: nat)
    requires Inv(s) && Enabled(s, a) && IsZone(z) && |s.zones| == ZONES && SlotFor(s, z) && a.TickAct?
    ensures At(s, z).clear <==> SlotFree(s)
    ensures !At(s, z).clear && !AttemptFails(s, a, z) ==>
      Step(s, a).cx.st != IDLE && SameTransfer(s.cx, Step(s, a).cx) && Step(s, a).cx.attempt == s.cx.attempt
  {
    hide Plus, Inv, ClearMasked, TakesPush, TakesScan, TakesWrite, FirstWrite, PushWire, Before;
    InvWf(s);
    ClearMaskedCx(s, 1);
    BranchIs(s);
  }

  lemma EndsCmd(s: State, a: Action, z: nat)
    requires Inv(s) && Enabled(s, a) && IsZone(z) && |s.zones| == ZONES && SlotFor(s, z) && a.CmdEvent?
    ensures if Drops(s, a, z) then Step(s, a).cx.st == IDLE else Step(s, a).cx == s.cx
  {
    hide Plus, Inv, Forward.OnEv, Forward.Adopt, Forward.Confirmed, AfterClears, ZeroCache;
    Forward.AdoptIff(s.fwd, a.q, a.ev, z);
  }

  lemma EndsEvent(s: State, a: Action, z: nat)
    requires Inv(s) && Enabled(s, a) && IsZone(z) && |s.zones| == ZONES && SlotFor(s, z) && a.CfgEvent?
    ensures Succeeds(s, a, z) || IsRefused(s, a, z) ==> Step(s, a).cx.st == IDLE && !AttemptFails(s, a, z)
    ensures !Succeeds(s, a, z) && !IsRefused(s, a, z) && !AttemptFails(s, a, z) ==>
      Step(s, a).cx.st != IDLE && SlotFor(Step(s, a), z) && Step(s, a).cx.attempt == s.cx.attempt
  {
    hide Plus, Inv, AfterClears, StoreCfg, TerminalReply, NeverRetried, NoteSynced;
    InvWf(s);
    if a.ev.Done? { NeverRetriedIff(a.ev.detail); }
  }

  lemma EndsChunk(s: State, a: Action, z: nat)
    requires Inv(s) && Enabled(s, a) && IsZone(z) && |s.zones| == ZONES && SlotFor(s, z) && a.ChunkIn?
    ensures Succeeds(s, a, z) || IsRefused(s, a, z) ==> Step(s, a).cx.st == IDLE && !AttemptFails(s, a, z)
    ensures !Succeeds(s, a, z) && !IsRefused(s, a, z) && !AttemptFails(s, a, z) ==> Step(s, a).cx == s.cx
  {
    hide Plus, Inv, AfterClears, StoreCfg, StoreHw, UnwrapPlane, NoteSynced;
    InvWf(s);
  }

  // ---------------- the ladder ----------------

  /** A waiting attempt is left alone before its time, and made at the first tick at or past it. */
  lemma RetryTick(s: State, a: Action, z: nat)
    requires Inv(s) && Enabled(s, a) && IsZone(z) && |s.zones| == ZONES && a.TickAct? && SlotFor(s, z)
    requires (s.cx.st == RETRY_PULL || s.cx.st == RETRY_PUSH) && !At(s, z).clear
    ensures var r := Step(s, a);
      if Before(a.now, s.cx.retryAt) then r.cx == s.cx && r.wire == s.wire
      else if a.sub.Some? then
        r.cx.attempt == s.cx.attempt && r.cx.zone == z && r.cx.kind == s.cx.kind && r.cx.id == s.cx.id
        && r.cx.st == (if s.cx.st == RETRY_PULL then PULL_ACK else PUSH_COMMIT) && r.cx.seqNo == a.sub.value
        && a.sub.value in r.trk && !r.trk[a.sub.value].sent
        && r.trk[a.sub.value].frame
           == (if s.cx.st == RETRY_PULL then Get(z, s.cx.kind) else Commit(z, s.cx.pushGen, r.wire))
      else r.cx == s.cx.(retryAt := Plus(a.clock, 1000), seqNo := r.cx.seqNo)
  {
    hide Plus, Inv, ClearMasked, TakesPush, TakesScan, TakesWrite, FirstWrite, PushWire, Before;
    InvWf(s);
    ClearMaskedCx(s, 1);
    BranchIs(s);
  }

  /** Nothing but a tick moves a waiting attempt, as long as the caches are not dropped. */
  lemma RetryOther(s: State, a: Action, z: nat)
    requires Inv(s) && Enabled(s, a) && IsZone(z) && |s.zones| == ZONES && !a.TickAct? && SlotFor(s, z)
    requires (s.cx.st == RETRY_PULL || s.cx.st == RETRY_PUSH) && !Drops(s, a, z)
    ensures Step(s, a).cx == s.cx
  {
    hide Plus, Inv, Forward.OnEv, Forward.Adopt, Forward.Confirmed, AfterClears, ZeroCache, Tick;
    if a.CmdEvent? { EndsCmd(s, a, z); }
  }

  /**
   Between attempts: after the attempt made in state i failed at clock c, every tick before c
   plus one, two or four seconds leaves the slot waiting with the next attempt, whatever else
   arrives; RetryTick says what the first tick at or past that time does.
   */
  lemma {:induction false} LadderWaits(ss: seq<State>, acts: seq<Action>, i: nat, k: nat, z: nat)
    requires IsRun(ss, acts) && i < k <= |acts| && IsZone(z) && forall n :: i <= n <= k ==> |ss[n].zones| == ZONES
    requires AttemptFails(ss[i], acts[i], z) && ss[i].cx.attempt < 4
    requires forall n :: i < n < k ==> !Drops(ss[n], acts[n], z)
    requires forall n :: i < n < k && acts[n].TickAct? ==>
      Before(acts[n].now, Plus(ClockOf(acts[i]), Wait(ss[i].cx.attempt)))
    ensures ss[k].cx == Backoff(ss[i].cx, ClockOf(acts[i]))
    decreases k
  {
    hide Plus, Inv, Enabled, Step, Before, AttemptFails, Forward.Confirmed;
    RunInv(ss, acts, k - 1);
    RunStep(ss, acts, k - 1);
    if k == i + 1 {
      AttemptFailed(ss[i], acts[i], z);
    } else {
      LadderWaits(ss, acts, i, k - 1, z);
      FailedIsFor(ss[i], acts[i], z);
      if acts[k - 1].TickAct? {
        RetryTick(ss[k - 1], acts[k - 1], z);
      } else {
        RetryOther(ss[k - 1], acts[k - 1], z);
      }
    }
  }

  lemma FailedIsFor(s: State, a: Action, z: nat)
    requires |s.zones| == ZONES && IsZone(z) && AttemptFails(s, a, z)
    ensures SlotFor(s, z)
  {
  }

  // ---------------- the cooldown ----------------

  /** What a step does to the mark, the step that sets it aside. */
  lemma MarkStep(s: State, a: Action, z: nat)
    requires Inv(s) && Enabled(s, a) && IsZone(z) && |s.zones| == ZONES
    requires !GivesUp(s, a, z) && !Drops(s, a, z) && !WritesIn(s, a, z)
    ensures |Step(s, a).zones| == ZONES
    ensures At(Step(s, a), z).cooldown == At(s, z).cooldown
      || (a.TickAct? && !Before(a.now, At(s, z).cooldown) && At(Step(s, a), z).cooldown == 0)
  {
    hide Plus, Inv, Step, Enabled, AttemptFails, Drops, WritesIn;
    InvWf(s);
    if AttemptFails(s, a, z) {
      AttemptFailed(s, a, z);
    } else if a.TickAct? {
      MarkTick(s, a, z);
    } else {
      MarkOther(s, a, z);
    }
  }

  lemma MarkTick(s: State, a: Action, z: nat)
    requires Inv(s) && Enabled(s, a) && IsZone(z) && |s.zones| == ZONES && a.TickAct?
    requires !AttemptFails(s, a, z) && !Drops(s, a, z) && !WritesIn(s, a, z)
    ensures |Step(s, a).zones| == ZONES
    ensures At(Step(s, a), z).cooldown == At(s, z).cooldown
      || (!Before(a.now, At(s, z).cooldown) && At(Step(s, a), z).cooldown == 0)
  {
    hide Plus, Inv, AfterClears, CxTick, StartSet, Scan, StartPush, PushGenFor, FirstWrite, TakeWrite, Before, TakesPush,
      TakesScan, TakesWrite, SlotFree, Enabled, Written;
    InvWf(s);
    BranchIs(s);
    AfterClearsAt(s, z);
    AfterClearsCx(s);
    var t := AfterClears(s);
    InvWfLength(t);
    match TickBranch(t, s.pushReq)
    case Transfer => MarkSlot(s, a, z);
    case Write => StartSetZones(t, FirstWrite(t.zones, 1), a.sub, a.clock);
    case Manual =>
      StartPushKeepsZones(t, s.pushReq, PushGenFor(At(t, s.pushReq)), 1, PushIdent(At(t, s.pushReq)), a.sub, a.clock);
    case Auto => MarkScan(t, 0, a.now, a.sub, a.clock, z);
  }

  lemma MarkSlot(s: State, a: Action, z: nat)
    requires Inv(s) && IsZone(z) && |s.zones| == ZONES && a.TickAct? && Wf(s)
    requires AfterClears(s).cx.st != IDLE && !AttemptFails(s, a, z) && !At(s, z).clear
    ensures |AfterClears(s).zones| == |CxTick(AfterClears(s), a.now, a.expired, a.sub, a.clock).zones| == ZONES
    ensures At(CxTick(AfterClears(s), a.now, a.expired, a.sub, a.clock), z).cooldown == At(AfterClears(s), z).cooldown
  {
    hide Plus, Inv, ClearMasked, PushWire, Before;
    AfterClearsCx(s);
    InvWfLength(AfterClears(s));
  }

  lemma {:induction false} MarkScan(t: State, i: nat, now: bv32, sub: Option<nat>, clock: bv32, z: nat)
    requires Wf(t) && i <= ZONES && IsZone(z)
    ensures |t.zones| == |Scan(t, i, now, sub, clock).0.zones| == ZONES
    ensures var r := Scan(t, i, now, sub, clock).0;
      At(r, z).cooldown == At(t, z).cooldown || (!Before(now, At(t, z).cooldown) && At(r, z).cooldown == 0)
    decreases ZONES - i
  {
    hide Plus, Gate, TryStart, Wf, ScanId, Before;
    InvWfLength(t);
    if i < ZONES {
      WfRr(t);
      var id := ScanId(t.rr, i);
      GateWf(t, id, now);
      GateMark(t, id, now, z);
      var u := Gate(t, id, now).0;
      StartMark(u, id, sub, clock);
      MarkScan(u, i + 1, now, sub, clock, z);
    }
  }

  lemma GateMark(t: State, id: nat, now: bv32, z: nat)
    requires |t.zones| == ZONES && IsZone(id) && IsZone(z)
    ensures |Gate(t, id, now).0.zones| == ZONES
    ensures var r := Gate(t, id, now).0;
      At(r, z).cooldown == At(t, z).cooldown || (!Before(now, At(t, z).cooldown) && At(r, z).cooldown == 0)
  {
    hide Plus, Before, Reachable;
  }

  lemma StartMark(t: State, id: nat, sub: Option<nat>, clock: bv32)
    requires Wf(t) && IsZone(id)
    ensures TryStart(t, id, sub, clock).0.zones == t.zones
  {
    hide Plus, PushWire, PushGenFor;
  }

  lemma MarkOther(s: State, a: Action, z: nat)
    requires Inv(s) && Enabled(s, a) && IsZone(z) && |s.zones| == ZONES && !a.TickAct?
    requires !AttemptFails(s, a, z) && !Drops(s, a, z)
    ensures |Step(s, a).zones| == ZONES && At(Step(s, a), z).cooldown == At(s, z).cooldown
  {
    hide Plus, Inv, AfterClears, OnEv, OnChunk, OnCmdEvent, Forward.Confirmed, Enabled, UnwrapPlane;
    InvWf(s);
    if a.CmdEvent? {
      CmdZone(s, a.q, a.ev, z);
    } else if a.CfgEvent? {
      MarkEvent(s, a, z);
    } else if a.ChunkIn? {
      MarkChunk(s, a, z);
    } else {
      hide Plus, Step;
      RequestZone(s, a, z);
    }
  }

  lemma MarkEvent(s: State, a: Action, z: nat)
    requires Inv(s) && Enabled(s, a) && IsZone(z) && |s.zones| == ZONES && a.CfgEvent? && !AttemptFails(s, a, z)
    ensures |Step(s, a).zones| == ZONES && At(Step(s, a), z).cooldown == At(s, z).cooldown
  {
    hide Plus, Inv, AfterClears, StoreCfg, TerminalReply, NeverRetried, PayloadCrc;
    InvWf(s);
    if a.ev.Done? { NeverRetriedIff(a.ev.detail); }
  }

  lemma MarkChunk(s: State, a: Action, z: nat)
    requires Inv(s) && Enabled(s, a) && IsZone(z) && |s.zones| == ZONES && a.ChunkIn? && !AttemptFails(s, a, z)
    ensures |Step(s, a).zones| == ZONES && At(Step(s, a), z).cooldown == At(s, z).cooldown
  {
    hide Plus, Inv, AfterClears, UnwrapPlane, AcceptPull, FailOrRetry;
    InvWf(s);
    if s.cx.st == PULL_STREAM && a.src == s.cx.zone {
      if a.feed.Complete? { MarkAccept(s, a.feed.bytes, a.clock, z); }
      MarkFail(s, false, a.clock, z);
    }
  }

  lemma MarkAccept(s: State, bytes: seq<bv8>, clock: bv32, z: nat)
    requires Wf(s) && s.cx.st == PULL_STREAM && IsZone(z) && (s.cx.zone == z ==> !Mangled(s.cx.kind, bytes))
    ensures |AcceptPull(s, bytes, clock).zones| == ZONES
    ensures At(AcceptPull(s, bytes, clock), z).cooldown == At(s, z).cooldown
  {
    hide Plus, StoreCfg, StoreHw, UnwrapPlane, FailOrRetry;
    MarkFail(s, true, clock, z);
    MarkFail(s, false, clock, z);
  }

  lemma MarkFail(s: State, terminal: bool, clock: bv32, z: nat)
    requires Wf(s) && s.cx.st == PULL_STREAM && IsZone(z)
    ensures |FailOrRetry(s, false, terminal, clock).zones| == ZONES
    ensures terminal || s.cx.zone != z ==> At(FailOrRetry(s, false, terminal, clock), z).cooldown == At(s, z).cooldown
  {
    hide Plus;
  }

  /** The last time zone z's transfer was given up before step k was at i, and nothing has lifted it. */
  ghost predicate LeftAlone(ss: seq<State>, acts: seq<Action>, i: nat, k: nat, z: nat)
    requires IsZone(z) && k <= |acts| <= |ss| && forall n :: 0 <= n < k ==> Wf(ss[n]) && |ss[n].zones| == ZONES
  {
    && i < k && GivesUp(ss[i], acts[i], z)
    && forall n :: i < n < k ==> !GivesUp(ss[n], acts[n], z) && !Drops(ss[n], acts[n], z) && !WritesIn(ss[n], acts[n], z)
  }

  /** No tick since has come to the end of the thirty seconds. */
  predicate Early(acts: seq<Action>, i: nat, k: nat)
    requires i < k <= |acts|
  {
    forall n :: i < n < k && acts[n].TickAct? ==> Before(acts[n].now, Plus(ClockOf(acts[i]), 30000))
  }

  lemma {:induction false} MarkHolds(ss: seq<State>, acts: seq<Action>, i: nat, k: nat, z: nat)
    requires IsRun(ss, acts) && i < k <= |acts| && IsZone(z)
    requires forall n :: 0 <= n <= k ==> Wf(ss[n]) && |ss[n].zones| == ZONES
    requires LeftAlone(ss, acts, i, k, z) && Early(acts, i, k)
    ensures At(ss[k], z).cooldown == Plus(ClockOf(acts[i]), 30000)
    decreases k
  {
    hide Plus, Inv, Enabled, Step, Before, GivesUp, Drops, WritesIn, Wf;
    RunInv(ss, acts, k - 1);
    RunStep(ss, acts, k - 1);
    if k == i + 1 {
      GaveUp(ss[i], acts[i], z);
    } else {
      MarkHolds(ss, acts, i, k - 1, z);
      MarkStep(ss[k - 1], acts[k - 1], z);
    }
  }

  /** Giving up marks the zone until 30000 ms after the clock of that step, in 32-bit arithmetic. */
  lemma GaveUp(s: State, a: Action, z: nat)
    requires Inv(s) && Enabled(s, a) && IsZone(z) && |s.zones| == ZONES && GivesUp(s, a, z)
    ensures |Step(s, a).zones| == ZONES && At(Step(s, a), z).cooldown == Plus(ClockOf(a), 30000) == ClockOf(a) + 30000
  {
    hide Inv, Enabled, Step, AttemptFails;
    AttemptFailed(s, a, z);
  }

  /** The clock value the mark is lost at: given up 30000 ms before the counter wraps, the zone is not marked. */
  lemma UnmarkedAtWrap(s: State, a: Action, z: nat)
    requires Inv(s) && Enabled(s, a) && IsZone(z) && |s.zones| == ZONES && GivesUp(s, a, z)
    ensures |Step(s, a).zones| == ZONES && (ClockOf(a) == 4294937296 ==> At(Step(s, a), z).cooldown == 0)
  {
    hide Inv, Enabled, Step, GivesUp;
    GaveUp(s, a, z);
  }

  /** An automatic start is of a zone that passes every gate of the scan. */
  lemma AutoIsInLine(s: State, a: Action, z: nat, kind: nat)
    requires Wf(s) && IsZone(z) && AutoStarts(s, a, z, kind)
    ensures |AfterClears(s).zones| == ZONES && InLine(At(AfterClears(s), z), a.now)
  {
    hide Plus, AfterClears, Scan, Examined, InLine, Settled, TakesPush, TakesWrite, SlotFree, AfterTurns, Turns, Wf;
    BranchIs(s);
    var t := AfterClears(s);
    InvWfLength(t);
    NoTurns(t, a.now);
    ScanLaw(t, 0, a.now, a.sub, a.clock);
  }

  /** It is begun under the numbers that the zone's heartbeat and cache showed then. */
  lemma BeginFreezes(s: State, a: Action, z: nat, kind: nat)
    requires Wf(s) && IsZone(z) && AutoStarts(s, a, z, kind)
    ensures |s.zones| == ZONES && (kind == 1 || kind == 2) && !At(s, z).clear
    ensures var zn, cx := At(s, z), Tick(s, a.now, a.expired, a.sub, a.clock).0.cx;
      && cx.zone == z && cx.kind == kind && cx.attempt == 1
      && cx.id == if kind == 1 then Ident(zn.node.cfgGen, zn.node.cfgCrc, zn.cfg.gen, zn.cfg.crc)
                  else Ident(0, zn.node.hwCrc, 0, zn.hw.crc)
  {
    hide AfterClears, Scan, TakesPush, TakesWrite, SlotFree, Reachable, PushGenFor, CfgInSync, Latched, InLine;
    BranchIs(s);
    InvWfLength(s);
    var t := AfterClears(s);
    InvWfLength(t);
    AfterClearsAt(s, z);
    AutoIsInLine(s, a, z, kind);
    NotFreshOnceCleared(At(s, z), a.now);
    ScanOutcome(t, 0, a.now, a.sub, a.clock);
  }

  lemma NotFreshOnceCleared(zn: Zone, now: bv32)
    ensures zn.clear ==> !InLine(AfterClear(zn), now)
  {
    hide AtOrPast, ZeroCache;
  }

  /**
   Rule (b): once the ladder has run out at clock c, zone z is in line again exactly when it
   has been heard and answers and a tick comes at or past c + 30000; before that no automatic
   transfer of either plane starts for it. What lifts the rule is a drop of its caches or a
   write of its own carried out; and one clock value: 30 s before the millisecond counter
   wraps to 0 the mark is 0, which reads as no mark at all.
   */
  lemma CooldownIff(ss: seq<State>, acts: seq<Action>, i: nat, k: nat, z: nat)
    requires IsRun(ss, acts) && i < k < |acts| && IsZone(z)
    requires forall n :: 0 <= n <= k ==> Wf(ss[n]) && |ss[n].zones| == ZONES
    requires LeftAlone(ss, acts, i, k, z) && Early(acts, i, k)
    requires acts[k].TickAct? && !At(ss[k], z).clear
    ensures |AfterClears(ss[k]).zones| == ZONES
    ensures var zn, end := At(ss[k], z), Plus(ClockOf(acts[i]), 30000);
      InLine(At(AfterClears(ss[k]), z), acts[k].now) <==>
        zn.isFresh && zn.node.used && zn.node.health != OFFLINE && zn.node.health != UPDATING
        && (end == 0 || !Before(acts[k].now, end))
    ensures Plus(ClockOf(acts[i]), 30000) != 0 && Before(acts[k].now, Plus(ClockOf(acts[i]), 30000)) ==>
      forall kind: nat :: !AutoStarts(ss[k], acts[k], z, kind)
  {
    hide Plus, Inv, Enabled, Step, GivesUp, Drops, WritesIn, Wf, AutoStarts, AfterClears, LeftAlone, Early;
    MarkHolds(ss, acts, i, k, z);
    AfterClearsAt(ss[k], z);
    InvWfLength(AfterClears(ss[k]));
    var end := Plus(ClockOf(acts[i]), 30000);
    if end != 0 && Before(acts[k].now, end) {
      forall kind: nat ensures !AutoStarts(ss[k], acts[k], z, kind) {
        if AutoStarts(ss[k], acts[k], z, kind) { AutoIsInLine(ss[k], acts[k], z, kind); }
      }
    }
  }
}
