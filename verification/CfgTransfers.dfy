/**
 The life of one transfer: how it begins, how often it is submitted, what generation a
 push carries, when it ends, and what holds once the zone has applied it.
 */
module CfgTransfers {
  import opened Wrappers
  import opened Bytes
  import opened CfgEnvelope
  import opened RingTracker
  import opened CfgState
  import opened CfgInvariant
  import opened CfgSystem
  import opened CfgMoves
  import opened CfgAdopt
  import opened CfgLatch
  import ZoneModel
  import Forward

  // ---------------- one step of the slot ----------------

  predicate Retrying(st: CxSt) { st == RETRY_PULL || st == RETRY_PUSH }

  /** Submits the tracker has accepted for the transfer in the slot. */
  function Accepted(cx: Slot): int {
    if cx.st == IDLE then 0 else if Retrying(cx.st) then cx.attempt - 1 else cx.attempt
  }

  /** How much of the ladder is left: attempts first, phases of the attempt second. */
  function Rank(cx: Slot): int {
    if cx.st == IDLE then 0
    else 3 * (MAX_ATTEMPT - cx.attempt) + (if Retrying(cx.st) then 3 else if cx.st == PULL_STREAM then 1 else 2)
  }

  predicate Begins(s: State, a: Action)
    requires Wf(s)
  {
    a.TickAct? && Tick(s, a.now, a.expired, a.sub, a.clock).1.Began?
  }

  predicate Due(s: State, now: bv32) { Retrying(s.cx.st) && !Before(now, s.cx.retryAt) }

  /** The step submits a CFG_GET or CFG_COMMIT and the tracker takes it. */
  predicate Submits(s: State, a: Action)
    requires Wf(s)
  {
    a.TickAct? && a.sub.Some? && (Begins(s, a) || Due(AfterClears(s), a.now))
  }

  /** The tracker accepts, an answer arrives, or the stream comes to something. */
  predicate Answers(s: State, a: Action) {
    match a
    case TickAct(now, expired, sub, _) => (Due(s, now) && sub.Some?) || (s.cx.st == PULL_STREAM && expired)
    case CfgEvent(q, _, _) => Awaiting(s.cx.st) && q == s.cx.seqNo
    case ChunkIn(src, feed, _) => s.cx.st == PULL_STREAM && src == s.cx.zone && !feed.Partial?
    case _ => false
  }

  lemma CxTickRank(s: State, now: bv32, expired: bool, sub: Option<nat>, clock: bv32)
    requires Wf(s) && s.cx.st != IDLE
    ensures var cx := CxTick(s, now, expired, sub, clock).cx;
      && Rank(cx) <= Rank(s.cx)
      && (cx.st != IDLE ==> Accepted(cx) == Accepted(s.cx) + (if sub.Some? && Due(s, now) then 1 else 0))
      && (cx.st == IDLE ==> !Due(s, now))
      && ((Due(s, now) && sub.Some?) || (s.cx.st == PULL_STREAM && expired) ==> Rank(cx) < Rank(s.cx))
  {
    hide PushWire, Before, FailOrRetry;
    if s.cx.st == PULL_STREAM { FailSlot(s, false, false, clock); }
  }

  lemma OtherRank(s: State, a: Action)
    requires Enabled(s, a) && !a.TickAct?
    ensures var cx := Step(s, a).cx;
      && Rank(cx) <= Rank(s.cx)
      && (cx.st != IDLE ==> Accepted(cx) == Accepted(s.cx))
      && (Answers(s, a) ==> Rank(cx) < Rank(s.cx))
  {
    hide AfterClears, StoreCfg, AcceptPull, FailOrRetry, ZeroCache, Tick, TerminalReply, Forward.Arm,
      Forward.GiveUp, Forward.Adopt, Forward.OnEv, NoteSynced, Cancel;
    if s.cx.st != IDLE {
      if a.CfgEvent? {
        FailSlot(Answered(s, a.q), Pushing(s.cx.st), a.ev.Done? && Pushing(s.cx.st) && TerminalReply(a.ev.detail), a.clock);
      } else if a.ChunkIn? && s.cx.st == PULL_STREAM {
        FailSlot(s, false, false, a.clock);
        if a.feed.Complete? { AcceptPullSlot(s, a.feed.bytes, a.clock); }
      }
    }
  }

  /** A transfer starts only into an idle slot: idle already, or emptied by a clear of this very tick. */
  lemma BeginsIdle(s: State, a: Action)
    requires Enabled(s, a) && Begins(s, a)
    ensures AfterClears(s).cx == IDLE_SLOT
    ensures s.cx.st == IDLE || At(s, s.cx.zone).clear
    ensures var cx := Step(s, a).cx;
      cx.st != IDLE && cx.attempt == 1 && Accepted(cx) == (if Submits(s, a) then 1 else 0) && Rank(cx) <= 12
  {
    hide ClearMasked, CxTick, StartSet, Scan, StartPush, PushGenFor, FirstWrite, TakeWrite, Reachable, CxPush, Wf;
    WfSlot(s);
    ClearMaskedCx(s, 1);
    var t := AfterClears(s);
    WfSlot(t);
    InvWfLength(s);
    InvWfLength(t);
    match TickBranch(t, s.pushReq)
    case Transfer =>
    case Write => WriteSlot(t, a.sub, a.clock);
    case Manual => ManualSlot(t, s.pushReq, PushGenFor(At(t, s.pushReq)), PushIdent(At(t, s.pushReq)), a.sub, a.clock);
    case Auto => ScanOutcome(t, 0, a.now, a.sub, a.clock);
  }

  lemma WfSlot(s: State)
    requires Wf(s)
    ensures s.cx.st == IDLE ==> s.cx == IDLE_SLOT
    ensures s.cx.st != IDLE ==> IsZone(s.cx.zone) && 1 <= s.cx.attempt <= MAX_ATTEMPT
    ensures |s.zones| == ZONES
  {
  }

  lemma TickRank(s: State, a: Action)
    requires Enabled(s, a) && a.TickAct? && !Begins(s, a)
    ensures var cx := Step(s, a).cx;
      && Rank(cx) <= Rank(s.cx)
      && (cx.st != IDLE ==> SameTransfer(s.cx, cx) && Accepted(cx) == Accepted(s.cx) + (if Submits(s, a) then 1 else 0))
      && (cx.st == IDLE ==> !Submits(s, a))
      && (Answers(s, a) ==> Rank(cx) < Rank(s.cx))
  {
    hide AfterClears, CxTick, StartSet, Scan, StartPush, PushGenFor, FirstWrite, TakeWrite, Reachable, CxPush, Wf, Before;
    WfSlot(s);
    AfterClearsCx(s);
    var t := AfterClears(s);
    WfSlot(t);
    InvWfLength(s);
    InvWfLength(t);
    match TickBranch(t, s.pushReq)
    case Transfer =>
      CxTickSlot(t, a.now, a.expired, a.sub, a.clock);
      CxTickRank(t, a.now, a.expired, a.sub, a.clock);
    case Write =>
    case Manual =>
    case Auto => ScanOutcome(t, 0, a.now, a.sub, a.clock);
  }

  /** One step of a transfer that no step replaces by another. */
  lemma SlotStep(s: State, a: Action)
    requires Enabled(s, a) && !Begins(s, a)
    ensures var cx := Step(s, a).cx;
      && Rank(cx) <= Rank(s.cx)
      && (cx.st != IDLE ==> SameTransfer(s.cx, cx) && Accepted(cx) == Accepted(s.cx) + (if Submits(s, a) then 1 else 0))
      && (cx.st == IDLE ==> !Submits(s, a))
      && (Answers(s, a) ==> Rank(cx) < Rank(s.cx))
  {
    hide Step, Enabled, Begins, Answers, Rank, Accepted, SameTransfer, Wf;
    EnabledWf(s, a);
    if a.TickAct? {
      TickRank(s, a);
    } else {
      OtherRank(s, a);
      SlotZone(s, a);
    }
  }

  lemma EnabledWf(s: State, a: Action)
    requires Enabled(s, a)
    ensures Wf(s)
  {
  }

  // ---------------- whole transfers ----------------

  ghost predicate NoBegin(ss: seq<State>, acts: seq<Action>, b: nat, k: nat)
    requires k <= |ss| && k <= |acts|
  {
    forall n :: b <= n < k ==> Wf(ss[n]) && !Begins(ss[n], acts[n])
  }

  /** Accepted submits among the steps b to k - 1. */
  ghost function SubmitCount(ss: seq<State>, acts: seq<Action>, b: nat, k: nat): nat
    requires b <= k <= |ss| && k <= |acts|
    requires forall n :: b <= n < k ==> Wf(ss[n])
    decreases k
  {
    if k == b then 0
    else SubmitCount(ss, acts, b, k - 1) + (if Submits(ss[k - 1], acts[k - 1]) then 1 else 0)
  }

  ghost function AnswerCount(ss: seq<State>, acts: seq<Action>, b: nat, k: nat): nat
    requires b <= k <= |ss| && k <= |acts|
    decreases k
  {
    if k == b then 0 else AnswerCount(ss, acts, b, k - 1) + (if Answers(ss[k - 1], acts[k - 1]) then 1 else 0)
  }

  lemma AcceptedAtMost(s: State)
    requires Wf(s)
    ensures 0 <= Accepted(s.cx) <= MAX_ATTEMPT && 0 <= Rank(s.cx) <= 12
  {
  }

  lemma {:induction false} AllWf(ss: seq<State>, acts: seq<Action>)
    requires IsRun(ss, acts)
    ensures forall n :: 0 <= n < |ss| ==> Wf(ss[n])
  {
    hide Wf, Inv, Step, Enabled;
    forall n | 0 <= n < |ss| ensures Wf(ss[n]) { RunInv(ss, acts, n); }
  }

  /**
   A transfer gets at most four tracker-accepted submits; while it holds the slot its zone,
   plane, frozen identity and pushed generation never change.
   */
  lemma {:induction false} AtMostFourSubmits(ss: seq<State>, acts: seq<Action>, b: nat, k: nat)
    requires IsRun(ss, acts) && b < k <= |acts| && Wf(ss[b]) && Begins(ss[b], acts[b])
    requires NoBegin(ss, acts, b + 1, k)
    ensures forall n :: b <= n < k ==> Wf(ss[n])
    ensures SubmitCount(ss, acts, b, k) <= MAX_ATTEMPT
    ensures ss[k].cx.st != IDLE ==>
      SubmitCount(ss, acts, b, k) == Accepted(ss[k].cx) && SameTransfer(ss[b + 1].cx, ss[k].cx)
    decreases k
  {
    hide Wf, Inv, Step, Enabled, Begins, Submits, Rank, Accepted;
    AllWf(ss, acts);
    RunStep(ss, acts, k - 1);
    RunInv(ss, acts, k - 1);
    RunInv(ss, acts, k);
    AcceptedAtMost(ss[k]);
    if k == b + 1 {
      assert SubmitCount(ss, acts, b, b) == 0;
      BeginsIdle(ss[b], acts[b]);
      assert SubmitCount(ss, acts, b, k) == if Submits(ss[b], acts[b]) then 1 else 0;
    } else {
      AtMostFourSubmits(ss, acts, b, k - 1);
      assert !Begins(ss[k - 1], acts[k - 1]);
      SlotStep(ss[k - 1], acts[k - 1]);
    }
  }

  lemma {:induction false} AnswersUseRank(ss: seq<State>, acts: seq<Action>, b: nat, k: nat)
    requires IsRun(ss, acts) && b <= k <= |acts| && NoBegin(ss, acts, b, k)
    ensures AnswerCount(ss, acts, b, k) + Rank(ss[k].cx) <= Rank(ss[b].cx)
    decreases k
  {
    hide Wf, Inv, Step, Enabled, Begins, Answers, Rank;
    if k > b {
      RunStep(ss, acts, k - 1);
      RunInv(ss, acts, k - 1);
      AnswersUseRank(ss, acts, b, k - 1);
      SlotStep(ss[k - 1], acts[k - 1]);
    }
  }

  /** As long as the tracker accepts and answers, a transfer is over after at most twelve such steps. */
  lemma TransferEnds(ss: seq<State>, acts: seq<Action>, b: nat, k: nat)
    requires IsRun(ss, acts) && b <= k <= |acts| && NoBegin(ss, acts, b, k)
    requires AnswerCount(ss, acts, b, k) >= 12
    ensures ss[k].cx == IDLE_SLOT
  {
    hide Inv, Step, Enabled, Begins, Answers;
    RunInv(ss, acts, b);
    RunInv(ss, acts, k);
    AcceptedAtMost(ss[b]);
    AnswersUseRank(ss, acts, b, k);
  }

  /**
   The cache takes a pushed config over only on the ACK of the very commit the slot awaits:
   that frame is the one in the tracker, and it carried the bytes that become the cache.
   */
  lemma AckIsForCurrentCommit(s: State, q: nat, ev: TrkEv, clock: bv32, z: nat, r: State)
    requires |s.zones| == |r.zones| == ZONES && IsZone(z) && q in s.trk
    requires Inv(s) && r == OnEv(Answered(s, q), q, ev, clock)
    requires At(r, z).cfg != At(s, z).cfg
    ensures ev.Done? && ev.status == 0 && q == s.cx.seqNo && s.cx.zone == z
    ensures s.trk[q].frame == Commit(z, s.cx.pushGen, s.wire)
    ensures At(r, z).cfg.blob == s.wire
  {
    hide ZoneOk, PushWire, StoreCfg, OnEv;
    EventZone(s, q, ev, clock, z);
    PushedWire(At(s, z).cfg, s.cx.pushGen);
  }

  lemma PushedWire(c: Cache, gen: u32)
    requires |c.blob| == BLOB_LEN
    ensures StoreCfg(gen, Stamp(Inner(c.blob), gen)).blob == PushWire(c, gen)
  {
  }

  // ---------------- generations ----------------

  /** Below the wrap, a newly decided push is ahead of both heartbeat and cache. */
  lemma PushGenAhead(zn: Zone)
    requires HbGen(zn.node) != GEN_MAX && zn.cfg.gen != GEN_MAX
    ensures PushGenFor(zn) > HbGen(zn.node) && PushGenFor(zn) > zn.cfg.gen
  {
  }

  /** Whichever way a push begins, it carries that generation, and its commit frame says so. */
  lemma PushBeginsAhead(s: State, a: Action, z: nat)
    requires Inv(s) && Enabled(s, a) && IsZone(z) && Starts(s, a, z) && StartedAs(s, a, z).push
    ensures Step(s, a).cx.pushGen == PushGenFor(AfterClear(At(s, z))) && Pushing(Step(s, a).cx.st)
    ensures Awaiting(Step(s, a).cx.st) ==>
      var t := Step(s, a); t.cx.seqNo in t.trk && t.trk[t.cx.seqNo].frame == Commit(z, t.cx.pushGen, t.wire)
  {
    hide Inv, Step, Enabled, Starts, StartedAs, PushGenFor, AfterClear;
    InvWf(s);
    InvStep(s, a);
    PushSlot(s, a, z);
    AwaitedFrame(Step(s, a));
  }

  lemma PushSlot(s: State, a: Action, z: nat)
    requires Inv(s) && Enabled(s, a) && IsZone(z) && Starts(s, a, z) && StartedAs(s, a, z).push
    ensures var cx := Step(s, a).cx; Pushing(cx.st) && cx.zone == z && cx.pushGen == PushGenFor(AfterClear(At(s, z)))
  {
    hide Inv, AfterClears, CxTick, StartSet, Scan, StartPush, PushGenFor, FirstWrite, TakeWrite, Reachable, CxPush, AfterClear;
    InvWf(s);
    var t := AfterClears(s);
    InvWfLength(t);
    AfterClearsAt(s, z);
    match TickBranch(t, s.pushReq)
    case Transfer =>
    case Write => WriteSlot(t, a.sub, a.clock);
    case Manual => ManualSlot(t, s.pushReq, PushGenFor(At(t, s.pushReq)), PushIdent(At(t, s.pushReq)), a.sub, a.clock);
    case Auto => ScanOutcome(t, 0, a.now, a.sub, a.clock);
  }

  lemma AwaitedFrame(s: State)
    requires Inv(s)
    ensures Awaiting(s.cx.st) ==> s.cx.seqNo in s.trk && s.trk[s.cx.seqNo].frame == SlotFrame(s.cx, s.wire)
  {
    hide ZoneOk, PushWire, SlotFrame;
  }

  // ---------------- convergence ----------------

  /** The row after a heartbeat of a zone whose config is p. */
  function Heard(nd: Node, p: Payload): Node {
    nd.(used := true, cfgGen := ZoneModel.CfgInfoOf(p).0, cfgCrc := ZoneModel.CfgInfoOf(p).1)
  }

  /**
   If the zone applied the acknowledged bytes verbatim, its next heartbeat equals the
   cache's identity.
   */
  lemma AckedPushInSync(s: State, q: nat, ev: TrkEv, clock: bv32, z: nat)
    requires Inv(s) && q in s.trk && IsZone(z) && PushAcked(s, q, ev) && s.cx.zone == z
    ensures Wf(s) && |OnEv(Answered(s, q), q, ev, clock).zones| == ZONES
    ensures var zn := At(OnEv(Answered(s, q), q, ev, clock), z);
      zn.cfg.valid && zn.latch.None? && CfgInSync(zn.(node := Heard(zn.node, Inner(s.wire))))
  {
    hide ZoneOk, StoreCfg, SlotFrame, PayloadCrc, EmbeddedGen, CfgBlob, Stamp, OnEv;
    EventZone(s, q, ev, clock, z);
    var p, gen := Inner(At(s, z).cfg.blob), s.cx.pushGen;
    InnerOfBlob(gen, Stamp(p, gen));
    StampKeeps(p, gen);
  }

  /** The same for a pull: what the zone sent is what its heartbeat reports, if the envelope names its generation. */
  lemma PulledInSync(zn: Zone, gen: u32, p: Payload)
    requires EmbeddedGen(p) == gen
    ensures CfgInSync(zn.(cfg := StoreCfg(gen, p), node := Heard(zn.node, p)))
  {
  }

  /** In sync is a fixpoint: no tick decides a transfer of the CFG plane for such a zone by itself. */
  lemma InSyncIsFixpoint(s: State, a: Action, z: nat)
    requires Inv(s) && Enabled(s, a) && IsZone(z) && a.TickAct?
    requires At(s, z).cfg.valid && CfgInSync(At(s, z)) && !At(s, z).clear
    ensures Wf(s) && !AutoStarts(s, a, z, 1)
  {
    hide Inv, AfterClears, CxTick, StartSet, Scan, StartPush, PushGenFor, FirstWrite, TakeWrite, Reachable, CxPush;
    InvWf(s);
    var t := AfterClears(s);
    InvWfLength(t);
    AfterClearsAt(s, z);
    BranchIs(s);
    if TakesScan(s) { ScanOutcome(t, 0, a.now, a.sub, a.clock); }
  }

  /** A local edit on the zone takes it out of sync again: the reported generation moves. */
  lemma EditLeavesSync(zn: Zone, was: Payload, work: Payload)
    requires EmbeddedGen(work) == EmbeddedGen(was)
    requires CfgInSync(zn.(node := Heard(zn.node, was)))
    ensures !CfgInSync(zn.(node := Heard(zn.node, ZoneModel.Edited(was, work))))
  {
    hide PayloadCrc, EmbeddedGen, ZoneModel.Edited;
    ZoneModel.EditShows(was, work);
  }
}
