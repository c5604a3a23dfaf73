/**
 components/node_mgr/fleet_seq.c: the fleet update sequencer. One zone at a time goes
 PRECHECK -> WAIT_ACK -> WAIT_HB, and any failure or a pending cancel ends the run.
 Milliseconds are 32-bit words compared by signed difference, as in the source.
 */
module FleetSeq {
  import opened Wrappers

  const MAX_ZONES: nat := 8
  const HOLD_MS: bv32 := 180000
  const UPTIME_RESET_S: nat := 60

  datatype Fz = IDLE | PRECHECK | WAIT_ACK | WAIT_HB
  datatype Fw = Fw(maj: nat, min: nat, patch: nat)

  datatype Fleet = Fleet(
    zones: seq<nat>, idx: nat, active: bool, cancelReq: bool, st: Fz,
    deadline: bv32, ackMs: bv32, sq: nat, preFw: Fw)

  datatype Act = Started(zone: nat) | Failed(zone: nat) | Completed(zone: nat, fw: Fw)

  datatype Event =
    | Tick(now: bv32, imageOk: bool, online: bool, hbValid: bool, hbFw: Fw, hbUptime: nat, hbArrived: bv32)
    | Ack(seqNo: nat, ok: bool, now: bv32)
    | Submitted(submitted: bool, seqNo: nat, now: bv32, preFw: Fw)
    | Cancel

  /** (int32_t)(a - b) > 0 */
  predicate After(a: bv32, b: bv32) { a - b != 0 && a - b < 0x8000_0000 }

  /** (int32_t)(a - b) >= 0 */
  predicate NotBefore(a: bv32, b: bv32) { a - b < 0x8000_0000 }

  // ---------------- the machine as a function ----------------

  function Begin(zones: seq<nat>): Fleet {
    Fleet(zones, 0, true, false, PRECHECK, 0, 0, 0, Fw(0, 0, 0))
  }

  function Advance(s: Fleet, failed: bool): Fleet {
    if failed || s.cancelReq || s.idx + 1 >= |s.zones| then s.(active := false)
    else s.(idx := s.idx + 1, st := PRECHECK)
  }

  /** The heartbeat that ends an update: it arrived after the ACK, and shows a new build or a fresh boot. */
  predicate Rebooted(s: Fleet, e: Event)
    requires e.Tick?
  {
    e.hbValid && After(e.hbArrived, s.ackMs) && (e.hbFw != s.preFw || e.hbUptime < UPTIME_RESET_S)
  }

  function Next(s: Fleet, e: Event): (Fleet, Option<Act>)
    requires Ok(s)
  {
    if !s.active then (s, None)
    else
      var z := s.zones[s.idx];
      match e
      case Tick(now, imageOk, online, _, hbFw, _, _) =>
        if s.st == PRECHECK then
          if !imageOk || !online then (Advance(s, true), Some(Failed(z)))
          else (s.(st := WAIT_ACK), Some(Started(z)))
        else if s.st == WAIT_HB then
          if Rebooted(s, e) then (Advance(s, false), Some(Completed(z, hbFw)))
          else if NotBefore(now, s.deadline) then (Advance(s, true), Some(Failed(z)))
          else (s, None)
        else (s, None)
      case Ack(q, ok, now) =>
        if s.st != WAIT_ACK || q != s.sq then (s, None)
        else if !ok then (Advance(s, true), Some(Failed(z)))
        else (s.(st := WAIT_HB, ackMs := now), None)
      case Submitted(submitted, q, now, fw) =>
        if s.st != WAIT_ACK then (s, None)
        else if !submitted then (Advance(s, true), Some(Failed(z)))
        else (s.(sq := q, deadline := now + HOLD_MS, preFw := fw), None)
      case Cancel =>
        if s.st == PRECHECK then (s.(active := false), None) else (s.(cancelReq := true), None)
  }

  // ---------------- fleet_t and its functions ----------------

  class Sequencer {
    var zones: seq<nat>
    var idx: nat
    var active: bool
    var cancelReq: bool
    var st: Fz
    var deadline: bv32
    var ackMs: bv32
    var sq: nat
    var preFw: Fw

    ghost function Abs(): Fleet
      reads this
    {
      Fleet(zones, idx, active, cancelReq, st, deadline, ackMs, sq, preFw)
    }

    ghost predicate Valid()
      reads this
    {
      (active ==> idx < |zones|) && |zones| <= MAX_ZONES
    }

    constructor ()
      ensures Valid() && !active
    {
      zones, idx, active, cancelReq, st := [], 0, false, false, IDLE;
      deadline, ackMs, sq, preFw := 0, 0, 0, Fw(0, 0, 0);
    }

    method Start(list: seq<nat>) returns (rc: int)
      requires Valid()
      modifies this
      ensures Valid()
      ensures rc == (if old(active) then -2 else if list == [] || |list| > MAX_ZONES then -1 else 0)
      ensures Abs() == if rc == 0 then Begin(list) else old(Abs())
    {
      if active { return -2; }
      if |list| == 0 || |list| > MAX_ZONES { return -1; }
      zones, idx, cancelReq := list, 0, false;
      deadline, ackMs, sq, preFw := 0, 0, 0, Fw(0, 0, 0);
      active, st := true, PRECHECK;
      rc := 0;
    }

    method CancelRun()
      requires Valid()
      modifies this
      ensures Valid() && Abs() == Next(old(Abs()), Cancel).0
    {
      if !active { return; }
      if st == PRECHECK { active := false; } else { cancelReq := true; }
    }

    method AdvanceZone(failed: bool)
      requires Valid() && active
      modifies this`active, this`idx, this`st
      ensures Valid() && Abs() == Advance(old(Abs()), failed)
    {
      if failed || cancelReq || idx + 1 >= |zones| { active := false; return; }
      idx := idx + 1;
      st := PRECHECK;
    }

    method TickOnce(now: bv32, imageOk: bool, online: bool, hbValid: bool, hbFw: Fw, hbUptime: nat, hbArrived: bv32)
      returns (out: Option<Act>)
      requires Valid()
      modifies this
      ensures Valid() && (Abs(), out) == Next(old(Abs()), Tick(now, imageOk, online, hbValid, hbFw, hbUptime, hbArrived))
    {
      hide After, NotBefore;
      if !active { return None; }
      var z := zones[idx];
      if st == PRECHECK {
        if !imageOk || !online {
          AdvanceZone(true);
          return Some(Failed(z));
        }
        st := WAIT_ACK;
        return Some(Started(z));
      }
      if st == WAIT_HB {
        var recent := hbValid && After(hbArrived, ackMs);
        if recent && (hbFw != preFw || hbUptime < UPTIME_RESET_S) {
          AdvanceZone(false);
          return Some(Completed(z, hbFw));
        }
        if NotBefore(now, deadline) {
          AdvanceZone(true);
          return Some(Failed(z));
        }
      }
      return None;
    }

    method OnAck(seqNo: nat, ok: bool, now: bv32) returns (out: Option<Act>)
      requires Valid()
      modifies this
      ensures Valid() && (Abs(), out) == Next(old(Abs()), Ack(seqNo, ok, now))
    {
      if !active || st != WAIT_ACK || seqNo != sq { return None; }
      if !ok {
        var z := zones[idx];
        AdvanceZone(true);
        return Some(Failed(z));
      }
      st, ackMs := WAIT_HB, now;
      return None;
    }

    method NoteSubmitted(submitted: bool, seqNo: nat, now: bv32, fw: Fw) returns (out: Option<Act>)
      requires Valid()
      modifies this
      ensures Valid() && (Abs(), out) == Next(old(Abs()), Submitted(submitted, seqNo, now, fw))
    {
      if !active || st != WAIT_ACK { return None; }
      if !submitted {
        var z := zones[idx];
        AdvanceZone(true);
        return Some(Failed(z));
      }
      sq, deadline, preFw := seqNo, now + HOLD_MS, fw;
      return None;
    }
  }

  // ---------------- whole runs ----------------

  predicate Ok(s: Fleet) { s.active ==> s.idx < |s.zones| }

  lemma NextOk(s: Fleet, e: Event)
    requires Ok(s)
    ensures Ok(Next(s, e).0) && Next(s, e).0.zones == s.zones
  {
  }

  /** The state after the events, from a just-started run over `zones`. */
  function StateAfter(zones: seq<nat>, es: seq<Event>): (s: Fleet)
    requires zones != []
    ensures Ok(s) && s.zones == zones
  {
    if es == [] then Begin(zones)
    else
      var p := StateAfter(zones, es[..|es| - 1]);
      NextOk(p, es[|es| - 1]);
      Next(p, es[|es| - 1]).0
  }

  /** What event k makes the machine report. */
  function Report(zones: seq<nat>, es: seq<Event>, k: nat): Option<Act>
    requires zones != [] && k < |es|
  {
    Next(StateAfter(zones, es[..k]), es[k]).1
  }

  function Reports(zones: seq<nat>, es: seq<Event>): seq<Act>
    requires zones != []
  {
    if es == [] then []
    else
      var r := Report(zones, es, |es| - 1);
      Reports(zones, es[..|es| - 1]) + (if r.Some? then [r.value] else [])
  }

  // ---------------- what a run reports ----------------

  datatype Mark = S(zone: nat) | D(zone: nat) | F(zone: nat)

  function MarkOf(a: Act): Mark {
    match a
    case Started(z) => S(z)
    case Completed(z, _) => D(z)
    case Failed(z) => F(z)
  }

  function Marks(acts: seq<Act>): (r: seq<Mark>)
    ensures |r| == |acts|
  {
    seq(|acts|, i requires 0 <= i < |acts| => MarkOf(acts[i]))
  }

  /** The first k zones started and done, in the listed order. */
  function Ladder(zones: seq<nat>, k: nat): seq<Mark>
    requires k <= |zones|
  {
    if k == 0 then [] else Ladder(zones, k - 1) + [S(zones[k - 1]), D(zones[k - 1])]
  }

  /**
   All a run may have said so far. While it is active, exactly the finished zones and, if
   one is open, its START; once it is over, at most one zone short of its DONE, and FAILED
   last if at all.
   */
  ghost predicate Said(s: Fleet, m: seq<Mark>) {
    if s.active then
      s.idx < |s.zones| && s.st != IDLE
      && m == Ladder(s.zones, s.idx) + (if s.st == PRECHECK then [] else [S(s.zones[s.idx])])
    else
      exists k :: 0 <= k <= |s.zones| && Ended(s.zones, k, m)
  }

  ghost predicate Ended(zones: seq<nat>, k: nat, m: seq<Mark>)
    requires k <= |zones|
  {
    m == Ladder(zones, k)
    || (k < |zones| && (m == Ladder(zones, k) + [F(zones[k])] || m == Ladder(zones, k) + [S(zones[k]), F(zones[k])]))
  }

  lemma SaidStep(s: Fleet, m: seq<Mark>, e: Event)
    requires Ok(s) && Said(s, m)
    ensures var n := Next(s, e);
            Said(n.0, m + (if n.1.Some? then [MarkOf(n.1.value)] else []))
  {
    hide After, NotBefore;
    assert m + [] == m;
    if s.active {
      var l, z := Ladder(s.zones, s.idx), s.zones[s.idx];
      assert l + [S(z)] + [F(z)] == l + [S(z), F(z)];
      assert l + [S(z)] + [D(z)] == l + [S(z), D(z)] == Ladder(s.zones, s.idx + 1);
      assert l + [] == l && Ladder(s.zones, s.idx + 1) + [] == Ladder(s.zones, s.idx + 1);
      assert l + [F(z)] == m + [F(z)] || s.st != PRECHECK;
      var n := Next(s, e);
      if !n.0.active {
        var m' := m + (if n.1.Some? then [MarkOf(n.1.value)] else []);
        assert Ended(s.zones, s.idx, m') || Ended(s.zones, s.idx + 1, m');
      }
    }
  }

  /** START and DONE come in pairs, for the listed zones in order, with at most one zone open. */
  lemma {:induction false} RunSaid(zones: seq<nat>, es: seq<Event>)
    requires zones != []
    ensures Said(StateAfter(zones, es), Marks(Reports(zones, es)))
  {
    hide Said, Next, Ladder;
    if es == [] {
      SaidNothing(zones);
    } else {
      var front, e := es[..|es| - 1], es[|es| - 1];
      RunSaid(zones, front);
      SaidStep(StateAfter(zones, front), Marks(Reports(zones, front)), e);
      var r := Report(zones, es, |es| - 1);
      assert Reports(zones, es) == Reports(zones, front) + (if r.Some? then [r.value] else []);
      if r.Some? {
        assert Marks(Reports(zones, es)) == Marks(Reports(zones, front)) + [MarkOf(r.value)];
      } else {
        assert Reports(zones, es) == Reports(zones, front);
        assert Marks(Reports(zones, front)) + [] == Marks(Reports(zones, front));
      }
    }
  }

  lemma SaidNothing(zones: seq<nat>)
    requires zones != []
    ensures Said(Begin(zones), Marks([]))
  {
  }

  lemma {:induction false} LadderLength(zones: seq<nat>, k: nat)
    requires k <= |zones|
    ensures |Ladder(zones, k)| == 2 * k
    ensures forall i :: 0 <= i < 2 * k ==> !Ladder(zones, k)[i].F?
  {
    if k > 0 { LadderLength(zones, k - 1); }
  }

  /** Nothing is reported after the first FAILED, whatever happens next. */
  lemma NothingAfterFailed(zones: seq<nat>, es: seq<Event>, i: nat)
    requires zones != [] && i < |Reports(zones, es)| && Reports(zones, es)[i].Failed?
    ensures i == |Reports(zones, es)| - 1
    ensures !StateAfter(zones, es).active
  {
    hide StateAfter, Reports, Ladder;
    RunSaid(zones, es);
    var s, m := StateAfter(zones, es), Marks(Reports(zones, es));
    assert m[i].F?;
    if s.active {
      LadderLength(s.zones, s.idx);
    } else {
      var k :| 0 <= k <= |s.zones| && Ended(s.zones, k, m);
      LadderLength(s.zones, k);
    }
  }

  // ---------------- cancelling ----------------

  /** Once cancelled, a run is over or has a zone in flight it will not go past. */
  predicate Cancelled(s: Fleet) { !s.active || (s.cancelReq && s.st != PRECHECK) }

  lemma CancelSticks(s: Fleet, e: Event)
    requires Ok(s) && (Cancelled(s) || e == Cancel)
    ensures Cancelled(Next(s, e).0)
    ensures Next(s, e).1.None? || !Next(s, e).1.value.Started?
  {
    hide After, NotBefore;
  }

  lemma {:induction false} CancelledLater(zones: seq<nat>, es: seq<Event>, c: nat, k: nat)
    requires zones != [] && c < k <= |es| && es[c] == Cancel
    ensures Cancelled(StateAfter(zones, es[..k]))
  {
    hide Next, Cancelled;
    assert es[..k][..k - 1] == es[..k - 1];
    if k > c + 1 { CancelledLater(zones, es, c, k - 1); }
    CancelSticks(StateAfter(zones, es[..k - 1]), es[k - 1]);
  }

  /** After a cancel no further zone is ever started. */
  lemma NoStartAfterCancel(zones: seq<nat>, es: seq<Event>, c: nat, k: nat)
    requires zones != [] && c < k < |es| && es[c] == Cancel
    ensures Report(zones, es, k).None? || !Report(zones, es, k).value.Started?
  {
    hide Next, Cancelled, StateAfter;
    CancelledLater(zones, es, c, k);
    CancelSticks(StateAfter(zones, es[..k]), es[k]);
  }

  // ---------------- what a DONE stands for ----------------

  /** Event a is the accepted ACK of the zone that is open at event k. */
  ghost predicate AckedAt(zones: seq<nat>, es: seq<Event>, a: nat, k: nat)
    requires zones != [] && k <= |es|
  {
    && a < k && es[a].Ack? && es[a].ok
    && var p := StateAfter(zones, es[..a]);
       && p.active && p.st == WAIT_ACK && es[a].seqNo == p.sq
       && p.idx == StateAfter(zones, es[..k]).idx
  }

  /** WAIT_HB is entered only by the accepted ACK, and stays with the same zone and ACK time. */
  lemma IntoWaitHb(p: Fleet, e: Event)
    requires Ok(p) && Next(p, e).0.active && Next(p, e).0.st == WAIT_HB
    ensures p.active && p.idx == Next(p, e).0.idx
    ensures p.st == WAIT_HB ==> Next(p, e).0.ackMs == p.ackMs
    ensures p.st != WAIT_HB ==>
      p.st == WAIT_ACK && e.Ack? && e.ok && e.seqNo == p.sq && Next(p, e).0.ackMs == e.now
  {
    hide After, NotBefore;
  }

  lemma {:induction false} WaitHbHasAck(zones: seq<nat>, es: seq<Event>, k: nat)
    requires zones != [] && k <= |es|
    requires StateAfter(zones, es[..k]).active && StateAfter(zones, es[..k]).st == WAIT_HB
    ensures exists a: nat :: AckedAt(zones, es, a, k) && es[a].now == StateAfter(zones, es[..k]).ackMs
  {
    assert es[..0] == [];
    if k > 0 {
      hide Next;
      assert es[..k][..k - 1] == es[..k - 1];
      var p, s := StateAfter(zones, es[..k - 1]), StateAfter(zones, es[..k]);
      assert s == Next(p, es[k - 1]).0;
      IntoWaitHb(p, es[k - 1]);
      if p.st == WAIT_HB {
        WaitHbHasAck(zones, es, k - 1);
        var a: nat :| AckedAt(zones, es, a, k - 1) && es[a].now == p.ackMs;
        assert AckedAt(zones, es, a, k);
      } else {
        assert AckedAt(zones, es, k - 1, k);
      }
    }
  }

  /**
   DONE is reported only on a tick whose heartbeat arrived after the zone's own accepted
   ACK, and shows another firmware than before or less than a minute of uptime.
   */
  lemma DoneIsEarned(zones: seq<nat>, es: seq<Event>, k: nat)
    requires zones != [] && k < |es|
    requires Report(zones, es, k).Some? && Report(zones, es, k).value.Completed?
    ensures es[k].Tick? && es[k].hbValid
    ensures exists a: nat :: AckedAt(zones, es, a, k) && After(es[k].hbArrived, es[a].now)
    ensures es[k].hbFw != StateAfter(zones, es[..k]).preFw || es[k].hbUptime < UPTIME_RESET_S
    ensures Report(zones, es, k).value.fw == es[k].hbFw
  {
    hide After, NotBefore, StateAfter;
    WaitHbHasAck(zones, es, k);
  }

  // ---------------- whose ACK it is ----------------

  /** A START has been reported and its submit has not yet been noted; a cancel may slip in between. */
  predicate Owing(zones: seq<nat>, es: seq<Event>)
    requires zones != []
  {
    es != [] &&
    var last, k := es[|es| - 1], |es| - 1;
    if last == Cancel then Owing(zones, es[..k])
    else var r := Next(StateAfter(zones, es[..k]), last).1; r.Some? && r.value.Started?
  }

  /** How the glue drives the machine: it submits right after a START, and at no other time. */
  ghost predicate Driven(zones: seq<nat>, es: seq<Event>)
    requires zones != []
  {
    forall k :: 0 <= k < |es| ==> Dutiful(zones, es, k)
  }

  predicate Dutiful(zones: seq<nat>, es: seq<Event>, k: nat)
    requires zones != [] && k < |es|
  {
    if Owing(zones, es[..k]) then es[k] == Cancel || es[k].Submitted? else !es[k].Submitted?
  }

  /** Event b is the submit of the zone that is open at event k, and carried sequence number q. */
  ghost predicate SentAt(zones: seq<nat>, es: seq<Event>, b: nat, k: nat, q: nat)
    requires zones != [] && k <= |es|
  {
    b < k && es[b].Submitted? && es[b].submitted && es[b].seqNo == q
    && StateAfter(zones, es[..b]).active && StateAfter(zones, es[..b]).st == WAIT_ACK
    && StateAfter(zones, es[..b]).idx == StateAfter(zones, es[..k]).idx
  }

  lemma IntoWaitAck(p: Fleet, e: Event)
    requires Ok(p) && Next(p, e).0.active && Next(p, e).0.st == WAIT_ACK
    ensures p.active && p.idx == Next(p, e).0.idx
    ensures p.st == WAIT_ACK || (Next(p, e).1.Some? && Next(p, e).1.value.Started? && e != Cancel)
    ensures p.st == WAIT_ACK && e.Submitted? ==> e.submitted && Next(p, e).0.sq == e.seqNo
    ensures p.st == WAIT_ACK && !e.Submitted? ==> Next(p, e).0.sq == p.sq
  {
    hide After, NotBefore;
  }

  lemma {:induction false} WaitAckHasSubmit(zones: seq<nat>, es: seq<Event>, k: nat)
    requires zones != [] && k <= |es| && Driven(zones, es)
    requires StateAfter(zones, es[..k]).active && StateAfter(zones, es[..k]).st == WAIT_ACK
    requires !Owing(zones, es[..k])
    ensures exists b: nat :: SentAt(zones, es, b, k, StateAfter(zones, es[..k]).sq)
  {
    assert es[..0] == [];
    if k > 0 {
      hide Next;
      assert es[..k][..k - 1] == es[..k - 1];
      var p, s := StateAfter(zones, es[..k - 1]), StateAfter(zones, es[..k]);
      assert s == Next(p, es[k - 1]).0;
      IntoWaitAck(p, es[k - 1]);
      assert Dutiful(zones, es, k - 1);
      if es[k - 1].Submitted? {
        assert SentAt(zones, es, k - 1, k, s.sq);
      } else {
        WaitAckHasSubmit(zones, es, k - 1);
        var b: nat :| SentAt(zones, es, b, k - 1, p.sq);
        assert SentAt(zones, es, b, k, s.sq);
      }
    }
  }

  /** Driven by the glue, the ACK behind a DONE answers the very frame submitted for that zone. */
  lemma AckIsForOwnSubmit(zones: seq<nat>, es: seq<Event>, a: nat, k: nat)
    requires zones != [] && k <= |es| && Driven(zones, es) && AckedAt(zones, es, a, k)
    ensures exists b: nat :: SentAt(zones, es, b, a, es[a].seqNo)
  {
    hide Next, StateAfter;
    assert Dutiful(zones, es, a);
    WaitAckHasSubmit(zones, es, a);
  }

  // ---------------- how long a run can be ----------------

  function Phase(st: Fz): (r: nat)
    ensures r <= 2
  {
    match st
    case IDLE => 0
    case PRECHECK => 0
    case WAIT_ACK => 1
    case WAIT_HB => 2
  }

  /** Zones left first, phases left in the open zone second, as one number. */
  function Left(s: Fleet): nat
    requires Ok(s)
  {
    if s.active then 3 * (|s.zones| - s.idx) - Phase(s.st) else 0
  }

  predicate Moved(s: Fleet, s': Fleet) {
    s.active != s'.active || (s.active && (s.idx != s'.idx || s.st != s'.st))
  }

  /** Every phase change uses up a step; nothing gives one back. */
  lemma LeftDecreases(s: Fleet, e: Event)
    requires Ok(s)
    ensures Ok(Next(s, e).0)
    ensures Left(Next(s, e).0) <= Left(s)
    ensures Moved(s, Next(s, e).0) ==> Left(Next(s, e).0) < Left(s)
  {
    hide After, NotBefore;
  }

  function Moves(zones: seq<nat>, es: seq<Event>): nat
    requires zones != []
  {
    if es == [] then 0
    else
      var front := es[..|es| - 1];
      Moves(zones, front) + (if Moved(StateAfter(zones, front), StateAfter(zones, es)) then 1 else 0)
  }

  /** So a run over n zones changes phase at most 3n times, however many events it sees. */
  lemma {:induction false} MovesBounded(zones: seq<nat>, es: seq<Event>)
    requires zones != []
    ensures Moves(zones, es) + Left(StateAfter(zones, es)) <= 3 * |zones|
  {
    hide Next;
    if es != [] {
      MovesBounded(zones, es[..|es| - 1]);
      LeftDecreases(StateAfter(zones, es[..|es| - 1]), es[|es| - 1]);
    }
  }
}
