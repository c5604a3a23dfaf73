/**
 Why the fleet sequencer (components/node_mgr/fleet_seq.c) reports what it reports, told from
 the events it was given and its own reports so far, without its phase, timers or counters.
 */
module FleetLog {
  import opened Wrappers
  import opened FleetSeq

  // ---------------- where a run stands ----------------

  function MarksOf(zones: seq<nat>, es: seq<Event>): seq<Mark>
    requires zones != []
  {
    Marks(Reports(zones, es))
  }

  /** The last report is a START: that zone's update is under way. */
  predicate Open(m: seq<Mark>) { m != [] && m[|m| - 1].S? }

  /** Nothing has failed, and either a zone is under way or one is left and nobody has cancelled. */
  predicate Running(zones: seq<nat>, es: seq<Event>)
    requires zones != []
  {
    var m := MarksOf(zones, es);
    && (forall i :: 0 <= i < |m| ==> !m[i].F?)
    && (Open(m) || (|m| < 2 * |zones| && Cancel !in es))
  }

  /** A zone is under way and has not yet acknowledged. */
  predicate AwaitsAck(zones: seq<nat>, es: seq<Event>)
    requires zones != []
  {
    Running(zones, es) && Open(MarksOf(zones, es)) && Acked(zones, es).None?
  }

  predicate AwaitsBoot(zones: seq<nat>, es: seq<Event>)
    requires zones != []
  {
    Running(zones, es) && Open(MarksOf(zones, es)) && Acked(zones, es).Some?
  }

  /** The event at which the zone under way acknowledged, if it has. */
  function Acked(zones: seq<nat>, es: seq<Event>): (a: Option<nat>)
    requires zones != []
    ensures a.Some? ==> a.value < |es| && es[a.value].Ack?
    decreases |es|, 0
  {
    if es == [] then None
    else
      var k := |es| - 1;
      if Report(zones, es, k).Some? then None
      else if Acked(zones, es[..k]).Some? then Acked(zones, es[..k])
      else if Running(zones, es[..k]) && Open(MarksOf(zones, es[..k])) && es[k].Ack? && es[k].ok
              && es[k].seqNo == Number(zones, es[..k]) then Some(k)
      else None
  }

  /** The accepted submit noted last. */
  function Noted(zones: seq<nat>, es: seq<Event>): (n: Option<nat>)
    requires zones != []
    ensures n.Some? ==> n.value < |es| && es[n.value].Submitted?
    decreases |es|, 0
  {
    if es == [] then None
    else
      var k := |es| - 1;
      if es[k].Submitted? && es[k].submitted
         && Running(zones, es[..k]) && Open(MarksOf(zones, es[..k])) && Acked(zones, es[..k]).None? then Some(k)
      else Noted(zones, es[..k])
  }

  /** The sequence number the ACK has to carry. */
  function Number(zones: seq<nat>, es: seq<Event>): nat
    requires zones != []
    decreases |es|, 1
  {
    match Noted(zones, es)
    case None => 0
    case Some(n) => es[n].seqNo
  }

  /** When the update is given up: three minutes after the submit. */
  function Deadline(zones: seq<nat>, es: seq<Event>): bv32
    requires zones != []
  {
    match Noted(zones, es)
    case None => 0
    case Some(n) => es[n].now + 180000
  }

  /** The build the zone ran when its update was submitted. */
  function BuildBefore(zones: seq<nat>, es: seq<Event>): Fw
    requires zones != []
  {
    match Noted(zones, es)
    case None => Fw(0, 0, 0)
    case Some(n) => es[n].preFw
  }

  /** The heartbeat the tick sees shows the update: received after the ACK, and of another build or a fresh boot. */
  predicate Shows(zones: seq<nat>, es: seq<Event>, e: Event)
    requires zones != [] && e.Tick? && Acked(zones, es).Some?
  {
    && e.hbValid && After(e.hbArrived, es[Acked(zones, es).value].now)
    && (e.hbFw != BuildBefore(zones, es) || e.hbUptime < 60)
  }

  // ---------------- the machine against its log ----------------

  /** What the log comes to, as values. */
  datatype View = View(m: seq<Mark>, cancelled: bool, acked: Option<bv32>, number: nat, deadline: bv32, build: Fw)

  function ViewOf(zones: seq<nat>, es: seq<Event>): View
    requires zones != []
  {
    View(MarksOf(zones, es), Cancel in es,
         match Acked(zones, es) { case None => None case Some(a) => Some(es[a].now) },
         Number(zones, es), Deadline(zones, es), BuildBefore(zones, es))
  }

  predicate Alive(v: View, n: nat) {
    (forall i :: 0 <= i < |v.m| ==> !v.m[i].F?) && (Open(v.m) || (|v.m| < 2 * n && !v.cancelled))
  }

  predicate WaitsAck(v: View, n: nat) { Alive(v, n) && Open(v.m) && v.acked.None? }

  function Later(v: View, n: nat, e: Event, r: Option<Act>): View {
    var u := v.(m := v.m + (if r.Some? then [MarkOf(r.value)] else []), cancelled := v.cancelled || e == Cancel,
                acked := if r.Some? then None
                         else if v.acked.Some? then v.acked
                         else if WaitsAck(v, n) && e.Ack? && e.ok && e.seqNo == v.number then Some(e.now) else None);
    if WaitsAck(v, n) && e.Submitted? && e.submitted then
      u.(number := e.seqNo, deadline := e.now + 180000, build := e.preFw)
    else u
  }

  /** The machine's state is what the log tells. */
  ghost predicate Tells(v: View, s: Fleet) {
    && (s.active <==> Alive(v, |s.zones|))
    && (s.active ==>
          && s.st != IDLE && s.idx < |s.zones| && (s.cancelReq <==> v.cancelled)
          && |v.m| == 2 * s.idx + (if s.st == PRECHECK then 0 else 1) && (s.st == PRECHECK <==> !Open(v.m))
          && (s.st == PRECHECK ==> v.acked.None?)
          && (s.st == WAIT_HB <==> v.acked.Some?) && (s.st == WAIT_HB ==> s.ackMs == v.acked.value)
          && s.sq == v.number && s.deadline == v.deadline && s.preFw == v.build)
  }

  lemma Snoc(es: seq<Event>)
    requires es != []
    ensures forall e :: e in es <==> e in es[..|es| - 1] || e == es[|es| - 1]
  {
    assert es[..|es| - 1] + [es[|es| - 1]] == es;
  }

  lemma MarksNext(zones: seq<nat>, es: seq<Event>)
    requires zones != [] && es != []
    ensures var front, r := es[..|es| - 1], Report(zones, es, |es| - 1);
      MarksOf(zones, es) == MarksOf(zones, front) + (if r.Some? then [MarkOf(r.value)] else [])
  {
    hide Report;
  }

  lemma ViewNext(zones: seq<nat>, es: seq<Event>)
    requires zones != [] && es != []
    ensures ViewOf(zones, es)
         == Later(ViewOf(zones, es[..|es| - 1]), |zones|, es[|es| - 1], Report(zones, es, |es| - 1))
  {
    hide MarksOf, Report, Open, Acked, Number, Deadline, BuildBefore, Running, Alive;
    MarksNext(zones, es);
    Snoc(es);
    AckNext(zones, es);
    NotesNext(zones, es);
    WaitsIff(zones, es[..|es| - 1]);
  }

  lemma WaitsIff(zones: seq<nat>, es: seq<Event>)
    requires zones != []
    ensures Running(zones, es) <==> Alive(ViewOf(zones, es), |zones|)
    ensures AwaitsAck(zones, es) <==> WaitsAck(ViewOf(zones, es), |zones|)
  {
    hide MarksOf, Open, Acked, Number, Deadline, BuildBefore;
  }

  /** The time of the ACK, one event on. */
  lemma AckNext(zones: seq<nat>, es: seq<Event>)
    requires zones != [] && es != []
    ensures var k := |es| - 1;
            var front, e := es[..k], es[k];
            var was := match Acked(zones, front) { case None => None case Some(a) => Some(front[a].now) };
      (match Acked(zones, es) { case None => None case Some(a) => Some(es[a].now) }) ==
        if Report(zones, es, k).Some? then None
        else if Acked(zones, front).Some? then was
        else if AwaitsAck(zones, front) && e.Ack? && e.ok && e.seqNo == Number(zones, front) then Some(e.now)
        else None
  {
    hide Running, Open, MarksOf, Report, Number;
  }

  /** The number, deadline and build noted, one event on. */
  lemma NotesNext(zones: seq<nat>, es: seq<Event>)
    requires zones != [] && es != []
    ensures var k := |es| - 1;
            var front, e := es[..k], es[k];
      if AwaitsAck(zones, front) && e.Submitted? && e.submitted then
        Number(zones, es) == e.seqNo && Deadline(zones, es) == e.now + 180000 && BuildBefore(zones, es) == e.preFw
      else
        Number(zones, es) == Number(zones, front) && Deadline(zones, es) == Deadline(zones, front)
        && BuildBefore(zones, es) == BuildBefore(zones, front)
  {
    hide Running, Open, MarksOf, Acked;
  }

  lemma Opened(m: seq<Mark>, x: Mark)
    ensures Open(m + [x]) <==> x.S?
    ensures |m + [x]| == |m| + 1
    ensures (forall i :: 0 <= i < |m + [x]| ==> !(m + [x])[i].F?) <==> (forall i :: 0 <= i < |m| ==> !m[i].F?) && !x.F?
  {
    if !x.F? && forall i :: 0 <= i < |m| ==> !m[i].F? {
      forall i | 0 <= i < |m + [x]| ensures !(m + [x])[i].F? { if i < |m| { assert (m + [x])[i] == m[i]; } }
    }
    if forall i :: 0 <= i < |m + [x]| ==> !(m + [x])[i].F? {
      forall i | 0 <= i < |m| ensures !m[i].F? { assert (m + [x])[i] == m[i]; }
      assert (m + [x])[|m|] == x;
    }
  }

  lemma AliveNext(v: View, n: nat, e: Event, r: Option<Act>)
    ensures var u := Later(v, n, e, r);
      && (r.None? ==> u.m == v.m && (Alive(u, n) <==> Alive(v, n) && (Open(v.m) || e != Cancel)))
      && (r.Some? && Alive(v, n) ==>
            && u.m == v.m + [MarkOf(r.value)] && |u.m| == |v.m| + 1 && (Open(u.m) <==> r.value.Started?)
            && (Alive(u, n) <==>
                  r.value.Started? || (r.value.Completed? && |v.m| + 1 < 2 * n && !v.cancelled && e != Cancel)))
  {
    if r.Some? { Opened(v.m, MarkOf(r.value)); } else { assert v.m + [] == v.m; }
  }

  lemma TellsOver(v: View, s: Fleet, e: Event)
    requires Tells(v, s) && !s.active
    ensures Tells(Later(v, |s.zones|, e, None), s)
  {
    hide Later, Alive;
    AliveNext(v, |s.zones|, e, None);
  }

  lemma TellsTick(v: View, s: Fleet, e: Event)
    requires Ok(s) && Tells(v, s) && s.active && e.Tick?
    ensures Tells(Later(v, |s.zones|, e, Next(s, e).1), Next(s, e).0)
  {
    hide After, NotBefore, Rebooted, Open, Alive;
    AliveNext(v, |s.zones|, e, Next(s, e).1);
  }

  lemma TellsAck(v: View, s: Fleet, e: Event)
    requires Ok(s) && Tells(v, s) && s.active && e.Ack?
    ensures Tells(Later(v, |s.zones|, e, Next(s, e).1), Next(s, e).0)
  {
    hide Open, Alive;
    AliveNext(v, |s.zones|, e, Next(s, e).1);
  }

  lemma TellsSubmitted(v: View, s: Fleet, e: Event)
    requires Ok(s) && Tells(v, s) && s.active && e.Submitted?
    ensures Tells(Later(v, |s.zones|, e, Next(s, e).1), Next(s, e).0)
  {
    hide Open, Alive;
    AliveNext(v, |s.zones|, e, Next(s, e).1);
  }

  lemma TellsCancel(v: View, s: Fleet)
    requires Ok(s) && Tells(v, s) && s.active
    ensures Tells(Later(v, |s.zones|, Cancel, Next(s, Cancel).1), Next(s, Cancel).0)
  {
    hide Open, Alive;
    AliveNext(v, |s.zones|, Cancel, None);
  }

  /** The next state of a machine that is what its log tells. */
  lemma TellsStep(v: View, s: Fleet, e: Event)
    requires Ok(s) && Tells(v, s)
    ensures Tells(Later(v, |s.zones|, e, Next(s, e).1), Next(s, e).0)
  {
    hide Tells, Later;
    if !s.active {
      TellsOver(v, s, e);
    } else {
      match e
      case Tick(_, _, _, _, _, _, _) => TellsTick(v, s, e);
      case Ack(_, _, _) => TellsAck(v, s, e);
      case Submitted(_, _, _, _) => TellsSubmitted(v, s, e);
      case Cancel => TellsCancel(v, s);
    }
  }

  lemma {:induction false} LogTells(zones: seq<nat>, es: seq<Event>)
    requires zones != []
    ensures Tells(ViewOf(zones, es), StateAfter(zones, es))
  {
    hide Tells, ViewOf, Next;
    if es == [] {
      FreshTells(zones);
    } else {
      LogTells(zones, es[..|es| - 1]);
      TellsStep(ViewOf(zones, es[..|es| - 1]), StateAfter(zones, es[..|es| - 1]), es[|es| - 1]);
      ViewNext(zones, es);
    }
  }

  lemma FreshTells(zones: seq<nat>)
    requires zones != []
    ensures Tells(ViewOf(zones, []), Begin(zones))
  {
  }

  // ---------------- every report and its reason ----------------

  predicate WaitsBoot(v: View, n: nat) { Alive(v, n) && Open(v.m) && v.acked.Some? }

  /** The heartbeat, against the noted values. */
  predicate Boots(v: View, e: Event)
    requires e.Tick? && v.acked.Some?
  {
    && e.hbValid && After(e.hbArrived, v.acked.value)
    && (e.hbFw != v.build || e.hbUptime < 60)
  }

  lemma RebootedIs(s: Fleet, v: View, e: Event)
    requires e.Tick? && v.acked.Some? && s.ackMs == v.acked.value && s.preFw == v.build
    ensures Rebooted(s, e) <==> Boots(v, e)
  {
    hide After;
  }

  /** The wrap-safe comparisons: d ms later is at or past, and past unless d is 0, up to 2^31 ms. */
  lemma TimesMean(t: bv32, d: bv32)
    ensures NotBefore(t + d, t) <==> d < 0x8000_0000
    ensures After(t + d, t) <==> d != 0 && d < 0x8000_0000
  {
    AheadBy(t, d);
  }

  lemma AheadBy(t: bv32, d: bv32)
    ensures (t + d) - t == d
  {
  }

  lemma TickWhy(v: View, s: Fleet, e: Event)
    requires Ok(s) && Tells(v, s) && e.Tick?
    ensures var r, n := Next(s, e).1, |s.zones|;
      && (r.Some? && r.value.Started? <==> Alive(v, n) && !Open(v.m) && e.imageOk && e.online)
      && (r.Some? && r.value.Failed? <==>
            (Alive(v, n) && !Open(v.m) && !(e.imageOk && e.online))
            || (WaitsBoot(v, n) && !Boots(v, e) && NotBefore(e.now, v.deadline)))
      && (r.Some? && r.value.Completed? <==> WaitsBoot(v, n) && Boots(v, e))
      && (r.Some? ==> |v.m| / 2 < n && r.value.zone == s.zones[|v.m| / 2] && (r.value.Completed? ==> r.value.fw == e.hbFw))
  {
    hide After, NotBefore, Rebooted, Boots, Open, Alive;
    if s.active && s.st == WAIT_HB { RebootedIs(s, v, e); }
  }

  lemma OtherWhy(v: View, s: Fleet, e: Event)
    requires Ok(s) && Tells(v, s) && !e.Tick?
    ensures var r, n := Next(s, e).1, |s.zones|;
      && (r.Some? <==> WaitsAck(v, n) && ((e.Submitted? && !e.submitted) || (e.Ack? && !e.ok && e.seqNo == v.number)))
      && (r.Some? ==> r.value.Failed? && |v.m| / 2 < n && r.value.zone == s.zones[|v.m| / 2])
  {
    hide Open, Alive;
  }

  lemma ShowsIs(zones: seq<nat>, es: seq<Event>, e: Event)
    requires zones != [] && e.Tick?
    ensures AwaitsBoot(zones, es) <==> WaitsBoot(ViewOf(zones, es), |zones|)
    ensures AwaitsBoot(zones, es) ==> (Shows(zones, es, e) <==> Boots(ViewOf(zones, es), e))
  {
    hide MarksOf, Open, Number, Deadline, BuildBefore, Running, Alive, After, Acked;
    WaitsIff(zones, es);
  }

  /**
   Exactly when event k makes the machine report, and what. START: a tick, the run goes on and
   no zone is under way, with the image good and the zone ONLINE. FAILED: such a tick without
   one of the two; or, of the zone under way, a submit the tracker refused, an ACK that says
   no, or a tick at or past three minutes after the submit that shows no update. DONE: a tick
   that shows the update.
   */
  lemma ReportIff(zones: seq<nat>, es: seq<Event>, k: nat)
    requires zones != [] && k < |es|
    ensures var p, e, r := es[..k], es[k], Report(zones, es, k);
            var m := MarksOf(zones, p);
      && (r.Some? && r.value.Started? <==> e.Tick? && Running(zones, p) && !Open(m) && e.imageOk && e.online)
      && (r.Some? && r.value.Failed? <==>
            (e.Tick? && Running(zones, p) && !Open(m) && !(e.imageOk && e.online))
            || (e.Submitted? && AwaitsAck(zones, p) && !e.submitted)
            || (e.Ack? && AwaitsAck(zones, p) && !e.ok && e.seqNo == Number(zones, p))
            || (e.Tick? && AwaitsBoot(zones, p) && !Shows(zones, p, e) && NotBefore(e.now, Deadline(zones, p))))
      && (r.Some? && r.value.Completed? <==> e.Tick? && AwaitsBoot(zones, p) && Shows(zones, p, e))
      && (r.Some? ==>
            |m| / 2 < |zones| && r.value.zone == zones[|m| / 2] && (r.value.Completed? ==> e.Tick? && r.value.fw == e.hbFw))
  {
    hide StateAfter, Number, Deadline, BuildBefore, MarksOf, Open, Running, Alive, Acked, Tells, Next, Shows, Boots,
      NotBefore, AwaitsAck, WaitsAck, AwaitsBoot, WaitsBoot;
    LogTells(zones, es[..k]);
    WaitsIff(zones, es[..k]);
    var v, s := ViewOf(zones, es[..k]), StateAfter(zones, es[..k]);
    if es[k].Tick? {
      ShowsIs(zones, es[..k], es[k]);
      TickWhy(v, s, es[k]);
    } else {
      OtherWhy(v, s, es[k]);
    }
  }

  /** The run is over exactly when the log says so. */
  lemma ActiveIff(zones: seq<nat>, es: seq<Event>)
    requires zones != []
    ensures StateAfter(zones, es).active <==> Running(zones, es)
  {
    hide StateAfter, MarksOf;
    LogTells(zones, es);
  }
}
