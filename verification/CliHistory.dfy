/**
 The history of the line editor (components/cli_line/cli_line.c): what the ring stands
 for, and how arrow keys move through it and back.
 */
module CliHistory {
  import opened CliLine

  // ---------------- the ring as a list ----------------

  /** The remembered lines, newest first. */
  function History(l: Line): (h: seq<seq<Byte>>)
    requires RingOk(l)
    ensures |h| == l.count
  {
    seq(l.count, i requires 0 <= i < l.count => l.ring[RingIndex(l.next, i)])
  }

  lemma AfterPush(next: nat, i: nat)
    requires next < HIST_N
    ensures RingIndex((next + 1) % HIST_N, 0) == next
    ensures 1 <= i < HIST_N ==> RingIndex((next + 1) % HIST_N, i) == RingIndex(next, i - 1) != next
  {
  }

  function Newest(h: seq<seq<Byte>>, n: nat): seq<seq<Byte>> { if |h| <= n then h else h[..n] }

  /** A line joins the history unless it is empty or the newest entry says exactly the same. */
  predicate Captures(h: seq<seq<Byte>>, text: seq<Byte>) { text != [] && (h == [] || h[0] != text) }

  lemma PushIsCons(l: Line)
    requires RingOk(l)
    ensures RingOk(HistPush(l))
    ensures History(HistPush(l)) ==
      if Captures(History(l), l.text) then Newest([Cut(l.text)] + History(l), HIST_N) else History(l)
  {
    hide Cut;
    var h, m := History(l), HistPush(l);
    if Captures(h, l.text) {
      AfterPush(l.next, 0);
      var g := History(m);
      forall i | 0 <= i < |g| ensures g[i] == ([Cut(l.text)] + h)[i] {
        AfterPush(l.next, i);
        if i > 0 { assert g[i] == l.ring[RingIndex(l.next, i - 1)] == h[i - 1]; }
      }
      assert g == Newest([Cut(l.text)] + h, HIST_N);
    }
  }

  // ---------------- the ring against everything ever captured ----------------

  /** One key: the byte and the time it was fed. */
  datatype Key = Key(b: Byte, now: bv32)

  /** The editor as the console loop drives it: a finished line is taken at once. */
  function Drive(l: Line, k: Key): (r: Line)
    requires Valid(l)
    ensures Valid(r) && r.echo == l.echo
  {
    FeedValid(l, k.b, k.now);
    var f := Feed(l, k.b, k.now);
    if f.evt == LINE then Take(f.line) else f.line
  }

  function DriveAll(l: Line, ks: seq<Key>): (r: Line)
    requires Valid(l)
    ensures Valid(r) && r.echo == l.echo
  {
    if ks == [] then l else Drive(DriveAll(l, ks[..|ks| - 1]), ks[|ks| - 1])
  }

  /** The line the key finishes in human mode, if it finishes one. */
  predicate Finishes(l: Line, k: Key)
    requires Valid(l)
  {
    l.echo && Feed(l, k.b, k.now).evt == LINE
  }

  /** Every line captured so far, oldest first, cut to what an entry can hold. */
  function Log(l: Line, ks: seq<Key>): seq<seq<Byte>>
    requires Valid(l)
  {
    if ks == [] then []
    else
      var n := |ks| - 1;
      var log, m := Log(l, ks[..n]), DriveAll(l, ks[..n]);
      if Finishes(m, ks[n]) && m.text != [] && (log == [] || log[|log| - 1] != m.text) then log + [Cut(m.text)]
      else log
  }

  /** The last ten entries of a log, newest first. */
  function Recent(log: seq<seq<Byte>>): (r: seq<seq<Byte>>)
    ensures |r| == if |log| <= HIST_N then |log| else HIST_N
  {
    var n := if |log| <= HIST_N then |log| else HIST_N;
    seq(n, i requires 0 <= i < n => log[|log| - 1 - i])
  }

  lemma RecentPush(log: seq<seq<Byte>>, x: seq<Byte>)
    ensures Recent(log + [x]) == Newest([x] + Recent(log), HIST_N)
  {
  }

  predicate SameHistory(l: Line, m: Line) { l.ring == m.ring && l.next == m.next && l.count == m.count }

  lemma EscapeKeeps(l: Line, b: Byte)
    requires RingOk(l) && BrowseOk(l)
    ensures SameHistory(l, Escape(l, b).line) && Escape(l, b).evt == NONE
  {
  }

  lemma EditKeeps(l: Line, b: Byte)
    ensures SameHistory(l, Edit(l, b).line) && Edit(l, b).evt == NONE
  {
  }

  lemma EndKeeps(l: Line, b: Byte)
    requires RingOk(l)
    ensures var f := EndLine(l, b);
      SameHistory(f.line, if l.echo && f.evt == LINE then HistPush(l.(lastCr := b == CR, browsing := false)) else l)
  {
  }

  lemma NotedKeeps(l: Line, now: bv32)
    ensures SameHistory(l, Noted(l, now)) && Noted(l, now).echo == l.echo
    ensures l.echo ==> Noted(l, now) == l.(lastCr := false, lastMs := now)
  {
  }

  /** A key changes the history only by finishing a line in human mode, and then as a push does. */
  lemma FeedHistory(l: Line, b: Byte, now: bv32)
    requires Valid(l)
    ensures var f := Feed(l, b, now);
      if l.echo && f.evt == LINE then
        RingOk(l) && SameHistory(f.line, HistPush(l.(lastCr := b == CR, browsing := false, lastMs := now)))
      else SameHistory(f.line, l)
  {
    hide HistPush, Escape, Edit, EndLine, Noted, Valid;
    ValidShape(l);
    NotedValid(l, now);
    NotedKeeps(l, now);
    var m := Noted(l, now);
    ValidShape(m);
    EscapeKeeps(m, b);
    EditKeeps(m, b);
    EndKeeps(m, b);
    assert l.echo ==> m.(lastCr := b == CR, browsing := false) == l.(lastCr := b == CR, browsing := false, lastMs := now);
  }

  lemma SameHistoryList(l: Line, m: Line)
    requires RingOk(l) && SameHistory(l, m)
    ensures RingOk(m) && History(m) == History(l)
  {
  }

  lemma DriveHistory(l: Line, k: Key)
    requires Valid(l)
    ensures History(Drive(l, k)) ==
      if Finishes(l, k) && Captures(History(l), l.text) then Newest([Cut(l.text)] + History(l), HIST_N) else History(l)
  {
    hide HistPush, Cut, Newest, Feed, History, Captures;
    FeedHistory(l, k.b, k.now);
    FeedValid(l, k.b, k.now);
    var f := Feed(l, k.b, k.now);
    var m := l.(lastCr := k.b == CR, browsing := false, lastMs := k.now);
    SameHistoryList(l, m);
    if Finishes(l, k) {
      PushIsCons(m);
      SameHistoryList(HistPush(m), f.line);
    } else {
      SameHistoryList(l, f.line);
    }
    SameHistoryList(f.line, Take(f.line));
  }

  lemma RecentNewest(log: seq<seq<Byte>>, text: seq<Byte>)
    ensures Captures(Recent(log), text) <==> text != [] && (log == [] || log[|log| - 1] != text)
  {
  }

  /** In every run of the editor the ring holds the last ten captured lines, newest first. */
  lemma {:induction false} RingIsLastTen(l: Line, ks: seq<Key>)
    requires Valid(l) && l.count == 0
    ensures History(DriveAll(l, ks)) == Recent(Log(l, ks))
  {
    hide Drive, Valid, Finishes, Cut, Recent, Captures, Newest, History;
    if ks == [] {
      NothingYet(l);
    } else {
      var n := |ks| - 1;
      RingIsLastTen(l, ks[..n]);
      var m, log := DriveAll(l, ks[..n]), Log(l, ks[..n]);
      DriveHistory(m, ks[n]);
      RecentPush(log, Cut(m.text));
      RecentNewest(log, m.text);
    }
  }

  lemma NothingYet(l: Line)
    requires Valid(l) && l.count == 0
    ensures History(l) == Recent([])
  {
  }

  // ---------------- arrow keys ----------------

  const UP: Byte := 65
  const DOWN: Byte := 66

  /** ESC [ A or ESC [ B, typed at one instant. */
  function Press(l: Line, key: Byte, now: bv32): (r: Line)
    requires Valid(l) && l.echo
    ensures Valid(r) && r.echo
  {
    FeedValid(l, ESC, now);
    var l1 := Feed(l, ESC, now).line;
    FeedValid(l1, 91, now);
    var l2 := Feed(l1, 91, now).line;
    FeedValid(l2, key, now);
    Feed(l2, key, now).line
  }

  function Presses(l: Line, key: Byte, n: nat, now: bv32): (r: Line)
    requires Valid(l) && l.echo
    ensures Valid(r) && r.echo
  {
    if n == 0 then l else Press(Presses(l, key, n - 1, now), key, now)
  }

  /** The state an arrow key acts on: nothing but the escape state and the clocks differ from l. */
  function Escaped(l: Line, now: bv32): Line { l.(esc := 0, lastCr := false, lastMs := now) }

  lemma PressIs(l: Line, now: bv32)
    requires Valid(l) && l.echo
    ensures Press(l, UP, now) == HistUp(Escaped(l, now)).0
    ensures Press(l, DOWN, now) == HistDown(Escaped(l, now)).0
  {
  }

  function Min(a: nat, b: nat): nat { if a < b then a else b }

  /** After n ups the editor shows the n-th newest line, or the oldest, and keeps the partial one. */
  lemma {:induction false} UpsShow(l: Line, n: nat, now: bv32)
    requires Valid(l) && l.echo && !l.browsing && l.count > 0 && n > 0
    ensures var m := Presses(l, UP, n, now);
      m.browsing && m.pos == Min(n, l.count) - 1 && m.saved == l.text && SameHistory(l, m)
      && m.text == History(l)[m.pos]
  {
    hide Press, Redrawn, PlainOk, TextOk;
    var p := Presses(l, UP, n - 1, now);
    PressIs(p, now);
    if n > 1 { UpsShow(l, n - 1, now); }
  }

  /** Downs walk back towards the newest line and then restore what was saved. */
  lemma {:induction false} DownsRestore(l: Line, d: nat, now: bv32)
    requires Valid(l) && l.echo && l.browsing
    ensures var m := Presses(l, DOWN, d, now);
      SameHistory(l, m)
      && if d <= l.pos then m.browsing && m.pos == l.pos - d && m.saved == l.saved && (d > 0 ==> m.text == History(l)[m.pos])
         else !m.browsing && m.text == l.saved
  {
    hide Press, Redrawn, PlainOk, TextOk;
    if d > 0 {
      DownsRestore(l, d - 1, now);
      PressIs(Presses(l, DOWN, d - 1, now), now);
    }
  }

  lemma {:induction false} IdleDowns(l: Line, d: nat, now: bv32)
    requires Valid(l) && l.echo && !l.browsing
    ensures !Presses(l, DOWN, d, now).browsing && Presses(l, DOWN, d, now).text == l.text
  {
    hide Press, Redrawn, PlainOk, TextOk;
    if d > 0 {
      IdleDowns(l, d - 1, now);
      PressIs(Presses(l, DOWN, d - 1, now), now);
    }
  }

  lemma {:induction false} IdleUps(l: Line, u: nat, now: bv32)
    requires Valid(l) && l.echo && !l.browsing && l.count == 0
    ensures var m := Presses(l, UP, u, now); !m.browsing && m.text == l.text && m.count == 0
  {
    hide Press, Redrawn, PlainOk, TextOk;
    if u > 0 {
      IdleUps(l, u - 1, now);
      PressIs(Presses(l, UP, u - 1, now), now);
    }
  }

  /**
   Any run of ups followed by at least as many downs, or as many as there are remembered
   lines, gives the partial line back exactly.
   */
  lemma UpsThenDowns(l: Line, u: nat, d: nat, now: bv32)
    requires Valid(l) && l.echo && !l.browsing && d >= Min(u, l.count)
    ensures var m := Presses(Presses(l, UP, u, now), DOWN, d, now); !m.browsing && m.text == l.text
  {
    hide Press, Valid;
    if u == 0 {
      IdleDowns(l, d, now);
    } else if l.count == 0 {
      IdleUps(l, u, now);
      IdleDowns(Presses(l, UP, u, now), d, now);
    } else {
      UpsShow(l, u, now);
      DownsRestore(Presses(l, UP, u, now), d, now);
    }
  }
}
