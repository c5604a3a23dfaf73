/**
 What a console session means, told from the bytes typed: the bytes are read as keys, the
 keys as edits of a line and moves through the remembered lines, and only then compared with
 the editor (components/cli_line/cli_line.c). Both modes, and any change between them.
 */
module CliReading {
  import opened Wrappers
  import opened CliLine
  import opened CliHistory

  /** One byte received: the echo setting then in force, the byte, and the time. */
  datatype Given = Given(echo: bool, b: Byte, now: bv32)

  datatype Outcome = Quiet | Refused | Handed(line: seq<Byte>)

  // ---------------- bytes as keys ----------------

  datatype Tok = Type(b: Byte) | Rub | Break | End | Up | Down | Skip

  /** How far into ESC [ the bytes have got, those received without echo apart. */
  function EscDepth(gs: seq<Given>): (d: nat)
    ensures d <= 2
  {
    if gs == [] then 0
    else
      var g, d := gs[|gs| - 1], EscDepth(gs[..|gs| - 1]);
      if !g.echo then d
      else if g.b == 27 then 1
      else if d == 1 && g.b == 91 then 2
      else 0
  }

  /** Byte k belongs to an escape sequence. */
  predicate InEscape(gs: seq<Given>, k: nat)
    requires k < |gs|
  {
    gs[k].echo && (gs[k].b == 27 || EscDepth(gs[..k]) > 0)
  }

  /** Byte k is a CR that ends a line. */
  predicate IsReturn(gs: seq<Given>, k: nat)
    requires k < |gs|
  {
    gs[k].b == 13 && !InEscape(gs, k)
  }

  /** The key that byte k stands for; a LF right behind a CR is the same line end. */
  function TokAt(gs: seq<Given>, k: nat): Tok
    requires k < |gs|
  {
    var b := gs[k].b;
    if InEscape(gs, k) then
      if EscDepth(gs[..k]) == 2 && b == 65 then Up
      else if EscDepth(gs[..k]) == 2 && b == 66 then Down
      else Skip
    else if b == 10 && k > 0 && IsReturn(gs, k - 1) then Skip
    else if b == 13 || b == 10 then End
    else if b == 3 then Break
    else if b == 8 || b == 127 then Rub
    else if 32 <= b <= 126 then Type(b)
    else Skip
  }

  /** When the byte before byte k came. */
  function LastAt(gs: seq<Given>, k: nat): bv32
    requires k <= |gs|
  {
    if k == 0 then 0 else gs[k - 1].now
  }

  /** Without echo a line left alone for more than thirty seconds is dropped before the next byte counts. */
  predicate Late(gs: seq<Given>, k: nat)
    requires k < |gs|
  {
    !gs[k].echo && IsStale(gs[k].now, LastAt(gs, k))
  }

  // ---------------- keys as edits ----------------

  /** The line being edited, the remembered ones newest first, and where among them an arrow key has led. */
  datatype Draft = Draft(text: seq<Byte>, over: bool, past: seq<seq<Byte>>, at: Option<nat>, kept: seq<Byte>)

  const CLEAN := Draft([], false, [], None, [])

  /** A line joins the remembered ones unless it is empty or the newest already; ten are kept, of 95 bytes each. */
  function Remember(past: seq<seq<Byte>>, text: seq<Byte>): seq<seq<Byte>> {
    if text == [] || (past != [] && past[0] == text) then past
    else
      var all := [if |text| > 95 then text[..95] else text] + past;
      if |all| > 10 then all[..10] else all
  }

  function Apply(d: Draft, t: Tok, echo: bool): Draft {
    match t
    case Type(b) => if |d.text| == 191 then d.(at := None, over := true) else d.(at := None, text := d.text + [b])
    case Rub => if d.text == [] then d else d.(text := d.text[..|d.text| - 1], over := false)
    case Break => d.(text := [], over := false, at := None)
    case End =>
      d.(text := [], over := false, at := None,
         past := if echo && !d.over then Remember(d.past, d.text) else d.past)
    case Up =>
      if d.past == [] then d
      else if d.at.None? then d.(at := Some(0), kept := d.text, text := d.past[0])
      else
        var p := if d.at.value + 1 < |d.past| then d.at.value + 1 else |d.past| - 1;
        d.(at := Some(p), text := d.past[p])
    case Down =>
      if d.at.None? then d
      else if d.at.value == 0 || d.at.value > |d.past| then d.(at := None, text := d.kept)
      else d.(at := Some(d.at.value - 1), text := d.past[d.at.value - 1])
    case Skip => d
  }

  /** What key k finds. */
  function Found(gs: seq<Given>, k: nat): Draft
    requires k < |gs|
    decreases k, 1
  {
    if Late(gs, k) then Read(gs, k).(text := []) else Read(gs, k)
  }

  /** The draft after the first k bytes. */
  function Read(gs: seq<Given>, k: nat): Draft
    requires k <= |gs|
    decreases k, 0
  {
    if k == 0 then CLEAN else Apply(Found(gs, k - 1), TokAt(gs, k - 1), gs[k - 1].echo)
  }

  /** What byte k brings about. */
  function Brings(gs: seq<Given>, k: nat): Outcome
    requires k < |gs|
  {
    if TokAt(gs, k) != End then Quiet
    else if Found(gs, k).over then Refused
    else Handed(Found(gs, k).text)
  }

  // ---------------- the editor under the same bytes ----------------

  /** The console loop: the echo setting is put into force, the byte fed, a finished line taken. */
  function Fed1(l: Line, g: Given): (f: Fed)
    requires Valid(l)
    ensures Valid(f.line)
  {
    FeedValid(l.(echo := g.echo), g.b, g.now);
    Feed(l.(echo := g.echo), g.b, g.now)
  }

  function Loop(l: Line, g: Given): (r: Line)
    requires Valid(l)
    ensures Valid(r)
  {
    if Fed1(l, g).evt == LINE then Take(Fed1(l, g).line) else Fed1(l, g).line
  }

  function EditorAt(gs: seq<Given>, k: nat): (l: Line)
    requires k <= |gs|
    ensures Valid(l)
  {
    if k == 0 then Init(true) else Loop(EditorAt(gs, k - 1), gs[k - 1])
  }

  function Does(gs: seq<Given>, k: nat): Outcome
    requires k < |gs|
  {
    var f := Fed1(EditorAt(gs, k), gs[k]);
    match f.evt
    case NONE => Quiet
    case LINE => Handed(f.line.text)
    case TOO_LONG => Refused
  }

  // ---------------- they agree ----------------

  /** Editor and reading agree. */
  ghost predicate Same(l: Line, d: Draft, depth: nat, cr: bool, last: bv32)
    requires RingOk(l)
  {
    && l.text == d.text && l.overflow == d.over && History(l) == d.past && l.esc == depth && l.lastCr == cr
    && l.lastMs == last && (l.browsing <==> d.at.Some?)
    && (d.at.Some? ==> l.pos == d.at.value < |d.past| && l.saved == d.kept)
  }

  ghost predicate Agree(gs: seq<Given>, k: nat)
    requires k <= |gs|
  {
    ValidShape(EditorAt(gs, k));
    Same(EditorAt(gs, k), Read(gs, k), EscDepth(gs[..k]), k > 0 && IsReturn(gs, k - 1), LastAt(gs, k))
  }

  /** More than thirty seconds later, in wrap-safe arithmetic, is more than 30000 ms later. */
  lemma StaleMeans(last: bv32, d: bv32)
    ensures IsStale(last + d, last) <==> d > 30000
  {
    Passed(last, d);
  }

  lemma Passed(last: bv32, d: bv32)
    ensures (last + d) - last == d
  {
  }

  /** The discard of machine mode. */
  lemma NotedSame(l: Line, d: Draft, depth: nat, cr: bool, last: bv32, now: bv32)
    requires Valid(l) && RingOk(l) && Same(l, d, depth, cr, last)
    ensures Valid(Noted(l, now)) && RingOk(Noted(l, now)) && Noted(l, now).echo == l.echo
    ensures Same(Noted(l, now), if !l.echo && IsStale(now, last) then d.(text := []) else d, depth, false, now)
  {
    hide IsStale, Bump, PlainOk;
    NotedValid(l, now);
    NotedKeeps(l, now);
    SameHistoryList(l, Noted(l, now));
  }

  lemma EscapeSame(m: Line, d: Draft, depth: nat, b: Byte, now: bv32)
    requires Valid(m) && RingOk(m) && BrowseOk(m) && Same(m, d, depth, false, now)
    requires m.echo && (b == 27 || depth == 1 || depth == 2)
    ensures var t := if b != 27 && depth == 2 && b == 65 then Up else if b != 27 && depth == 2 && b == 66 then Down else Skip;
            var r := Escape(m, b);
      && RingOk(r.line) && r.evt == NONE
      && Same(r.line, Apply(d, t, true), if b == 27 then 1 else if depth == 1 && b == 91 then 2 else 0, false, now)
  {
    hide Redrawn, Bump, PlainOk, TextOk;
  }

  lemma EndSame(m: Line, d: Draft, depth: nat, b: Byte, now: bv32)
    requires Valid(m) && RingOk(m) && Same(m, d, depth, false, now) && (b == CR || b == LF)
    ensures var f := EndLine(m, b);
            var r := if f.evt == LINE then Take(f.line) else f.line;
      && f.evt != NONE && (f.evt == TOO_LONG <==> d.over) && (f.evt == LINE ==> f.line.text == d.text)
      && RingOk(r) && Same(r, Apply(d, End, m.echo), depth, b == 13, now)
  {
    hide PlainOk, TextOk, HistPush, History;
    var n := m.(lastCr := b == CR, browsing := false);
    SameHistoryList(m, n);
    PushIsCons(n);
    PushKeepsRest(n);
    var p := HistPush(n);
    SameHistoryList(p, Take(p));
    SameHistoryList(n, Take(n));
    SameHistoryList(n, n.(overflow := false, text := []));
    RememberIs(History(n), n.text);
  }

  lemma PushKeepsRest(l: Line)
    requires RingOk(l)
    ensures HistPush(l) == l.(ring := HistPush(l).ring, next := HistPush(l).next, count := HistPush(l).count)
  {
  }

  lemma RememberIs(h: seq<seq<Byte>>, text: seq<Byte>)
    ensures Remember(h, text) == if Captures(h, text) then Newest([Cut(text)] + h, HIST_N) else h
  {
  }

  lemma EditSame(m: Line, d: Draft, depth: nat, b: Byte, now: bv32)
    requires Valid(m) && RingOk(m) && Same(m, d, depth, false, now) && b != 13 && b != 10
    ensures var t := if b == 3 then Break else if b == 8 || b == 127 then Rub
                     else if 32 <= b <= 126 then Type(b) else Skip;
      && Edit(m, b).evt == NONE && RingOk(Edit(m, b).line)
      && Same(Edit(m, b).line, Apply(d, t, m.echo), depth, false, now)
  {
    hide PlainOk, TextOk, History, Bump;
    EditKeeps(m, b);
    SameHistoryList(m, Edit(m, b).line);
  }

  lemma DepthNext(gs: seq<Given>, k: nat)
    requires k < |gs|
    ensures EscDepth(gs[..k]) <= 2
    ensures EscDepth(gs[..k + 1]) ==
      if !gs[k].echo then EscDepth(gs[..k])
      else if gs[k].b == 27 then 1
      else if EscDepth(gs[..k]) == 1 && gs[k].b == 91 then 2
      else 0
  {
    assert gs[..k + 1][..k] == gs[..k];
  }

  lemma EchoSame(l: Line, d: Draft, depth: nat, cr: bool, last: bv32, echo: bool)
    requires Valid(l) && RingOk(l) && Same(l, d, depth, cr, last)
    ensures Valid(l.(echo := echo)) && RingOk(l.(echo := echo)) && Same(l.(echo := echo), d, depth, cr, last)
  {
    SameHistoryList(l, l.(echo := echo));
  }

  /** One byte keeps editor and reading together, and brings about the same in both. */
  lemma ByteSame(gs: seq<Given>, k: nat)
    requires k < |gs| && Agree(gs, k)
    ensures Agree(gs, k + 1) && Does(gs, k) == Brings(gs, k)
  {
    hide Same, Escape, EndLine, Edit, Noted, Valid, Apply, Take, EscDepth, Read, IsStale;
    var l, g := EditorAt(gs, k), gs[k];
    var depth, cr, last := EscDepth(gs[..k]), k > 0 && IsReturn(gs, k - 1), LastAt(gs, k);
    var d := Found(gs, k);
    ValidShape(l);
    EchoSame(l, Read(gs, k), depth, cr, last, g.echo);
    var n := l.(echo := g.echo);
    NotedSame(n, Read(gs, k), depth, cr, last, g.now);
    var m := Noted(n, g.now);
    assert Same(m, d, depth, false, g.now);
    ValidShape(n);
    ValidShape(m);
    DepthNext(gs, k);
    SameShape(n, Read(gs, k), depth, cr, last);
    ReadNext(gs, k);
    if InEscape(gs, k) {
      EscapeSame(m, d, depth, g.b, g.now);
    } else if g.b == 10 && cr {
      SkipApply(d, g.echo);
    } else if g.b == 13 || g.b == 10 {
      EndSame(m, d, depth, g.b, g.now);
    } else {
      EditSame(m, d, depth, g.b, g.now);
    }
  }

  lemma SameShape(l: Line, d: Draft, depth: nat, cr: bool, last: bv32)
    requires RingOk(l) && Same(l, d, depth, cr, last)
    ensures l.esc == depth && l.lastCr == cr
  {
  }

  lemma ReadNext(gs: seq<Given>, k: nat)
    requires k < |gs|
    ensures Read(gs, k + 1) == Apply(Found(gs, k), TokAt(gs, k), gs[k].echo)
  {
  }

  lemma SkipApply(d: Draft, echo: bool)
    ensures Apply(d, Skip, echo) == d
  {
  }

  lemma {:induction false} AlwaysAgree(gs: seq<Given>, k: nat)
    requires k <= |gs|
    ensures Agree(gs, k)
  {
    hide Agree, Does, Brings;
    if k == 0 {
      FreshAgrees(gs);
    } else {
      AlwaysAgree(gs, k - 1);
      ByteSame(gs, k - 1);
    }
  }

  lemma FreshAgrees(gs: seq<Given>)
    ensures Agree(gs, 0)
  {
    assert gs[..0] == [];
  }

  /**
   Every session, whatever is typed, however the setting changes and whenever the bytes come:
   each byte brings about what the reading says. A line end hands out exactly the text read
   up to it, or refuses the line exactly if it overflowed; nothing else reports anything.
   */
  lemma SessionReads(gs: seq<Given>, k: nat)
    requires k < |gs|
    ensures Does(gs, k) == Brings(gs, k)
    ensures EditorAt(gs, k).text == Read(gs, k).text
  {
    hide Does, Brings, Read;
    AlwaysAgree(gs, k);
    ByteSame(gs, k);
  }

  // ---------------- the two counters ----------------

  /** Byte k is noise: nothing an editor knows, or what breaks an escape sequence off at its start. */
  predicate IsNoise(gs: seq<Given>, k: nat)
    requires k < |gs|
  {
    if InEscape(gs, k) then EscDepth(gs[..k]) == 1 && gs[k].b != 27 && gs[k].b != 91
    else TokAt(gs, k) == Skip && !(gs[k].b == 10 && k > 0 && IsReturn(gs, k - 1))
  }

  function NoiseCount(gs: seq<Given>, k: nat): nat
    requires k <= |gs|
  {
    if k == 0 then 0 else NoiseCount(gs, k - 1) + (if IsNoise(gs, k - 1) then 1 else 0)
  }

  /** How many stale lines were dropped. */
  function DropCount(gs: seq<Given>, k: nat): nat
    requires k <= |gs|
  {
    if k == 0 then 0
    else DropCount(gs, k - 1) + (if Late(gs, k - 1) && Read(gs, k - 1).text != [] then 1 else 0)
  }

  lemma CountsStep(l: Line, b: Byte, now: bv32)
    requires Valid(l)
    ensures var f := Feed(l, b, now).line;
            var inEscape := l.echo && (b == 27 || l.esc > 0);
            var known := b == 13 || b == 10 || b == 3 || b == 8 || b == 127 || 32 <= b <= 126;
      && f.stale == (if !l.echo && IsStale(now, l.lastMs) && l.text != [] then Bump(l.stale) else l.stale)
      && f.noise == (if (if inEscape then l.esc == 1 && b != 27 && b != 91 else !known) then Bump(l.noise) else l.noise)
  {
    hide IsStale, Bump, PlainOk, Redrawn;
    ValidShape(l);
  }

  lemma OneMore(n: nat)
    ensures Bump(n % 0x1_0000_0000) == (n + 1) % 0x1_0000_0000
  {
  }

  lemma CountsNext(gs: seq<Given>, k: nat)
    requires k < |gs|
    ensures var l, r := EditorAt(gs, k), EditorAt(gs, k + 1);
      && r.noise == (if IsNoise(gs, k) then Bump(l.noise) else l.noise)
      && r.stale == (if Late(gs, k) && Read(gs, k).text != [] then Bump(l.stale) else l.stale)
  {
    hide Valid, Feed, Take, Read, EscDepth, IsStale, Bump, History;
    AlwaysAgree(gs, k);
    var l, g := EditorAt(gs, k), gs[k];
    ValidShape(l);
    var n := l.(echo := g.echo);
    EchoSame(l, Read(gs, k), EscDepth(gs[..k]), k > 0 && IsReturn(gs, k - 1), LastAt(gs, k), g.echo);
    CountsStep(n, g.b, g.now);
    TakeKeepsCounts(Fed1(l, g).line);
  }

  /** The counters of noise bytes and of dropped lines count them, in 32 bits. */
  lemma {:induction false} CountersCount(gs: seq<Given>, k: nat)
    requires k <= |gs|
    ensures EditorAt(gs, k).noise == NoiseCount(gs, k) % 0x1_0000_0000
    ensures EditorAt(gs, k).stale == DropCount(gs, k) % 0x1_0000_0000
  {
    hide IsNoise, Late, Read, Bump, EditorAt;
    if k == 0 {
      FreshCounts(gs);
    } else {
      CountersCount(gs, k - 1);
      CountsNext(gs, k - 1);
      OneMore(NoiseCount(gs, k - 1));
      OneMore(DropCount(gs, k - 1));
    }
  }

  lemma FreshCounts(gs: seq<Given>)
    ensures EditorAt(gs, 0).noise == 0 && EditorAt(gs, 0).stale == 0
  {
  }

  lemma TakeKeepsCounts(l: Line)
    ensures Take(l).noise == l.noise && Take(l).stale == l.stale
  {
  }

  // ---------------- what the reading comes to ----------------

  /** Byte k is an ordinary printable one that arrives in time. */
  predicate Plainly(gs: seq<Given>, k: nat)
    requires k < |gs|
  {
    TokAt(gs, k) == Type(gs[k].b) && !Late(gs, k)
  }

  function Bytes(gs: seq<Given>, i: nat, j: nat): (r: seq<Byte>)
    requires i <= j <= |gs|
    ensures |r| == j - i && forall n :: 0 <= n < j - i ==> r[n] == gs[i + n].b
    decreases j
  {
    if i == j then [] else Bytes(gs, i, j - 1) + [gs[j - 1].b]
  }

  /** Printable bytes typed onto an empty line are the line, as far as 191 go. */
  lemma {:induction false} TypedIsText(gs: seq<Given>, i: nat, j: nat)
    requires i <= j <= |gs| && Read(gs, i).text == [] && !Read(gs, i).over
    requires forall k :: i <= k < j ==> Plainly(gs, k)
    ensures Read(gs, j).text == (if j - i <= 191 then Bytes(gs, i, j) else Bytes(gs, i, i + 191))
    ensures Read(gs, j).over <==> j - i > 191
    decreases j
  {
    hide TokAt, Late;
    if i < j {
      TypedIsText(gs, i, j - 1);
      assert Plainly(gs, j - 1);
    }
  }

  /** So a line end that comes in time hands out just what was typed, or refuses it if that is more than 191. */
  lemma TypedIsHanded(gs: seq<Given>, i: nat, j: nat)
    requires i <= j < |gs| && Read(gs, i).text == [] && !Read(gs, i).over
    requires forall k :: i <= k < j ==> Plainly(gs, k)
    requires TokAt(gs, j) == End && !Late(gs, j)
    ensures Does(gs, j) == if j - i <= 191 then Handed(Bytes(gs, i, j)) else Refused
    ensures Read(gs, j + 1).text == [] && !Read(gs, j + 1).over
  {
    hide TokAt, Late, Does;
    TypedIsText(gs, i, j);
    SessionReads(gs, j);
  }

  /** Byte m found the line full, and nothing up to k has taken that back. */
  predicate Overflowed(gs: seq<Given>, m: nat, k: nat)
    requires k <= |gs|
  {
    && m < k && TokAt(gs, m).Type? && |Found(gs, m).text| == 191
    && forall n :: m < n < k ==>
         TokAt(gs, n) != End && TokAt(gs, n) != Break && !(TokAt(gs, n) == Rub && Found(gs, n).text != [])
  }

  ghost predicate Overlong(gs: seq<Given>, k: nat)
    requires k <= |gs|
  {
    exists m: nat :: Overflowed(gs, m, k)
  }

  lemma OverlongNext(gs: seq<Given>, k: nat)
    requires k < |gs|
    ensures Overlong(gs, k + 1) <==>
      if TokAt(gs, k).Type? && |Found(gs, k).text| == 191 then true
      else if TokAt(gs, k) == End || TokAt(gs, k) == Break || (TokAt(gs, k) == Rub && Found(gs, k).text != []) then false
      else Overlong(gs, k)
  {
    hide TokAt, Found;
    var next := k + 1;
    if TokAt(gs, k).Type? && |Found(gs, k).text| == 191 { assert Overflowed(gs, k, next); }
    if m: nat :| Overflowed(gs, m, k) {
      if TokAt(gs, k) != End && TokAt(gs, k) != Break && !(TokAt(gs, k) == Rub && Found(gs, k).text != []) {
        assert Overflowed(gs, m, next);
      }
    }
    if m: nat :| Overflowed(gs, m, next) {
      if m < k { assert Overflowed(gs, m, k); }
    }
  }

  lemma OverNext(gs: seq<Given>, k: nat)
    requires k < |gs|
    ensures Found(gs, k).over == Read(gs, k).over
    ensures Read(gs, k + 1).over <==>
      if TokAt(gs, k).Type? && |Found(gs, k).text| == 191 then true
      else if TokAt(gs, k) == End || TokAt(gs, k) == Break || (TokAt(gs, k) == Rub && Found(gs, k).text != []) then false
      else Read(gs, k).over
  {
    hide TokAt, Late, Remember;
  }

  lemma RefusesIff(gs: seq<Given>, k: nat)
    requires k < |gs|
    ensures Does(gs, k) == Refused <==> TokAt(gs, k) == End && Read(gs, k).over
  {
    hide TokAt, Late, Does;
    SessionReads(gs, k);
  }

  /**
   Exactly when a line end is refused: some printable byte found the line full, and since
   then there was no line end, no Ctrl-C and no rubout with something to take back. Dropping
   a stale line is not on that list, nor is recalling another one.
   */
  lemma {:induction false} RefusedIff(gs: seq<Given>, k: nat)
    requires k <= |gs|
    ensures Read(gs, k).over <==> Overlong(gs, k)
    ensures k < |gs| ==> (Does(gs, k) == Refused <==> TokAt(gs, k) == End && Overlong(gs, k))
  {
    hide TokAt, Late, Does, Overlong, Found, Read;
    if k == 0 {
      NothingOverlong(gs);
    } else {
      RefusedIff(gs, k - 1);
      OverlongNext(gs, k - 1);
      OverNext(gs, k - 1);
    }
    if k < |gs| { RefusesIff(gs, k); }
  }

  lemma NothingOverlong(gs: seq<Given>)
    ensures !Overlong(gs, 0) && !Read(gs, 0).over
  {
  }

  /** So a line typed after a stale overlong one was dropped is refused too, however short. */
  lemma RefusedAfterDiscard(gs: seq<Given>, k: nat)
    requires k + 1 < |gs| && Read(gs, k).over && Late(gs, k) && TokAt(gs, k).Type? && TokAt(gs, k + 1) == End
    ensures Read(gs, k + 1).text == [gs[k].b]
    ensures Does(gs, k + 1) == Refused
  {
    hide Does, TokAt;
    TypedLate(gs, k);
    OverNext(gs, k);
    RefusesIff(gs, k + 1);
  }

  lemma TypedLate(gs: seq<Given>, k: nat)
    requires k < |gs| && Late(gs, k) && TokAt(gs, k).Type?
    ensures TokAt(gs, k) == Type(gs[k].b)
    ensures Read(gs, k + 1).text == [gs[k].b]
  {
    hide Late;
  }

  /** The bytes of that: 192 printable ones at once, forty seconds later one more and a CR. */
  predicate Abandoned(gs: seq<Given>) {
    && |gs| == 194 && (forall k :: 0 <= k < 194 ==> !gs[k].echo)
    && (forall k :: 0 <= k < 193 ==> 32 <= gs[k].b <= 126) && gs[193].b == 13
    && (forall k :: 0 <= k < 192 ==> gs[k].now == 0) && gs[192].now == gs[193].now == 40000
  }

  /** A concrete loss: the one-byte line typed after the wait is refused as too long. */
  lemma AbandonedIsRefused(gs: seq<Given>)
    requires |gs| == 194 && Abandoned(gs)
    ensures Read(gs, 193).text == [gs[192].b] && Does(gs, 193) == Refused
  {
    hide Read, Does, TokAt, Late, Abandoned;
    forall k | 0 <= k < 193 ensures TokAt(gs, k) == Type(gs[k].b) && (Late(gs, k) <==> k == 192) { AbandonedAt(gs, k); }
    AbandonedAt(gs, 193);
    NothingRead(gs);
    TypedIsText(gs, 0, 192);
    RefusedAfterDiscard(gs, 192);
  }

  lemma AbandonedAt(gs: seq<Given>, k: nat)
    requires Abandoned(gs) && k < 194
    ensures TokAt(gs, k) == (if k == 193 then End else Type(gs[k].b)) && (k < 193 ==> (Late(gs, k) <==> k == 192))
  {
    hide EscDepth;
  }

  lemma NothingRead(gs: seq<Given>)
    ensures Read(gs, 0).text == [] && !Read(gs, 0).over
  {
  }
}
