/**
 components/cli_line/cli_line.c: the console line editor, fed one byte at a time, with its
 history ring. The edit buffer is the sequence of its first `len` bytes; NUL terminators
 are not kept, since only printable bytes ever enter the buffer.
 */
module CliLine {

  const LINE_MAX: nat := 192
  const HIST_N: nat := 10
  const HIST_LEN: nat := 96

  type Byte = b: int | 0 <= b < 256

  const CR: Byte := 13
  const LF: Byte := 10
  const ESC: Byte := 27
  const BS: Byte := 8
  const DEL: Byte := 127
  const CTRL_C: Byte := 3
  const SPACE: Byte := 32

  datatype Evt = NONE | LINE | TOO_LONG

  datatype Line = Line(
    text: seq<Byte>, echo: bool, esc: nat, overflow: bool, lastCr: bool, browsing: bool,
    ring: seq<seq<Byte>>, count: nat, next: nat, pos: int, saved: seq<Byte>,
    lastMs: bv32, noise: nat, stale: nat)

  /** now - last > 30 s, in 32-bit unsigned arithmetic. */
  predicate IsStale(now: bv32, last: bv32) { now - last > 30000 }

  function Bump(n: nat): nat { (n + 1) % 0x1_0000_0000 }

  predicate Printable(b: Byte) { 0x20 <= b <= 0x7E }

  predicate Plain(s: seq<Byte>) { forall i :: 0 <= i < |s| ==> Printable(s[i]) }

  /** The bytes that start a redraw: the erase sequence less its final K, as the code counts them. */
  const REDRAW: seq<Byte> := [CR, ESC, 91, 50]

  // ---------------- the editor as functions ----------------

  function Init(echo: bool): Line {
    Line([], echo, 0, false, false, false, seq(HIST_N, _ => []), 0, 0, -1, [], 0, 0, 0)
  }

  function Echoed(l: Line, s: seq<Byte>): seq<Byte> { if l.echo then s else [] }

  function Cut(s: seq<Byte>): (r: seq<Byte>)
    ensures r <= s && |r| < HIST_LEN
  {
    if |s| > HIST_LEN - 1 then s[..HIST_LEN - 1] else s
  }

  /** Ring position of the pos-th newest entry. */
  function RingIndex(next: nat, pos: nat): (i: nat)
    ensures i < HIST_N
  {
    (next - 1 - pos) % HIST_N
  }

  function HistPush(l: Line): Line
    requires RingOk(l)
  {
    if l.text == [] then l
    else if l.count > 0 && l.ring[RingIndex(l.next, 0)] == l.text then l
    else l.(ring := l.ring[l.next := Cut(l.text)], next := (l.next + 1) % HIST_N,
            count := if l.count < HIST_N then l.count + 1 else l.count)
  }

  predicate RingOk(l: Line) { |l.ring| == HIST_N && l.next < HIST_N && l.count <= HIST_N }

  predicate BrowseOk(l: Line) { l.browsing ==> 0 <= l.pos < l.count }

  function Recall(l: Line, pos: nat): Line
    requires RingOk(l)
  {
    l.(text := l.ring[RingIndex(l.next, pos)], pos := pos)
  }

  function Redrawn(l: Line): seq<Byte> { Echoed(l, REDRAW + l.text) }

  function HistUp(l: Line): (Line, seq<Byte>)
    requires RingOk(l) && BrowseOk(l)
  {
    if !l.browsing && l.count == 0 then (l, [])
    else
      var m := if !l.browsing then Recall(l.(saved := l.text, browsing := true), 0)
               else Recall(l, if l.pos < l.count - 1 then l.pos + 1 else l.pos);
      (m, Redrawn(m))
  }

  function HistDown(l: Line): (Line, seq<Byte>)
    requires RingOk(l) && BrowseOk(l)
  {
    if !l.browsing then (l, [])
    else
      var m := if l.pos == 0 then l.(pos := -1, text := l.saved, browsing := false) else Recall(l, l.pos - 1);
      (m, Redrawn(m))
  }

  datatype Fed = Fed(line: Line, evt: Evt, out: seq<Byte>)

  /** What every byte does first: the CR memory, the idle discard of machine mode, the clock. */
  function Noted(l: Line, now: bv32): Line {
    if !l.echo && l.text != [] && IsStale(now, l.lastMs) then
      l.(lastCr := false, text := [], stale := Bump(l.stale), lastMs := now)
    else l.(lastCr := false, lastMs := now)
  }

  function EndLine(l: Line, b: Byte): Fed
    requires RingOk(l)
  {
    var m := l.(lastCr := b == CR, browsing := false);
    if l.overflow then Fed(m.(overflow := false, text := []), TOO_LONG, Echoed(l, [CR, LF]))
    else Fed(if l.echo then HistPush(m) else m, LINE, Echoed(l, [CR, LF]))
  }

  function Edit(l: Line, b: Byte): Fed {
    if b == CTRL_C then
      Fed(l.(text := [], overflow := false, browsing := false, pos := -1), NONE, Echoed(l, [94, 67, CR, LF]))
    else if b == BS || b == DEL then
      if l.text == [] then Fed(l, NONE, [])
      else Fed(l.(text := l.text[..|l.text| - 1], overflow := false), NONE, Echoed(l, [BS, SPACE, BS]))
    else if Printable(b) then
      if |l.text| == LINE_MAX - 1 then Fed(l.(browsing := false, overflow := true), NONE, [])
      else Fed(l.(browsing := false, text := l.text + [b]), NONE, Echoed(l, [b]))
    else Fed(l.(noise := Bump(l.noise)), NONE, [])
  }

  function Escape(l: Line, b: Byte): Fed
    requires RingOk(l) && BrowseOk(l)
  {
    if b == ESC then Fed(l.(esc := 1), NONE, [])
    else if l.esc == 1 then
      if b == 91 then Fed(l.(esc := 2), NONE, []) else Fed(l.(esc := 0, noise := Bump(l.noise)), NONE, [])
    else
      var m := l.(esc := 0);
      if b == 65 then Fed(HistUp(m).0, NONE, HistUp(m).1)
      else if b == 66 then Fed(HistDown(m).0, NONE, HistDown(m).1)
      else Fed(m, NONE, [])
  }

  function Feed(l: Line, b: Byte, now: bv32): Fed
    requires RingOk(l) && BrowseOk(l)
  {
    var m := Noted(l, now);
    if l.echo && (b == ESC || l.esc == 1 || l.esc == 2) then Escape(m, b)
    else if b == LF && l.lastCr then Fed(m, NONE, [])
    else if b == CR || b == LF then EndLine(m, b)
    else Edit(m, b)
  }

  function Take(l: Line): Line { l.(text := [], browsing := false, overflow := false) }

  // ---------------- the editor updated in place ----------------

  class Editor {
    var text: seq<Byte>
    var echo: bool
    var esc: nat
    var overflow: bool
    var lastCr: bool
    var browsing: bool
    var ring: seq<seq<Byte>>
    var count: nat
    var next: nat
    var pos: int
    var saved: seq<Byte>
    var lastMs: bv32
    var noise: nat
    var stale: nat

    ghost function Abs(): Line
      reads this
    {
      Line(text, echo, esc, overflow, lastCr, browsing, ring, count, next, pos, saved, lastMs, noise, stale)
    }

    constructor (withEcho: bool)
      ensures Abs() == Init(withEcho)
    {
      text, echo, esc, overflow, lastCr, browsing := [], withEcho, 0, false, false, false;
      ring, count, next, pos, saved := seq(HIST_N, _ => []), 0, 0, -1, [];
      lastMs, noise, stale := 0, 0, 0;
    }

    /** echo_put: appends what still fits into the caller's buffer. */
    static function Room(out: seq<Byte>, s: seq<Byte>, cap: nat): (r: seq<Byte>)
      ensures |out| <= cap ==> |r| <= cap
      ensures |out| + |s| <= cap ==> r == out + s
    {
      if |out| >= cap then out else if |s| <= cap - |out| then out + s else out + s[..cap - |out|]
    }

    method Push()
      requires RingOk(Abs())
      modifies this`ring, this`next, this`count
      ensures Abs() == HistPush(old(Abs()))
    {
      if |text| == 0 { return; }
      if count > 0 {
        var newest := (next + HIST_N - 1) % HIST_N;
        assert newest == RingIndex(next, 0);
        if ring[newest] == text { return; }
      }
      ring := ring[next := Cut(text)];
      next := (next + 1) % HIST_N;
      if count < HIST_N { count := count + 1; }
    }

    method Load(p: nat)
      requires RingOk(Abs())
      modifies this`text
      ensures Abs().(pos := p) == Recall(old(Abs()), p)
    {
      text := ring[RingIndex(next, p)];
    }

    method Up(cap: nat) returns (out: seq<Byte>)
      requires RingOk(Abs()) && BrowseOk(Abs()) && cap >= |REDRAW| + LINE_MAX && TextOk(Abs())
      modifies this
      ensures (Abs(), out) == HistUp(old(Abs()))
    {
      out := [];
      if !browsing {
        if count == 0 { return; }
        saved := text;
        browsing := true;
        pos := 0;
      } else if pos < count - 1 {
        pos := pos + 1;
      }
      Load(pos);
      if echo {
        out := Room(out, REDRAW, cap);
        assert out == REDRAW;
        out := Room(out, text, cap);
      }
    }

    method Down(cap: nat) returns (out: seq<Byte>)
      requires RingOk(Abs()) && BrowseOk(Abs()) && cap >= |REDRAW| + LINE_MAX && TextOk(Abs())
      modifies this
      ensures (Abs(), out) == HistDown(old(Abs()))
    {
      out := [];
      if !browsing { return; }
      pos := pos - 1;
      if pos < 0 {
        text := saved;
        browsing := false;
      } else {
        Load(pos);
      }
      if echo {
        out := Room(out, REDRAW, cap);
        assert out == REDRAW;
        out := Room(out, text, cap);
      }
    }

    /** ESC [ A and ESC [ B, human mode only. */
    method FeedEscape(b: Byte, cap: nat) returns (out: seq<Byte>)
      requires Valid(Abs()) && echo && (b == ESC || esc == 1 || esc == 2) && cap >= |REDRAW| + LINE_MAX
      modifies this
      ensures Fed(Abs(), NONE, out) == Escape(old(Abs()), b)
    {
      hide HistUp, HistDown, PlainOk, Bump;
      out := [];
      if b == ESC { esc := 1; return; }
      if esc == 1 {
        if b == 91 { esc := 2; } else { esc := 0; noise := Bump(noise); }
        return;
      }
      esc := 0;
      if b == 65 { out := Up(cap); } else if b == 66 { out := Down(cap); }
    }

    method FeedEnd(b: Byte, cap: nat) returns (evt: Evt, out: seq<Byte>)
      requires Valid(Abs()) && !lastCr && (b == CR || b == LF) && cap >= |REDRAW| + LINE_MAX
      modifies this
      ensures Fed(Abs(), evt, out) == EndLine(old(Abs()), b)
    {
      hide HistPush, PlainOk, TextOk;
      out := [];
      if b == CR { lastCr := true; }
      browsing := false;
      if overflow {
        overflow := false;
        text := [];
        if echo { out := Room(out, [CR, LF], cap); }
        return TOO_LONG, out;
      }
      if echo { Push(); }
      if echo { out := Room(out, [CR, LF], cap); }
      evt := LINE;
    }

    method FeedEdit(b: Byte, cap: nat) returns (out: seq<Byte>)
      requires Valid(Abs()) && cap >= |REDRAW| + LINE_MAX
      modifies this
      ensures Fed(Abs(), NONE, out) == Edit(old(Abs()), b)
    {
      hide PlainOk, Bump, Printable;
      out := [];
      if b == CTRL_C {
        text, overflow, browsing, pos := [], false, false, -1;
        if echo { out := Room(out, [94, 67, CR, LF], cap); }
        return;
      }
      if b == BS || b == DEL {
        if |text| > 0 {
          text := text[..|text| - 1];
          overflow := false;
          if echo { out := Room(out, [BS, SPACE, BS], cap); }
        }
        return;
      }
      if Printable(b) {
        browsing := false;
        if |text| == LINE_MAX - 1 {
          overflow := true;
        } else {
          text := text + [b];
          if echo { out := Room(out, [b], cap); }
        }
        return;
      }
      noise := Bump(noise);
    }

    /** What cli_line_feed does before it looks at the byte. */
    method Note(now: bv32)
      modifies this`lastCr, this`text, this`stale, this`lastMs
      ensures Abs() == Noted(old(Abs()), now)
    {
      hide IsStale, Bump;
      lastCr := false;
      if !echo && |text| > 0 && IsStale(now, lastMs) {
        text := [];
        stale := Bump(stale);
      }
      lastMs := now;
    }

    /** cli_line_feed, in its parts. */
    method FeedByte(b: Byte, now: bv32, cap: nat) returns (evt: Evt, out: seq<Byte>)
      requires Valid(Abs()) && cap >= |REDRAW| + LINE_MAX
      modifies this
      ensures Fed(Abs(), evt, out) == Feed(old(Abs()), b, now)
    {
      hide Noted, Escape, EndLine, Edit, Valid;
      ghost var was := Abs();
      NotedValid(was, now);
      NotedMode(was, now);
      ValidShape(was);
      evt, out := NONE, [];
      var wasCr := lastCr;
      Note(now);
      ValidShape(Abs());
      if echo && (b == ESC || esc == 1 || esc == 2) {
        out := FeedEscape(b, cap);
        return;
      }
      if b == CR || b == LF {
        if b == LF && wasCr { return; }
        evt, out := FeedEnd(b, cap);
        return;
      }
      out := FeedEdit(b, cap);
    }

    method TakeLine() returns (line: seq<Byte>)
      modifies this
      ensures line == old(text) && Abs() == Take(old(Abs()))
    {
      line := text;
      text, browsing, overflow := [], false, false;
    }
  }

  // ---------------- what every byte keeps ----------------

  predicate TextOk(l: Line) {
    && |l.text| < LINE_MAX && |l.saved| < LINE_MAX
    && forall i :: 0 <= i < |l.ring| ==> |l.ring[i]| < HIST_LEN
  }

  predicate PlainOk(l: Line) {
    && Plain(l.text) && Plain(l.saved)
    && forall i :: 0 <= i < |l.ring| ==> Plain(l.ring[i])
  }

  predicate Valid(l: Line) { RingOk(l) && BrowseOk(l) && TextOk(l) && PlainOk(l) && l.esc <= 2 }

  lemma NotedMode(l: Line, now: bv32)
    ensures var m := Noted(l, now); m.echo == l.echo && m.esc == l.esc && !m.lastCr
  {
    hide IsStale, Bump;
  }

  lemma NotedValid(l: Line, now: bv32)
    requires Valid(l)
    ensures Valid(Noted(l, now))
  {
    hide IsStale, Bump;
  }

  lemma UpValid(l: Line)
    requires Valid(l)
    ensures Valid(HistUp(l).0) && HistUp(l).0.echo == l.echo
  {
    hide RingIndex, Redrawn, Plain;
  }

  lemma DownValid(l: Line)
    requires Valid(l)
    ensures Valid(HistDown(l).0) && HistDown(l).0.echo == l.echo
  {
    hide RingIndex, Redrawn, Plain;
  }

  lemma EscapeValid(l: Line, b: Byte)
    requires Valid(l)
    ensures Valid(Escape(l, b).line) && Escape(l, b).line.echo == l.echo
  {
    hide Bump, HistUp, HistDown, Plain;
    UpValid(l.(esc := 0));
    DownValid(l.(esc := 0));
  }

  lemma PushValid(l: Line)
    requires Valid(l) && !l.browsing
    ensures Valid(HistPush(l)) && HistPush(l).echo == l.echo && HistPush(l).text == l.text
  {
    hide RingIndex;
  }

  lemma EndLineValid(l: Line, b: Byte)
    requires Valid(l)
    ensures Valid(EndLine(l, b).line) && EndLine(l, b).line.echo == l.echo
  {
    hide HistPush;
    PushValid(l.(lastCr := b == CR, browsing := false));
  }

  lemma EditValid(l: Line, b: Byte)
    requires Valid(l)
    ensures Valid(Edit(l, b).line) && Edit(l, b).line.echo == l.echo
  {
    hide Bump;
  }

  lemma FeedValid(l: Line, b: Byte, now: bv32)
    requires Valid(l)
    ensures Valid(Feed(l, b, now).line) && Feed(l, b, now).line.echo == l.echo
  {
    hide Escape, EndLine, Edit, Valid;
    ValidShape(l);
    NotedValid(l, now);
    NotedEcho(l, now);
    var m := Noted(l, now);
    EscapeValid(m, b);
    EndLineValid(m, b);
    EditValid(m, b);
  }

  lemma ValidShape(l: Line)
    requires Valid(l)
    ensures RingOk(l) && BrowseOk(l) && TextOk(l)
  {
  }

  lemma NotedEcho(l: Line, now: bv32)
    ensures Noted(l, now).echo == l.echo
  {
  }

  /** No feed echoes more than the four redraw bytes and a full line. */
  lemma EchoBound(l: Line, b: Byte, now: bv32)
    requires Valid(l)
    ensures |Feed(l, b, now).out| <= 4 + 191
    ensures !l.echo ==> Feed(l, b, now).out == []
  {
    hide IsStale, PlainOk;
  }
}
