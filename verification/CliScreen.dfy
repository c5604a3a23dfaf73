/**
 The console loop (components/cli/cli.c) in front of a terminal: what the echoed bytes
 make the terminal show, against what the edit buffer holds.

 The terminal is one line of cells with a cursor. It knows CR, LF, backspace, printable
 bytes, and ESC [ sequences: of those that end in a letter after the parameter 2 it acts on
 K (erase the line), G (cursor to column 2), C and D (cursor right and left by 2); every
 other sequence it swallows without touching the line.
 */
module CliScreen {
  import opened CliLine

  datatype Term = Term(cells: seq<Byte>, col: nat, mode: nat, params: seq<Byte>)

  const BLANK := Term([], 0, 0, [])

  function CellAt(cells: seq<Byte>, i: nat): Byte { if i < |cells| then cells[i] else SPACE }

  function PutCell(cells: seq<Byte>, col: nat, b: Byte): (r: seq<Byte>)
    ensures forall i: nat :: CellAt(r, i) == if i == col then b else CellAt(cells, i)
  {
    if col < |cells| then cells[col := b] else cells + seq(col - |cells|, _ => SPACE) + [b]
  }

  function Control(t: Term, fin: Byte): Term {
    if t.params != [50] then t
    else if fin == 75 then t.(cells := [])
    else if fin == 71 then t.(col := 1)
    else if fin == 67 then t.(col := t.col + 2)
    else if fin == 68 then t.(col := if t.col < 2 then 0 else t.col - 2)
    else t
  }

  predicate Final(b: Byte) { 0x40 <= b <= 0x7E }

  function Receive(t: Term, b: Byte): Term {
    if t.mode == 1 then (if b == 91 then t.(mode := 2, params := []) else t.(mode := 0))
    else if t.mode == 2 then
      if Final(b) then Control(t, b).(mode := 0, params := []) else t.(params := t.params + [b])
    else if b == ESC then t.(mode := 1)
    else if b == CR then t.(col := 0)
    else if b == LF then t.(cells := [])
    else if b == BS then t.(col := if t.col > 0 then t.col - 1 else 0)
    else if Printable(b) then t.(cells := PutCell(t.cells, t.col, b), col := t.col + 1)
    else t
  }

  function Interp(t: Term, s: seq<Byte>): Term {
    if s == [] then t else Receive(Interp(t, s[..|s| - 1]), s[|s| - 1])
  }

  lemma {:induction false} InterpAppend(t: Term, a: seq<Byte>, b: seq<Byte>)
    ensures Interp(t, a + b) == Interp(Interp(t, a), b)
  {
    hide Receive;
    if b == [] {
      assert a + b == a;
    } else {
      assert (a + b)[..|a + b| - 1] == a + b[..|b| - 1];
      InterpAppend(t, a, b[..|b| - 1]);
    }
  }

  /** The terminal line is the text, the cursor behind it. */
  ghost predicate Shows(t: Term, text: seq<Byte>) {
    t.mode == 0 && t.col == |text| && forall i: nat :: CellAt(t.cells, i) == CellAt(text, i)
  }

  /** Printable text overwrites cells from the cursor on. */
  lemma {:induction false} Typed(t: Term, text: seq<Byte>)
    requires t.mode == 0 && Plain(text)
    ensures var r := Interp(t, text);
      && r.mode == 0 && r.col == t.col + |text|
      && forall i: nat ::
           CellAt(r.cells, i) == if t.col <= i < t.col + |text| then text[i - t.col] else CellAt(t.cells, i)
  {
    hide PutCell;
    if text != [] {
      var n := |text| - 1;
      assert text[..n] + [text[n]] == text;
      Typed(t, text[..n]);
    }
  }

  // ---------------- one key ----------------

  lemma Interp1(t: Term, a: Byte)
    ensures Interp(t, [a]) == Receive(t, a)
  {
    assert [a][..0] == [];
  }

  lemma Interp2(t: Term, a: Byte, b: Byte)
    ensures Interp(t, [a, b]) == Receive(Receive(t, a), b)
  {
    hide Receive;
    assert [a, b][..1] == [a];
    Interp1(t, a);
  }

  lemma Interp3(t: Term, a: Byte, b: Byte, c: Byte)
    ensures Interp(t, [a, b, c]) == Receive(Receive(Receive(t, a), b), c)
  {
    hide Receive;
    assert [a, b, c][..2] == [a, b];
    Interp2(t, a, b);
  }

  lemma Interp4(t: Term, a: Byte, b: Byte, c: Byte, d: Byte)
    ensures Interp(t, [a, b, c, d]) == Receive(Receive(Receive(Receive(t, a), b), c), d)
  {
    hide Receive;
    assert [a, b, c, d][..3] == [a, b, c];
    Interp3(t, a, b, c);
  }

  lemma NewLineBlanks(t: Term)
    requires t.mode == 0
    ensures Shows(Interp(t, [CR, LF]), [])
  {
    Interp2(t, CR, LF);
  }

  lemma InterruptBlanks(t: Term)
    requires t.mode == 0
    ensures Shows(Interp(t, [94, 67, CR, LF]), [])
  {
    hide PutCell;
    Interp4(t, 94, 67, CR, LF);
  }

  lemma Rubbed(t: Term, text: seq<Byte>)
    requires Shows(t, text) && text != []
    ensures Shows(Interp(t, [BS, SPACE, BS]), text[..|text| - 1])
  {
    hide PutCell;
    Interp3(t, BS, SPACE, BS);
  }

  lemma Appended(t: Term, text: seq<Byte>, b: Byte)
    requires Shows(t, text) && Printable(b)
    ensures Shows(Interp(t, [b]), text + [b])
  {
    hide PutCell;
    Interp1(t, b);
  }

  /** The key recalls a line: an arrow key with something to browse. */
  predicate Recalls(l: Line, b: Byte) {
    l.echo && l.esc == 2 && ((b == 65 && (l.browsing || l.count > 0)) || (b == 66 && l.browsing))
  }

  /** What the editor holds once the loop has taken a finished line. */
  function Held(f: Fed): seq<Byte> { if f.evt == LINE then [] else f.line.text }

  /** With echo on, any key that recalls nothing leaves the terminal line equal to the edit buffer. */
  lemma KeyShows(l: Line, b: Byte, now: bv32, t: Term)
    requires Valid(l) && l.echo && Shows(t, l.text) && !Recalls(l, b)
    ensures Shows(Interp(t, Feed(l, b, now).out), Held(Feed(l, b, now)))
  {
    hide Shows, Interp, HistPush, Recall, Bump, PlainOk, Printable;
    InterpNothing(t);
    ShowsMode(t, l.text);
    NewLineBlanks(t);
    InterruptBlanks(t);
    if l.text != [] { Rubbed(t, l.text); }
    if Printable(b) { Appended(t, l.text, b); }
  }

  lemma InterpNothing(t: Term)
    ensures Interp(t, []) == t
  {
  }

  lemma ShowsMode(t: Term, text: seq<Byte>)
    requires Shows(t, text)
    ensures t.mode == 0
  {
  }

  // ---------------- recalling a line ----------------

  /** The redraw bytes leave the terminal inside an unfinished control sequence, at the line's start. */
  lemma AfterRedraw(t: Term)
    requires t.mode == 0
    ensures Interp(t, REDRAW) == Term(t.cells, 0, 2, [50])
  {
    Interp4(t, CR, ESC, 91, 50);
    var none: seq<Byte> := [];
    assert none + [50] == [50];
  }

  /** The entry's own first bytes up to a letter complete the sequence and are not shown. */
  function FirstFinal(e: seq<Byte>, i: nat): (k: nat)
    requires i <= |e|
    ensures i <= k <= |e| && (k < |e| ==> Final(e[k]))
    ensures forall j :: i <= j < k ==> !Final(e[j])
    decreases |e| - i
  {
    if i == |e| || Final(e[i]) then i else FirstFinal(e, i + 1)
  }

  lemma {:induction false} Swallowed(t: Term, s: seq<Byte>)
    requires t.mode == 2 && forall i :: 0 <= i < |s| ==> !Final(s[i])
    ensures Interp(t, s) == t.(params := t.params + s)
  {
    if s != [] {
      var n := |s| - 1;
      Swallowed(t, s[..n]);
      assert t.params + s[..n] + [s[n]] == t.params + s;
    } else {
      assert t.params + s == t.params;
    }
  }

  /** What the terminal ends up with, cell by cell, after a redraw that recalls e. */
  lemma AfterRecall(t: Term, e: seq<Byte>)
    requires t.mode == 0 && Plain(e)
    ensures var r := Interp(t, REDRAW + e);
            var k := FirstFinal(e, 0);
            var c := Control(Term(t.cells, 0, 2, [50] + e[..k]), if k < |e| then e[k] else 0);
      && (k == |e| ==> r.mode == 2)
      && (k < |e| ==>
            r.mode == 0 && r.col == c.col + |e| - k - 1
            && forall i: nat :: CellAt(r.cells, i) ==
                 if c.col <= i < c.col + |e| - k - 1 then e[k + 1 + i - c.col] else CellAt(c.cells, i))
  {
    hide Receive, CellAt, FirstFinal, Control;
    var k := FirstFinal(e, 0);
    var t1 := Term(t.cells, 0, 2, [50]);
    InterpAppend(t, REDRAW, e);
    AfterRedraw(t);
    Swallowed(t1, e[..k]);
    if k == |e| {
      assert e[..k] == e;
    } else {
      assert e == e[..k] + [e[k]] + e[k + 1..];
      InterpAppend(t1, e[..k] + [e[k]], e[k + 1..]);
      InterpAppend(t1, e[..k], [e[k]]);
      var t2 := t1.(params := [50] + e[..k]);
      Interp1(t2, e[k]);
      Finished(t2, e[k]);
      Typed(Receive(t2, e[k]), e[k + 1..]);
    }
  }

  lemma Finished(t: Term, fin: Byte)
    requires t.mode == 2 && Final(fin)
    ensures Receive(t, fin) == Control(t, fin).(mode := 0, params := [])
  {
  }

  /** The accident that hides the missing erase: both lines begin with G, and nothing sticks out behind. */
  predicate Lucky(was: seq<Byte>, e: seq<Byte>) {
    && e != [] && e[0] == 71 && was != [] && was[0] == 71
    && forall i :: |e| <= i < |was| ==> was[i] == SPACE
  }

  /**
   After a recall the terminal line equals the edit buffer exactly in that accident: the
   erase sequence goes out without its last byte, so the terminal takes the recalled line's
   first letter for it.
   */
  lemma RecallShowsIff(t: Term, was: seq<Byte>, e: seq<Byte>)
    requires Shows(t, was) && Plain(e)
    ensures Shows(Interp(t, REDRAW + e), e) <==> Lucky(was, e)
  {
    hide Interp, CellAt, FirstFinal;
    AfterRecall(t, e);
    var r, k := Interp(t, REDRAW + e), FirstFinal(e, 0);
    if k == |e| {
      if e != [] { assert !Final(e[0]); }
    } else if k > 0 {
      assert ([50] + e[..k])[1] == e[0] && [50] + e[..k] != [50];
      assert !Final(e[0]);
    } else {
      assert [50] + e[..0] == [50];
      if e[0] == 71 {
        ColumnTwo(t, was, e, r);
      }
    }
  }

  /** G moves the cursor to the second column, so only the first cell is left as it was. */
  lemma ColumnTwo(t: Term, was: seq<Byte>, e: seq<Byte>, r: Term)
    requires Shows(t, was) && e != [] && e[0] == 71 && r.mode == 0 && r.col == |e|
    requires forall i: nat :: CellAt(r.cells, i) == if 1 <= i < |e| then e[i] else CellAt(t.cells, i)
    ensures Shows(r, e) <==> Lucky(was, e)
  {
    assert CellAt(r.cells, 0) == CellAt(t.cells, 0) == CellAt(was, 0);
    if Shows(r, e) {
      assert CellAt(e, 0) == 71;
      forall i | |e| <= i < |was| ensures was[i] == SPACE {
        assert CellAt(r.cells, i) == CellAt(e, i) == SPACE;
      }
    }
    if Lucky(was, e) {
      forall i: nat ensures CellAt(r.cells, i) == CellAt(e, i) {
        if i >= |e| { assert CellAt(r.cells, i) == CellAt(was, i); }
      }
    }
  }

  /** The same, for the key that recalls. */
  lemma RecallKey(l: Line, b: Byte, now: bv32, t: Term)
    requires Valid(l) && Shows(t, l.text) && Recalls(l, b)
    ensures var f := Feed(l, b, now);
      f.evt == NONE && (Shows(Interp(t, f.out), f.line.text) <==> Lucky(l.text, f.line.text))
  {
    hide Shows, Interp, Lucky, Bump;
    FeedValid(l, b, now);
    var f := Feed(l, b, now);
    assert f.out == REDRAW + f.line.text;
    RecallShowsIff(t, l.text, f.line.text);
  }

  /** A concrete miss: HELP recalled onto an empty line shows ELP. */
  lemma HelpRecalled()
    ensures !Shows(Interp(BLANK, REDRAW + [72, 69, 76, 80]), [72, 69, 76, 80])
    ensures Shows(Interp(BLANK, REDRAW + [72, 69, 76, 80]), [69, 76, 80])
  {
    hide Interp, CellAt;
    AfterRecall(BLANK, [72, 69, 76, 80]);
    RecallShowsIff(BLANK, [], [72, 69, 76, 80]);
    assert [50] + [72, 69, 76, 80][..0] == [50];
    EmptyCells();
  }

  lemma EmptyCells()
    ensures forall i: nat :: CellAt([], i) == SPACE
    ensures forall i: nat :: CellAt([69, 76, 80], i) == if i < 3 then [69, 76, 80][i] else SPACE
    ensures Shows(BLANK, [])
  {
  }

  /** The whole erase sequence, as documented, would redraw any line on any terminal. */
  lemma FullSequenceRedraws(t: Term, e: seq<Byte>)
    requires t.mode == 0 && Plain(e)
    ensures Shows(Interp(t, REDRAW + [75] + e), e)
  {
    hide Receive;
    InterpAppend(t, REDRAW + [75], e);
    InterpAppend(t, REDRAW, [75]);
    AfterRedraw(t);
    Interp1(Term(t.cells, 0, 2, [50]), 75);
    Finished(Term(t.cells, 0, 2, [50]), 75);
    Typed(Term([], 0, 0, []), e);
  }

  // ---------------- the console loop ----------------

  /** write_raw: a bare LF goes out as CR LF. */
  function WriteRaw(s: seq<Byte>): seq<Byte> {
    if s == [] then []
    else
      var n := |s| - 1;
      WriteRaw(s[..n]) + (if s[n] == LF && !(n > 0 && s[n - 1] == CR) then [CR, LF] else [s[n]])
  }

  /** A reply is whole lines of printable text. */
  predicate Lines(s: seq<Byte>) {
    && s != [] && s[|s| - 1] == LF
    && forall i :: 0 <= i < |s| ==> Printable(s[i]) || s[i] == CR || s[i] == LF
  }

  lemma {:induction false} WriteRawQuiet(t: Term, s: seq<Byte>)
    requires t.mode == 0 && forall i :: 0 <= i < |s| ==> Printable(s[i]) || s[i] == CR || s[i] == LF
    ensures Interp(t, WriteRaw(s)).mode == 0
    ensures s != [] && s[|s| - 1] == CR ==> Interp(t, WriteRaw(s)).col == 0
  {
    hide PutCell;
    if s != [] {
      var n := |s| - 1;
      WriteRawQuiet(t, s[..n]);
      var u := Interp(t, WriteRaw(s[..n]));
      InterpAppend(t, WriteRaw(s[..n]), [s[n]]);
      InterpAppend(t, WriteRaw(s[..n]), [CR, LF]);
      Interp1(u, s[n]);
      Interp2(u, CR, LF);
    }
  }

  /** However a reply was written, the cursor is left at the start of an empty line. */
  lemma ReplyBlanks(t: Term, s: seq<Byte>)
    requires t.mode == 0 && Lines(s)
    ensures Shows(Interp(t, WriteRaw(s)), [])
  {
    hide Receive;
    var n := |s| - 1;
    WriteRawQuiet(t, s[..n]);
    var u := Interp(t, WriteRaw(s[..n]));
    if n > 0 && s[n - 1] == CR {
      InterpAppend(t, WriteRaw(s[..n]), [LF]);
      Interp1(u, LF);
      FedLine(u);
    } else {
      InterpAppend(t, WriteRaw(s[..n]), [CR, LF]);
      NewLineBlanks(u);
    }
  }

  lemma FedLine(t: Term)
    requires t.mode == 0 && t.col == 0
    ensures Shows(Receive(t, LF), [])
  {
  }

  const TOO_LONG_TEXT: seq<Byte> := [69, 82, 82, 32, 84, 79, 79, 95, 76, 79, 78, 71, CR, LF]

  datatype Console = Console(line: Line, term: Term)

  /** One byte read, at a time, and the reply the dispatcher gives if it finishes a line. */
  datatype Input = Input(b: Byte, now: bv32, reply: seq<Byte>)

  /** The body of the console task's loop for one byte. */
  function Turn(c: Console, i: Input): Console
    requires Valid(c.line)
  {
    var f := Feed(c.line, i.b, i.now);
    var t := Interp(c.term, f.out);
    match f.evt
    case NONE => Console(f.line, t)
    case LINE => Console(Take(f.line), Interp(t, WriteRaw(i.reply)))
    case TOO_LONG => Console(f.line, Interp(t, WriteRaw(TOO_LONG_TEXT)))
  }

  ghost predicate InStep(c: Console) { Valid(c.line) && c.line.echo && Shows(c.term, c.line.text) }

  lemma TooLongEmpties(l: Line, b: Byte, now: bv32)
    requires Valid(l)
    ensures Feed(l, b, now).evt == TOO_LONG ==> Feed(l, b, now).line.text == []
  {
    hide IsStale, Bump, HistPush;
  }

  lemma TakeValid(l: Line)
    requires Valid(l)
    ensures Valid(Take(l)) && Take(l).text == [] && Take(l).echo == l.echo
  {
  }

  lemma TurnInStep(c: Console, i: Input)
    requires InStep(c) && Lines(i.reply) && !Recalls(c.line, i.b)
    ensures InStep(Turn(c, i))
  {
    hide Valid, Shows, Interp, Feed, WriteRaw, Recalls, Lines, Take;
    ValidShape(c.line);
    FeedValid(c.line, i.b, i.now);
    KeyShows(c.line, i.b, i.now, c.term);
    var f := Feed(c.line, i.b, i.now);
    var t := Interp(c.term, f.out);
    ShowsMode(t, Held(f));
    match f.evt
    case NONE =>
    case LINE =>
      TakeValid(f.line);
      ReplyBlanks(t, i.reply);
    case TOO_LONG =>
      TooLongEmpties(c.line, i.b, i.now);
      TooLongIsLines();
      ReplyBlanks(t, TOO_LONG_TEXT);
  }

  lemma TooLongIsLines()
    ensures Lines(TOO_LONG_TEXT)
  {
  }

  ghost predicate IsSession(cs: seq<Console>, ins: seq<Input>) {
    && |cs| == |ins| + 1 && cs[0].term == BLANK && cs[0].line == Init(true)
    && forall k :: 0 <= k < |ins| ==> Lines(ins[k].reply) && Valid(cs[k].line) && cs[k + 1] == Turn(cs[k], ins[k])
  }

  /**
   In every console session with echo on, as long as no key has recalled a history line, the
   terminal line obtained by interpreting all bytes sent equals the edit buffer.
   */
  lemma {:induction false} SessionInStep(cs: seq<Console>, ins: seq<Input>, k: nat)
    requires IsSession(cs, ins) && k < |cs|
    requires forall n :: 0 <= n < k ==> !Recalls(cs[n].line, ins[n].b)
    ensures InStep(cs[k])
  {
    hide Valid, Turn, Recalls, Shows, Lines;
    if k == 0 {
      InitShows();
    } else {
      SessionInStep(cs, ins, k - 1);
      assert Lines(ins[k - 1].reply) && cs[k - 1 + 1] == Turn(cs[k - 1], ins[k - 1]);
      TurnInStep(cs[k - 1], ins[k - 1]);
    }
  }

  lemma InitShows()
    ensures Valid(Init(true)) && Init(true).echo && Shows(BLANK, Init(true).text)
  {
  }

  /** A key that recalls a line keeps them in step exactly in the lucky accident. */
  lemma RecallTurn(c: Console, i: Input)
    requires InStep(c) && Recalls(c.line, i.b)
    ensures InStep(Turn(c, i)) <==> Lucky(c.line.text, Turn(c, i).line.text)
  {
    hide Valid, Recalls, Shows, Lucky, Interp, WriteRaw, Feed;
    ValidShape(c.line);
    RecallKey(c.line, i.b, i.now, c.term);
    FeedValid(c.line, i.b, i.now);
  }

  /** The recalling keys among the first k were all lucky accidents. */
  predicate AllLucky(cs: seq<Console>, ins: seq<Input>, k: nat)
    requires k <= |ins| < |cs|
  {
    forall n :: 0 <= n < k && Recalls(cs[n].line, ins[n].b) ==> Lucky(cs[n].line.text, cs[n + 1].line.text)
  }

  /**
   The whole session: terminal and buffer agree after each of the first k keys exactly if
   every key among them that recalled a history line did so in the lucky accident.
   */
  lemma {:induction false} SessionIff(cs: seq<Console>, ins: seq<Input>, k: nat)
    requires IsSession(cs, ins) && k <= |ins|
    ensures (forall j :: 0 <= j <= k ==> InStep(cs[j])) <==> AllLucky(cs, ins, k)
  {
    hide Valid, Turn, Recalls, Shows, Lines, Lucky, InStep;
    if k == 0 {
      SessionInStep(cs, ins, 0);
    } else {
      SessionIff(cs, ins, k - 1);
      assert Lines(ins[k - 1].reply) && cs[k - 1 + 1] == Turn(cs[k - 1], ins[k - 1]);
      if InStep(cs[k - 1]) {
        if Recalls(cs[k - 1].line, ins[k - 1].b) {
          RecallTurn(cs[k - 1], ins[k - 1]);
        } else {
          TurnInStep(cs[k - 1], ins[k - 1]);
        }
      }
    }
  }

  /** So the first key that recalls one decides. */
  lemma FirstRecall(cs: seq<Console>, ins: seq<Input>, k: nat)
    requires IsSession(cs, ins) && k < |ins|
    requires forall n :: 0 <= n < k ==> !Recalls(cs[n].line, ins[n].b)
    requires Recalls(cs[k].line, ins[k].b)
    ensures InStep(cs[k + 1]) <==> Lucky(cs[k].line.text, cs[k + 1].line.text)
  {
    hide Valid, Turn, Recalls, Shows, Lines, Lucky, InStep;
    SessionInStep(cs, ins, k);
    assert cs[k + 1] == Turn(cs[k], ins[k]);
    RecallTurn(cs[k], ins[k]);
  }
}
