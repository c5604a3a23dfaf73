/**
 What a batch of field edits comes to (psvc_zone_fields_fn in components/panel_svc/psvc_zcfg.c),
 told row by row: which batch is taken, at which edit any other stops, and what every row of
 the config holds afterwards.
 */
module CfgBatch {
  import opened Wrappers
  import opened CfgFields
  import opened CfgMerge
  import opened CfgPath
  import CfgRoundTrip

  // ---------------- one edit ----------------

  /** There is such an instance of the group in the config. */
  predicate InRange(g: Group, idx: int) {
    match Scope(g)
    case 0 => true
    case 1 => 0 <= idx < 4
    case _ => 0 <= idx < 2
  }

  /** A config row, an index in range, and a text that stands for a value of the row. */
  predicate Takes(e: Edit)
    requires e.k < |Rows(e.g)|
  {
    !IsHw(e.g) && InRange(e.g, e.idx) && Encode(Rows(e.g)[e.k], e.text).Bytes?
  }

  /** The value a row's bytes stand for. */
  function Meaning(f: Field, b: seq<Byte>): Val
    requires |b| == Width(f.kind)
  {
    match f.kind
    case STR16 => Str(Str16(b, 0))
    case U16 => Num((b[0] as nat) + 256 * (b[1] as nat))
    case HHMM => Num((b[0] as nat) + 256 * (b[1] as nat))
    case _ => Num(b[0])
  }

  /** Which row an edit sets: zone-wide groups have one instance, whatever index is given. */
  predicate Sets(e: Edit, g: Group, idx: int, k: nat) {
    e.g == g && e.k == k && (Scope(g) == 0 || e.idx == idx)
  }

  lemma RangeIsSlot(g: Group, idx: int)
    requires !IsHw(g)
    ensures InRange(g, idx) <==> IsSlot(g, if Scope(g) == 0 then -1 else idx)
  {
  }

  lemma WriteIs(f: Field, m: seq<Byte>, base: nat, text: string)
    requires Fits(f, m, base)
    ensures Write(f, m, base, text).1 == 0 <==> Encode(f, text).Bytes?
    ensures Encode(f, text).Bytes? ==>
      && |Encode(f, text).b| == Width(f.kind)
      && Write(f, m, base, text).0 == Splice(m, base + f.offset, Encode(f, text).b)
  {
    hide Encode;
    EncodeWidth(f, text);
  }

  /** An edit is taken exactly if its row, its index and its text will do. */
  lemma EditVerdict(m: seq<Byte>, e: Edit)
    requires |m| == SIZE && e.k < |Rows(e.g)|
    ensures EditOne(m, e).bad.None? <==> Takes(e)
  {
    hide Rows, Encode, Write, FieldPath, At, IsSlot, InRange, GroupName;
    if !IsHw(e.g) {
      RangeIsSlot(e.g, e.idx);
      if IsSlot(e.g, SlotIdx(e)) {
        RowFits(e.g, SlotIdx(e), e.k);
        WriteIs(Rows(e.g)[e.k], m, At(e.g, SlotIdx(e)), e.text);
      }
    }
  }

  lemma SpliceOutside(m: seq<Byte>, at: nat, b: seq<Byte>, i: nat)
    requires at + |b| <= |m| && i < |m| && !(at <= i < at + |b|)
    ensures Splice(m, at, b)[i] == m[i]
  {
  }

  /** Rows that are not the one written share no byte with it. */
  lemma RowsApart(g: Group, i: int, k: nat, h: Group, j: int, n: nat)
    requires IsSlot(g, i) && k < |Rows(g)| && IsSlot(h, j) && n < |Rows(h)| && (g != h || i != j || k != n)
    ensures var (f, e) := (Rows(g)[k], Rows(h)[n]);
      || At(g, i) + f.offset + Width(f.kind) <= At(h, j) + e.offset
      || At(h, j) + e.offset + Width(e.kind) <= At(g, i) + f.offset
  {
    hide Rows, At, Lo, Hi, PlacedFrom;
    RowFits(g, i, k);
    RowFits(h, j, n);
    if g == h && i == j {
      Layout(g);
      assert Apart(Rows(g)[k], Rows(g)[n]);
    } else {
      SlotsApart(g, i, h, j);
    }
  }

  /** A taken edit gives its row the value of the text, and every other row of the config keeps its own. */
  lemma EditReads(m: seq<Byte>, e: Edit, g: Group, idx: int, k: nat)
    requires |m| == SIZE && e.k < |Rows(e.g)| && Takes(e) && IsSlot(g, idx) && k < |Rows(g)|
    ensures |Encode(Rows(e.g)[e.k], e.text).b| == Width(Rows(e.g)[e.k].kind)
    ensures Vals(EditOne(m, e).m, g, idx)[k] ==
      if Sets(e, g, idx, k) then Meaning(Rows(g)[k], Encode(Rows(g)[k], e.text).b) else Vals(m, g, idx)[k]
  {
    hide Rows, Encode, Write, FieldPath, At, IsSlot, InRange, GroupName, ValOf, Meaning, Splice;
    RangeIsSlot(e.g, e.idx);
    var f, slot := Rows(e.g)[e.k], SlotIdx(e);
    RowFits(e.g, slot, e.k);
    RowFits(g, idx, k);
    WriteIs(f, m, At(e.g, slot), e.text);
    var b, at := Encode(f, e.text).b, At(e.g, slot) + f.offset;
    ZoneSlot(g, idx);
    if Sets(e, g, idx, k) {
      SplicedMeans(f, m, At(e.g, slot), b);
    } else {
      RowsApart(e.g, slot, e.k, g, idx, k);
      var x := Rows(g)[k];
      forall i | At(g, idx) + x.offset <= i < At(g, idx) + x.offset + Width(x.kind)
        ensures Splice(m, at, b)[i] == m[i]
      {
        SpliceOutside(m, at, b, i);
      }
      CfgRoundTrip.ValFrame(x, m, Splice(m, at, b), At(g, idx));
    }
  }

  lemma ZoneSlot(g: Group, idx: int)
    requires IsSlot(g, idx)
    ensures !IsHw(g) && (Scope(g) == 0 ==> idx == -1)
  {
  }

  lemma SplicedMeans(f: Field, m: seq<Byte>, base: nat, b: seq<Byte>)
    requires Fits(f, m, base) && |b| == Width(f.kind)
    ensures Fits(f, Splice(m, base + f.offset, b), base)
    ensures ValOf(f, Splice(m, base + f.offset, b), base) == Meaning(f, b)
  {
    hide Splice, ValOf;
    SplicedVal(f, m, base, b);
  }

  // ---------------- a batch ----------------

  predicate AllTaken(es: seq<Edit>)
    requires EditsOk(es)
  {
    forall i :: 0 <= i < |es| ==> Takes(es[i])
  }

  /** A batch is taken exactly if each of its edits is, whatever the config. */
  lemma {:induction false} BatchVerdict(m: seq<Byte>, es: seq<Edit>)
    requires |m| == SIZE && EditsOk(es)
    ensures EditAll(m, es).bad.None? <==> AllTaken(es)
    decreases |es|
  {
    hide Rows, EditOne, Takes;
    if es != [] {
      EditVerdict(m, es[0]);
      BatchVerdict(EditOne(m, es[0]).m, es[1..]);
      assert AllTaken(es) <==> Takes(es[0]) && AllTaken(es[1..]) by {
        assert forall i :: 1 <= i < |es| ==> es[i] == es[1..][i - 1];
      }
    }
  }

  /** It stops at the first edit that is not. */
  lemma {:induction false} BatchStops(m: seq<Byte>, es: seq<Edit>) returns (n: nat)
    requires |m| == SIZE && EditsOk(es) && !AllTaken(es)
    ensures n < |es| && !Takes(es[n]) && forall i :: 0 <= i < n ==> Takes(es[i])
    ensures EditAll(m, es).m == EditAll(m, es[..n]).m
    ensures EditAll(m, es).bad == EditOne(EditAll(m, es).m, es[n]).bad
    decreases |es|
  {
    hide Rows, EditOne, Takes;
    EditVerdict(m, es[0]);
    if !Takes(es[0]) {
      n := 0;
      assert es[..0] == [];
    } else {
      assert !AllTaken(es[1..]) by {
        assert forall i :: 1 <= i < |es| ==> es[i] == es[1..][i - 1];
      }
      n := BatchStops(EditOne(m, es[0]).m, es[1..]);
      assert es[1..][n] == es[n + 1] && es[..n + 1][1..] == es[1..][..n] && es[..n + 1][0] == es[0];
      assert forall i :: 1 <= i <= n ==> es[i] == es[1..][i - 1];
      n := n + 1;
    }
  }

  /** What a row holds after the edits: what the last one that sets it says, or what it held. */
  function Last(es: seq<Edit>, g: Group, idx: int, k: nat, was: Val): Val
    requires EditsOk(es) && AllTaken(es)
  {
    if es == [] then was
    else
      var e := es[|es| - 1];
      if Sets(e, g, idx, k) then
        EncodeWidth(Rows(g)[k], e.text);
        Meaning(Rows(g)[k], Encode(Rows(g)[k], e.text).b)
      else Last(es[..|es| - 1], g, idx, k, was)
  }

  lemma {:induction false} LastOfTail(es: seq<Edit>, g: Group, idx: int, k: nat, was: Val, now: Val)
    requires EditsOk(es) && AllTaken(es) && es != [] && k < |Rows(g)| && now == Last(es[..1], g, idx, k, was)
    ensures EditsOk(es[1..]) && AllTaken(es[1..])
    ensures Last(es[1..], g, idx, k, now) == Last(es, g, idx, k, was)
    decreases |es|
  {
    hide Rows, Encode, Meaning, Takes, Sets;
    assert forall i :: 1 <= i < |es| ==> es[i] == es[1..][i - 1];
    if |es| == 1 {
      assert es[1..] == [] && es[..1] == es;
    } else {
      var front := es[..|es| - 1];
      assert front[..1] == es[..1] && es[1..][..|es| - 2] == front[1..];
      LastOfTail(front, g, idx, k, was, now);
    }
  }

  /** After a batch that was taken, every row of the config holds what its last edit says, or what it held. */
  lemma {:induction false} BatchReads(m: seq<Byte>, es: seq<Edit>, g: Group, idx: int, k: nat)
    requires |m| == SIZE && EditsOk(es) && AllTaken(es) && IsSlot(g, idx) && k < |Rows(g)|
    ensures Vals(EditAll(m, es).m, g, idx)[k] == Last(es, g, idx, k, Vals(m, g, idx)[k])
    decreases |es|
  {
    hide Rows, Encode, Meaning, Takes, EditOne, Vals, IsSlot;
    if es != [] {
      EditVerdict(m, es[0]);
      EditReads(m, es[0], g, idx, k);
      var r := EditOne(m, es[0]).m;
      assert es[..1][..0] == [] && es[..1][0] == es[0];
      LastOfTail(es, g, idx, k, Vals(m, g, idx)[k], Vals(r, g, idx)[k]);
      BatchReads(r, es[1..], g, idx, k);
    }
  }
}
