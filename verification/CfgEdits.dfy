/**
 What merging any JSON document amounts to (components/hg_json/hg_json_cfg.c): the document
 is a list of edits, one a recognised leaf, and they are applied in order until one is refused.
 */
module CfgEdits {
  import opened Wrappers
  import opened CfgFields
  import opened CfgJson
  import opened CfgMerge
  import CfgPath

  /** Set one row of one group instance to a JSON value. */
  datatype Edit = Edit(g: Group, idx: int, key: string, value: Json)

  /** An edit names a group instance of the config and a row of that group. */
  predicate EditOk(e: Edit) { IsSlot(e.g, e.idx) && exists k :: 0 <= k < |Rows(e.g)| && Rows(e.g)[k].key == e.key }

  predicate EditsOk(es: seq<Edit>) { forall i :: 0 <= i < |es| ==> EditOk(es[i]) }

  predicate HasRow(g: Group, key: string) { exists k :: 0 <= k < |Rows(g)| && Rows(g)[k].key == key }

  // ---------------- the document as a list ----------------

  /** The members of a group object that are rows of the group. */
  function GroupEdits(g: Group, idx: int, items: seq<Member>): seq<Edit> {
    if items == [] then []
    else (if HasRow(g, items[0].name) then [Edit(g, idx, items[0].name, items[0].value)] else [])
         + GroupEdits(g, idx, items[1..])
  }

  const CFG_GROUPS := [ZONECFG, SHELF, LIGHT, WATER, FAN, VIB, AUX]

  /** The config group of that name and scope, as a list of none or one. */
  function Named(name: string, scope: nat, i: nat): seq<Group>
    requires i <= |CFG_GROUPS|
    decreases |CFG_GROUPS| - i
  {
    if i == |CFG_GROUPS| then []
    else if GroupName(CFG_GROUPS[i]) == name && Scope(CFG_GROUPS[i]) == scope then [CFG_GROUPS[i]]
    else Named(name, scope, i + 1)
  }

  /** An element of the shelf or aux array: its members that are objects of a group of that scope. */
  function ElementEdits(scope: nat, idx: nat, items: seq<Member>): seq<Edit> {
    if items == [] then []
    else
      var g := Named(items[0].name, scope, 0);
      (if g != [] && items[0].value.Obj? then GroupEdits(g[0], idx, items[0].value.members) else [])
      + ElementEdits(scope, idx, items[1..])
  }

  /** Array elements are numbered from 0; those that are no objects count, those beyond the last instance do not. */
  function ArrayEdits(scope: nat, idx: nat, items: seq<Json>): seq<Edit>
    decreases |items|
  {
    if items == [] || idx >= (if scope == 1 then 4 else 2) then []
    else (if items[0].Obj? then ElementEdits(scope, idx, items[0].members) else []) + ArrayEdits(scope, idx + 1, items[1..])
  }

  function MemberEdits(item: Member): seq<Edit> {
    match item.value
    case Obj(members) => if item.name == "ZONECFG" then GroupEdits(ZONECFG, -1, members) else []
    case Arr(elements) =>
      if item.name == "shelf" then ArrayEdits(1, 0, elements)
      else if item.name == "aux" then ArrayEdits(2, 0, elements)
      else []
    case _ => []
  }

  function TopEdits(items: seq<Member>): seq<Edit> {
    if items == [] then [] else MemberEdits(items[0]) + TopEdits(items[1..])
  }

  /** Everything under the document's first member "cfg", if that is an object. */
  function DocEdits(doc: Json): seq<Edit> {
    if !doc.Obj? then [] else CfgMember(doc.members)
  }

  function CfgMember(items: seq<Member>): seq<Edit> {
    if items == [] then []
    else if items[0].name == "cfg" then (if items[0].value.Obj? then TopEdits(items[0].value.members) else [])
    else CfgMember(items[1..])
  }

  // ---------------- carrying the list out ----------------

  function RowOf(g: Group, key: string): (k: nat)
    requires HasRow(g, key)
    ensures k < |Rows(g)| && Rows(g)[k].key == key
  {
    FindField(g, key, 0)
  }

  /** The config after the edits up to the first refused one, and how many were carried out. */
  function Perform(m: seq<Byte>, es: seq<Edit>): (r: (seq<Byte>, nat))
    requires |m| == SIZE && EditsOk(es)
    ensures |r.0| == SIZE && r.1 <= |es|
    decreases |es|
  {
    if es == [] then (m, 0)
    else
      assert EditOk(es[0]);
      var e := es[0];
      var k := RowOf(e.g, e.key);
      RowFits(e.g, e.idx, k);
      var a := Apply(Rows(e.g)[k], m, At(e.g, e.idx), e.value);
      if a.1 != 0 then (m, 0) else (Perform(a.0, es[1..]).0, Perform(a.0, es[1..]).1 + 1)
  }

  /** What the merge makes of a list: all carried out, or -2 with the path of the one refused. */
  ghost predicate Comes(m: seq<Byte>, es: seq<Edit>, r: Merged)
    requires |m| == SIZE && EditsOk(es)
  {
    var p := Perform(m, es);
    && r.m == p.0
    && if p.1 == |es| then r.rc == 0 && r.path == ""
       else r.rc == -2 && r.path == CfgPath.FieldPath(es[p.1].g, es[p.1].idx, es[p.1].key)
  }

  lemma HasRowIff(g: Group, key: string)
    ensures FindField(g, key, 0) < |Rows(g)| <==> HasRow(g, key)
  {
    hide Rows;
  }

  lemma JoinOk(a: seq<Edit>, b: seq<Edit>)
    ensures EditsOk(a + b) <==> EditsOk(a) && EditsOk(b)
  {
    hide EditOk;
    if EditsOk(a + b) {
      forall i | 0 <= i < |a| ensures EditOk(a[i]) { assert (a + b)[i] == a[i]; }
      forall i | 0 <= i < |b| ensures EditOk(b[i]) { assert (a + b)[|a| + i] == b[i]; }
    }
  }

  /** A list in two parts is the second after the first, unless the first stops. */
  lemma {:induction false} PerformJoin(m: seq<Byte>, a: seq<Edit>, b: seq<Edit>)
    requires |m| == SIZE && EditsOk(a) && EditsOk(b)
    ensures EditsOk(a + b)
    ensures var p := Perform(m, a);
      Perform(m, a + b) == if p.1 < |a| then p else (Perform(p.0, b).0, |a| + Perform(p.0, b).1)
    decreases |a|
  {
    hide Rows, Apply, At, EditOk;
    JoinOk(a, b);
    if a == [] {
      assert a + b == b;
    } else {
      assert (a + b)[0] == a[0] && (a + b)[1..] == a[1..] + b;
      assert EditOk(a[0]);
      var e := a[0];
      var k := RowFor(e);
      RowFits(e.g, e.idx, k);
      var x := Apply(Rows(e.g)[k], m, At(e.g, e.idx), e.value);
      PerformJoin(x.0, a[1..], b);
    }
  }

  lemma RowFor(e: Edit) returns (k: nat)
    requires EditOk(e)
    ensures IsSlot(e.g, e.idx) && HasRow(e.g, e.key) && k == RowOf(e.g, e.key)
  {
    hide Rows;
    k := RowOf(e.g, e.key);
  }

  lemma ComesJoin(m: seq<Byte>, a: seq<Edit>, b: seq<Edit>, r: Merged, t: Merged)
    requires |m| == SIZE && EditsOk(a) && EditsOk(b) && Comes(m, a, r) && |r.m| == SIZE
    requires r.rc == 0 ==> Comes(r.m, b, t)
    ensures EditsOk(a + b) && Comes(m, a + b, if r.rc != 0 then r else t)
  {
    hide EditOk, Perform;
    PerformJoin(m, a, b);
    var p := Perform(m, a);
    if p.1 < |a| {
      assert (a + b)[p.1] == a[p.1];
    } else {
      var q := Perform(p.0, b);
      if q.1 < |b| { assert (a + b)[|a| + q.1] == b[q.1]; }
    }
  }

  lemma NothingComes(m: seq<Byte>)
    requires |m| == SIZE
    ensures EditsOk([]) && Comes(m, [], Merged(m, 0, ""))
  {
  }

  lemma SameGroup(g: Group, idx: int, key: string)
    requires IsSlot(g, idx) && HasRow(g, key)
    ensures EditsOk([Edit(g, idx, key, Null)]) && forall v :: EditsOk([Edit(g, idx, key, v)])
  {
    hide Rows;
    forall v ensures EditsOk([Edit(g, idx, key, v)]) { assert EditOk(Edit(g, idx, key, v)); }
  }

  /** One leaf. */
  lemma LeafComes(m: seq<Byte>, g: Group, idx: int, item: Member)
    requires |m| == SIZE && IsSlot(g, idx) && HasRow(g, item.name)
    ensures EditsOk([Edit(g, idx, item.name, item.value)])
    ensures var k := RowOf(g, item.name);
      && Placed(g, Rows(g)[k]) && At(g, idx) + Rows(g)[k].offset + Width(Rows(g)[k].kind) <= SIZE
      && var a := Apply(Rows(g)[k], m, At(g, idx), item.value);
         Comes(m, [Edit(g, idx, item.name, item.value)],
               if a.1 != 0 then Merged(m, -2, JsonPath(g, idx, item.name)) else Merged(a.0, 0, ""))
  {
    hide Rows, Apply, At, Placed;
    SameGroup(g, idx, item.name);
    var k := RowOf(g, item.name);
    RowFits(g, idx, k);
    SamePath(g, idx, item.name);
    var es := [Edit(g, idx, item.name, item.value)];
    assert es[1..] == [] && es[0] == Edit(g, idx, item.name, item.value);
    var a := Apply(Rows(g)[k], m, At(g, idx), item.value);
    assert Perform(m, es) == if a.1 != 0 then (m, 0) else (a.0, 1);
  }

  lemma SamePath(g: Group, idx: int, key: string)
    requires IsSlot(g, idx)
    ensures JsonPath(g, idx, key) == CfgPath.FieldPath(g, idx, key)
  {
    CfgPath.JsonPathIsFieldPath(g, idx, key);
  }

  lemma {:induction false} GroupComes(m: seq<Byte>, g: Group, idx: int, items: seq<Member>)
    requires |m| == SIZE && IsSlot(g, idx)
    ensures EditsOk(GroupEdits(g, idx, items)) && Comes(m, GroupEdits(g, idx, items), MergeGroup(m, g, idx, items))
    decreases |items|
  {
    hide Rows, Apply, At, Comes, EditsOk, HasRow, JsonPath, Placed;
    if items == [] {
      NothingComes(m);
    } else {
      HasRowIff(g, items[0].name);
      if HasRow(g, items[0].name) {
        LeafComes(m, g, idx, items[0]);
        var k := RowOf(g, items[0].name);
        RowFits(g, idx, k);
        var a := Apply(Rows(g)[k], m, At(g, idx), items[0].value);
        GroupComes(a.0, g, idx, items[1..]);
        var r := if a.1 != 0 then Merged(m, -2, JsonPath(g, idx, items[0].name)) else Merged(a.0, 0, "");
        ComesJoin(m, [Edit(g, idx, items[0].name, items[0].value)], GroupEdits(g, idx, items[1..]), r,
          MergeGroup(a.0, g, idx, items[1..]));
      } else {
        GroupComes(m, g, idx, items[1..]);
        assert [] + GroupEdits(g, idx, items[1..]) == GroupEdits(g, idx, items[1..]);
      }
    }
  }

  lemma NamedIs(isAux: bool, name: string)
    ensures var g := Named(name, if isAux then 2 else 1, 0);
      && (GroupNamed(isAux, name).None? <==> g == [])
      && (g != [] ==> GroupNamed(isAux, name) == Some(g[0]))
  {
  }

  lemma NamedSlots(isAux: bool, name: string, idx: nat)
    requires GroupNamed(isAux, name).Some? && idx < MaxIdx(isAux)
    ensures IsSlot(GroupNamed(isAux, name).value, idx)
  {
  }

  lemma {:induction false} ElementComes(m: seq<Byte>, isAux: bool, idx: nat, items: seq<Member>)
    requires |m| == SIZE && idx < MaxIdx(isAux)
    ensures var es := ElementEdits(if isAux then 2 else 1, idx, items);
      EditsOk(es) && Comes(m, es, MergeElement(m, isAux, idx, items))
    decreases |items|
  {
    hide GroupEdits, Comes, EditsOk, MergeGroup, Named, GroupNamed;
    var scope := if isAux then 2 else 1;
    if items == [] {
      NothingComes(m);
    } else {
      NamedIs(isAux, items[0].name);
      var g := GroupNamed(isAux, items[0].name);
      var rest := ElementEdits(scope, idx, items[1..]);
      if g.None? || !items[0].value.Obj? {
        ElementComes(m, isAux, idx, items[1..]);
        assert [] + rest == rest;
      } else {
        NamedSlots(isAux, items[0].name, idx);
        var r := MergeGroup(m, g.value, idx, items[0].value.members);
        GroupComes(m, g.value, idx, items[0].value.members);
        ElementComes(r.m, isAux, idx, items[1..]);
        ComesJoin(m, GroupEdits(g.value, idx, items[0].value.members), rest, r, MergeElement(r.m, isAux, idx, items[1..]));
      }
    }
  }

  lemma {:induction false} ArrayComes(m: seq<Byte>, isAux: bool, idx: nat, items: seq<Json>)
    requires |m| == SIZE && idx <= MaxIdx(isAux)
    ensures var es := ArrayEdits(if isAux then 2 else 1, idx, items);
      EditsOk(es) && Comes(m, es, MergeArray(m, isAux, idx, items))
    decreases |items|
  {
    hide ElementEdits, Comes, EditsOk, MergeElement;
    var scope := if isAux then 2 else 1;
    if items == [] || idx == MaxIdx(isAux) {
      NothingComes(m);
    } else {
      var rest := ArrayEdits(scope, idx + 1, items[1..]);
      if !items[0].Obj? {
        ArrayComes(m, isAux, idx + 1, items[1..]);
        assert [] + rest == rest;
      } else {
        var r := MergeElement(m, isAux, idx, items[0].members);
        ElementComes(m, isAux, idx, items[0].members);
        ArrayComes(r.m, isAux, idx + 1, items[1..]);
        ComesJoin(m, ElementEdits(scope, idx, items[0].members), rest, r, MergeArray(r.m, isAux, idx + 1, items[1..]));
      }
    }
  }

  lemma MemberComes(m: seq<Byte>, item: Member)
    requires |m| == SIZE
    ensures EditsOk(MemberEdits(item)) && Comes(m, MemberEdits(item), MergeMember(m, item))
  {
    hide GroupEdits, ArrayEdits, Comes, EditsOk, MergeGroup, MergeArray;
    NothingComes(m);
    match item.value
    case Obj(members) => GroupComes(m, ZONECFG, -1, members);
    case Arr(elements) =>
      ArrayComes(m, false, 0, elements);
      ArrayComes(m, true, 0, elements);
    case _ =>
  }

  lemma {:induction false} TopComes(m: seq<Byte>, items: seq<Member>)
    requires |m| == SIZE
    ensures EditsOk(TopEdits(items)) && Comes(m, TopEdits(items), MergeTop(m, items))
    decreases |items|
  {
    hide GroupEdits, ArrayEdits, Comes, EditsOk, MergeMember;
    if items == [] {
      NothingComes(m);
    } else {
      var r := MergeMember(m, items[0]);
      MemberComes(m, items[0]);
      TopComes(r.m, items[1..]);
      ComesJoin(m, MemberEdits(items[0]), TopEdits(items[1..]), r, MergeTop(r.m, items[1..]));
    }
  }

  lemma {:induction false} CfgMemberIs(items: seq<Member>)
    ensures CfgMember(items) ==
      match Lookup(items, "cfg")
      case Some(j) => if j.Obj? then TopEdits(j.members) else []
      case None => []
  {
    hide TopEdits;
    if items != [] { CfgMemberIs(items[1..]); }
  }

  /**
   Merging any document is applying its list of edits: in document order, each to its own row
   of its own group instance, up to the first that is refused, whose path is the one reported.
   */
  lemma MergeIsEdits(m: seq<Byte>, doc: Json)
    requires |m| == SIZE
    ensures EditsOk(DocEdits(doc)) && Comes(m, DocEdits(doc), Scratch(m, doc))
  {
    hide TopEdits, MergeTop, Comes, EditsOk, CfgMember, Lookup;
    NothingComes(m);
    if doc.Obj? {
      CfgMemberIs(doc.members);
      var node := Lookup(doc.members, "cfg");
      if node.Some? && node.value.Obj? { TopComes(m, node.value.members); }
    }
  }

  /** The return code, exactly: no JSON, an edit refused, a result that does not validate, or done. */
  lemma MergeVerdict(hw: Option<CfgMerge.Hw>, cfg: Cfg, doc: Option<Json>)
    ensures var o := Merge(hw, cfg, doc);
      match doc
      case None => o.rc == -1
      case Some(d) =>
        EditsOk(DocEdits(d)) &&
        var p := Perform(cfg, DocEdits(d));
        o.rc == (if p.1 < |DocEdits(d)| then -2 else if Validate(p.0, hw).Some? then -3 else 0)
        && o.cfg == (if o.rc == 0 then p.0 else cfg)
  {
    hide Scratch, Validate, DocEdits, Perform, EditsOk;
    if doc.Some? { MergeIsEdits(cfg, doc.value); }
  }
}
