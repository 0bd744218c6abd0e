/** Editing a configuration tree: `apply_change`, the change loop of `apply`, and `retain_editable`,
    crates/flanforge-config/src/edit.rs. Tables are values here; text, order and decoration are not
    part of the tree, but whether a table is printed is. */
module Documents {
  import opened Base

  datatype Value = Bool(b: bool) | Integer(i: int) | String(s: string) | Array(items: seq<string>) | Other(text: string)

  datatype Item<M> = Leaf(value: Value) | Table(mark: M, entries: map<string, Item<M>>)

  /** How a table stands in the text: under its own header, only through what is below it, inline as a
      value of its parent, or inside such a one as a part of dotted keys. */
  datatype Mark = Header | Implicit | Inline | Dotted

  /** The table is part of a value, and can only hold values. */
  predicate IsValue(m: Mark) {
    m.Inline? || m.Dotted?
  }

  /** The format-preserving document that is edited, and the plain tree that is read. */
  type Document = Item<Mark>

  type View = Item<()>

  type Path = seq<string>

  datatype Change = Put(value: Value) | Clear

  /** What stands at a path, if anything. */
  function Get<M>(t: Item<M>, p: Path): Option<Item<M>> {
    if p == [] then Some(t)
    else if t.Table? && p[0] in t.entries then Get(t.entries[p[0]], p[1..])
    else None
  }

  /** The table at an entry, or the one created there: implicit, so that it prints as a dotted header,
      unless its parent is part of a value and can only hold values. */
  function Child(t: Document, k: string): Document
    requires t.Table?
  {
    if k in t.entries then t.entries[k] else Table(if IsValue(t.mark) then Inline else Implicit, map[])
  }

  /** One change: absent tables on the way are created, a value on the way is an error. */
  function ApplyChange(t: Document, p: Path, c: Change): (r: Option<Document>)
    requires t.Table?
    ensures r.Some? ==> r.value.Table? && r.value.mark == t.mark
    decreases |p|
  {
    if p == [] then None
    else if |p| == 1 then
      Some(t.(entries := if c.Clear? then t.entries - {p[0]} else t.entries[p[0] := Leaf(c.value)]))
    else if Child(t, p[0]).Leaf? then None
    else
      var changed := ApplyChange(Child(t, p[0]), p[1..], c);
      if changed.None? then None else Some(t.(entries := t.entries[p[0] := changed.value]))
  }

  predicate Comparable(p: Path, q: Path) {
    p <= q || q <= p
  }

  // ---------------------------------------------------------------- the lens laws

  /** A change is refused exactly when a value stands where a table is needed. */
  lemma {:induction false} ApplySucceeds(t: Document, p: Path, c: Change)
    requires t.Table? && p != []
    ensures ApplyChange(t, p, c).Some? <==>
            forall k :: 0 < k < |p| ==> Get(t, p[..k]).None? || Get(t, p[..k]).value.Table?
    decreases |p|
  {
    if |p| > 1 {
      var child := Child(t, p[0]);
      forall k | 0 < k < |p| ensures Get(t, p[..k]) == if p[0] in t.entries then Get(child, p[1..][..k - 1]) else None {
        assert p[..k][1..] == p[1..][..k - 1];
      }
      if child.Leaf? {
        assert Get(t, p[..1]) == Get(child, p[1..][..0]) == Some(child);
      } else {
        ApplySucceeds(child, p[1..], c);
        if p[0] in t.entries {
          SuccessBelow(t, p, child);
        } else {
          forall k | 0 < k < |p[1..]| ensures Get(child, p[1..][..k]).None? {
          }
        }
      }
    }
  }

  lemma SuccessBelow(t: Document, p: Path, child: Document)
    requires t.Table? && |p| > 1 && p[0] in t.entries && child == t.entries[p[0]] && child.Table?
    requires forall k :: 0 < k < |p| ==> Get(t, p[..k]) == Get(child, p[1..][..k - 1])
    ensures (forall k :: 0 < k < |p| ==> Get(t, p[..k]).None? || Get(t, p[..k]).value.Table?) <==>
            (forall k :: 0 < k < |p[1..]| ==> Get(child, p[1..][..k]).None? || Get(child, p[1..][..k]).value.Table?)
  {
    if forall k :: 0 < k < |p| ==> Get(t, p[..k]).None? || Get(t, p[..k]).value.Table? {
      forall k | 0 < k < |p[1..]| ensures Get(child, p[1..][..k]).None? || Get(child, p[1..][..k]).value.Table? {
        assert Get(t, p[..k + 1]) == Get(child, p[1..][..k]);
      }
    }
    if forall k :: 0 < k < |p[1..]| ==> Get(child, p[1..][..k]).None? || Get(child, p[1..][..k]).value.Table? {
      forall k | 0 < k < |p| ensures Get(t, p[..k]).None? || Get(t, p[..k]).value.Table? {
        if k == 1 {
          assert p[1..][..0] == [];
        } else {
          assert Get(t, p[..k]) == Get(child, p[1..][..k - 1]);
        }
      }
    }
  }

  /** What was written is read back, and after Clear nothing is. */
  lemma {:induction false} GetChanged(t: Document, p: Path, c: Change)
    requires t.Table? && ApplyChange(t, p, c).Some?
    ensures Get(ApplyChange(t, p, c).value, p) == if c.Clear? then None else Some(Leaf(c.value))
    decreases |p|
  {
    if |p| > 1 {
      var child := Child(t, p[0]);
      GetChanged(child, p[1..], c);
    } else {
      assert p[1..] == [];
    }
  }

  /** Every path that is neither a prefix nor an extension of the changed one reads as before. */
  lemma {:induction false} GetElsewhere(t: Document, p: Path, c: Change, q: Path)
    requires t.Table? && ApplyChange(t, p, c).Some? && !Comparable(p, q)
    ensures Get(ApplyChange(t, p, c).value, q) == Get(t, q)
    decreases |p|
  {
    if p[0] == q[0] {
      Tails(p, q);
      assert |p| > 1 && |q| > 1;
      var child := Child(t, p[0]);
      GetElsewhere(child, p[1..], c, q[1..]);
    }
  }

  lemma Tails(p: Path, q: Path)
    requires p != [] && q != [] && p[0] == q[0]
    ensures Comparable(p[1..], q[1..]) <==> Comparable(p, q)
  {
    assert p == [p[0]] + p[1..] && q == [q[0]] + q[1..];
  }

  /** Tables on the way to the change stay tables, and absent ones now exist, under Clear as well. */
  lemma {:induction false} GetOnTheWay(t: Document, p: Path, c: Change, k: nat)
    requires t.Table? && ApplyChange(t, p, c).Some? && k < |p|
    ensures Get(ApplyChange(t, p, c).value, p[..k]).Some? && Get(ApplyChange(t, p, c).value, p[..k]).value.Table?
    decreases |p|
  {
    if k > 0 {
      var child := Child(t, p[0]);
      assert p[..k][1..] == p[1..][..k - 1];
      GetOnTheWay(child, p[1..], c, k - 1);
    }
  }

  // ---------------------------------------------------------------- order

  function Then(t: Option<Document>, p: Path, c: Change): (r: Option<Document>)
    requires t.Some? ==> t.value.Table?
    ensures r.Some? ==> r.value.Table?
  {
    if t.None? then None else ApplyChange(t.value, p, c)
  }

  /** Two changes of incomparable paths give one tree, or fail, in either order. */
  lemma {:induction false} ChangesCommute(t: Document, p: Path, c: Change, q: Path, d: Change)
    requires t.Table? && !Comparable(p, q)
    ensures Then(ApplyChange(t, p, c), q, d) == Then(ApplyChange(t, q, d), p, c)
    decreases |p|
  {
    var x, y := p[0], q[0];
    if x == y {
      Tails(p, q);
      assert |p| > 1 && |q| > 1 by {
        assert |p| == 1 ==> p <= q;
        assert |q| == 1 ==> q <= p;
      }
      var child := Child(t, x);
      if child.Table? {
        ChangesCommute(child, p[1..], c, q[1..], d);
        SameHead(t, p, c, q, d, child);
        SameHead(t, q, d, p, c, child);
      }
    } else {
      OtherHead(t, p, c, q, d);
      OtherHead(t, q, d, p, c);
      var e, f := Entry(t, p, c), Entry(t, q, d);
      if e.Some? && f.Some? {
        EntriesCommute(t.entries, x, e.value, y, f.value);
      }
    }
  }

  /** Two changes below one entry are the two changes of that entry. */
  lemma SameHead(t: Document, p: Path, c: Change, q: Path, d: Change, child: Document)
    requires t.Table? && |p| > 1 && |q| > 1 && p[0] == q[0] && child.Table?
    requires child == Child(t, p[0])
    ensures var below := Then(ApplyChange(child, p[1..], c), q[1..], d);
            Then(ApplyChange(t, p, c), q, d) ==
                if below.None? then None else Some(t.(entries := t.entries[p[0] := below.value]))
  {
    var first := ApplyChange(child, p[1..], c);
    if first.Some? {
      var u := t.(entries := t.entries[p[0] := first.value]);
      assert ApplyChange(t, p, c) == Some(u);
      SecondChange(t, u, q, d, first.value);
    }
  }

  lemma SecondChange(t: Document, u: Document, q: Path, d: Change, child: Document)
    requires t.Table? && |q| > 1 && child.Table? && u == t.(entries := t.entries[q[0] := child])
    ensures var below := ApplyChange(child, q[1..], d);
            ApplyChange(u, q, d) == if below.None? then None else Some(t.(entries := t.entries[q[0] := below.value]))
  {
    assert Child(u, q[0]) == child;
    var below := ApplyChange(child, q[1..], d);
    if below.Some? {
      assert u.entries[q[0] := below.value] == t.entries[q[0] := below.value];
    }
  }

  /** What a change does to its own entry, the others left out. */
  function Entry(t: Document, p: Path, c: Change): Option<Option<Document>>
    requires t.Table? && p != []
  {
    if |p| == 1 then Some(if c.Clear? then None else Some(Leaf(c.value)))
    else
      var child := Child(t, p[0]);
      if child.Leaf? then None
      else
        var changed := ApplyChange(child, p[1..], c);
        if changed.None? then None else Some(changed)
  }

  function WithEntry(m: map<string, Document>, k: string, e: Option<Document>): map<string, Document> {
    if e.None? then m - {k} else m[k := e.value]
  }

  lemma ApplyByEntry(t: Document, p: Path, c: Change)
    requires t.Table? && p != []
    ensures ApplyChange(t, p, c) ==
            if Entry(t, p, c).None? then None else Some(t.(entries := WithEntry(t.entries, p[0], Entry(t, p, c).value)))
  {
  }

  lemma OtherHead(t: Document, p: Path, c: Change, q: Path, d: Change)
    requires t.Table? && p != [] && q != [] && p[0] != q[0]
    ensures var e, f := Entry(t, p, c), Entry(t, q, d);
            Then(ApplyChange(t, p, c), q, d) ==
            if e.None? || f.None? then None
            else Some(t.(entries := WithEntry(WithEntry(t.entries, p[0], e.value), q[0], f.value)))
  {
    ApplyByEntry(t, p, c);
    var e := Entry(t, p, c);
    if e.Some? {
      var u := t.(entries := WithEntry(t.entries, p[0], e.value));
      assert Entry(u, q, d) == Entry(t, q, d);
      ApplyByEntry(u, q, d);
    }
  }

  lemma EntriesCommute(m: map<string, Document>, k: string, e: Option<Document>, l: string, f: Option<Document>)
    requires k != l
    ensures WithEntry(WithEntry(m, k, e), l, f) == WithEntry(WithEntry(m, l, f), k, e)
  {
  }

  datatype Edit = Edit(path: Path, change: Change)

  /** Every change in turn. */
  function ApplyAll(t: Option<Document>, edits: seq<Edit>): (r: Option<Document>)
    requires t.Some? ==> t.value.Table?
    ensures r.Some? ==> r.value.Table?
    decreases |edits|
  {
    if edits == [] then t else ApplyAll(Then(t, edits[0].path, edits[0].change), edits[1..])
  }

  ghost predicate Independent(edits: seq<Edit>) {
    forall i, j :: 0 <= i < j < |edits| ==> !Comparable(edits[i].path, edits[j].path)
  }

  /** An edit can be done before those it is independent of. */
  lemma {:induction false} MoveToFront(t: Option<Document>, before: seq<Edit>, e: Edit)
    requires t.Some? ==> t.value.Table?
    requires forall i :: 0 <= i < |before| ==> !Comparable(before[i].path, e.path)
    ensures Then(ApplyAll(t, before), e.path, e.change) == ApplyAll(Then(t, e.path, e.change), before)
    decreases |before|
  {
    if before != [] {
      var f := before[0];
      MoveToFront(Then(t, f.path, f.change), before[1..], e);
      if t.Some? {
        ChangesCommute(t.value, f.path, f.change, e.path, e.change);
      }
    }
  }

  lemma {:induction false} ApplyConcat(t: Option<Document>, a: seq<Edit>, b: seq<Edit>)
    requires t.Some? ==> t.value.Table?
    ensures ApplyAll(t, a + b) == ApplyAll(ApplyAll(t, a), b)
    decreases |a|
  {
    if a == [] {
      assert a + b == b;
    } else {
      assert (a + b)[1..] == a[1..] + b;
      ApplyConcat(Then(t, a[0].path, a[0].change), a[1..], b);
    }
  }

  /** Independent changes give the same tree, or fail, in every order. */
  lemma {:induction false} OrderDoesNotMatter(t: Option<Document>, edits: seq<Edit>, others: seq<Edit>)
    requires t.Some? ==> t.value.Table?
    requires Independent(edits) && multiset(edits) == multiset(others)
    ensures ApplyAll(t, edits) == ApplyAll(t, others)
    decreases |others|
  {
    if others == [] {
      assert |multiset(edits)| == 0;
      assert edits == [];
    } else {
      var e := others[0];
      assert e in multiset(others);
      assert e in edits;
      var k :| 0 <= k < |edits| && edits[k] == e;
      DoFirst(t, edits, k);
      RemoveIndependent(edits, k);
      RemoveCounts(edits, others, k);
      OrderDoesNotMatter(Then(t, e.path, e.change), edits[..k] + edits[k + 1..], others[1..]);
    }
  }

  lemma DoFirst(t: Option<Document>, edits: seq<Edit>, k: nat)
    requires t.Some? ==> t.value.Table?
    requires k < |edits| && Independent(edits)
    ensures ApplyAll(t, edits) == ApplyAll(Then(t, edits[k].path, edits[k].change), edits[..k] + edits[k + 1..])
  {
    var a, e, b := edits[..k], edits[k], edits[k + 1..];
    assert edits == a + edits[k..] && edits[k..][1..] == b;
    ApplyConcat(t, a, edits[k..]);
    MoveToFront(t, a, e);
    ApplyConcat(Then(t, e.path, e.change), a, b);
  }

  lemma RemoveIndependent(edits: seq<Edit>, k: nat)
    requires k < |edits| && Independent(edits)
    ensures Independent(edits[..k] + edits[k + 1..])
  {
    var rest := edits[..k] + edits[k + 1..];
    forall i, j | 0 <= i < j < |rest| ensures !Comparable(rest[i].path, rest[j].path) {
      var a, b := if i < k then i else i + 1, if j < k then j else j + 1;
      assert rest[i] == edits[a] && rest[j] == edits[b];
    }
  }

  lemma RemoveCounts(edits: seq<Edit>, others: seq<Edit>, k: nat)
    requires k < |edits| && others != [] && edits[k] == others[0] && multiset(edits) == multiset(others)
    ensures multiset(edits[..k] + edits[k + 1..]) == multiset(others[1..])
  {
    assert edits == edits[..k] + ([edits[k]] + edits[k + 1..]);
    assert others == [others[0]] + others[1..];
    assert multiset(edits) == multiset{edits[k]} + multiset(edits[..k] + edits[k + 1..]);
    assert multiset(others) == multiset{others[0]} + multiset(others[1..]);
    Cancel(edits[k], multiset(edits[..k] + edits[k + 1..]), multiset(others[1..]));
  }

  lemma Cancel(e: Edit, a: multiset<Edit>, b: multiset<Edit>)
    requires multiset{e} + a == multiset{e} + b
    ensures a == b
  {
    assert a == (multiset{e} + a) - multiset{e};
    assert b == (multiset{e} + b) - multiset{e};
  }

  // ---------------------------------------------------------------- what is written

  /** The item appears in the text. A table without a header that is not inline does so only through what
      is below it. */
  predicate Shown(t: Document) {
    t.Leaf? || t.mark.Header? || t.mark.Inline? || exists k :: k in t.entries && Shown(t.entries[k])
  }

  /** What `save` reads back from the text it is about to write. */
  function Parsed(t: Document): View {
    match t
    case Leaf(v) => Leaf(v)
    case Table(_, m) => Table((), map k | k in m && Shown(m[k]) :: Parsed(m[k]))
  }

  lemma {:induction false} LeafShows(t: Document, p: Path)
    requires Get(t, p).Some? && Get(t, p).value.Leaf?
    ensures Shown(t)
    decreases |p|
  {
    if p != [] {
      LeafShows(t.entries[p[0]], p[1..]);
    }
  }

  /** Writing and reading back keeps exactly the values, so the laws above hold of the file as well. */
  lemma {:induction false} ParsedLeaves(t: Document, p: Path, v: Value)
    ensures Get(Parsed(t), p) == Some(Leaf(v)) <==> Get(t, p) == Some(Leaf(v))
    decreases |p|
  {
    if p != [] && t.Table? && p[0] in t.entries {
      ParsedLeaves(t.entries[p[0]], p[1..], v);
      if Get(t, p) == Some(Leaf(v)) {
        LeafShows(t.entries[p[0]], p[1..]);
      }
    }
  }

  // ---------------------------------------------------------------- clearing

  /** In memory, Clear changes nothing exactly when the key is absent from a table that is there. */
  lemma {:induction false} ClearIsIdleExactly(t: Document, p: Path)
    requires t.Table? && p != [] && ApplyChange(t, p, Clear).Some?
    ensures ApplyChange(t, p, Clear) == Some(t) <==> Get(t, p).None? && Get(t, p[..|p| - 1]).Some?
    decreases |p|
  {
    if |p| == 1 {
      assert p[1..] == [] && p[..0] == [];
      assert p[0] !in t.entries ==> t.entries - {p[0]} == t.entries;
    } else {
      assert p[..|p| - 1][1..] == p[1..][..|p[1..]| - 1];
      if p[0] in t.entries {
        ClearIsIdleExactly(t.entries[p[0]], p[1..]);
        var c := ApplyChange(t.entries[p[0]], p[1..], Clear).value;
        assert t.entries[p[0] := c] == t.entries <==> c == t.entries[p[0]];
      }
    }
  }

  /** How the deepest table that exists on the way to a key stands in the text. */
  function Deepest(t: Document, p: Path): Mark
    requires t.Table?
    decreases |p|
  {
    if |p| <= 1 || p[0] !in t.entries || t.entries[p[0]].Leaf? then t.mark else Deepest(t.entries[p[0]], p[1..])
  }

  /** What stands at the key is not printed; or nothing does, and either no table has to be created or
      none is created inline. */
  predicate ClearsUnseen(t: Document, p: Path)
    requires t.Table? && p != []
  {
    if Get(t, p).Some? then !Shown(Get(t, p).value)
    else Get(t, p[..|p| - 1]).Some? || Deepest(t, p).Header? || Deepest(t, p).Implicit?
  }

  /** Created tables are printed exactly when they are inline. */
  lemma {:induction false} CreatedShows(mark: Mark, p: Path)
    requires p != [] && (mark.Implicit? || mark.Inline?)
    ensures var r := ApplyChange(Table(mark, map[]), p, Clear); r.Some? && (Shown(r.value) <==> mark.Inline?)
    decreases |p|
  {
    var t: Document := Table(mark, map[]);
    if |p| == 1 {
      assert t.entries - {p[0]} == t.entries;
    } else {
      CreatedShows(mark, p[1..]);
      var c := ApplyChange(Child(t, p[0]), p[1..], Clear).value;
      var r := ApplyChange(t, p, Clear).value;
      assert r.entries == map[p[0] := c];
      assert Shown(c) ==> p[0] in r.entries && Shown(r.entries[p[0]]);
    }
  }

  /** A hidden table reads back as nothing below it. */
  lemma HiddenIsEmpty(t: Document)
    requires t.Table? && !Shown(t)
    ensures Parsed(t) == Table((), map[])
  {
  }

  /** Replacing one entry shows exactly when what is read back of it changes. */
  lemma OneEntrySeen(t: Document, k: string, c: Document)
    requires t.Table? && k in t.entries && t.entries[k].Table? && c.Table?
    requires Parsed(c) == Parsed(t.entries[k]) ==> Shown(c) == Shown(t.entries[k])
    ensures var u := t.(entries := t.entries[k := c]);
            && (Parsed(u) == Parsed(t) <==> Parsed(c) == Parsed(t.entries[k]))
            && (Parsed(u) == Parsed(t) ==> Shown(u) == Shown(t))
  {
    var u := t.(entries := t.entries[k := c]);
    if Parsed(c) == Parsed(t.entries[k]) {
      SameShown(t, u, k);
      SameParsed(t, u, k);
    } else {
      SomeShown(t.entries[k], c);
      EntrySeen(t, u, k);
    }
  }

  lemma SomeShown(a: Document, b: Document)
    requires a.Table? && b.Table? && Parsed(a) != Parsed(b)
    ensures Shown(a) || Shown(b)
  {
    if !Shown(a) && !Shown(b) {
      HiddenIsEmpty(a);
      HiddenIsEmpty(b);
    }
  }

  lemma SameParsed(t: Document, u: Document, k: string)
    requires t.Table? && u.Table? && k in t.entries && k in u.entries
    requires u.entries == t.entries[k := u.entries[k]]
    requires Parsed(u.entries[k]) == Parsed(t.entries[k]) && Shown(u.entries[k]) == Shown(t.entries[k])
    ensures Parsed(u) == Parsed(t)
  {
    assert Parsed(u).entries == Parsed(t).entries;
  }

  lemma SameShown(t: Document, u: Document, k: string)
    requires t.Table? && u.Table? && u.mark == t.mark
    requires forall l :: l != k ==>
        (l in u.entries <==> l in t.entries) && (l in t.entries ==> u.entries[l] == t.entries[l])
    requires (k in u.entries && Shown(u.entries[k])) <==> (k in t.entries && Shown(t.entries[k]))
    ensures Shown(u) == Shown(t)
  {
    if Shown(t) && !t.mark.Header? && !t.mark.Inline? {
      var l :| l in t.entries && Shown(t.entries[l]);
      assert l in u.entries && Shown(u.entries[l]);
    }
    if Shown(u) && !u.mark.Header? && !u.mark.Inline? {
      var l :| l in u.entries && Shown(u.entries[l]);
      assert l in t.entries && Shown(t.entries[l]);
    }
  }

  lemma EntrySeen(t: Document, u: Document, k: string)
    requires t.Table? && u.Table? && k in t.entries && k in u.entries
    requires Shown(t.entries[k]) || Shown(u.entries[k])
    requires Shown(t.entries[k]) && Shown(u.entries[k]) ==> Parsed(t.entries[k]) != Parsed(u.entries[k])
    ensures Parsed(t) != Parsed(u)
  {
    assert k in Parsed(t).entries <==> Shown(t.entries[k]);
    assert k in Parsed(u).entries <==> Shown(u.entries[k]);
  }

  /** Clear leaves what is written as it was exactly when it clears nothing that is printed and creates
      no inline table; and then it does not change whether the tables on the way are printed. */
  lemma {:induction false} ClearUnseenExactly(t: Document, p: Path)
    requires t.Table? && p != [] && ApplyChange(t, p, Clear).Some?
    ensures var u := ApplyChange(t, p, Clear).value;
            && (Parsed(u) == Parsed(t) <==> ClearsUnseen(t, p))
            && (Parsed(u) == Parsed(t) ==> Shown(u) == Shown(t))
    decreases |p|
  {
    var k := p[0];
    if |p| == 1 {
      assert p[1..] == [] && p[..0] == [];
      assert Get(t, p) == if k in t.entries then Some(t.entries[k]) else None;
      RemovedSeen(t, k);
    } else if k in t.entries {
      assert p[..|p| - 1][1..] == p[1..][..|p[1..]| - 1];
      ClearUnseenExactly(t.entries[k], p[1..]);
      OneEntrySeen(t, k, ApplyChange(t.entries[k], p[1..], Clear).value);
    } else {
      CreatedShows(if IsValue(t.mark) then Inline else Implicit, p[1..]);
      AddedSeen(t, k, ApplyChange(Child(t, k), p[1..], Clear).value);
    }
  }

  lemma RemovedSeen(t: Document, k: string)
    requires t.Table?
    ensures var u := t.(entries := t.entries - {k});
            && (Parsed(u) == Parsed(t) <==> k !in t.entries || !Shown(t.entries[k]))
            && (Parsed(u) == Parsed(t) ==> Shown(u) == Shown(t))
  {
    var u := t.(entries := t.entries - {k});
    if k !in t.entries || !Shown(t.entries[k]) {
      SameShown(t, u, k);
      assert Parsed(u).entries == Parsed(t).entries;
    } else {
      assert k in Parsed(t).entries && k !in Parsed(u).entries;
    }
  }

  lemma AddedSeen(t: Document, k: string, c: Document)
    requires t.Table? && k !in t.entries
    ensures var u := t.(entries := t.entries[k := c]);
            && (Parsed(u) == Parsed(t) <==> !Shown(c))
            && (Parsed(u) == Parsed(t) ==> Shown(u) == Shown(t))
  {
    var u := t.(entries := t.entries[k := c]);
    if !Shown(c) {
      SameShown(t, u, k);
      assert Parsed(u).entries == Parsed(t).entries;
    } else {
      assert k !in Parsed(t).entries && k in Parsed(u).entries;
    }
  }

  /** Clearing an optional key of a document that says nothing about its table: the tables on the way
      appear in memory and not in the file, except below an inline table, where one is written. */
  lemma ClearCanCreateTables(p: Path)
    requires p == ["guest", "ssh", "host_key_alias"]
    ensures var t: Document := Table(Header, map[]);
            var r := ApplyChange(t, p, Clear);
            r.Some? && r.value != t && Parsed(r.value) == Parsed(t)
    ensures var t: Document := Table(Header, map["guest" := Table(Inline, map[])]);
            var r := ApplyChange(t, p, Clear);
            r.Some? && Parsed(r.value) != Parsed(t)
  {
    var t: Document := Table(Header, map[]);
    CreatedShows(Implicit, p[1..]);
    ClearIsIdleExactly(t, p);
    ClearUnseenExactly(t, p);
    var u: Document := Table(Header, map["guest" := Table(Inline, map[])]);
    CreatedShows(Inline, p[1..]);
    assert p[..2][1..] == ["ssh"] && p[1..][0] == "ssh";
    ClearUnseenExactly(u, p);
  }

  // ---------------------------------------------------------------- one request

  /** The overlay schema's verdict on a key. */
  datatype FieldKind = BoolField | IntegerField | OptionalInteger | StringField | OptionalString | Backend | StringArray

  predicate Fits(kind: FieldKind, c: Change) {
    match c
    case Clear => kind.OptionalInteger? || kind.OptionalString?
    case Put(Bool(_)) => kind.BoolField?
    case Put(Integer(_)) => kind.IntegerField? || kind.OptionalInteger?
    case Put(String(_)) => kind.StringField? || kind.OptionalString? || kind.Backend?
    case Put(Array(_)) => kind.StringArray?
    case Put(Other(_)) => false
  }

  datatype EditError = NotEditable(path: Path) | WrongShape(path: Path)

  /** The key is well formed, editable and known. */
  ghost predicate MayEdit(p: Path, editable: Path -> bool, kinds: Path -> Option<FieldKind>) {
    (forall i :: 0 <= i < |p| ==> p[i] != "") && editable(p) && kinds(p).Some?
  }

  /** What may stand at a key of each kind; only an optional one may be cleared. */
  ghost predicate Suits(kind: FieldKind, c: Change) {
    match kind
    case BoolField => c.Put? && c.value.Bool?
    case IntegerField => c.Put? && c.value.Integer?
    case OptionalInteger => c.Clear? || c.value.Integer?
    case StringField => c.Put? && c.value.String?
    case OptionalString => c.Clear? || c.value.String?
    case Backend => c.Put? && c.value.String?
    case StringArray => c.Put? && c.value.Array?
  }

  ghost predicate Admits(e: Edit, editable: Path -> bool, kinds: Path -> Option<FieldKind>) {
    MayEdit(e.path, editable, kinds) && Suits(kinds(e.path).value, e.change)
  }

  lemma FitsByKind(kind: FieldKind, c: Change)
    ensures Fits(kind, c) <==> Suits(kind, c)
  {
  }

  /** The loop over the changes. All of them are applied, or the first one that cannot be is named. */
  method ApplyEdits(t: Document, edits: seq<Edit>, editable: Path -> bool, kinds: Path -> Option<FieldKind>)
    returns (r: Result<Document, EditError>)
    requires t.Table?
    ensures r.Ok? ==> forall e :: e in edits ==> Admits(e, editable, kinds)
    ensures r.Ok? ==> ApplyAll(Some(t), edits) == Some(r.value)
    ensures r.Ok? ==> forall e :: e in edits ==>
              && editable(e.path) && kinds(e.path).Some?
              && (e.change.Clear? ==> kinds(e.path).value.OptionalInteger? || kinds(e.path).value.OptionalString?)
    ensures r.Err? ==> exists i ::
              && 0 <= i < |edits| && edits[i].path == r.error.path
              && (forall e :: e in edits[..i] ==> Admits(e, editable, kinds)) && ApplyAll(Some(t), edits[..i]).Some?
              && (r.error.NotEditable? <==> !MayEdit(edits[i].path, editable, kinds))
              && (r.error.WrongShape? ==> !Admits(edits[i], editable, kinds) || ApplyAll(Some(t), edits[..i + 1]).None?)
  {
    var formatted := t;
    for i := 0 to |edits|
      invariant formatted.Table? && ApplyAll(Some(t), edits[..i]) == Some(formatted)
      invariant forall e :: e in edits[..i] ==> Admits(e, editable, kinds)
    {
      var e := edits[i];
      assert edits[..i + 1] == edits[..i] + [e];
      ApplyLast(Some(t), edits[..i], e);
      if "" in e.path || !editable(e.path) || kinds(e.path).None? {
        return Err(NotEditable(e.path));
      }
      assert MayEdit(e.path, editable, kinds);
      FitsByKind(kinds(e.path).value, e.change);
      if !Fits(kinds(e.path).value, e.change) {
        return Err(WrongShape(e.path));
      }
      var changed := ApplyChange(formatted, e.path, e.change);
      if changed.None? {
        return Err(WrongShape(e.path));
      }
      formatted := changed.value;
    }
    assert edits[..|edits|] == edits;
    r := Ok(formatted);
  }

  lemma {:induction false} ApplyLast(t: Option<Document>, edits: seq<Edit>, e: Edit)
    requires t.Some? ==> t.value.Table?
    ensures ApplyAll(t, edits + [e]) == Then(ApplyAll(t, edits), e.path, e.change)
    decreases |edits|
  {
    if edits == [] {
      assert edits + [e] == [e];
      assert [e][1..] == [];
    } else {
      assert (edits + [e])[1..] == edits[1..] + [e];
      ApplyLast(Then(t, edits[0].path, edits[0].change), edits[1..], e);
    }
  }

  // ---------------------------------------------------------------- the editable view

  /** The children kept: editable values, and tables with something left in them. */
  function Retain(t: View, path: Path, editable: Path -> bool): (r: View)
    ensures r.Table? <==> t.Table?
    decreases t, 0
  {
    if t.Leaf? then t
    else Table((), map k | k in t.entries && Keeps(t.entries[k], path + [k], editable) ::
        Retain(t.entries[k], path + [k], editable))
  }

  predicate Keeps(child: View, path: Path, editable: Path -> bool)
    decreases child, 1
  {
    match child
    case Leaf(_) => editable(path)
    case Table(_, _) => Retain(child, path, editable).entries != map[]
  }

  /** One key of the walk is done: dropped, or replaced by what is left of it. */
  ghost predicate Settles(table: map<string, View>, k: string, child: View, path: Path, editable: Path -> bool) {
    (k in table <==> Keeps(child, path, editable)) && (k in table ==> table[k] == Retain(child, path, editable))
  }

  /** The walk so far: `left` is still to come. */
  ghost predicate Walked(entries: map<string, View>, path: Path, editable: Path -> bool, left: set<string>,
                         table: map<string, View>)
  {
    && left <= entries.Keys && table.Keys <= entries.Keys
    && (forall k :: k in left ==> k in table && table[k] == entries[k])
    && (forall k :: k in entries && k !in left ==> Settles(table, k, entries[k], path + [k], editable))
  }

  lemma WalkOne(entries: map<string, View>, path: Path, editable: Path -> bool, left: set<string>,
                table: map<string, View>, key: string, after: map<string, View>)
    requires Walked(entries, path, editable, left, table) && key in left
    requires after.Keys <= entries.Keys && forall k :: k != key ==>
        (k in after <==> k in table) && (k in after ==> after[k] == table[k])
    requires Settles(after, key, entries[key], path + [key], editable)
    ensures Walked(entries, path, editable, left - {key}, after)
  {
    forall k | k in entries && k !in left - {key} ensures Settles(after, k, entries[k], path + [k], editable) {
      assert k != key ==> Settles(table, k, entries[k], path + [k], editable);
    }
  }

  lemma WalkEnds(t: View, path: Path, editable: Path -> bool, table: map<string, View>)
    requires t.Table? && Walked(t.entries, path, editable, {}, table)
    ensures Table((), table) == Retain(t, path, editable)
  {
    var m := Retain(t, path, editable).entries;
    forall k ensures (k in table <==> k in m) && (k in table ==> table[k] == m[k]) {
      if k in t.entries {
        assert Settles(table, k, t.entries[k], path + [k], editable);
      }
    }
    assert table == m;
  }

  /** The in-place walk with its path stack, one key at a time. */
  method RetainEditable(t: View, path: Path, editable: Path -> bool) returns (r: View)
    ensures r == Retain(t, path, editable)
    decreases t
  {
    if t.Leaf? {
      return t;
    }
    var table := t.entries;
    var stack := path;
    var left := t.entries.Keys;
    while left != {}
      invariant Walked(t.entries, path, editable, left, table) && stack == path
      decreases |left|
    {
      var key :| key in left;
      stack := stack + [key];
      var keep, child := RetainChild(t, key, stack, editable);
      stack := stack[..|stack| - 1];
      var after := if keep then table[key := child] else table - {key};
      WalkOne(t.entries, path, editable, left, table, key, after);
      left := left - {key};
      table := after;
    }
    WalkEnds(t, path, editable, table);
    r := Table((), table);
  }

  method RetainChild(t: View, key: string, path: Path, editable: Path -> bool) returns (keep: bool, child: View)
    requires t.Table? && key in t.entries
    ensures keep == Keeps(t.entries[key], path, editable)
    ensures child == Retain(t.entries[key], path, editable)
    decreases t, 0
  {
    child := t.entries[key];
    if child.Table? {
      child := RetainEditable(child, path, editable);
      keep := child.entries != map[];
    } else {
      keep := editable(path);
    }
  }

  /** The view's leaves are exactly the document's editable leaves, with their values. */
  lemma {:induction false} RetainedLeaves(t: View, path: Path, editable: Path -> bool, p: Path, v: Value)
    requires p != []
    ensures Get(Retain(t, path, editable), p) == Some(Leaf(v)) <==> Get(t, p) == Some(Leaf(v)) && editable(path + p)
    decreases |p|
  {
    if t.Table? && p[0] in t.entries {
      var k, child := p[0], t.entries[p[0]];
      assert path + p == path + [k] + p[1..];
      if |p| == 1 {
        assert path + p == path + [k];
        assert p[1..] == [];
      } else {
        RetainedLeaves(child, path + [k], editable, p[1..], v);
      }
    }
  }

  /** No table below the root is empty. */
  ghost predicate Full(t: View) {
    t.Table? ==> forall k :: k in t.entries ==>
        Full(t.entries[k]) && (t.entries[k].Table? ==> t.entries[k].entries != map[])
  }

  lemma {:induction false} RetainedIsFull(t: View, path: Path, editable: Path -> bool)
    ensures Full(Retain(t, path, editable))
    decreases t
  {
    if t.Table? {
      forall k | k in Retain(t, path, editable).entries ensures Full(Retain(t.entries[k], path + [k], editable)) {
        RetainedIsFull(t.entries[k], path + [k], editable);
      }
    }
  }

  ghost predicate SameLeaves(a: View, b: View) {
    forall p, v :: Get(a, p) == Some(Leaf(v)) <==> Get(b, p) == Some(Leaf(v))
  }

  /** A full tree that is not an empty table has a leaf. */
  lemma {:induction false} SomeLeaf(t: View) returns (p: Path, v: Value)
    requires Full(t) && (t.Table? ==> t.entries != map[])
    ensures Get(t, p) == Some(Leaf(v))
    decreases t
  {
    if t.Leaf? {
      p, v := [], t.value;
    } else {
      var k :| k in t.entries;
      var rest;
      rest, v := SomeLeaf(t.entries[k]);
      p := [k] + rest;
      assert p[1..] == rest;
    }
  }

  /** So the view is the only tree with those leaves and no empty table. */
  lemma {:induction false} LeavesDetermineTree(a: View, b: View)
    requires a.Table? && b.Table? && Full(a) && Full(b) && SameLeaves(a, b)
    ensures a == b
    decreases a
  {
    forall k | k in a.entries || k in b.entries
      ensures k in a.entries && k in b.entries && a.entries[k] == b.entries[k]
    {
      SameKeys(a, b, k);
      SameKeys(b, a, k);
      SameChild(a, b, k);
      if a.entries[k].Table? {
        LeavesDetermineTree(a.entries[k], b.entries[k]);
      }
    }
    assert a.entries == b.entries && a.mark == () == b.mark;
  }

  lemma SameKeys(a: View, b: View, k: string)
    requires a.Table? && b.Table? && Full(a) && SameLeaves(a, b)
    ensures k in a.entries ==> k in b.entries
  {
    if k in a.entries {
      var rest, v := SomeLeaf(a.entries[k]);
      var p := [k] + rest;
      assert p[1..] == rest;
      assert Get(a, p) == Some(Leaf(v));
      assert Get(b, p) == Some(Leaf(v));
    }
  }

  lemma SameChild(a: View, b: View, k: string)
    requires a.Table? && b.Table? && k in a.entries && k in b.entries && SameLeaves(a, b)
    ensures SameLeaves(a.entries[k], b.entries[k])
    ensures if a.entries[k].Leaf? then a.entries[k] == b.entries[k] else b.entries[k].Table?
  {
    forall p, v ensures Get(a.entries[k], p) == Some(Leaf(v)) <==> Get(b.entries[k], p) == Some(Leaf(v)) {
      var q := [k] + p;
      assert q[1..] == p;
      assert Get(a, q) == Get(a.entries[k], p) && Get(b, q) == Get(b.entries[k], p);
    }
    assert Get(a.entries[k], []) == Some(a.entries[k]) && Get(b.entries[k], []) == Some(b.entries[k]);
    if b.entries[k].Leaf? {
      assert Get(a.entries[k], []) == Some(Leaf(b.entries[k].value));
    }
    if a.entries[k].Leaf? {
      assert Get(b.entries[k], []) == Some(Leaf(a.entries[k].value));
    }
  }

  /** Narrowing twice is narrowing once. */
  lemma RetainTwice(t: View, editable: Path -> bool)
    requires t.Table?
    ensures Retain(Retain(t, [], editable), [], editable) == Retain(t, [], editable)
  {
    var once := Retain(t, [], editable);
    var twice := Retain(once, [], editable);
    RetainedIsFull(t, [], editable);
    RetainedIsFull(once, [], editable);
    forall p, v ensures Get(twice, p) == Some(Leaf(v)) <==> Get(once, p) == Some(Leaf(v)) {
      if p != [] {
        RetainedLeaves(t, [], editable, p, v);
        RetainedLeaves(once, [], editable, p, v);
      }
    }
    LeavesDetermineTree(twice, once);
  }
}
