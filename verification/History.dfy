/** The bounded history of finished work: `prune_terminal_history`,
    crates/flanforge-manager/src/state.rs. */
module History {
  import opened Allocations

  /** Records are filed under their own id. */
  ghost predicate Keyed(m: map<Id, Allocation>) {
    forall id :: id in m ==> m[id].id == id
  }

  /** The sort key of one finished record. */
  datatype Age = Age(updatedAt: nat, createdAt: nat, id: Id)

  /** The age order of the history: last update, then creation, then id. */
  predicate Older(a: Age, b: Age) {
    a.updatedAt < b.updatedAt ||
    (a.updatedAt == b.updatedAt &&
     (a.createdAt < b.createdAt || (a.createdAt == b.createdAt && a.id < b.id)))
  }

  /** What the order means: of two finished records the one updated first goes first; of two updated
      together the one created first, and then the one with the smaller id. */
  lemma OlderIsUpdatedFirst(a: Age, b: Age)
    ensures Older(a, b) <==>
            && a.updatedAt <= b.updatedAt
            && (a.updatedAt == b.updatedAt ==> a.createdAt <= b.createdAt)
            && (a.updatedAt == b.updatedAt && a.createdAt == b.createdAt ==> a.id < b.id)
  {
  }

  function AgeOf(m: map<Id, Allocation>, id: Id): Age
    requires id in m
  {
    Age(m[id].updatedAt, m[id].createdAt, id)
  }

  /** The finished records among `ids`. */
  function Finished(m: map<Id, Allocation>, ids: set<Id>): set<Id>
    requires ids <= m.Keys
  {
    set id | id in ids && Terminal(m[id])
  }

  ghost predicate IsOldest(m: map<Id, Allocation>, ids: set<Id>, id: Id)
    requires ids <= m.Keys
  {
    id in ids && forall other :: other in ids && other != id ==> Older(AgeOf(m, id), AgeOf(m, other))
  }

  lemma {:induction false} OldestExists(m: map<Id, Allocation>, ids: set<Id>)
    requires ids <= m.Keys && ids != {}
    ensures exists id :: IsOldest(m, ids, id)
    decreases |ids|
  {
    var pick :| pick in ids;
    if ids == {pick} {
      assert IsOldest(m, ids, pick);
    } else {
      var rest := ids - {pick};
      assert rest != {};
      OldestExists(m, rest);
      var best :| IsOldest(m, rest, best);
      if Older(AgeOf(m, pick), AgeOf(m, best)) {
        assert IsOldest(m, ids, pick);
      } else {
        assert IsOldest(m, ids, best);
      }
    }
  }

  ghost function Oldest(m: map<Id, Allocation>, ids: set<Id>): (oldest: Id)
    requires ids <= m.Keys && ids != {}
    ensures IsOldest(m, ids, oldest)
  {
    OldestExists(m, ids);
    var id :| IsOldest(m, ids, id);
    id
  }

  /** The simple form: while there are too many records, drop the oldest finished one. */
  ghost function Kept(m: map<Id, Allocation>, ids: set<Id>, limit: nat): (kept: set<Id>)
    requires ids <= m.Keys
    ensures kept <= ids
    decreases |ids|
  {
    if |ids| <= limit || Finished(m, ids) == {} then ids
    else
      Kept(m, ids - {Oldest(m, Finished(m, ids))}, limit)
  }

  /** What pruning promises: records are only dropped, unfinished work never is, every dropped
      record is older than every finished one that stays, and the size is exactly what the
      limit and the unfinished work allow. */
  ghost predicate IsPruning(m: map<Id, Allocation>, ids: set<Id>, limit: nat, kept: set<Id>)
    requires ids <= m.Keys
  {
    && kept <= ids
    && ids - Finished(m, ids) <= kept
    && (forall gone, stays :: gone in ids - kept && stays in kept && Terminal(m[stays]) ==>
       Older(AgeOf(m, gone), AgeOf(m, stays)))
    && |kept| == if |ids| <= limit then |ids| else Max(limit, |ids - Finished(m, ids)|)
  }

  function Max(a: int, b: int): int {
    if a < b then b else a
  }

  /** The simple form keeps the promise. */
  lemma {:induction false} KeptIsPruning(m: map<Id, Allocation>, ids: set<Id>, limit: nat)
    requires ids <= m.Keys
    ensures IsPruning(m, ids, limit, Kept(m, ids, limit))
    decreases |ids|
  {
    if |ids| <= limit {
    } else if Finished(m, ids) == {} {
      assert ids - Finished(m, ids) == ids;
    } else {
      var oldest := Oldest(m, Finished(m, ids));
      KeptIsPruning(m, ids - {oldest}, limit);
      OneMoreDropped(m, ids, limit, oldest, Kept(m, ids, limit));
    }
  }

  /** So no finished record is dropped while one that was updated before it stays, and no unfinished one
      is dropped at all. */
  lemma OldestGo(m: map<Id, Allocation>, limit: nat, gone: Id)
    requires gone in m && gone !in Kept(m, m.Keys, limit)
    ensures Terminal(m[gone])
    ensures forall stays :: stays in Kept(m, m.Keys, limit) && Terminal(m[stays]) ==>
              && m[gone].updatedAt <= m[stays].updatedAt
              && (m[gone].updatedAt == m[stays].updatedAt ==> m[gone].createdAt <= m[stays].createdAt)
              && (m[gone].updatedAt == m[stays].updatedAt && m[gone].createdAt == m[stays].createdAt ==> gone < stays)
  {
    KeptIsPruning(m, m.Keys, limit);
    assert gone !in m.Keys - Finished(m, m.Keys);
    forall stays | stays in Kept(m, m.Keys, limit) && Terminal(m[stays])
      ensures Older(AgeOf(m, gone), AgeOf(m, stays))
    {
    }
  }

  lemma OneMoreDropped(m: map<Id, Allocation>, ids: set<Id>, limit: nat, oldest: Id, kept: set<Id>)
    requires ids <= m.Keys && limit < |ids|
    requires IsOldest(m, Finished(m, ids), oldest)
    requires IsPruning(m, ids - {oldest}, limit, kept)
    ensures IsPruning(m, ids, limit, kept)
  {
    var rest := ids - {oldest};
    assert rest - Finished(m, rest) == ids - Finished(m, ids);
    SubsetSize(ids - Finished(m, ids), rest);
  }

  lemma {:induction false} SubsetSize<T>(a: set<T>, b: set<T>)
    requires a <= b
    ensures |a| <= |b|
    ensures |a| == |b| ==> a == b
    decreases |a|
  {
    if a != {} {
      var x :| x in a;
      SubsetSize(a - {x}, b - {x});
      assert b == (b - {x}) + {x} && a == (a - {x}) + {x};
    }
  }

  /** The promise leaves no freedom, so neither the map's iteration order nor the sort can
      change the outcome. */
  lemma PruningIsUnique(m: map<Id, Allocation>, ids: set<Id>, limit: nat, a: set<Id>, b: set<Id>)
    requires ids <= m.Keys && IsPruning(m, ids, limit, a) && IsPruning(m, ids, limit, b)
    ensures a == b
  {
    if !(a <= b) {
      var x :| x in a && x !in b;
      forall y | y in b ensures y in a {
        assert !(Older(AgeOf(m, x), AgeOf(m, y)) && Older(AgeOf(m, y), AgeOf(m, x)));
      }
      SubsetSize(b, a);
    } else {
      SubsetSize(a, b);
    }
  }

  ghost predicate SortedByAge(xs: seq<Age>) {
    forall i, j :: 0 <= i < j < |xs| ==> Older(xs[i], xs[j])
  }

  /** Sorts finished records by age. Ids differ, so the order is strict. */
  method SortByAge(xs: seq<Age>) returns (sorted: seq<Age>)
    requires forall i, j :: 0 <= i < j < |xs| ==> xs[i].id != xs[j].id
    ensures SortedByAge(sorted)
    ensures forall i, j :: 0 <= i < j < |sorted| ==>
              && sorted[i].updatedAt <= sorted[j].updatedAt
              && (sorted[i].updatedAt == sorted[j].updatedAt ==> sorted[i].createdAt <= sorted[j].createdAt)
              && (sorted[i].updatedAt == sorted[j].updatedAt && sorted[i].createdAt == sorted[j].createdAt ==>
                  sorted[i].id < sorted[j].id)
    ensures |sorted| == |xs| && forall a :: a in sorted <==> a in xs
  {
    sorted := [];
    for n := 0 to |xs|
      invariant SortedByAge(sorted) && |sorted| == n
      invariant forall a :: a in sorted <==> a in xs[..n]
    {
      var at := 0;
      while at < |sorted| && Older(sorted[at], xs[n])
        invariant 0 <= at <= |sorted|
        invariant forall i :: 0 <= i < at ==> Older(sorted[i], xs[n])
      {
        at := at + 1;
      }
      Inserted(sorted, at, xs, n);
      sorted := sorted[..at] + [xs[n]] + sorted[at..];
    }
    assert xs[..|xs|] == xs;
  }

  lemma Inserted(s: seq<Age>, at: nat, xs: seq<Age>, n: nat)
    requires forall i, j :: 0 <= i < j < |xs| ==> xs[i].id != xs[j].id
    requires n < |xs| && at <= |s| && SortedByAge(s)
    requires forall a :: a in s <==> a in xs[..n]
    requires forall i :: 0 <= i < at ==> Older(s[i], xs[n])
    requires at < |s| ==> !Older(s[at], xs[n])
    ensures SortedByAge(s[..at] + [xs[n]] + s[at..])
    ensures forall a :: a in s[..at] + [xs[n]] + s[at..] <==> a in xs[..n + 1]
  {
    var t := s[..at] + [xs[n]] + s[at..];
    forall i | at <= i < |s| ensures Older(xs[n], s[i]) {
      assert s[i] in s && s[at] in s;
    }
    assert xs[..n + 1] == xs[..n] + [xs[n]];
    assert s == s[..at] + s[at..];
    forall a ensures a in t <==> a in xs[..n + 1] {
      assert a in t <==> a in s[..at] || a == xs[n] || a in s[at..];
      assert a in s <==> a in s[..at] || a in s[at..];
    }
  }

  function Restricted(m: map<Id, Allocation>, ids: set<Id>): map<Id, Allocation> {
    map id | id in m && id in ids :: m[id]
  }

  /** The source's loop: collect the finished records in whatever order the map yields them,
      sort them by age, and remove as many as the history is over its limit. */
  method PruneTerminalHistory(entries: map<Id, Allocation>, limit: nat) returns (kept: map<Id, Allocation>)
    requires Keyed(entries)
    ensures kept == Restricted(entries, Kept(entries, entries.Keys, limit))
    ensures IsPruning(entries, entries.Keys, limit, kept.Keys)
    ensures forall id :: id in entries && !Terminal(entries[id]) ==> id in kept
    ensures forall gone, stays :: gone in entries && gone !in kept && stays in kept && Terminal(entries[stays]) ==>
              var a, b := entries[gone], entries[stays];
              && a.updatedAt <= b.updatedAt
              && (a.updatedAt == b.updatedAt ==> a.createdAt <= b.createdAt)
              && (a.updatedAt == b.updatedAt && a.createdAt == b.createdAt ==> gone < stays)
  {
    kept := RemoveOldest(entries, limit);
    KeptIsPruning(entries, entries.Keys, limit);
    assert kept.Keys == Kept(entries, entries.Keys, limit);
    forall gone | gone in entries && gone !in kept {
      OldestGo(entries, limit, gone);
    }
  }

  /** The loops themselves. */
  method RemoveOldest(entries: map<Id, Allocation>, limit: nat) returns (kept: map<Id, Allocation>)
    requires Keyed(entries)
    ensures kept == Restricted(entries, Kept(entries, entries.Keys, limit))
  {
    kept := entries;
    var removeCount := if |entries| <= limit then 0 else |entries| - limit;
    if removeCount == 0 {
      return;
    }
    var terminal := Collect(entries);
    terminal := SortByAge(terminal);
    var i := 0;
    while i < removeCount && i < |terminal|
      invariant 0 <= i <= removeCount && i <= |terminal|
      invariant kept == entries - FirstIds(terminal, i)
    {
      kept := kept - {terminal[i].id};
      i := i + 1;
    }
    RemovedOldest(entries, limit, terminal, i);
  }

  function FirstIds(xs: seq<Age>, n: nat): set<Id>
    requires n <= |xs|
  {
    set i | 0 <= i < n :: xs[i].id
  }

  method Collect(entries: map<Id, Allocation>) returns (terminal: seq<Age>)
    requires Keyed(entries)
    ensures Covers(entries, terminal)
  {
    terminal := [];
    var left := Finished(entries, entries.Keys);
    while left != {}
      invariant left <= Finished(entries, entries.Keys)
      invariant forall i, j :: 0 <= i < j < |terminal| ==> terminal[i].id != terminal[j].id
      invariant forall a :: a in terminal <==>
          a.id in Finished(entries, entries.Keys) - left && a == AgeOf(entries, a.id)
      decreases |left|
    {
      var id :| id in left;
      left := left - {id};
      terminal := terminal + [Age(entries[id].updatedAt, entries[id].createdAt, entries[id].id)];
    }
  }

  /** Every finished record once. */
  ghost predicate Covers(entries: map<Id, Allocation>, terminal: seq<Age>) {
    && (forall i, j :: 0 <= i < j < |terminal| ==> terminal[i].id != terminal[j].id)
    && (forall a :: a in terminal <==> a.id in Finished(entries, entries.Keys) && a == AgeOf(entries, a.id))
  }

  lemma RemovedOldest(m: map<Id, Allocation>, limit: nat, sorted: seq<Age>, n: nat)
    requires limit < |m|
    requires Covers(m, sorted) && SortedByAge(sorted)
    requires n <= |sorted| && n == if |m| - limit <= |sorted| then |m| - limit else |sorted|
    ensures m - FirstIds(sorted, n) == Restricted(m, Kept(m, m.Keys, limit))
  {
    var stays := m.Keys - FirstIds(sorted, n);
    RemovalIsPruning(m, limit, sorted, n);
    KeptIsPruning(m, m.Keys, limit);
    PruningIsUnique(m, m.Keys, limit, stays, Kept(m, m.Keys, limit));
  }

  lemma RemovalIsPruning(m: map<Id, Allocation>, limit: nat, sorted: seq<Age>, n: nat)
    requires limit < |m|
    requires Covers(m, sorted) && SortedByAge(sorted)
    requires n <= |sorted| && n == if |m| - limit <= |sorted| then |m| - limit else |sorted|
    ensures IsPruning(m, m.Keys, limit, m.Keys - FirstIds(sorted, n))
  {
    CoversFinished(m, sorted);
    RemovalSize(m, sorted, n);
    RemovalSize(m, sorted, |sorted|);
    OldestFirst(m, sorted, n);
  }

  lemma RemovalSize(m: map<Id, Allocation>, sorted: seq<Age>, n: nat)
    requires Covers(m, sorted) && n <= |sorted|
    ensures |m.Keys - FirstIds(sorted, n)| == |m| - n
  {
    CoversFinished(m, sorted);
    FirstIdsSize(sorted, n);
    assert FirstIds(sorted, n) <= m.Keys;
  }

  lemma CoversFinished(m: map<Id, Allocation>, xs: seq<Age>)
    requires Covers(m, xs)
    ensures FirstIds(xs, |xs|) == Finished(m, m.Keys)
    ensures forall i :: 0 <= i < |xs| ==> xs[i].id in m && AgeOf(m, xs[i].id) == xs[i]
    ensures forall n :: 0 <= n <= |xs| ==> FirstIds(xs, n) <= Finished(m, m.Keys)
  {
    forall i | 0 <= i < |xs| ensures xs[i].id in Finished(m, m.Keys) && AgeOf(m, xs[i].id) == xs[i] {
      assert xs[i] in xs;
    }
    forall id | id in Finished(m, m.Keys) ensures id in FirstIds(xs, |xs|) {
      assert AgeOf(m, id) in xs;
    }
  }

  lemma OldestFirst(m: map<Id, Allocation>, sorted: seq<Age>, n: nat)
    requires Covers(m, sorted) && SortedByAge(sorted) && n <= |sorted|
    ensures forall gone, stays ::
              gone in FirstIds(sorted, n) && stays in m.Keys - FirstIds(sorted, n) && Terminal(m[stays]) ==>
                gone in m && Older(AgeOf(m, gone), AgeOf(m, stays))
  {
    CoversFinished(m, sorted);
    forall gone, stays | gone in FirstIds(sorted, n) && stays in m.Keys - FirstIds(sorted, n) && Terminal(m[stays])
      ensures gone in m && Older(AgeOf(m, gone), AgeOf(m, stays))
    {
      var i :| 0 <= i < n && sorted[i].id == gone;
      assert AgeOf(m, stays) in sorted;
      var j :| 0 <= j < |sorted| && sorted[j] == AgeOf(m, stays);
      assert j >= n;
    }
  }

  lemma {:induction false} FirstIdsSize(xs: seq<Age>, n: nat)
    requires n <= |xs|
    requires forall i, j :: 0 <= i < j < |xs| ==> xs[i].id != xs[j].id
    ensures |FirstIds(xs, n)| == n
  {
    if n > 0 {
      FirstIdsSize(xs, n - 1);
      assert FirstIds(xs, n) == FirstIds(xs, n - 1) + {xs[n - 1].id};
    }
  }
}
