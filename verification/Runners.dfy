/** Deleting every runner of one name through a paged listing: `delete_runners_named`,
    crates/flanforge-forgejo/src/client.rs. */
module Runners {
  import opened Base

  const PAGE_BUDGET := 10

  datatype Error = Unavailable | Transient(status: nat) | Absent | Malformed | Api | Configuration | Credential

  datatype Runner = Runner(id: int, name: string, status: string)

  /** What the server answers for page 1, 2, ... */
  type Pages = nat -> Result<seq<Runner>, Error>

  predicate IsWellFormed(r: Runner) {
    && r.id >= 1
    && |r.name| <= 255 && (forall i :: 0 <= i < |r.name| ==> ' ' <= r.name[i] != 127 as char)
    && 1 <= |r.status| <= 32
    && (forall i :: 0 <= i < |r.status| ==>
          'a' <= r.status[i] <= 'z' || 'A' <= r.status[i] <= 'Z' || '0' <= r.status[i] <= '9' || r.status[i] == '_')
  }

  /** A record that can be acted on: a real id, a printable name and a short word for the status. */
  ghost predicate IsRecord(r: Runner) {
    && r.id >= 1
    && |r.name| <= 255 && (forall c :: c in r.name ==> ' ' <= c && c != 127 as char)
    && 1 <= |r.status| <= 32
    && forall c :: c in r.status ==> 'a' <= c <= 'z' || 'A' <= c <= 'Z' || '0' <= c <= '9' || c == '_'
  }

  lemma WellFormedShape(r: Runner)
    ensures IsWellFormed(r) <==> IsRecord(r)
  {
    forall i | 0 <= i < |r.name| ensures r.name[i] in r.name {
    }
    forall i | 0 <= i < |r.status| ensures r.status[i] in r.status {
    }
  }

  /** Only the records acted on are checked. */
  ghost predicate MatchesAreWellFormed(runners: seq<Runner>, name: string) {
    forall i :: 0 <= i < |runners| && runners[i].name == name ==> IsRecord(runners[i])
  }

  /** The ids of one name, in listing order. */
  function Ids(runners: seq<Runner>, name: string): (r: seq<int>) {
    if runners == [] then []
    else
      var last := runners[|runners| - 1];
      Ids(runners[..|runners| - 1], name) + if last.name == name then [last.id] else []
  }

  lemma {:induction false} IdsConcat(a: seq<Runner>, b: seq<Runner>, name: string)
    ensures Ids(a + b, name) == Ids(a, name) + Ids(b, name)
  {
    if b == [] {
      assert a + b == a;
    } else {
      var n := |b| - 1;
      assert (a + b)[..|a + b| - 1] == a + b[..n];
      IdsConcat(a, b[..n], name);
    }
  }

  /** Nothing of another name is deleted, and nothing of this one is missed. */
  lemma {:induction false} IdsAreExact(runners: seq<Runner>, name: string, id: int)
    ensures id in Ids(runners, name) <==>
        exists i :: 0 <= i < |runners| && runners[i].name == name && runners[i].id == id
  {
    if runners != [] {
      var n := |runners| - 1;
      IdsAreExact(runners[..n], name, id);
      if i :| 0 <= i < |runners| && runners[i].name == name && runners[i].id == id {
        if i < n {
          assert runners[..n][i] == runners[i];
        }
      }
    }
  }

  /** The page holds records, and none of its matches is malformed. */
  ghost predicate IsFull(pages: Pages, name: string, p: nat) {
    pages(p).Ok? && pages(p).value != [] && MatchesAreWellFormed(pages(p).value, name)
  }

  ghost predicate Reads(pages: Pages, name: string, k: nat) {
    forall p :: 1 <= p <= k ==> IsFull(pages, name, p)
  }

  /** The records of the first `k` pages. */
  ghost function Listed(pages: Pages, name: string, k: nat): seq<Runner>
    requires Reads(pages, name, k)
  {
    if k == 0 then []
    else
      assert IsFull(pages, name, k);
      Listed(pages, name, k - 1) + pages(k).value
  }

  /** What one reconciliation does: `k` pages are read in full, then one of four things stops it.
      `deletion` answers the n-th delete. */
  ghost predicate Reconciles(
    pages: Pages, deletion: nat -> Option<Error>, name: string, k: nat, r: Result<bool, Error>, deleted: seq<int>)
  {
    && k <= PAGE_BUDGET && Reads(pages, name, k)
    && if k < PAGE_BUDGET && pages(k + 1).Err? then
         // a page cannot be read: nothing is deleted
         r == Err(pages(k + 1).error) && deleted == []
       else if k < PAGE_BUDGET && !MatchesAreWellFormed(pages(k + 1).value, name) then
         // a match cannot be read: nothing is deleted
         r == Err(Malformed) && deleted == []
       else
         // an empty page ends the listing, or the budget does
         && (k < PAGE_BUDGET ==> pages(k + 1).value == [])
         && Deletes(Ids(Listed(pages, name, k), name), deletion, if k < PAGE_BUDGET then Ok(true)
            else Err(Malformed), r, deleted)
  }

  /** Every id is deleted in order and the answer is `otherwise`, or the first refusal stops it. */
  ghost predicate Deletes(
    ids: seq<int>, deletion: nat -> Option<Error>, otherwise: Result<bool, Error>, r: Result<bool, Error>,
        deleted: seq<int>)
  {
    && deleted <= ids
    && (forall i :: 0 <= i < |deleted| - 1 ==> deletion(i).None?)
    && if deleted != [] && deletion(|deleted| - 1).Some? then r == Err(deletion(|deleted| - 1).value)
       else deleted == ids && r == otherwise
  }

  /** The source's two loops: read and collect, then delete. `deleted` is the ids asked for. */
  method DeleteRunnersNamed(pages: Pages, deletion: nat -> Option<Error>, name: string)
    returns (r: Result<bool, Error>, deleted: seq<int>)
    ensures exists k :: Reconciles(pages, deletion, name, k, r, deleted)
    ensures forall id :: id in deleted ==> id >= 1
  {
    var scan, k := ReadPages(pages, name);
    if scan.Failed? {
      r, deleted := Err(scan.error), [];
    } else {
      r, deleted := DeleteAll(scan.ids, deletion, if scan.isComplete then Ok(true) else Err(Malformed));
    }
    assert Reconciles(pages, deletion, name, k, r, deleted);
    if scan.Scanned? {
      ListedArePositive(pages, name, k);
      forall i | 0 <= i < |deleted| ensures deleted[i] in scan.ids {
        assert deleted[i] == scan.ids[i];
      }
    }
  }

  lemma {:induction false} ListedArePositive(pages: Pages, name: string, k: nat)
    requires Reads(pages, name, k)
    ensures forall id :: id in Ids(Listed(pages, name, k), name) ==> id >= 1
  {
    if k > 0 {
      ListedArePositive(pages, name, k - 1);
      assert IsFull(pages, name, k);
      IdsConcat(Listed(pages, name, k - 1), pages(k).value, name);
      MatchesArePositive(pages(k).value, name);
    }
  }

  lemma MatchesArePositive(runners: seq<Runner>, name: string)
    requires MatchesAreWellFormed(runners, name)
    ensures forall id :: id in Ids(runners, name) ==> id >= 1
  {
    forall id | id in Ids(runners, name) ensures id >= 1 {
      IdsAreExact(runners, name, id);
      var i :| 0 <= i < |runners| && runners[i].name == name && runners[i].id == id;
      assert IsRecord(runners[i]);
    }
  }

  datatype Scan = Failed(error: Error) | Scanned(ids: seq<int>, isComplete: bool)

  /** The page loop; `k` pages were read in full. */
  method ReadPages(pages: Pages, name: string) returns (scan: Scan, k: nat)
    ensures k <= PAGE_BUDGET && Reads(pages, name, k)
    ensures match scan
            case Failed(e) =>
              k < PAGE_BUDGET &&
              if pages(k + 1).Err? then e == pages(k + 1).error
              else e == Malformed && !MatchesAreWellFormed(pages(k + 1).value, name)
            case Scanned(ids, isComplete) =>
              ids == Ids(Listed(pages, name, k), name) && if isComplete then k < PAGE_BUDGET &&
                  pages(k + 1) == Ok([]) else k == PAGE_BUDGET
  {
    var matching: seq<int> := [];
    for page := 1 to PAGE_BUDGET + 1
      invariant Reads(pages, name, page - 1) && matching == Ids(Listed(pages, name, page - 1), name)
    {
      k := page - 1;
      if pages(page).Err? {
        return Failed(pages(page).error), k;
      }
      var runners := pages(page).value;
      if runners == [] {
        return Scanned(matching, true), k;
      }
      var ids := Collect(runners, name);
      if ids.None? {
        return Failed(Malformed), k;
      }
      assert IsFull(pages, name, page);
      IdsConcat(Listed(pages, name, k), runners, name);
      matching := matching + ids.value;
    }
    return Scanned(matching, false), PAGE_BUDGET;
  }

  /** The matches of one page, refused at the first malformed one. */
  method Collect(runners: seq<Runner>, name: string) returns (ids: Option<seq<int>>)
    ensures ids == if MatchesAreWellFormed(runners, name) then Some(Ids(runners, name)) else None
  {
    var found := [];
    for i := 0 to |runners|
      invariant found == Ids(runners[..i], name)
      invariant MatchesAreWellFormed(runners[..i], name)
    {
      assert runners[..i + 1][..i] == runners[..i];
      WellFormedShape(runners[i]);
      if runners[i].name == name {
        if !IsWellFormed(runners[i]) {
          return None;
        }
        found := found + [runners[i].id];
      }
    }
    assert runners[..|runners|] == runners;
    ids := Some(found);
  }

  method DeleteAll(ids: seq<int>, deletion: nat -> Option<Error>, otherwise: Result<bool, Error>)
    returns (r: Result<bool, Error>, deleted: seq<int>)
    ensures Deletes(ids, deletion, otherwise, r, deleted)
  {
    for i := 0 to |ids|
      invariant forall j :: 0 <= j < i ==> deletion(j).None?
    {
      if deletion(i).Some? {
        return Err(deletion(i).value), ids[..i + 1];
      }
    }
    return otherwise, ids;
  }

  // ---------------------------------------------------------------- a listing that stands still

  function Min(a: nat, b: nat): nat {
    if a <= b then a else b
  }

  /** The records before page `p + 1`. */
  function Offset(p: nat, size: nat): nat {
    if p == 0 then 0 else Offset(p - 1, size) + size
  }

  /** A server holding `all`, `size` to a page, whatever size was asked for. */
  function Served(all: seq<Runner>, size: nat): Pages {
    (p: nat) => if p == 0 then Ok([]) else Ok(Page(all, size, p))
  }

  function Page(all: seq<Runner>, size: nat, p: nat): seq<Runner>
    requires p >= 1
  {
    all[Min(Offset(p - 1, size), |all|)..Min(Offset(p, size), |all|)]
  }

  lemma {:induction false} ListedIsPrefix(all: seq<Runner>, size: nat, name: string, k: nat)
    requires Reads(Served(all, size), name, k)
    ensures Listed(Served(all, size), name, k) == all[..Min(Offset(k, size), |all|)]
  {
    if k > 0 {
      ListedIsPrefix(all, size, name, k - 1);
      assert IsFull(Served(all, size), name, k);
    }
  }

  /** Over a fixed listing of any length, any page size and any answers, the reconciliation that is
      not refused deletes exactly the matches of the first ten pages, and succeeds exactly when the
      listing fills at most nine: a listing filling the tenth page is reported incomplete although
      every match was deleted, since only an empty page proves the end. */
  lemma FixedListing(
    all: seq<Runner>, size: nat, deletion: nat -> Option<Error>, name: string, k: nat, r: Result<bool, Error>,
        deleted: seq<int>)
    requires size >= 1 && MatchesAreWellFormed(all, name)
    requires Reconciles(Served(all, size), deletion, name, k, r, deleted)
    requires forall i :: deletion(i).None?
    ensures r == if |all| <= 9 * size then Ok(true) else Err(Malformed)
    ensures deleted == Ids(all[..Min(|all|, 10 * size)], name)
  {
    ListedIsPrefix(all, size, name, k);
    PagesRead(all, size, deletion, name, k, r, deleted);
    Bounds(size, k, |all|);
  }

  /** The pages read cover the listing, or all ten are read and the tenth was needed. */
  lemma PagesRead(
    all: seq<Runner>, size: nat, deletion: nat -> Option<Error>, name: string, k: nat, r: Result<bool, Error>,
        deleted: seq<int>)
    requires size >= 1 && MatchesAreWellFormed(all, name)
    requires Reconciles(Served(all, size), deletion, name, k, r, deleted)
    ensures if k < PAGE_BUDGET then |all| <= Offset(k, size) else Offset(k - 1, size) < |all|
  {
    var pages := Served(all, size);
    if k < PAGE_BUDGET {
      assert pages(k + 1) == Ok(Page(all, size, k + 1));
      assert Page(all, size, k + 1) == [];
    } else {
      assert IsFull(pages, name, k);
      assert Page(all, size, k) != [];
    }
  }

  lemma Bounds(size: nat, k: nat, n: nat)
    requires k <= PAGE_BUDGET && if k < PAGE_BUDGET then n <= Offset(k, size) else Offset(k - 1, size) < n
    ensures k < PAGE_BUDGET <==> n <= 9 * size
    ensures Min(Offset(k, size), n) == Min(n, 10 * size)
  {
    TenPages(size, k);
    if k < PAGE_BUDGET {
      assert k * size <= 9 * size;
    } else {
      TenPages(size, k - 1);
    }
  }

  lemma {:induction false} TenPages(size: nat, p: nat)
    ensures Offset(p, size) == p * size
  {
    if p > 0 {
      TenPages(size, p - 1);
    }
  }

  /** The responses determine how many pages are read, which ids are deleted and the answer. */
  lemma ReconciliationIsUnique(
    pages: Pages, deletion: nat -> Option<Error>, name: string,
    k: nat, r: Result<bool, Error>, deleted: seq<int>, k': nat, r': Result<bool, Error>, deleted': seq<int>)
    requires Reconciles(pages, deletion, name, k, r, deleted) && Reconciles(pages, deletion, name, k', r', deleted')
    ensures k == k' && r == r' && deleted == deleted'
  {
    Stops(pages, deletion, name, k, r, deleted);
    Stops(pages, deletion, name, k', r', deleted');
    assert |deleted| <= |deleted'| ==> deleted <= deleted';
    assert |deleted'| <= |deleted| ==> deleted' <= deleted;
  }

  /** No further page can be read. */
  lemma Stops(
    pages: Pages, deletion: nat -> Option<Error>, name: string, k: nat, r: Result<bool, Error>, deleted: seq<int>)
    requires Reconciles(pages, deletion, name, k, r, deleted)
    ensures forall n :: k < n <= PAGE_BUDGET ==> !Reads(pages, name, n)
  {
    if k < PAGE_BUDGET {
      assert !IsFull(pages, name, k + 1);
    }
  }
}
