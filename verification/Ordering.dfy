/**
 * ORDER BY over an ordering that never ties, and the pages LIMIT and OFFSET cut
 * from it.
 */
module Ordering {
  import opened Basics

  type Order = (nat, nat) -> bool

  /** No ties, no cycles, nothing incomparable. */
  ghost predicate StrictTotal(before: Order, ids: set<nat>) {
    && (forall a :: a in ids ==> !before(a, a))
    && (forall a, b :: a in ids && b in ids && a != b ==> before(a, b) || before(b, a))
    && (forall a, b, c :: a in ids && b in ids && c in ids && before(a, b) && before(b, c) ==> before(a, c))
  }

  ghost function First(before: Order, ids: set<nat>): (m: nat)
    requires ids != {} && StrictTotal(before, ids)
    ensures m in ids && forall x :: x in ids && x != m ==> before(m, x)
  {
    var x :| x in ids;
    if ids == {x} then x
    else
      var m := First(before, ids - {x});
      assert forall y :: y in ids ==> y == x || y in ids - {x};
      if before(x, m) then x else m
  }

  ghost function Sorted(before: Order, ids: set<nat>): seq<nat>
    requires StrictTotal(before, ids)
    decreases ids
  {
    if ids == {} then []
    else var m := First(before, ids); [m] + Sorted(before, ids - {m})
  }

  ghost predicate InOrder(before: Order, list: seq<nat>) {
    forall i, j :: 0 <= i < j < |list| ==> before(list[i], list[j])
  }

  /** Sorting keeps every row, once, in order. */
  lemma {:induction false} SortedIsInOrder(before: Order, ids: set<nat>)
    requires StrictTotal(before, ids)
    ensures InOrder(before, Sorted(before, ids))
    ensures Members(Sorted(before, ids)) == ids && |Sorted(before, ids)| == |ids|
    decreases ids
  {
    if ids != {} {
      var m := First(before, ids);
      SortedIsInOrder(before, ids - {m});
      PutFirst(before, ids, m, Sorted(before, ids - {m}));
    }
  }

  lemma PutFirst(before: Order, ids: set<nat>, m: nat, rest: seq<nat>)
    requires m in ids && forall x :: x in ids && x != m ==> before(m, x)
    requires InOrder(before, rest) && Members(rest) == ids - {m} && |rest| == |ids - {m}|
    ensures InOrder(before, [m] + rest) && Members([m] + rest) == ids && |[m] + rest| == |ids|
  {
    forall j | 0 <= j < |rest| ensures before(m, rest[j]) {
      assert rest[j] in Members(rest);
    }
    assert Members([m] + rest) == {m} + Members(rest);
  }

  // ---- Pages ----

  /** LIMIT limit OFFSET (page - 1) * limit */
  function PageOf(list: seq<nat>, limit: nat, page: nat): seq<nat>
    requires page >= 1
  {
    var offset := (page - 1) * limit;
    if offset >= |list| then [] else list[offset..Min(offset + limit, |list|)]
  }

  /** Math.ceil(n / limit) */
  function PageCount(n: nat, limit: nat): nat
    requires limit > 0
  {
    (n + limit - 1) / limit
  }

  function Joined(list: seq<nat>, limit: nat, pages: nat): seq<nat> {
    if pages == 0 then [] else Joined(list, limit, pages - 1) + PageOf(list, limit, pages)
  }

  /** The first pages, put together, are the front of the list. */
  lemma {:induction false} JoinedIsThePrefix(list: seq<nat>, limit: nat, pages: nat)
    ensures Joined(list, limit, pages) == list[..Min(pages * limit, |list|)]
  {
    if pages > 0 {
      JoinedIsThePrefix(list, limit, pages - 1);
      assert pages * limit == (pages - 1) * limit + limit;
    }
  }

  /** Page by page the listing is read once from end to end, and a page has rows on it exactly up to the last. */
  lemma PagesAreTheList(list: seq<nat>, limit: nat)
    requires limit > 0
    ensures Joined(list, limit, PageCount(|list|, limit)) == list
    ensures forall page: nat :: page >= 1 ==> (PageOf(list, limit, page) != [] <==> page <= PageCount(|list|, limit))
  {
    var count := PageCount(|list|, limit);
    CeilingCovers(|list|, limit);
    JoinedIsThePrefix(list, limit, count);
    assert Min(count * limit, |list|) == |list| && list[..|list|] == list;
    hide Joined, PageCount, PageOf;
    forall page: nat | page >= 1 ensures PageOf(list, limit, page) != [] <==> page <= count {
      PageHasRows(list, limit, page);
    }
  }

  lemma PageHasRows(list: seq<nat>, limit: nat, page: nat)
    requires limit > 0 && page >= 1
    ensures PageOf(list, limit, page) != [] <==> page <= PageCount(|list|, limit)
  {
    OffsetWithin(|list|, limit, page);
    var offset := (page - 1) * limit;
    assert offset < |list| ==> PageOf(list, limit, page) == list[offset..Min(offset + limit, |list|)];
  }

  lemma CeilingCovers(n: nat, limit: nat)
    requires limit > 0
    ensures n <= PageCount(n, limit) * limit < n + limit
  {
  }

  lemma OffsetWithin(n: nat, limit: nat, page: nat)
    requires limit > 0 && page >= 1
    ensures (page - 1) * limit < n <==> page <= PageCount(n, limit)
  {
    CeilingCovers(n, limit);
    var count := PageCount(n, limit);
    if page <= count {
      assert (page - 1) * limit <= (count - 1) * limit == count * limit - limit;
    } else {
      assert count * limit <= (page - 1) * limit;
    }
  }
}
