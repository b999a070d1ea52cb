/**
 * Cursor paging over ids: the newest few below a cursor, and the walk that takes
 * the oldest id of each page as the cursor of the next.
 */
module IdPages {
  import opened Basics

  ghost function Largest(s: set<nat>): (m: nat)
    requires s != {}
    ensures m in s && forall x :: x in s ==> x <= m
  {
    var x :| x in s;
    if s == {x} then x
    else
      var rest := Largest(s - {x});
      assert forall y :: y in s ==> y == x || y in s - {x};
      if x > rest then x else rest
  }

  /** ORDER BY id DESC LIMIT n, read back in ascending order. */
  ghost function Newest(s: set<nat>, n: nat): seq<nat>
    decreases n
  {
    if s == {} || n == 0 then []
    else var m := Largest(s); Newest(s - {m}, n - 1) + [m]
  }

  predicate Ascending(ids: seq<nat>) {
    forall i, j :: 0 <= i < j < |ids| ==> ids[i] < ids[j]
  }

  /** A page is ascending, as full as it can be, and nothing left out is newer than anything in it. */
  lemma {:induction false} NewestIsAWindow(s: set<nat>, n: nat)
    ensures
      var page := Newest(s, n);
      && Ascending(page) && |page| == Min(n, |s|) && Members(page) <= s
      && forall x, y :: x in s && x !in page && y in page ==> x < y
    decreases n
  {
    if s != {} && n != 0 {
      var m := Largest(s);
      NewestIsAWindow(s - {m}, n - 1);
      AddingTheLargest(s, m, Newest(s - {m}, n - 1));
      assert |s| == |s - {m}| + 1;
    }
  }

  lemma AddingTheLargest(s: set<nat>, m: nat, rest: seq<nat>)
    requires m in s && (forall x :: x in s ==> x <= m)
    requires Ascending(rest) && Members(rest) <= s - {m}
    requires forall x, y :: x in s - {m} && x !in rest && y in rest ==> x < y
    ensures Ascending(rest + [m]) && Members(rest + [m]) <= s
    ensures forall x, y :: x in s && x !in rest + [m] && y in rest + [m] ==> x < y
  {
    forall i | 0 <= i < |rest| ensures rest[i] < m {
      assert rest[i] in Members(rest);
    }
    forall x | x in Members(rest + [m]) ensures x in s {
      if x != m { assert x in Members(rest); }
    }
    forall x, y | x in s && x !in rest + [m] && y in rest + [m] ensures x < y {
      assert (rest + [m])[|rest|] == m;
      assert forall z :: z in rest ==> z in rest + [m];
      assert x in s - {m} && x !in rest;
    }
  }

  /** Two ascending pages with the same ids are the same page. */
  lemma {:induction false} AscendingIsUnique(a: seq<nat>, b: seq<nat>)
    requires Ascending(a) && Ascending(b) && Members(a) == Members(b)
    ensures a == b
    decreases |a|
  {
    AscendingSize(a);
    AscendingSize(b);
    if a != [] {
      var x, y := a[|a| - 1], b[|b| - 1];
      assert x == y by {
        LastIsLargest(a);
        LastIsLargest(b);
        assert x in Members(b) && y in Members(a);
      }
      ButLast(a);
      ButLast(b);
      AscendingIsUnique(a[..|a| - 1], b[..|b| - 1]);
      assert a == a[..|a| - 1] + [x] && b == b[..|b| - 1] + [y];
    }
  }

  lemma LastIsLargest(a: seq<nat>)
    requires a != [] && Ascending(a)
    ensures a[|a| - 1] in Members(a) && forall x :: x in Members(a) ==> x <= a[|a| - 1]
  {
  }

  lemma ButLast(a: seq<nat>)
    requires a != [] && Ascending(a)
    ensures Ascending(a[..|a| - 1]) && Members(a[..|a| - 1]) == Members(a) - {a[|a| - 1]}
  {
  }

  lemma AscendingSize(a: seq<nat>)
    requires Ascending(a)
    ensures |Members(a)| == |a|
  {
    if a == [] {
      assert Members(a) == {};
    } else {
      ButLast(a);
      AscendingSize(a[..|a| - 1]);
      assert a[|a| - 1] in Members(a);
    }
  }

  // ---- Walking ----

  predicate Below(cursor: Option<nat>, id: nat) { cursor.None? || id < cursor.value }

  function BelowCursor(s: set<nat>, cursor: Option<nat>): set<nat> {
    set x | x in s && Below(cursor, x)
  }

  ghost function PageAt(s: set<nat>, limit: nat, cursor: Option<nat>): seq<nat> {
    Newest(BelowCursor(s, cursor), limit)
  }

  /**
   * The ids a reader has collected, oldest first, after asking once of each of these
   * states of the table; an empty page ends the walk.
   */
  ghost function Walk(tables: seq<set<nat>>, limit: nat, cursor: Option<nat>): seq<nat>
    decreases |tables|
  {
    if tables == [] then []
    else
      var page := PageAt(tables[0], limit, cursor);
      if page == [] then [] else Walk(tables[1..], limit, Some(page[0])) + page
  }

  /** Whether the walk met its empty page. */
  ghost predicate Ended(tables: seq<set<nat>>, limit: nat, cursor: Option<nat>)
    decreases |tables|
  {
    && tables != []
    && var page := PageAt(tables[0], limit, cursor);
       page == [] || Ended(tables[1..], limit, Some(page[0]))
  }

  /**
   * However the table changes between the pages, the walk shows nothing twice and
   * nothing that was never there, and by its end it has shown everything below its
   * cursor that was there throughout.
   */
  lemma {:induction false} WalkIsExact(tables: seq<set<nat>>, limit: nat, cursor: Option<nat>)
    requires limit > 0
    ensures Ascending(Walk(tables, limit, cursor))
    ensures forall x :: x in Walk(tables, limit, cursor) ==> Below(cursor, x) && exists t :: t in tables && x in t
    ensures Ended(tables, limit, cursor) ==>
      forall x :: Below(cursor, x) && (forall t :: t in tables ==> x in t) ==> x in Walk(tables, limit, cursor)
    decreases |tables|
  {
    if tables != [] {
      var page := PageAt(tables[0], limit, cursor);
      var below := BelowCursor(tables[0], cursor);
      NewestIsAWindow(below, limit);
      if page == [] {
        assert |below| == 0;
        assert tables[0] in tables && forall x :: x in tables[0] && Below(cursor, x) ==> x in below;
      } else {
        WalkIsExact(tables[1..], limit, Some(page[0]));
        var rest := Walk(tables[1..], limit, Some(page[0]));
        forall i | 0 <= i < |rest| ensures rest[i] < page[0] {
          assert rest[i] in rest;
        }
        assert page[0] in page && page[0] in Members(page);
        forall x | x in rest + page ensures Below(cursor, x) && exists t :: t in tables && x in t {
          if x in rest {
            var t :| t in tables[1..] && x in t;
            assert t in tables;
          } else {
            assert x in Members(page) && tables[0] in tables;
          }
        }
        if Ended(tables, limit, cursor) {
          forall x | Below(cursor, x) && (forall t :: t in tables ==> x in t) ensures x in rest + page {
            assert tables[0] in tables && x in below;
            if x !in page { assert x < page[0]; }
            assert forall t :: t in tables[1..] ==> t in tables;
          }
        }
      }
    }
  }

  /** The walk's page j, which is read from table j, shows x. */
  ghost predicate ShownAt(tables: seq<set<nat>>, limit: nat, cursor: Option<nat>, j: nat, x: nat)
    decreases |tables|
  {
    && tables != []
    && var page := PageAt(tables[0], limit, cursor);
       if j == 0 then x in page else page != [] && ShownAt(tables[1..], limit, Some(page[0]), j - 1, x)
  }

  /** What a page shows is in the table it was read from, and below the cursor it was asked for with. */
  lemma {:induction false} ShownIsThere(tables: seq<set<nat>>, limit: nat, cursor: Option<nat>, j: nat, x: nat)
    requires ShownAt(tables, limit, cursor, j, x)
    ensures j < |tables| && x in tables[j] && Below(cursor, x)
    decreases |tables|
  {
    var page := PageAt(tables[0], limit, cursor);
    NewestIsAWindow(BelowCursor(tables[0], cursor), limit);
    if j == 0 {
      assert x in Members(page);
    } else {
      ShownIsThere(tables[1..], limit, Some(page[0]), j - 1, x);
      assert page[0] in Members(page);
    }
  }

  /** The walk is what its pages show, each with the page it is on... */
  lemma {:induction false} WalkedIsShown(tables: seq<set<nat>>, limit: nat, cursor: Option<nat>, x: nat) returns (j: nat)
    requires x in Walk(tables, limit, cursor)
    ensures ShownAt(tables, limit, cursor, j, x)
    decreases |tables|
  {
    var page := PageAt(tables[0], limit, cursor);
    if x in page {
      j := 0;
    } else {
      j := WalkedIsShown(tables[1..], limit, Some(page[0]), x);
      j := j + 1;
    }
  }

  /** ...and nothing its pages show is missing. */
  lemma {:induction false} ShownIsWalked(tables: seq<set<nat>>, limit: nat, cursor: Option<nat>, j: nat, x: nat)
    requires ShownAt(tables, limit, cursor, j, x)
    ensures x in Walk(tables, limit, cursor)
    decreases |tables|
  {
    if j > 0 { ShownIsWalked(tables[1..], limit, Some(PageAt(tables[0], limit, cursor)[0]), j - 1, x); }
  }

  /**
   * How many pages are enough: more than the cursor has ids below it; and for a reader who
   * begins with no cursor, one page and then more than its oldest id has below it.
   */
  ghost predicate Enough(tables: seq<set<nat>>, limit: nat, cursor: Option<nat>) {
    && tables != []
    && match cursor
       case Some(id) => |tables| > id
       case None =>
         var page := PageAt(tables[0], limit, None);
         page != [] ==> |tables| > page[0] + 1
  }

  /** The walk ends: a page moves the cursor below every id it showed. */
  lemma {:induction false} WalkEnds(tables: seq<set<nat>>, limit: nat, cursor: Option<nat>)
    requires limit > 0 && Enough(tables, limit, cursor)
    ensures Ended(tables, limit, cursor)
    decreases |tables|
  {
    var page := PageAt(tables[0], limit, cursor);
    if page != [] {
      NewestIsAWindow(BelowCursor(tables[0], cursor), limit);
      assert page[0] in Members(page);
      WalkEnds(tables[1..], limit, Some(page[0]));
    }
  }

  /** On a table that stands still, what a page leaves over is what lies below its oldest id. */
  lemma LeftOverIsBelow(s: set<nat>, limit: nat, cursor: Option<nat>)
    requires PageAt(s, limit, cursor) != []
    ensures
      var page := PageAt(s, limit, cursor);
      |BelowCursor(s, cursor)| - |page| == |BelowCursor(s, Some(page[0]))|
  {
    var all := BelowCursor(s, cursor);
    var page := PageAt(s, limit, cursor);
    NewestIsAWindow(all, limit);
    AscendingSize(page);
    assert page[0] in Members(page);
    assert all - Members(page) == BelowCursor(s, Some(page[0]));
  }
}
