/**
 * Taking comments down: one at a time, or everything one source posted, with the
 * replies the database removes along with them; and forgetting sources in time.
 */
module CommentModeration {
  import opened Basics
  import opened CommentForest
  import opened CacheKeys

  // ---- The preview ----

  ghost function Posted(t: Table, source: nat): set<nat> {
    set c | c in t && t[c].source == Some(source)
  }

  /** WITH RECURSIVE ... UNION: rounds that drop what an earlier round already had. */
  ghost function Closure(t: Table, seen: set<nat>, work: set<nat>): set<nat>
    requires seen <= t.Keys
    decreases t.Keys - seen
  {
    var found := Answers(t, work, None) - seen;
    if found == {} then seen
    else
      assert t.Keys - (seen + found) < t.Keys - seen;
      Closure(t, seen + found, found)
  }

  ghost function Doomed(t: Table, source: nat): set<nat> {
    Closure(t, Posted(t, source), Posted(t, source))
  }

  datatype SourceSummary = SourceSummary(total: nat, otherReplies: int)

  ghost function FindSameSource(t: Table, id: nat): Option<SourceSummary> {
    if id !in t || t[id].source.None? then None
    else
      var source := t[id].source.value;
      Some(SourceSummary(|Posted(t, source)|, |Doomed(t, source)| - |Posted(t, source)|))
  }

  // ---- The deletes ----

  /** Replies whose parent is gone: what "parentId ... ON DELETE CASCADE" takes next. */
  function Orphans(t: Table): set<nat> {
    set c | c in t && t[c].parent.Some? && t[c].parent.value !in t
  }

  function Cascade(t: Table): (left: Table)
    ensures Orphans(left) == {}
    decreases t.Keys
  {
    var orphans := Orphans(t);
    if orphans == {} then t
    else
      assert (t - orphans).Keys == t.Keys - orphans;
      Cascade(t - orphans)
  }

  /** A comment that is in the set or below a comment in it. */
  ghost predicate Under(t: Table, gone: set<nat>, c: nat)
    requires IsForest(t)
  {
    c in t && (c in gone || exists g :: g in gone && IsBelow(t, g, c))
  }

  /** The same, one parent at a time. */
  lemma UnderIsParentwise(t: Table, gone: set<nat>, c: nat)
    requires IsForest(t) && c in t
    ensures Under(t, gone, c) <==> c in gone || (t[c].parent.Some? && Under(t, gone, t[c].parent.value))
  {
  }

  /** t with what has gone so far, all of it under what was asked for and including it. */
  ghost predicate Halfway(t: Table, asked: set<nat>, left: Table)
    requires IsForest(t)
  {
    && left.Keys <= t.Keys && left.Keys !! asked
    && (forall c :: c in left ==> left[c] == t[c])
    && (forall c :: c in t && c !in left ==> Under(t, asked, c))
  }

  lemma OneCascadeRound(t: Table, asked: set<nat>, left: Table)
    requires IsForest(t) && Halfway(t, asked, left)
    ensures Halfway(t, asked, left - Orphans(left))
  {
  }

  lemma {:induction false} NoOrphansLeavesNothingUnder(t: Table, asked: set<nat>, left: Table, c: nat)
    requires IsForest(t) && Halfway(t, asked, left) && Orphans(left) == {}
    requires c in left
    ensures !Under(t, asked, c)
    decreases c
  {
    UnderIsParentwise(t, asked, c);
    if t[c].parent.Some? {
      assert c !in Orphans(left);
      NoOrphansLeavesNothingUnder(t, asked, left, t[c].parent.value);
    }
  }

  /** The cascade removes what was asked for and everything below it, and leaves the rest as it was. */
  lemma {:induction false} CascadeTakesEverythingUnder(t: Table, asked: set<nat>, left: Table)
    requires IsForest(t) && Halfway(t, asked, left)
    ensures Cascade(left) == map c | c in t && !Under(t, asked, c) :: t[c]
    decreases left.Keys
  {
    if Orphans(left) == {} {
      forall c | c in left ensures !Under(t, asked, c) {
        NoOrphansLeavesNothingUnder(t, asked, left, c);
      }
    } else {
      OneCascadeRound(t, asked, left);
      assert (left - Orphans(left)).Keys == left.Keys - Orphans(left);
      CascadeTakesEverythingUnder(t, asked, left - Orphans(left));
    }
  }

  lemma {:induction false} ClosureStaysUnder(t: Table, asked: set<nat>, seen: set<nat>, work: set<nat>)
    requires IsForest(t) && asked <= seen <= t.Keys && work <= seen
    requires forall c :: c in seen ==> Under(t, asked, c)
    requires forall c :: c in Answers(t, seen, None) && c !in seen ==> c in Answers(t, work, None)
    ensures asked <= Closure(t, seen, work) <= t.Keys
    ensures forall c :: c in Closure(t, seen, work) ==> Under(t, asked, c)
    ensures Answers(t, Closure(t, seen, work), None) <= Closure(t, seen, work)
    decreases t.Keys - seen
  {
    var found := Answers(t, work, None) - seen;
    if found != {} {
      forall c | c in found ensures Under(t, asked, c) {
        UnderIsParentwise(t, asked, c);
      }
      assert t.Keys - (seen + found) < t.Keys - seen;
      ClosureStaysUnder(t, asked, seen + found, found);
    } else {
      assert forall c :: c in Answers(t, seen, None) && c !in seen ==> c in found;
    }
  }

  lemma {:induction false} ClosedMeansEverythingUnder(t: Table, asked: set<nat>, closed: set<nat>, c: nat)
    requires IsForest(t) && asked <= closed <= t.Keys && Answers(t, closed, None) <= closed
    requires Under(t, asked, c)
    ensures c in closed
    decreases c
  {
    UnderIsParentwise(t, asked, c);
    if c !in asked {
      ClosedMeansEverythingUnder(t, asked, closed, t[c].parent.value);
      assert c in Answers(t, closed, None);
    }
  }

  /** The preview's recursion finds exactly what the cascade will take. */
  lemma DoomedIsEverythingUnder(t: Table, source: nat)
    requires IsForest(t)
    ensures Posted(t, source) <= Doomed(t, source) <= t.Keys
    ensures forall c :: c in Doomed(t, source) <==> Under(t, Posted(t, source), c)
  {
    var posted := Posted(t, source);
    ClosureStaysUnder(t, posted, posted, posted);
    forall c | Under(t, posted, c) ensures c in Doomed(t, source) {
      ClosedMeansEverythingUnder(t, posted, Doomed(t, source), c);
    }
  }

  /** Removing rows and letting the cascade run leaves a forest again. */
  lemma WhatIsLeftIsAForest(t: Table, asked: set<nat>)
    requires IsForest(t)
    ensures IsForest(Cascade(t - asked))
    ensures Cascade(t - asked) == map c | c in t && !Under(t, asked, c) :: t[c]
  {
    assert (t - asked).Keys == t.Keys - asked;
    CascadeTakesEverythingUnder(t, asked, t - asked);
    forall c | c in t && !Under(t, asked, c) && t[c].parent.Some? ensures !Under(t, asked, t[c].parent.value) {
      UnderIsParentwise(t, asked, c);
    }
  }

  ghost function SourceDeleted(t: Table, id: nat): (Table, nat) {
    if id !in t || t[id].source.None? then (t, 0)
    else
      var posted := Posted(t, t[id].source.value);
      (Cascade(t - posted), |posted|)
  }

  /**
   * What the review page announces is what the delete then does: it takes the source's
   * own comments and the announced number of other replies, reports the source's own,
   * leaves every other comment as it was, and leaves no reply without its parent.
   */
  lemma PreviewPredictsTheDelete(t: Table, id: nat)
    requires IsForest(t)
    ensures
      var (left, count) := SourceDeleted(t, id);
      && IsForest(left) && Orphans(left) == {}
      && (FindSameSource(t, id).None? <==> id !in t || t[id].source.None?)
      && (FindSameSource(t, id).None? ==> count == 0 && left == t)
      && (FindSameSource(t, id).Some? ==>
            var preview := FindSameSource(t, id).value;
            && count == preview.total > 0 && preview.otherReplies >= 0
            && |t| - |left| == preview.total + preview.otherReplies
            && left == map c | c in t && !Under(t, Posted(t, t[id].source.value), c) :: t[c])
  {
    if id in t && t[id].source.Some? {
      var source := t[id].source.value;
      var posted, doomed := Posted(t, source), Doomed(t, source);
      WhatIsLeftIsAForest(t, posted);
      DoomedIsEverythingUnder(t, source);
      var left := Cascade(t - posted);
      assert left.Keys == t.Keys - doomed;
      assert id in posted;
      assert |doomed| == |posted| + |doomed - posted|;
      assert |t| == |t.Keys| && |left| == |left.Keys| && |t.Keys - doomed| == |t.Keys| - |doomed|;
    }
  }

  /** It has the source of comment id, or is below a comment that has. */
  ghost predicate FromSourceOf(t: Table, id: nat, c: nat)
    requires IsForest(t) && id in t
  {
    c in t && exists d :: d in t && t[d].source == t[id].source && (d == c || IsBelow(t, d, c))
  }

  lemma SameSourceIsPosted(t: Table, id: nat)
    requires IsForest(t) && id in t && t[id].source.Some?
    ensures Posted(t, t[id].source.value) == set c | c in t && t[c].source == t[id].source
    ensures forall c :: c in t ==> (FromSourceOf(t, id, c) <==> Under(t, Posted(t, t[id].source.value), c))
    ensures forall c :: c in Posted(t, t[id].source.value) ==> FromSourceOf(t, id, c)
  {
    hide IsForest, IsBelow;
  }

  /**
   * On the rows themselves: what goes with comment id's source is every comment that has
   * the same source, and every one below such a comment; and what is counted is the former.
   */
  lemma WhatASourceTakes(t: Table, id: nat)
    requires IsForest(t) && id in t && t[id].source.Some?
    ensures
      var (left, count) := SourceDeleted(t, id);
      && (forall c :: c in left <==> c in t && !FromSourceOf(t, id, c)) && (forall c :: c in left ==> left[c] == t[c])
      && count == |set c | c in t && t[c].source == t[id].source|
  {
    SameSourceIsPosted(t, id);
    WhatIsLeftIsAForest(t, Posted(t, t[id].source.value));
    hide Posted, Under, FromSourceOf, IsForest, Cascade;
  }

  /** The preview counts the same, and as other replies the rest of what goes. */
  lemma WhatThePreviewCounts(t: Table, id: nat)
    requires IsForest(t) && id in t && t[id].source.Some?
    ensures FindSameSource(t, id) == Some(SourceSummary(
      |set c | c in t && t[c].source == t[id].source|,
      |set c | c in t && t[c].source != t[id].source && FromSourceOf(t, id, c)|))
  {
    var source := t[id].source.value;
    var posted, doomed := Posted(t, source), Doomed(t, source);
    SameSourceIsPosted(t, id);
    DoomedIsEverythingUnder(t, source);
    var same := set c | c in t && t[c].source == t[id].source;
    var others := set c | c in t && t[c].source != t[id].source && FromSourceOf(t, id, c);
    hide IsForest, IsBelow;
    forall c ensures c in doomed <==> c in t && FromSourceOf(t, id, c) {}
    hide Under, FromSourceOf;
    assert posted == same && doomed == same + others && same !! others;
    hide Posted, Doomed;
    SizesAddUp(doomed, same, others);
  }

  /** The same of either case, with what the table keeps to. */
  lemma SourceDeletedIs(t: Table, id: nat)
    requires IsForest(t)
    ensures
      var (left, count) := SourceDeleted(t, id);
      && IsForest(left) && left.Keys <= t.Keys
      && (id in t && t[id].source.Some? ==>
            && (forall c :: c in left <==> c in t && !FromSourceOf(t, id, c)) && (forall c :: c in left ==> left[c] == t[c])
            && count == |set c | c in t && t[c].source == t[id].source|)
      && (id !in t || t[id].source.None? ==> left == t && count == 0)
  {
    PreviewPredictsTheDelete(t, id);
    if id in t && t[id].source.Some? { WhatASourceTakes(t, id); }
    hide FromSourceOf, Under, IsForest, Cascade, Posted, FindSameSource;
  }

  lemma SourceDeletedTakes(t: Table, id: nat, posted: set<nat>)
    requires id in t && t[id].source.Some? && posted == set c | c in t && t[c].source == t[id].source
    ensures SourceDeleted(t, id) == (Cascade(t - posted), |posted|)
  {
    assert posted == Posted(t, t[id].source.value);
  }

  lemma SourceDeletedTakesNothing(t: Table, id: nat)
    requires id !in t || t[id].source.None?
    ensures SourceDeleted(t, id) == (t, 0)
  {
  }

  lemma SizesAddUp(all: set<nat>, a: set<nat>, b: set<nat>)
    requires all == a + b && a !! b
    ensures |all| == |a| + |b|
  {
  }

  // ---- Writing the table ----

  predicate StillHeld(before: set<Key>, after: set<Key>) {
    after == set key | key in before && !Clears(CommentWrite, key)
  }

  const DAY: nat := 86_400_000

  /** NOW() as the statements of one sweep read it: a clock that never goes back. */
  ghost predicate IsClock(now: nat -> int) {
    forall i, j :: 0 <= i <= j ==> now(i) <= now(j)
  }

  ghost predicate Expired(t: Table, c: nat, cutoff: int) {
    c in t && t[c].source.Some? && t[c].createdAt < cutoff
  }

  function Forgotten(t: Table, ids: set<nat>): (after: Table)
    ensures after.Keys == t.Keys
  {
    map c | c in t :: if c in ids then t[c].(source := None) else t[c]
  }

  /**
   * What a sweep leaves: it cleared exactly as many sources as it reports, all that
   * had expired when it began, and none that had not when its last statement ran.
   */
  ghost predicate Swept(before: Table, after: Table, total: nat, first: int, now: nat -> int, window: int) {
    exists cleared: set<nat>, last: nat {:trigger Forgotten(before, cleared), now(last)} ::
      && after == Forgotten(before, cleared) && total == |cleared|
      && (forall c :: Expired(before, c, first) ==> c in cleared)
      && (forall c :: c in cleared ==> Expired(before, c, now(last) - window))
  }

  /** The same half-way: what has been cleared so far had expired by the current cutoff. */
  ghost predicate Sweeping(before: Table, after: Table, cleared: set<nat>, total: nat, cutoff: int) {
    && IsForest(after) && after.Keys == before.Keys
    && after == Forgotten(before, cleared) && total == |cleared| && cleared <= before.Keys
    && forall c :: c in cleared ==> Expired(before, c, cutoff)
  }

  lemma OneMoreBatch(before: Table, t: Table, cleared: set<nat>, total: nat, batch: set<nat>, cutoff: int, later: int)
    requires Sweeping(before, t, cleared, total, cutoff) && cutoff <= later
    requires forall c :: c in batch ==> Expired(t, c, cutoff)
    ensures Sweeping(before, Forgotten(t, batch), cleared + batch, total + |batch|, later)
    ensures batch !! cleared && batch <= before.Keys
  {
    assert batch !! cleared;
    assert |cleared + batch| == |cleared| + |batch|;
  }

  /** A batch with room left over is the last: whatever had expired when the sweep began is cleared. */
  lemma ShortBatchIsTheLast(before: Table, t: Table, cleared: set<nat>, total: nat, batch: set<nat>, first: int,
                            now: nat -> int, last: nat, window: int)
    requires Sweeping(before, t, cleared, total, now(last) - window) && first <= now(last) - window
    requires forall c :: c in batch <==> Expired(t, c, now(last) - window)
    ensures Swept(before, Forgotten(t, batch), total + |batch|, first, now, window)
    ensures IsForest(Forgotten(t, batch)) && Forgotten(t, batch).Keys == before.Keys
  {
    OneMoreBatch(before, t, cleared, total, batch, now(last) - window, now(last) - window);
    forall c | Expired(before, c, first) && c !in cleared ensures c in batch {
      assert Expired(t, c, now(last) - window);
    }
    assert Forgotten(before, cleared + batch) == Forgotten(t, batch);
  }

  class CommentTable {
    var rows: Table
    var nextId: nat
    var held: set<Key>
    var bumps: nat

    ghost predicate Valid()
      reads this
    {
      IsForest(rows) && forall c :: c in rows ==> c < nextId
    }

    constructor ()
      ensures Valid() && rows == map[]
    {
      rows, nextId, held, bumps := map[], 0, {}, 0;
    }

    method ClearCommentCaches()
      modifies `held, `bumps
      ensures StillHeld(old(held), held) && bumps == old(bumps) + 1
    {
      held := set key | key in held && !Clears(CommentWrite, key);
      bumps := bumps + 1;
    }

    /** The route's check of the parent and the insert behind it. */
    method Post(gameId: nat, parentId: Option<nat>, source: Option<nat>, now: int) returns (posted: Option<nat>)
      requires Valid()
      modifies this
      ensures Valid()
      ensures posted.None? <==> parentId.Some? && (parentId.value !in old(rows) || old(rows)[parentId.value].gameId != gameId)
      ensures posted.None? ==> rows == old(rows) && held == old(held) && bumps == old(bumps)
      ensures posted.Some? ==>
        && posted.value !in old(rows) && (forall c :: c in old(rows) ==> c < posted.value)
        && rows == old(rows)[posted.value := Comment(gameId, parentId, source, now)]
        && StillHeld(old(held), held) && bumps == old(bumps) + 1
    {
      if parentId.Some? && (parentId.value !in rows || rows[parentId.value].gameId != gameId) {
        return None;
      }
      posted := Some(nextId);
      rows := rows[nextId := Comment(gameId, parentId, source, now)];
      nextId := nextId + 1;
      ClearCommentCaches();
    }

    /** One comment and everything below it, and the caches only when there was one. */
    method Delete(id: nat) returns (deleted: bool)
      requires Valid()
      modifies this
      ensures Valid() && nextId == old(nextId)
      ensures deleted <==> id in old(rows)
      ensures rows == map c | c in old(rows) && !Under(old(rows), {id}, c) :: old(rows)[c]
      ensures if deleted then StillHeld(old(held), held) && bumps == old(bumps) + 1 else held == old(held) && bumps == old(bumps)
    {
      WhatIsLeftIsAForest(rows, {id});
      deleted := id in rows;
      rows := Cascade(rows - {id});
      if deleted { ClearCommentCaches(); }
    }

    method DeleteSameSource(id: nat) returns (count: nat)
      requires Valid()
      modifies this
      ensures Valid() && nextId == old(nextId)
      ensures (rows, count) == SourceDeleted(old(rows), id)
      ensures id !in old(rows) || old(rows)[id].source.None? ==> rows == old(rows) && count == 0
      ensures id in old(rows) && old(rows)[id].source.Some? ==>
        && (forall c :: c in rows <==> c in old(rows) && !FromSourceOf(old(rows), id, c))
        && (forall c :: c in rows ==> rows[c] == old(rows)[c])
        && count == |set c | c in old(rows) && old(rows)[c].source == old(rows)[id].source|
      ensures if count > 0 then StillHeld(old(held), held) && bumps == old(bumps) + 1 else held == old(held) && bumps == old(bumps)
    {
      ghost var before := rows;
      SourceDeletedIs(rows, id);
      hide FromSourceOf, Under, IsForest, Cascade, Posted, SourceDeleted;
      if id in rows && rows[id].source.Some? {
        var source := rows[id].source;
        var posted := set c | c in rows && rows[c].source == source;
        SourceDeletedTakes(rows, id, posted);
        count := |posted|;
        rows := Cascade(rows - posted);
      } else {
        SourceDeletedTakesNothing(rows, id);
        count := 0;
      }
      if count > 0 { ClearCommentCaches(); }
    }

    /** ORDER BY "createdAt" LIMIT n over the rows a sweep may clear. */
    method OldestExpired(cutoff: int, n: nat) returns (batch: set<nat>)
      ensures forall c :: c in batch ==> Expired(rows, c, cutoff)
      ensures |batch| <= n && (|batch| < n ==> forall c :: Expired(rows, c, cutoff) ==> c in batch)
      ensures forall c, d :: c in batch && Expired(rows, c, cutoff) && Expired(rows, d, cutoff) && d !in batch ==>
        rows[c].createdAt <= rows[d].createdAt
    {
      batch := {};
      var rest := set c | c in rows && rows[c].source.Some? && rows[c].createdAt < cutoff;
      while rest != {} && |batch| < n
        invariant batch !! rest && forall c :: Expired(rows, c, cutoff) <==> c in batch || c in rest
        invariant forall c, d :: c in batch && d in rest ==> rows[c].createdAt <= rows[d].createdAt
        invariant |batch| <= n
        decreases |rest|
      {
        var oldest := Oldest(rows, rest);
        batch, rest := batch + {oldest}, rest - {oldest};
      }
    }

    /**
     * The sweep ends, clears a source off everything that was past the window when it
     * began, clears nothing that was within it when it ended, and counts each once.
     */
    method PruneSources(days: nat, batchSize: nat, now: nat -> int) returns (total: nat)
      requires Valid() && batchSize > 0 && IsClock(now)
      modifies `rows
      ensures Valid()
      ensures Swept(old(rows), rows, total, now(0) - days * DAY, now, days * DAY)
    {
      total := 0;
      var statement, window := 0, days * DAY;
      ghost var before, cleared: set<nat> := rows, {};
      assert Sweeping(before, rows, cleared, total, now(0) - window);
      hide IsForest, Forgotten, Expired, Swept, Sweeping;
      while true
        invariant Sweeping(before, rows, cleared, total, now(statement) - window)
        decreases before.Keys - cleared
      {
        var batch := OldestExpired(now(statement) - window, batchSize);
        if |batch| < batchSize {
          ShortBatchIsTheLast(before, rows, cleared, total, batch, now(0) - window, now, statement, window);
          rows, total := Forgotten(rows, batch), total + |batch|;
          return;
        }
        OneMoreBatch(before, rows, cleared, total, batch, now(statement) - window, now(statement + 1) - window);
        rows, total := Forgotten(rows, batch), total + |batch|;
        cleared := cleared + batch;
        statement := statement + 1;
      }
    }
  }

  method Oldest(t: Table, ids: set<nat>) returns (oldest: nat)
    requires ids != {} && ids <= t.Keys
    ensures oldest in ids && forall c :: c in ids ==> t[oldest].createdAt <= t[c].createdAt
  {
    oldest :| oldest in ids;
    var rest := ids - {oldest};
    while rest != {}
      invariant oldest in ids && rest <= ids
      invariant forall c :: c in ids && c !in rest ==> t[oldest].createdAt <= t[c].createdAt
      decreases rest
    {
      var c :| c in rest;
      if t[c].createdAt < t[oldest].createdAt { oldest := c; }
      rest := rest - {c};
    }
  }
}
