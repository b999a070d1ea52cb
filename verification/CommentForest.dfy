/**
 * The threads of a game: comments whose parents are older comments on the same
 * game, the recursive queries that walk them down and up, and the windows the
 * pages show.
 */
module CommentForest {
  import opened Basics
  import opened IdPages

  const REPLIES_PER_ROOT: nat := 50
  const COMMENTS_PAGE_SIZE: nat := 20

  datatype Comment = Comment(gameId: nat, parent: Option<nat>, source: Option<nat>, createdAt: int)

  type Table = map<nat, Comment>

  /** A reply is newer than what it answers, and on the same game. */
  ghost predicate IsForest(t: Table) {
    forall c :: c in t && t[c].parent.Some? ==>
      t[c].parent.value in t && t[c].parent.value < c && t[t[c].parent.value].gameId == t[c].gameId
  }

  predicate OnGame(t: Table, c: nat, game: Option<nat>)
    requires c in t
  {
    game.None? || t[c].gameId == game.value
  }

  /** One round of the recursive term: the answers to the working table. */
  function Answers(t: Table, work: set<nat>, game: Option<nat>): set<nat> {
    set c | c in t && t[c].parent.Some? && t[c].parent.value in work && OnGame(t, c, game)
  }

  /** What is in the table at or above the least id of the working table. */
  ghost function Reach(t: Table, work: set<nat>): set<nat> {
    set c | c in t && exists w :: w in work && w <= c
  }

  lemma AnswersAreHigher(t: Table, work: set<nat>, game: Option<nat>)
    requires IsForest(t) && work <= t.Keys && work != {}
    ensures Reach(t, Answers(t, work, game)) < Reach(t, work)
  {
    var least := Least(work);
    forall c | c in Reach(t, Answers(t, work, game)) ensures c in Reach(t, work) && c != least {
      var a :| a in Answers(t, work, game) && a <= c;
      assert t[a].parent.value in work && t[a].parent.value < c;
    }
    assert least in Reach(t, work);
  }

  ghost function Least(s: set<nat>): (m: nat)
    requires s != {}
    ensures m in s && forall x :: x in s ==> m <= x
  {
    var x :| x in s;
    if s == {x} then x
    else
      var rest := Least(s - {x});
      assert forall y :: y in s ==> y == x || y in s - {x};
      if x < rest then x else rest
  }

  /** WITH RECURSIVE: the working table, and whatever the rounds after it add. */
  ghost function Descend(t: Table, work: set<nat>, game: Option<nat>): set<nat>
    requires IsForest(t) && work <= t.Keys
    decreases Reach(t, work)
  {
    if work == {} then {}
    else
      AnswersAreHigher(t, work, game);
      work + Descend(t, Answers(t, work, game), game)
  }

  /** COUNT(*) OVER (): how many rows the rounds produce, counted round by round. */
  ghost function RowsProduced(t: Table, work: set<nat>, game: Option<nat>): nat
    requires IsForest(t) && work <= t.Keys
    decreases Reach(t, work)
  {
    if work == {} then 0
    else
      AnswersAreHigher(t, work, game);
      |work| + RowsProduced(t, Answers(t, work, game), game)
  }

  /** The replies under a comment, however deep. */
  ghost function Thread(t: Table, root: nat, game: Option<nat>): set<nat>
    requires IsForest(t)
  {
    Descend(t, Answers(t, {root}, game), game)
  }

  /** The recursive walk from a comment up through its parents. */
  ghost function Ascend(t: Table, c: nat): set<nat>
    requires IsForest(t) && c in t
    decreases c
  {
    {c} + if t[c].parent.None? then {} else Ascend(t, t[c].parent.value)
  }

  /** A comment is below another when following its parents reaches it. */
  ghost predicate IsBelow(t: Table, above: nat, c: nat)
    requires IsForest(t)
    decreases c
  {
    c in t && t[c].parent.Some? && (t[c].parent.value == above || IsBelow(t, above, t[c].parent.value))
  }

  ghost function RootOf(t: Table, c: nat): nat
    requires IsForest(t) && c in t
    decreases c
  {
    if t[c].parent.None? then c else RootOf(t, t[c].parent.value)
  }

  // ---- Down and up agree ----

  lemma {:induction false} BelowIsBelowAnAnswer(t: Table, above: nat, c: nat)
    requires IsForest(t) && IsBelow(t, above, c)
    ensures exists a :: a in Answers(t, {above}, None) && (a == c || IsBelow(t, a, c))
    decreases c
  {
    var p := t[c].parent.value;
    if p == above {
      assert c in Answers(t, {above}, None);
    } else {
      BelowIsBelowAnAnswer(t, above, p);
      var a :| a in Answers(t, {above}, None) && (a == p || IsBelow(t, a, p));
      assert IsBelow(t, a, c);
    }
  }

  lemma {:induction false} BelowAnAnswerIsBelow(t: Table, above: nat, a: nat, c: nat)
    requires IsForest(t) && a in t && t[a].parent == Some(above) && (a == c || IsBelow(t, a, c))
    ensures IsBelow(t, above, c)
    decreases c
  {
    if a != c && t[c].parent.value != a {
      BelowAnAnswerIsBelow(t, above, a, t[c].parent.value);
    }
  }

  /** The rounds produce exactly the working table and everything below it. */
  lemma {:induction false} DescendIsEverythingBelow(t: Table, work: set<nat>, c: nat)
    requires IsForest(t) && work <= t.Keys
    ensures c in Descend(t, work, None) <==> c in work || exists w :: w in work && IsBelow(t, w, c)
    decreases Reach(t, work)
  {
    if work != {} {
      var next := Answers(t, work, None);
      AnswersAreHigher(t, work, None);
      DescendIsEverythingBelow(t, next, c);
      if w :| w in work && IsBelow(t, w, c) {
        BelowIsBelowAnAnswer(t, w, c);
        var a :| a in Answers(t, {w}, None) && (a == c || IsBelow(t, a, c));
        assert a in next;
      }
      if a :| a in next && (a == c || IsBelow(t, a, c)) {
        BelowAnAnswerIsBelow(t, t[a].parent.value, a, c);
      }
    }
  }

  /** Naming the game changes nothing when the walk starts on it. */
  lemma {:induction false} GameFilterIsIdle(t: Table, work: set<nat>, game: nat)
    requires IsForest(t) && work <= t.Keys && forall w :: w in work ==> t[w].gameId == game
    ensures Descend(t, work, Some(game)) == Descend(t, work, None)
    decreases Reach(t, work)
  {
    if work != {} {
      assert Answers(t, work, Some(game)) == Answers(t, work, None);
      AnswersAreHigher(t, work, None);
      GameFilterIsIdle(t, Answers(t, work, None), game);
    }
  }

  /** How many parents there are above a comment. */
  ghost function Depth(t: Table, c: nat): nat
    requires IsForest(t) && c in t
    decreases c
  {
    if t[c].parent.None? then 0 else 1 + Depth(t, t[c].parent.value)
  }

  lemma {:induction false} RoundsGoDeeper(t: Table, work: set<nat>, game: Option<nat>, depth: nat, c: nat)
    requires IsForest(t) && work <= t.Keys && (forall w :: w in work ==> Depth(t, w) == depth)
    requires c in Descend(t, work, game)
    ensures c in t && Depth(t, c) >= depth && (c in work <==> Depth(t, c) == depth)
    decreases Reach(t, work)
  {
    AnswersAreHigher(t, work, game);
    if c !in work {
      RoundsGoDeeper(t, Answers(t, work, game), game, depth + 1, c);
    }
  }

  /** UNION ALL meets nothing twice: the count is the number of replies. */
  lemma {:induction false} EveryReplyIsCountedOnce(t: Table, work: set<nat>, game: Option<nat>, depth: nat)
    requires IsForest(t) && work <= t.Keys && (forall w :: w in work ==> Depth(t, w) == depth)
    ensures RowsProduced(t, work, game) == |Descend(t, work, game)|
    decreases Reach(t, work)
  {
    if work != {} {
      var next := Answers(t, work, game);
      AnswersAreHigher(t, work, game);
      EveryReplyIsCountedOnce(t, next, game, depth + 1);
      var rest := Descend(t, next, game);
      forall c | c in rest ensures c !in work {
        RoundsGoDeeper(t, next, game, depth + 1, c);
      }
      assert work !! rest;
    }
  }

  lemma {:induction false} AscentEndsAtTheRoot(t: Table, c: nat)
    requires IsForest(t) && c in t
    ensures RootOf(t, c) in t && t[RootOf(t, c)].parent.None? && t[RootOf(t, c)].gameId == t[c].gameId
    ensures forall a :: a in Ascend(t, c) ==> a in t && t[a].gameId == t[c].gameId && (t[a].parent.None? <==> a == RootOf(t, c))
    ensures RootOf(t, c) in Ascend(t, c)
    decreases c
  {
    if t[c].parent.Some? {
      AscentEndsAtTheRoot(t, t[c].parent.value);
    }
  }

  lemma {:induction false} BelowARootMeansItsRoot(t: Table, root: nat, c: nat)
    requires IsForest(t) && c in t && root in t && t[root].parent.None?
    ensures IsBelow(t, root, c) <==> c != root && RootOf(t, c) == root
    decreases c
  {
    if t[c].parent.Some? {
      BelowARootMeansItsRoot(t, root, t[c].parent.value);
    }
  }

  /** A reply is in the thread its ascent ends at, and in no other root's. */
  lemma DescentMeetsAscent(t: Table, root: nat, c: nat)
    requires IsForest(t) && root in t && t[root].parent.None? && c in t
    ensures c in Thread(t, root, Some(t[root].gameId)) <==> c != root && RootOf(t, c) == root
    ensures c in Thread(t, root, None) <==> c != root && RootOf(t, c) == root
  {
    var first := Answers(t, {root}, None);
    assert first == Answers(t, {root}, Some(t[root].gameId));
    GameFilterIsIdle(t, first, t[root].gameId);
    DescendIsEverythingBelow(t, first, c);
    BelowARootMeansItsRoot(t, root, c);
    if IsBelow(t, root, c) {
      BelowIsBelowAnAnswer(t, root, c);
    }
    if a :| a in first && (a == c || IsBelow(t, a, c)) {
      BelowAnAnswerIsBelow(t, root, a, c);
    }
  }

  lemma ThreadIsInTheTable(t: Table, root: nat)
    requires IsForest(t) && root in t && t[root].parent.None?
    ensures Thread(t, root, Some(t[root].gameId)) == Thread(t, root, None) == set c | c in t && c != root && RootOf(t, c) == root
  {
    var first := Answers(t, {root}, None);
    assert first == Answers(t, {root}, Some(t[root].gameId));
    GameFilterIsIdle(t, first, t[root].gameId);
    forall c | c in Thread(t, root, None) ensures c in t {
      RoundsGoDeeper(t, first, None, 1, c);
    }
    forall c | c in t ensures c in Thread(t, root, None) <==> c != root && RootOf(t, c) == root {
      DescentMeetsAscent(t, root, c);
    }
  }

  // ---- The pages ----

  datatype Replies = Replies(replies: seq<nat>, oldestId: Option<nat>, remaining: nat)

  function First(ids: seq<nat>): Option<nat> { if ids == [] then None else Some(ids[0]) }

  function Positive(n: int): nat { if n < 0 then 0 else n }

  ghost function ThreadAfter(t: Table, game: nat, root: nat, after: Option<nat>): set<nat>
    requires IsForest(t)
  {
    set c | c in Thread(t, root, Some(game)) && (after.None? || c > after.value)
  }

  ghost function FindReplies(t: Table, game: nat, root: nat, before: Option<nat>, after: Option<nat>): Replies
    requires IsForest(t)
  {
    var matching := BelowCursor(ThreadAfter(t, game, root, after), before);
    var page := Newest(matching, REPLIES_PER_ROOT);
    // The total rides on the rows, so an empty page brings none with it.
    var total := if page == [] then 0 else |matching|;
    Replies(page, First(page), Positive(total - |page|))
  }

  datatype ThreadView = ThreadView(root: nat, replies: seq<nat>, replyCursor: Option<nat>, hiddenReplies: nat)

  /** push, then sort by id. */
  function SortedWith(ids: seq<nat>, id: nat): seq<nat> {
    if ids == [] || id < ids[0] then [id] + ids else [ids[0]] + SortedWith(ids[1..], id)
  }

  lemma {:induction false} SortedWithIsSorted(ids: seq<nat>, id: nat)
    requires Ascending(ids) && id !in ids
    ensures Ascending(SortedWith(ids, id)) && Members(SortedWith(ids, id)) == Members(ids) + {id}
  {
    if ids != [] && ids[0] < id {
      SortedWithIsSorted(ids[1..], id);
      var rest := SortedWith(ids[1..], id);
      forall i | 0 <= i < |rest| ensures ids[0] < rest[i] {
        assert rest[i] in Members(rest);
      }
      assert ids == [ids[0]] + ids[1..];
    }
  }

  ghost function FindThreadByComment(t: Table, game: nat, id: nat): Option<ThreadView>
    requires IsForest(t)
  {
    if id !in t || t[id].gameId != game then None
    else
      var root := RootAmong(t, Ascend(t, id));
      var page := FindReplies(t, game, root, None, None);
      var shown := if id != root && id !in page.replies then SortedWith(page.replies, id) else page.replies;
      Some(ThreadView(root, shown, page.oldestId, page.remaining))
  }

  /** The ascent's rows that have no parent; LIMIT-less, so the first one read. */
  ghost function RootAmong(t: Table, rows: set<nat>): nat {
    if c :| c in rows && c in t && t[c].parent.None? then c else 0
  }

  /**
   * A linked comment is shown in the one thread it belongs to: under its root, in
   * order, with the ordinary page's other replies, cursor and count.
   */
  lemma LinkedCommentIsShownInItsThread(t: Table, game: nat, id: nat)
    requires IsForest(t)
    ensures FindThreadByComment(t, game, id).Some? <==> id in t && t[id].gameId == game
    ensures FindThreadByComment(t, game, id).Some? ==>
      var view := FindThreadByComment(t, game, id).value;
      var page := FindReplies(t, game, view.root, None, None);
      && view.root in t && t[view.root].parent.None? && t[view.root].gameId == game
      && (forall r :: r in t && t[r].parent.None? && (id == r || id in Thread(t, r, Some(t[r].gameId))) ==> r == view.root)
      && (id == view.root || id in Thread(t, view.root, Some(game)))
      && Ascending(view.replies)
      && Members(view.replies) == Members(page.replies) + (if id == view.root then {} else {id})
      && view.replyCursor == page.oldestId && view.hiddenReplies == page.remaining
  {
    if id in t && t[id].gameId == game {
      AscentEndsAtTheRoot(t, id);
      var view := FindThreadByComment(t, game, id).value;
      var page := FindReplies(t, game, view.root, None, None);
      assert view.root == RootOf(t, id);
      NewestIsAWindow(BelowCursor(ThreadAfter(t, game, view.root, None), None), REPLIES_PER_ROOT);
      forall r | r in t && t[r].parent.None? && (id == r || id in Thread(t, r, Some(t[r].gameId))) ensures r == view.root {
        DescentMeetsAscent(t, r, id);
      }
      DescentMeetsAscent(t, view.root, id);
      if id != view.root && id !in page.replies {
        SortedWithIsSorted(page.replies, id);
      } else if id == view.root {
        assert id !in Thread(t, id, Some(game));
      }
    }
  }

  /** The hidden count is exactly the replies below the cursor, and the total behind it counts each once. */
  lemma RemainingIsWhatLiesBelow(t: Table, game: nat, root: nat, before: Option<nat>, after: Option<nat>)
    requires IsForest(t)
    ensures
      var page := FindReplies(t, game, root, before, after);
      && page.oldestId == First(page.replies)
      && (page.oldestId.Some? ==> page.remaining == |BelowCursor(ThreadAfter(t, game, root, after), page.oldestId)|)
      && (page.oldestId.None? ==> page.remaining == 0 && BelowCursor(ThreadAfter(t, game, root, after), before) == {})
    ensures root in t && t[root].parent.None? && t[root].gameId == game ==>
      RowsProduced(t, Answers(t, {root}, Some(game)), Some(game)) == |Thread(t, root, Some(game))|
  {
    var all := ThreadAfter(t, game, root, after);
    var matching := BelowCursor(all, before);
    NewestIsAWindow(matching, REPLIES_PER_ROOT);
    if PageAt(all, REPLIES_PER_ROOT, before) != [] {
      LeftOverIsBelow(all, REPLIES_PER_ROOT, before);
    } else {
      assert |matching| == 0;
    }
    if root in t && t[root].parent.None? && t[root].gameId == game {
      EveryReplyIsCountedOnce(t, Answers(t, {root}, Some(game)), Some(game), 1);
    }
  }

  // ---- Walking threads and roots while the table changes ----

  /** On the row: a reply on the game, somewhere under the root, and newer than where the reader starts. */
  ghost predicate IsReply(t: Table, game: nat, root: nat, after: Option<nat>, x: nat)
    requires IsForest(t)
  {
    x in t && t[x].gameId == game && IsBelow(t, root, x) && (after.Some? ==> x > after.value)
  }

  /** On the row: a comment on the game that answers none. */
  predicate IsRoot(t: Table, game: nat, x: nat) { x in t && t[x].gameId == game && t[x].parent.None? }

  ghost predicate ReplyThroughout(tables: seq<Table>, game: nat, root: nat, after: Option<nat>, x: nat)
    requires forall t :: t in tables ==> IsForest(t)
  {
    forall t :: t in tables ==> IsReply(t, game, root, after, x)
  }

  ghost predicate RootThroughout(tables: seq<Table>, game: nat, x: nat) { forall t :: t in tables ==> IsRoot(t, game, x) }

  lemma {:induction false} BelowIsOnTheGame(t: Table, above: nat, c: nat)
    requires IsForest(t) && IsBelow(t, above, c)
    ensures above in t && t[above].gameId == t[c].gameId
    decreases c
  {
    if t[c].parent.value != above { BelowIsOnTheGame(t, above, t[c].parent.value); }
  }

  /** What the recursive query asks for, said on the row. */
  lemma ThreadAfterIsReplies(t: Table, game: nat, root: nat, after: Option<nat>, x: nat)
    requires IsForest(t)
    ensures x in ThreadAfter(t, game, root, after) <==> IsReply(t, game, root, after, x)
  {
    var first := Answers(t, {root}, Some(game));
    if x in t && IsBelow(t, root, x) { BelowIsOnTheGame(t, root, x); }
    if root in t && t[root].gameId == game {
      assert first == Answers(t, {root}, None);
      GameFilterIsIdle(t, first, game);
      DescendIsEverythingBelow(t, first, x);
      if IsBelow(t, root, x) { BelowIsBelowAnAnswer(t, root, x); }
      if a :| a in first && (a == x || IsBelow(t, a, x)) { BelowAnAnswerIsBelow(t, root, a, x); }
    } else {
      assert first == {};
    }
  }

  ghost function ThreadSets(tables: seq<Table>, game: nat, root: nat, after: Option<nat>): seq<set<nat>>
    requires forall t :: t in tables ==> IsForest(t)
  {
    seq(|tables|, i requires 0 <= i < |tables| => ThreadAfter(tables[i], game, root, after))
  }

  /** What a reader has after asking findReplies of each table in turn, each time below the last oldest reply. */
  ghost function RepliesWalked(tables: seq<Table>, game: nat, root: nat, before: Option<nat>, after: Option<nat>): seq<nat>
    requires forall t :: t in tables ==> IsForest(t)
    decreases |tables|
  {
    if tables == [] then []
    else
      var page := FindReplies(tables[0], game, root, before, after);
      if page.oldestId.None? then []
      else RepliesWalked(tables[1..], game, root, page.oldestId, after) + page.replies
  }

  lemma {:induction false} RepliesWalkedIsAWalk(tables: seq<Table>, game: nat, root: nat, before: Option<nat>, after: Option<nat>)
    requires forall t :: t in tables ==> IsForest(t)
    ensures RepliesWalked(tables, game, root, before, after)
         == Walk(ThreadSets(tables, game, root, after), REPLIES_PER_ROOT, before)
    decreases |tables|
  {
    if tables != [] {
      var sets := ThreadSets(tables, game, root, after);
      assert tables[0] in tables && forall t :: t in tables[1..] ==> t in tables;
      assert sets[1..] == ThreadSets(tables[1..], game, root, after);
      var page := FindReplies(tables[0], game, root, before, after);
      if page.oldestId.Some? {
        RepliesWalkedIsAWalk(tables[1..], game, root, page.oldestId, after);
      }
    }
  }

  /**
   * Paging through a thread that people post to and moderate shows nothing twice, and
   * once a page comes back empty every reply that was there throughout has been shown.
   */
  lemma ReplyPagingIsExact(tables: seq<Table>, game: nat, root: nat, before: Option<nat>, after: Option<nat>)
    requires forall t :: t in tables ==> IsForest(t)
    ensures
      var shown := RepliesWalked(tables, game, root, before, after);
      && Ascending(shown)
      && (forall x :: x in shown ==> exists j: nat ::
            ShownAt(ThreadSets(tables, game, root, after), REPLIES_PER_ROOT, before, j, x)
            && j < |tables| && IsReply(tables[j], game, root, after, x) && Below(before, x))
      && (Ended(ThreadSets(tables, game, root, after), REPLIES_PER_ROOT, before) ==>
            forall x :: Below(before, x) && ReplyThroughout(tables, game, root, after, x) ==> x in shown)
    ensures Enough(ThreadSets(tables, game, root, after), REPLIES_PER_ROOT, before) ==>
      Ended(ThreadSets(tables, game, root, after), REPLIES_PER_ROOT, before)
  {
    var sets := ThreadSets(tables, game, root, after);
    RepliesWalkedIsAWalk(tables, game, root, before, after);
    WalkIsExact(sets, REPLIES_PER_ROOT, before);
    if Enough(sets, REPLIES_PER_ROOT, before) {
      WalkEnds(sets, REPLIES_PER_ROOT, before);
    }
    forall x | x in Walk(sets, REPLIES_PER_ROOT, before)
      ensures exists j: nat :: ShownAt(sets, REPLIES_PER_ROOT, before, j, x) && j < |tables| && IsReply(tables[j], game, root, after, x) && Below(before, x)
    {
      var j := WalkedIsShown(sets, REPLIES_PER_ROOT, before, x);
      ShownIsThere(sets, REPLIES_PER_ROOT, before, j, x);
      ThreadAfterIsReplies(tables[j], game, root, after, x);
    }
    forall x | ReplyThroughout(tables, game, root, after, x)
      ensures forall s :: s in sets ==> x in s
    {
      forall s | s in sets ensures x in s {
        var i :| 0 <= i < |sets| && sets[i] == s;
        assert tables[i] in tables;
        ThreadAfterIsReplies(tables[i], game, root, after, x);
      }
    }
  }

  ghost function Roots(t: Table, game: nat): set<nat> {
    set c | c in t && t[c].gameId == game && t[c].parent.None?
  }

  ghost function RootSets(tables: seq<Table>, game: nat): seq<set<nat>> {
    seq(|tables|, i requires 0 <= i < |tables| => Roots(tables[i], game))
  }

  /** The same for the roots, read with the oldest root shown as the next cursor. */
  lemma RootPagingIsExact(tables: seq<Table>, game: nat, before: Option<nat>)
    ensures
      var shown := Walk(RootSets(tables, game), COMMENTS_PAGE_SIZE, before);
      && Ascending(shown)
      && (forall x :: x in shown ==> exists j: nat ::
            ShownAt(RootSets(tables, game), COMMENTS_PAGE_SIZE, before, j, x)
            && j < |tables| && IsRoot(tables[j], game, x) && Below(before, x))
      && (Ended(RootSets(tables, game), COMMENTS_PAGE_SIZE, before) ==>
            forall x :: Below(before, x) && RootThroughout(tables, game, x) ==> x in shown)
    ensures Enough(RootSets(tables, game), COMMENTS_PAGE_SIZE, before) ==> Ended(RootSets(tables, game), COMMENTS_PAGE_SIZE, before)
  {
    var sets := RootSets(tables, game);
    WalkIsExact(sets, COMMENTS_PAGE_SIZE, before);
    if Enough(sets, COMMENTS_PAGE_SIZE, before) {
      WalkEnds(sets, COMMENTS_PAGE_SIZE, before);
    }
    forall x | x in Walk(sets, COMMENTS_PAGE_SIZE, before)
      ensures exists j: nat :: ShownAt(sets, COMMENTS_PAGE_SIZE, before, j, x) && j < |tables| && IsRoot(tables[j], game, x) && Below(before, x)
    {
      var j := WalkedIsShown(sets, COMMENTS_PAGE_SIZE, before, x);
      ShownIsThere(sets, COMMENTS_PAGE_SIZE, before, j, x);
    }
    forall x | RootThroughout(tables, game, x) ensures forall s :: s in sets ==> x in s {
      forall s | s in sets ensures x in s {
        var i :| 0 <= i < |sets| && sets[i] == s;
        assert tables[i] in tables;
      }
    }
  }

  function Repeated(t: Table, n: nat): seq<Table> { seq(n, _ => t) }

  /** On a table that stands still, paging on from a cursor shows every reply below it and no other comment. */
  lemma RestOfTheThread(t: Table, game: nat, root: nat, cursor: nat)
    requires IsForest(t)
    ensures
      var older := RepliesWalked(Repeated(t, cursor + 1), game, root, Some(cursor), None);
      && (forall x :: x in Thread(t, root, Some(game)) && x < cursor ==> x in older)
      && (forall x :: x in older ==> x in Thread(t, root, Some(game)))
  {
    var tables := Repeated(t, cursor + 1);
    var sets := ThreadSets(tables, game, root, None);
    ReplyPagingIsExact(tables, game, root, Some(cursor), None);
    RepliesWalkedIsAWalk(tables, game, root, Some(cursor), None);
    WalkIsExact(sets, REPLIES_PER_ROOT, Some(cursor));
    assert ThreadAfter(t, game, root, None) == Thread(t, root, Some(game));
    assert forall s :: s in sets ==> s == Thread(t, root, Some(game));
  }

  /** A reply the ordinary page leaves out is older than its cursor, and an empty page leaves nothing out. */
  lemma FirstPageLeavesOlder(t: Table, game: nat, root: nat)
    requires IsForest(t)
    ensures
      var page := FindReplies(t, game, root, None, None);
      && Members(page.replies) <= Thread(t, root, Some(game))
      && forall x :: x in Thread(t, root, Some(game)) && x !in page.replies ==> page.oldestId.Some? && x < page.oldestId.value
  {
    hide Thread, IsForest;
    var all := Thread(t, root, Some(game));
    assert BelowCursor(ThreadAfter(t, game, root, None), None) == all;
    NewestIsAWindow(all, REPLIES_PER_ROOT);
    var page := Newest(all, REPLIES_PER_ROOT);
    if page == [] {
      assert |all| == 0;
    } else {
      assert page[0] in page;
    }
  }

  /**
   * Opening a thread by a link and then paging on from its cursor, on a table that
   * stands still, shows every reply of the thread.
   */
  lemma LinkedThreadCanBeReadWhole(t: Table, game: nat, id: nat)
    requires IsForest(t) && FindThreadByComment(t, game, id).Some?
    ensures
      var view := FindThreadByComment(t, game, id).value;
      var older := if view.replyCursor.None? then []
                   else RepliesWalked(Repeated(t, view.replyCursor.value + 1), game, view.root, view.replyCursor, None);
      Members(older) + Members(view.replies) == Thread(t, view.root, Some(game))
  {
    hide FindThreadByComment, Thread, IsForest, RepliesWalked, FindReplies;
    LinkedCommentIsShownInItsThread(t, game, id);
    var view := FindThreadByComment(t, game, id).value;
    var all := Thread(t, view.root, Some(game));
    FirstPageLeavesOlder(t, game, view.root);
    if view.replyCursor.Some? {
      RestOfTheThread(t, game, view.root, view.replyCursor.value);
    }
  }
}
