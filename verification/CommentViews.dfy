/**
 * Filing the replies one query brought back for a whole batch of roots, and the
 * batch's own cursor.
 */
module CommentViews {
  import opened Basics
  import opened IdPages
  import opened CommentForest

  /** A top-level comment as a page shows it, with its replies nested one level deep. */
  class RootView {
    const id: nat
    var replies: seq<nat>
    var hiddenReplies: nat
    var replyCursor: Option<nat>

    constructor (id: nat)
      ensures this.id == id && replies == [] && hiddenReplies == 0 && replyCursor == None
    {
      this.id := id;
      replies, hiddenReplies, replyCursor := [], 0, None;
    }
  }

  datatype ReplyRow = ReplyRow(id: nat, rootId: nat, replyTotal: nat)

  ghost function WholeThread(t: Table, root: nat): nat
    requires IsForest(t)
  {
    RowsProduced(t, Answers(t, {root}, None), None)
  }

  /**
   * What the query answers with: for each root the newest of its thread, each row
   * with the thread's total, all of them oldest first.
   */
  ghost predicate IsReplyQuery(t: Table, rootIds: set<nat>, rows: seq<ReplyRow>)
    requires IsForest(t)
  {
    && (forall i, j :: 0 <= i < j < |rows| ==> rows[i].id <= rows[j].id && rows[i] != rows[j])
    && forall row :: row in rows <==>
         && row.rootId in rootIds && row.id in Newest(Thread(t, row.rootId, None), REPLIES_PER_ROOT)
         && row.replyTotal == WholeThread(t, row.rootId)
  }

  /** The replies found under a root, in the order they came. */
  function Filed(rows: seq<ReplyRow>, root: nat): (ids: seq<nat>)
    ensures forall id :: id in ids <==> exists row :: row in rows && row.rootId == root && row.id == id
  {
    if rows == [] then []
    else
      var row := rows[|rows| - 1];
      var ids := Filed(rows[..|rows| - 1], root);
      assert rows == rows[..|rows| - 1] + [row];
      if row.rootId == root then ids + [row.id] else ids
  }

  lemma FiledOneMore(rows: seq<ReplyRow>, i: nat, root: nat)
    requires i < |rows|
    ensures Filed(rows[..i + 1], root) == Filed(rows[..i], root) + if rows[i].rootId == root then [rows[i].id] else []
  {
    assert rows[..i + 1][..i] == rows[..i];
  }

  /** One thread's rows come oldest first, and none twice. */
  ghost predicate InOrder(rows: seq<ReplyRow>, root: nat) {
    forall i, j :: 0 <= i < j < |rows| && rows[i].rootId == root == rows[j].rootId ==> rows[i].id < rows[j].id
  }

  lemma {:induction false} FiledIsAscending(rows: seq<ReplyRow>, root: nat)
    requires InOrder(rows, root)
    ensures Ascending(Filed(rows, root))
  {
    if rows != [] {
      var front, last := rows[..|rows| - 1], rows[|rows| - 1];
      FiledIsAscending(front, root);
      var ids := Filed(front, root);
      if last.rootId == root {
        forall i | 0 <= i < |ids| ensures ids[i] < last.id {
          assert ids[i] in ids;
          var row :| row in front && row.rootId == root && row.id == ids[i];
        }
      }
    }
  }

  /** What is filed under a root is the page its own thread would be asked for. */
  lemma FiledIsThePage(t: Table, rootIds: set<nat>, rows: seq<ReplyRow>, root: nat)
    requires IsForest(t) && IsReplyQuery(t, rootIds, rows)
    requires root in rootIds && root in t && t[root].parent.None?
    ensures
      var page := FindReplies(t, t[root].gameId, root, None, None);
      && Filed(rows, root) == page.replies
      && (page.replies == [] ==> page.remaining == 0)
      && (page.replies != [] ==> page.remaining == Positive(WholeThread(t, root) - REPLIES_PER_ROOT))
  {
    hide IsForest, Thread, RowsProduced;
    var game := t[root].gameId;
    var thread := Thread(t, root, None);
    ThreadIsInTheTable(t, root);
    assert BelowCursor(ThreadAfter(t, game, root, None), None) == thread;
    var page := Newest(thread, REPLIES_PER_ROOT);
    NewestIsAWindow(thread, REPLIES_PER_ROOT);
    forall i, j | 0 <= i < j < |rows| && rows[i].rootId == root == rows[j].rootId ensures rows[i].id < rows[j].id {
      assert rows[i] in rows && rows[j] in rows;
    }
    FiledIsAscending(rows, root);
    forall id | id in page ensures id in Filed(rows, root) {
      assert ReplyRow(id, root, WholeThread(t, root)) in rows;
    }
    assert Members(Filed(rows, root)) == Members(page);
    AscendingIsUnique(Filed(rows, root), page);
    TotalIsTheThread(t, root);
  }

  lemma TotalIsTheThread(t: Table, root: nat)
    requires IsForest(t) && root in t && t[root].parent.None?
    ensures WholeThread(t, root) == |Thread(t, root, None)|
  {
    EveryReplyIsCountedOnce(t, Answers(t, {root}, None), None, 1);
  }

  predicate Distinct(roots: seq<RootView>) {
    forall i, j :: 0 <= i < j < |roots| ==> roots[i].id != roots[j].id
  }

  function HiddenBehind(replies: seq<nat>, total: nat): nat {
    if replies == [] then 0 else Positive(total - REPLIES_PER_ROOT)
  }

  method FileRow(roots: seq<RootView>, rootsById: map<nat, RootView>, row: ReplyRow)
    requires Distinct(roots)
    requires forall root :: root in roots ==> root.id in rootsById && rootsById[root.id] == root
    requires forall id :: id in rootsById ==> rootsById[id] in roots && rootsById[id].id == id
    modifies roots
    ensures forall root :: root in roots ==>
      if root.id == row.rootId
      then root.replies == old(root.replies) + [row.id] && root.hiddenReplies == Positive(row.replyTotal - REPLIES_PER_ROOT)
      else root.replies == old(root.replies) && root.hiddenReplies == old(root.hiddenReplies)
  {
    if row.rootId in rootsById {
      var root := rootsById[row.rootId];
      root.replies := root.replies + [row.id];
      root.hiddenReplies := Positive(row.replyTotal - REPLIES_PER_ROOT);
    }
  }

  /** Each row goes to the root it was found under, and takes the thread's total along. */
  method FileRows(roots: seq<RootView>, rows: seq<ReplyRow>, ghost totals: map<nat, nat>)
    requires Distinct(roots)
    requires forall root :: root in roots ==> root.id in totals && root.replies == [] && root.hiddenReplies == 0
    requires forall row :: row in rows && row.rootId in totals ==> row.replyTotal == totals[row.rootId]
    modifies roots
    ensures forall root :: root in roots ==>
      root.replies == Filed(rows, root.id) && root.hiddenReplies == HiddenBehind(root.replies, totals[root.id])
  {
    var rootsById := map root | root in roots :: root.id := root;
    assert forall root :: root in roots ==> Filed(rows[..0], root.id) == [];
    hide Filed;
    for i := 0 to |rows|
      invariant forall root :: root in roots ==>
        root.replies == Filed(rows[..i], root.id) && root.hiddenReplies == HiddenBehind(root.replies, totals[root.id])
    {
      var row := rows[i];
      forall root | root in roots
        ensures Filed(rows[..i + 1], root.id) == Filed(rows[..i], root.id) + if row.rootId == root.id then [row.id] else []
      {
        FiledOneMore(rows, i, root.id);
      }
      FileRow(roots, rootsById, row);
    }
    assert rows[..|rows|] == rows;
  }

  method SetCursors(roots: seq<RootView>)
    modifies roots
    ensures forall root :: root in roots ==>
      && root.replies == old(root.replies) && root.hiddenReplies == old(root.hiddenReplies)
      && root.replyCursor == First(root.replies)
  {
    for i := 0 to |roots|
      invariant forall root :: root in roots ==>
        root.replies == old(root.replies) && root.hiddenReplies == old(root.hiddenReplies)
      invariant forall k :: 0 <= k < i ==> roots[k].replyCursor == First(roots[k].replies)
    {
      roots[i].replyCursor := First(roots[i].replies);
    }
  }

  /** The loops that file the rows and set the cursors leave every root with the page of its own thread. */
  method FileReplies(ghost t: Table, roots: seq<RootView>, rows: seq<ReplyRow>)
    requires IsForest(t) && Distinct(roots)
    requires forall root :: root in roots ==> root.id in t && t[root.id].parent.None?
    requires forall root :: root in roots ==> root.replies == [] && root.hiddenReplies == 0
    requires IsReplyQuery(t, set root | root in roots :: root.id, rows)
    modifies roots
    ensures forall root :: root in roots ==>
      var page := FindReplies(t, t[root.id].gameId, root.id, None, None);
      root.replies == page.replies && root.hiddenReplies == page.remaining && root.replyCursor == page.oldestId
  {
    ghost var ids := set root | root in roots :: root.id;
    ghost var totals := map id | id in ids :: WholeThread(t, id);
    assert forall row :: row in rows ==> row.rootId in ids && row.replyTotal == totals[row.rootId];
    hide IsForest, FindReplies, WholeThread, IsReplyQuery, Filed;
    FileRows(roots, rows, totals);
    SetCursors(roots);
    forall root | root in roots
      ensures var page := FindReplies(t, t[root.id].gameId, root.id, None, None);
        root.replies == page.replies && root.hiddenReplies == page.remaining && root.replyCursor == page.oldestId
    {
      FiledIsThePage(t, ids, rows, root.id);
      RemainingIsWhatLiesBelow(t, t[root.id].gameId, root.id, None, None);
    }
  }

  // ---- The batch of roots ----

  ghost function CountOlderThan(t: Table, game: nat, id: nat): nat {
    |BelowCursor(Roots(t, game), Some(id))|
  }

  /** The "remaining" a batch of roots is sent with is what is still unread: nothing is lost between the batch and the count. */
  lemma CountOlderIsTheRest(t: Table, game: nat, before: Option<nat>)
    ensures
      var batch := PageAt(Roots(t, game), COMMENTS_PAGE_SIZE, before);
      && |batch| == Min(COMMENTS_PAGE_SIZE, |BelowCursor(Roots(t, game), before)|)
      && (batch != [] ==> |batch| + CountOlderThan(t, game, batch[0]) == |BelowCursor(Roots(t, game), before)|)
  {
    var roots := Roots(t, game);
    NewestIsAWindow(BelowCursor(roots, before), COMMENTS_PAGE_SIZE);
    var batch := PageAt(roots, COMMENTS_PAGE_SIZE, before);
    if batch != [] {
      LeftOverIsBelow(roots, COMMENTS_PAGE_SIZE, before);
    }
  }
}
