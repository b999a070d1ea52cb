/**
 * One process's half of the cache-epoch protocol: what it does with a number a
 * bump or a read brings back, and how it retries the bumps that failed.
 *
 * The functions are the specification the distributed protocol is built from;
 * the classes are the process's own mutable state, proved against them.
 */
module CacheEpoch {
  import opened Basics
  import opened CacheKeys

  /**
   * A held entry, described by its provenance: for each key whose data went into
   * it, how many committed writes the database had seen when that data was asked for.
   */
  type Entry = map<Key, nat>

  datatype Local = Local(lastSeen: map<Scope, nat>, cache: map<Key, Entry>)

  function Dropping(cache: map<Key, Entry>, scope: Scope): map<Key, Entry> {
    map k | k in cache && !InEffect(scope, k) :: cache[k]
  }

  /** The counters a process has seen only ever go up. */
  function Adopt(lastSeen: map<Scope, nat>, scope: Scope, epoch: nat): map<Scope, nat> {
    lastSeen[scope := if scope in lastSeen then Max(lastSeen[scope], epoch) else epoch]
  }

  /** A bump's own increment explains a gap of one, and nothing wider. */
  predicate MovedElsewhere(lastSeen: map<Scope, nat>, scope: Scope, epoch: nat) {
    scope !in lastSeen || epoch > lastSeen[scope] + 1
  }

  /** What the answer to a bump leaves behind. */
  function AfterBump(l: Local, scope: Scope, epoch: nat): Local {
    Local(Adopt(l.lastSeen, scope, epoch),
          if MovedElsewhere(l.lastSeen, scope, epoch) then Dropping(l.cache, scope) else l.cache)
  }

  /** A number read for the first time, or above the one held, has to be acted on. */
  predicate Moved(lastSeen: map<Scope, nat>, scope: Scope, epoch: nat) {
    scope !in lastSeen || epoch > lastSeen[scope]
  }

  predicate DroppedByRead(l: Local, rows: map<Scope, nat>, key: Key) {
    exists s :: s in rows && Moved(l.lastSeen, s, rows[s]) && InEffect(s, key)
  }

  /** What the answer to a read of every counter leaves behind. */
  function AfterRead(l: Local, rows: map<Scope, nat>): Local {
    Local(map s | s in l.lastSeen.Keys + rows.Keys ::
            if s !in rows then l.lastSeen[s] else Adopt(l.lastSeen, s, rows[s])[s],
          map k | k in l.cache && !DroppedByRead(l, rows, k) :: l.cache[k])
  }

  lemma OneNumberRead(l: Local, scope: Scope, e: nat)
    ensures AfterRead(l, map[scope := e]) ==
      Local(Adopt(l.lastSeen, scope, e), if Moved(l.lastSeen, scope, e) then Dropping(l.cache, scope) else l.cache)
  {
  }

  /**
   * A bump's answer n and a read that found e may arrive either way round. The numbers
   * held end up the same, and a read that overtakes the bump can only cost more entries.
   * It does cost more exactly when it found the bump's own number, one above the number
   * held: the bump would have taken that step for its own and dropped nothing.
   */
  lemma AnswersInEitherOrder(l: Local, scope: Scope, n: nat, e: nat)
    ensures
      var bumpFirst := AfterRead(AfterBump(l, scope, n), map[scope := e]);
      var readFirst := AfterBump(AfterRead(l, map[scope := e]), scope, n);
      && bumpFirst.lastSeen == readFirst.lastSeen
      && readFirst.cache.Keys <= bumpFirst.cache.Keys
      && (bumpFirst.cache == readFirst.cache <==>
            !(scope in l.lastSeen && e == n == l.lastSeen[scope] + 1 && exists k :: k in l.cache && InEffect(scope, k)))
  {
    OneNumberRead(l, scope, e);
    OneNumberRead(AfterBump(l, scope, n), scope, e);
    hide AfterRead;
    DroppingChangesSomethingIff(l.cache, scope);
  }

  lemma DroppingChangesSomethingIff(cache: map<Key, Entry>, scope: Scope)
    ensures Dropping(cache, scope) != cache <==> exists k :: k in cache && InEffect(scope, k)
  {
    if k :| k in cache && InEffect(scope, k) { assert k !in Dropping(cache, scope); }
  }

  /** A process that has seen 1 and whose bump makes 2: its list of comments survives in one order only. */
  lemma OrderCanMatter()
    ensures
      var l := Local(map[Comments := 1], map[LatestComments := map[LatestComments := 1]]);
      && AfterRead(AfterBump(l, Comments, 2), map[Comments := 2]).cache == l.cache
      && AfterBump(AfterRead(l, map[Comments := 2]), Comments, 2).cache == map[]
  {
    var l := Local(map[Comments := 1], map[LatestComments := map[LatestComments := 1]]);
    OneNumberRead(l, Comments, 2);
    OneNumberRead(AfterBump(l, Comments, 2), Comments, 2);
    hide AfterRead;
  }

  /** A row of the counters' table; the scope is None when this build does not know it. */
  datatype Row = Row(scope: Option<Scope>, epoch: nat)

  function RowsOf(rows: seq<Row>): map<Scope, nat> {
    if rows == [] then map[]
    else
      var rest := RowsOf(rows[..|rows| - 1]);
      var last := rows[|rows| - 1];
      match last.scope
      case None => rest
      case Some(s) => rest[s := if s in rest then Max(rest[s], last.epoch) else last.epoch]
  }

  /** Reading one row more adopts its number, and acts on its scope if the number is news. */
  lemma OneRowMore(l: Local, rows: seq<Row>, row: Row)
    ensures
      var before, after := AfterRead(l, RowsOf(rows)).lastSeen, AfterRead(l, RowsOf(rows + [row])).lastSeen;
      match row.scope
      case None => after == before && forall s :: ActedOn(l, rows + [row], s) <==> ActedOn(l, rows, s)
      case Some(scope) =>
        && after == Adopt(before, scope, row.epoch)
        && forall s :: ActedOn(l, rows + [row], s) <==>
                       (ActedOn(l, rows, s) || (s == scope && Moved(before, s, row.epoch)))
  {
    hide DroppedByRead;
    RowsOfOneMore(rows, row);
    hide RowsOf;
  }

  lemma RowsOfOneMore(rows: seq<Row>, row: Row)
    ensures RowsOf(rows + [row]) == match row.scope
      case None => RowsOf(rows)
      case Some(scope) =>
        RowsOf(rows)[scope := if scope in RowsOf(rows) then Max(RowsOf(rows)[scope], row.epoch) else row.epoch]
  {
    assert (rows + [row])[..|rows|] == rows;
  }

  /** Dropping for every scope acted on leaves what a read leaves. */
  lemma EffectsOfARead(l: Local, rows: seq<Row>, moved: seq<Scope>, firstSeen: seq<Scope>, lastSeen: map<Scope, nat>)
    requires forall s :: (s in moved || s in firstSeen) <==> ActedOn(l, rows, s)
    requires lastSeen == AfterRead(l, RowsOf(rows)).lastSeen
    ensures Local(lastSeen, DroppingAll(DroppingAll(l.cache, moved), firstSeen)) == AfterRead(l, RowsOf(rows))
    ensures DroppingAll(l.cache, []) == l.cache
  {
  }

  lemma RowsOfNone(l: Local)
    ensures AfterRead(l, RowsOf([])) == l && forall s :: !ActedOn(l, [], s)
  {
  }

  function DroppingAll(cache: map<Key, Entry>, scopes: seq<Scope>): map<Key, Entry> {
    map k | k in cache && !(exists s :: s in scopes && InEffect(s, k)) :: cache[k]
  }

  predicate ActedOn(l: Local, rows: seq<Row>, scope: Scope) {
    scope in RowsOf(rows) && Moved(l.lastSeen, scope, RowsOf(rows)[scope])
  }

  class EpochClient {
    var lastSeen: map<Scope, nat>
    var cache: map<Key, Entry>

    function View(): Local
      reads this
    {
      Local(lastSeen, cache)
    }

    constructor ()
      ensures View() == Local(map[], map[])
    {
      lastSeen, cache := map[], map[];
    }

    method AdoptEpoch(scope: Scope, epoch: nat)
      modifies this`lastSeen
      ensures lastSeen == Adopt(old(lastSeen), scope, epoch)
      ensures forall s :: s in old(lastSeen) ==> s in lastSeen && lastSeen[s] >= old(lastSeen)[s]
      ensures scope in lastSeen && lastSeen[scope] >= epoch
      ensures !(scope in old(lastSeen) && old(lastSeen)[scope] >= epoch) ==> lastSeen[scope] == epoch
      ensures forall s :: s != scope ==> (s in lastSeen <==> s in old(lastSeen))
      ensures forall s :: s in old(lastSeen) && (s != scope || old(lastSeen)[s] >= epoch) ==> lastSeen[s] == old(lastSeen)[s]
    {
      var seen := if scope in lastSeen then Some(lastSeen[scope]) else None;
      lastSeen := lastSeen[scope := match seen case None => epoch case Some(e) => Max(e, epoch)];
    }

    method ApplyEffect(scope: Scope)
      modifies this`cache
      ensures cache == Dropping(old(cache), scope)
    {
      cache := map k | k in cache && !InEffect(scope, k) :: cache[k];
    }

    /** The part of tryBump that runs when the upsert answered. */
    method BumpAnswered(scope: Scope, epoch: nat)
      modifies this
      ensures View() == AfterBump(old(View()), scope, epoch)
    {
      if scope in lastSeen && epoch > lastSeen[scope] + 1 {
        ApplyEffect(scope);
      } else if scope !in lastSeen {
        ApplyEffect(scope);
      }
      AdoptEpoch(scope, epoch);
    }

    /** The scopes a check acts on, in the order the code acts on them. */
    method ApplyEffects(scopes: seq<Scope>)
      modifies this`cache
      ensures cache == DroppingAll(old(cache), scopes)
    {
      if All in scopes {
        ApplyEffect(All);
      } else {
        ghost var was := cache;
        for i := 0 to |scopes|
          invariant cache == DroppingAll(was, scopes[..i])
        {
          assert scopes[..i + 1] == scopes[..i] + [scopes[i]];
          ApplyEffect(scopes[i]);
        }
        assert scopes[..|scopes|] == scopes;
      }
    }

    /** The part of syncCacheEpoch that runs when the read answered. */
    method ReadAnswered(rows: seq<Row>)
      modifies this
      ensures View() == AfterRead(old(View()), RowsOf(rows))
    {
      hide AfterRead, RowsOf, ActedOn, DroppingAll;
      ghost var was := View();
      RowsOfNone(was);
      var moved: seq<Scope> := [];
      var firstSeen: seq<Scope> := [];
      for i := 0 to |rows|
        invariant cache == was.cache
        invariant lastSeen == AfterRead(was, RowsOf(rows[..i])).lastSeen
        invariant forall s :: (s in moved || s in firstSeen) <==> ActedOn(was, rows[..i], s)
      {
        assert rows[..i + 1] == rows[..i] + [rows[i]];
        OneRowMore(was, rows[..i], rows[i]);
        if rows[i].scope.Some? {
          var scope := rows[i].scope.value;
          if scope in lastSeen && rows[i].epoch > lastSeen[scope] {
            moved := moved + [scope];
          }
          if scope !in lastSeen {
            firstSeen := firstSeen + [scope];
          }
          AdoptEpoch(scope, rows[i].epoch);
        }
      }
      assert rows[..|rows|] == rows;
      EffectsOfARead(was, rows, moved, firstSeen, lastSeen);
      if |moved| > 0 {
        ApplyEffects(moved);
      }
      ApplyEffects(firstSeen);
    }
  }

  /** A scope's one retry: waiting on its timer, or out as the numbered call. */
  datatype PendingBump = PendingBump(attempt: nat, inFlight: Option<nat>, again: bool)

  const BUMP_RETRY_DELAYS_MS: seq<nat> := [1_000, 2_000, 4_000, 8_000, 16_000, 32_000]

  datatype Outcome = Landed | Failed | Broken

  /** A retry keeps a place in the schedule, and notes a failure only while it is out. */
  predicate WellFormed(p: Option<PendingBump>) {
    p.Some? ==> p.value.attempt < |BUMP_RETRY_DELAYS_MS| && (p.value.inFlight.None? ==> !p.value.again)
  }

  /** A first attempt failed: a new retry, a note on the one that is out, or nothing. */
  function AfterFailedBump(p: Option<PendingBump>): Option<PendingBump> {
    match p
    case None => Some(PendingBump(0, None, false))
    case Some(q) => if q.inFlight.None? then p else Some(q.(again := true))
  }

  /** The timer fired: the bump goes out again, unless the pool is ending. */
  function AfterTimer(p: PendingBump, ending: bool, call: nat): Option<PendingBump> {
    if ending then None else Some(p.(inFlight := Some(call)))
  }

  /** The retry's own bump came back. */
  function AfterRetry(p: PendingBump, outcome: Outcome): Option<PendingBump> {
    match outcome
    case Broken => None
    case Landed => if p.again then Some(PendingBump(0, None, false)) else None
    case Failed =>
      if p.attempt + 1 >= |BUMP_RETRY_DELAYS_MS| then None
      else Some(PendingBump(p.attempt + 1, None, false))
  }

  lemma RetriesStayOnSchedule(p: Option<PendingBump>, ending: bool, call: nat, outcome: Outcome)
    requires WellFormed(p)
    ensures WellFormed(AfterFailedBump(p))
    ensures p.Some? && p.value.inFlight.None? ==> WellFormed(AfterTimer(p.value, ending, call))
    ensures p.Some? && p.value.inFlight.Some? ==> WellFormed(AfterRetry(p.value, outcome))
  {
  }

  class RetryQueue {
    var pending: map<Scope, PendingBump>

    function Of(scope: Scope): Option<PendingBump>
      reads this
    {
      if scope in pending then Some(pending[scope]) else None
    }

    ghost predicate Valid()
      reads this
    {
      forall s :: s in pending ==> WellFormed(Some(pending[s]))
    }

    constructor ()
      ensures Valid() && pending == map[]
    {
      pending := map[];
    }

    /** Files the retry and answers with how long its timer is to wait. */
    method Schedule(scope: Scope, attempt: nat) returns (delay: nat)
      requires Valid() && attempt < |BUMP_RETRY_DELAYS_MS|
      modifies this
      ensures Valid() && delay == BUMP_RETRY_DELAYS_MS[attempt]
      ensures pending == old(pending)[scope := PendingBump(attempt, None, false)]
    {
      delay := BUMP_RETRY_DELAYS_MS[attempt];
      pending := pending[scope := PendingBump(attempt, None, false)];
    }

    /** bumpCacheEpoch, once its first attempt is known to have failed. */
    method BumpFailed(scope: Scope) returns (delay: Option<nat>)
      requires Valid()
      modifies this
      ensures Valid()
      ensures Of(scope) == AfterFailedBump(old(Of(scope)))
      ensures forall s :: s != scope ==> Of(s) == old(Of(s))
      ensures delay == if old(Of(scope)).None? then Some(BUMP_RETRY_DELAYS_MS[0]) else None
      ensures scope in pending
      ensures scope !in old(pending) ==> pending[scope] == PendingBump(0, None, false)
      ensures scope in old(pending) ==>
        pending[scope] == old(pending)[scope].(again := old(pending)[scope].again || old(pending)[scope].inFlight.Some?)
    {
      delay := None;
      if scope !in pending {
        var d := Schedule(scope, 0);
        delay := Some(d);
      } else if pending[scope].inFlight.Some? {
        pending := pending[scope := pending[scope].(again := true)];
      }
    }

    /** runRetry up to its query. */
    method TimerFired(scope: Scope, ending: bool, call: nat)
      requires Valid() && scope in pending && pending[scope].inFlight.None?
      modifies this
      ensures Valid()
      ensures Of(scope) == AfterTimer(old(pending[scope]), ending, call)
      ensures scope in pending <==> !ending
      ensures !ending ==> pending[scope] == old(pending)[scope].(inFlight := Some(call))
      ensures forall s :: s != scope ==> Of(s) == old(Of(s))
    {
      if ending {
        pending := pending - {scope};
        return;
      }
      pending := pending[scope := pending[scope].(inFlight := Some(call))];
    }

    /** runRetry from its query's answer on. */
    method RetryAnswered(scope: Scope, outcome: Outcome) returns (delay: Option<nat>)
      requires Valid() && scope in pending && pending[scope].inFlight.Some?
      modifies this
      ensures Valid()
      ensures Of(scope) == AfterRetry(old(pending[scope]), outcome)
      ensures outcome == Failed && old(pending)[scope].attempt < 5 ==>
        scope in pending && pending[scope] == PendingBump(old(pending)[scope].attempt + 1, None, false)
      ensures outcome == Failed ==> (scope !in pending <==> old(pending)[scope].attempt == 5)
      ensures outcome == Landed && old(pending)[scope].again ==> scope in pending && pending[scope] == PendingBump(0, None, false)
      ensures outcome == Broken || (outcome == Landed && !old(pending)[scope].again) ==> scope !in pending
      ensures forall s :: s != scope ==> Of(s) == old(Of(s))
      ensures delay == match Of(scope) case None => None case Some(p) => Some(BUMP_RETRY_DELAYS_MS[p.attempt])
    {
      delay := None;
      var p := pending[scope];
      if outcome == Broken {
        pending := pending - {scope};
        return;
      }
      if outcome == Landed && !p.again {
        pending := pending - {scope};
        return;
      }
      if outcome == Landed {
        var d := Schedule(scope, 0);
        delay := Some(d);
        return;
      }
      p := p.(again := false, attempt := p.attempt + 1);
      if p.attempt >= |BUMP_RETRY_DELAYS_MS| {
        pending := pending - {scope};
        return;
      }
      var d := Schedule(scope, p.attempt);
      delay := Some(d);
    }
  }

  /**
   * One scope's bumps over time: its first attempts still out, and its retry.
   * The answers are the environment's choice.
   */
  datatype Retries = Retries(firstOut: nat, pending: Option<PendingBump>)

  datatype RetryEvent =
    | Issued
    | FirstAnswered(outcome: Outcome)
    | TimerFires(ending: bool, call: nat)
    | RetryAnswers(outcome: Outcome)

  predicate CanHappen(r: Retries, e: RetryEvent) {
    match e
    case Issued => true
    case FirstAnswered(_) => r.firstOut > 0
    case TimerFires(_, _) => r.pending.Some? && r.pending.value.inFlight.None?
    case RetryAnswers(_) => r.pending.Some? && r.pending.value.inFlight.Some?
  }

  function Happen(r: Retries, e: RetryEvent): Retries
    requires CanHappen(r, e)
  {
    match e
    case Issued => r.(firstOut := r.firstOut + 1)
    case FirstAnswered(outcome) =>
      Retries(r.firstOut - 1, if outcome == Failed then AfterFailedBump(r.pending) else r.pending)
    case TimerFires(ending, call) => r.(pending := AfterTimer(r.pending.value, ending, call))
    case RetryAnswers(outcome) => r.(pending := AfterRetry(r.pending.value, outcome))
  }

  /** How much retrying a state can still lead to if no further bump is issued. */
  function Work(r: Retries): int {
    15 * r.firstOut +
    match r.pending
    case None => 0
    case Some(p) =>
      (if p.again then 14 else 0) + 2 * (|BUMP_RETRY_DELAYS_MS| - p.attempt) + (if p.inFlight.None? then 1 else 0)
  }

  ghost predicate Possible(r: Retries, run: seq<RetryEvent>)
    decreases |run|
  {
    run == [] || (CanHappen(r, run[0]) && Possible(Happen(r, run[0]), run[1..]))
  }

  function BumpsIssued(run: seq<RetryEvent>): nat {
    if run == [] then 0 else (if run[0].Issued? then 1 else 0) + BumpsIssued(run[1..])
  }

  /** Every answer and every timer uses up some of the work; only a new bump adds any. */
  lemma EveryEventUsesUpWork(r: Retries, e: RetryEvent)
    requires WellFormed(r.pending) && CanHappen(r, e)
    ensures WellFormed(Happen(r, e).pending)
    ensures 0 <= Work(Happen(r, e)) < Work(r) + (if e.Issued? then 16 else 0)
  {
  }

  /** With finitely many bumps the retries stop: a run is no longer than its bumps allow. */
  lemma {:induction false} RetriesStop(r: Retries, run: seq<RetryEvent>)
    requires WellFormed(r.pending) && Possible(r, run)
    ensures |run| <= Work(r) + 16 * BumpsIssued(run)
    decreases |run|
  {
    if run != [] {
      EveryEventUsesUpWork(r, run[0]);
      RetriesStop(Happen(r, run[0]), run[1..]);
    }
  }
}
