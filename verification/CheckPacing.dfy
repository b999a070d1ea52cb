/**
 * When a process reads the cache epochs, and which requests wait for it.
 *
 * Time is explicit and never goes back. Timers are punctual, and whatever a timer
 * or an answer resolves continues before the clock moves on.
 */
module CheckPacing {
  import opened Basics

  const EPOCH_CHECK_INTERVAL_MS: int := 10_000
  const FAILURE_BACKOFF_MS: int := 1_000
  const SYNC_TIMEOUT_MS: int := 2_000

  datatype Check = Check(id: nat, startedAt: int)

  /** The module's state; lastChecked is None for minus infinity. */
  datatype Checks = Checks(lastChecked: Option<int>, inflight: Option<Check>, answering: bool)

  /** The check a caller gets, if there is one to wait for. */
  function Syncing(c: Checks, now: int, id: nat): Checks {
    if c.inflight.Some? then c
    else if c.lastChecked.Some? && now - c.lastChecked.value < EPOCH_CHECK_INTERVAL_MS then c
    else c.(inflight := Some(Check(id, now)))
  }

  function Succeeding(c: Checks): Checks
    requires c.inflight.Some?
  {
    Checks(Some(c.inflight.value.startedAt), None, true)
  }

  function Failing(c: Checks, now: int): Checks {
    Checks(Some(now - EPOCH_CHECK_INTERVAL_MS + FAILURE_BACKOFF_MS), None, false)
  }

  /** A request's budget ran out; that only says something while its check is still out. */
  function GivingUpOn(c: Checks, check: nat): Checks {
    if c.inflight.Some? && c.inflight.value.id == check then c.(answering := false) else c
  }

  predicate IsOut(inflight: Option<Check>, check: nat) { inflight.Some? && inflight.value.id == check }

  class EpochChecks {
    var lastChecked: Option<int>
    var inflight: Option<Check>
    var answering: bool

    function View(): Checks
      reads this
    {
      Checks(lastChecked, inflight, answering)
    }

    constructor ()
      ensures View() == Checks(None, None, true)
    {
      lastChecked, inflight, answering := None, None, true;
    }

    /** syncCacheEpoch up to its query; the answer is the check the caller shares. */
    method Sync(now: int, id: nat) returns (check: Option<Check>)
      modifies this`inflight
      ensures View() == Syncing(old(View()), now, id) && check == inflight
      ensures old(inflight).Some? ==> check == old(inflight)
      ensures old(inflight).None? ==>
        (check.None? <==> old(lastChecked).Some? && now < old(lastChecked).value + EPOCH_CHECK_INTERVAL_MS)
      ensures check.Some? && old(inflight).None? ==> check == Some(Check(id, now))
    {
      if inflight.Some? {
        return inflight;
      }
      if lastChecked.Some? && now - lastChecked.value < EPOCH_CHECK_INTERVAL_MS {
        return None;
      }
      inflight := Some(Check(id, now));
      return inflight;
    }

    method ReadSucceeded()
      requires inflight.Some?
      modifies this
      ensures View() == Succeeding(old(View()))
    {
      lastChecked := Some(inflight.value.startedAt);
      answering := true;
      inflight := None;
    }

    method ReadFailed(now: int)
      requires inflight.Some?
      modifies this
      ensures View() == Failing(old(View()), now)
    {
      lastChecked := Some(now - EPOCH_CHECK_INTERVAL_MS + FAILURE_BACKOFF_MS);
      answering := false;
      inflight := None;
    }

    /** The end of cacheEpochSync, for a request that waited on a check. */
    method WaitOver(check: nat, timedOut: bool)
      modifies this`answering
      ensures View() == if timedOut then GivingUpOn(old(View()), check) else old(View())
      ensures inflight == old(inflight) && lastChecked == old(lastChecked) && (answering ==> old(answering))
      ensures !timedOut || !IsOut(old(inflight), check) ==> answering == old(answering)
      ensures timedOut && IsOut(old(inflight), check) ==> !answering
    {
      if timedOut && inflight.Some? && inflight.value.id == check {
        answering := false;
      }
    }
  }

  datatype Wait = Wait(check: nat, since: int, timedOut: bool)

  /** How the last check that finished went; a record the code does not keep. */
  datatype LastRead = NoneYet | Succeeded(startedAt: int) | FailedAt(arrivedAt: int)

  datatype State = State(
    now: int,
    checks: Checks,
    waiting: map<nat, Wait>,   // requests held up, by their number
    nextCheck: nat,
    last: LastRead)

  datatype Step =
    | Request(id: nat)
    | ReadSucceeds
    | ReadFails
    | TimerFires(id: nat)
    | Continue(id: nat)
    | Tick(to: int)

  function Initial(now: int): State { State(now, Checks(None, None, true), map[], 0, NoneYet) }

  predicate StillOut(s: State, w: Wait) {
    s.checks.inflight.Some? && s.checks.inflight.value.id == w.check
  }

  predicate CanHappen(s: State, step: Step) {
    match step
    case Request(id) => id !in s.waiting
    case ReadSucceeds => s.checks.inflight.Some?
    case ReadFails => s.checks.inflight.Some?
    case TimerFires(id) =>
      id in s.waiting && !s.waiting[id].timedOut && StillOut(s, s.waiting[id])
      && s.now >= s.waiting[id].since + SYNC_TIMEOUT_MS
    case Continue(id) => id in s.waiting && (s.waiting[id].timedOut || !StillOut(s, s.waiting[id]))
    case Tick(to) =>
      s.now <= to
      && forall id :: id in s.waiting ==>
           StillOut(s, s.waiting[id]) && !s.waiting[id].timedOut && to <= s.waiting[id].since + SYNC_TIMEOUT_MS
  }

  function Happen(s: State, step: Step): State
    requires CanHappen(s, step)
  {
    match step
    case Request(id) =>
      var checks := Syncing(s.checks, s.now, s.nextCheck);
      s.(checks := checks, nextCheck := s.nextCheck + 1,
         waiting := if s.checks.answering && checks.inflight.Some?
                    then s.waiting[id := Wait(checks.inflight.value.id, s.now, false)] else s.waiting)
    case ReadSucceeds =>
      s.(checks := Succeeding(s.checks), last := Succeeded(s.checks.inflight.value.startedAt))
    case ReadFails => s.(checks := Failing(s.checks, s.now), last := FailedAt(s.now))
    case TimerFires(id) => s.(waiting := s.waiting[id := s.waiting[id].(timedOut := true)])
    case Continue(id) =>
      s.(checks := if s.waiting[id].timedOut then GivingUpOn(s.checks, s.waiting[id].check) else s.checks,
         waiting := s.waiting - {id})
    case Tick(to) => s.(now := to)
  }

  function Next(s: State, step: Step): State {
    if CanHappen(s, step) then Happen(s, step) else s
  }

  function Exec(s: State, run: seq<Step>): State
    decreases |run|
  {
    if run == [] then s else Exec(Next(s, run[0]), run[1..])
  }

  ghost predicate Inv(s: State) {
    && s.checks.lastChecked == (match s.last
        case NoneYet => None
        case Succeeded(startedAt) => Some(startedAt)
        case FailedAt(arrivedAt) => Some(arrivedAt - EPOCH_CHECK_INTERVAL_MS + FAILURE_BACKOFF_MS))
    && (s.checks.inflight.Some? ==> s.checks.inflight.value.startedAt <= s.now && s.checks.inflight.value.id < s.nextCheck)
    && (forall id :: id in s.waiting ==> s.now <= s.waiting[id].since + SYNC_TIMEOUT_MS && s.waiting[id].check < s.nextCheck)
  }

  lemma {:induction false} InvAlways(s: State, run: seq<Step>)
    requires Inv(s)
    ensures Inv(Exec(s, run))
    decreases |run|
  {
    if run != [] {
      InvAlways(Next(s, run[0]), run[1..]);
    }
  }

  predicate StartsRead(s: State, step: Step) {
    s.checks.inflight.None? && Next(s, step).checks.inflight.Some?
  }

  /**
   * In every run, a read starts no sooner than an interval after the start of the one
   * that succeeded before it, or a backoff after the failure before it arrived; and
   * where neither holds it back, a request starts one.
   */
  lemma ReadsAreSpaced(now: int, run: seq<Step>, step: Step)
    ensures
      var s := Exec(Initial(now), run);
      var due := match s.last
        case NoneYet => true
        case Succeeded(startedAt) => s.now >= startedAt + EPOCH_CHECK_INTERVAL_MS
        case FailedAt(arrivedAt) => s.now >= arrivedAt + FAILURE_BACKOFF_MS;
      StartsRead(s, step) <==> s.checks.inflight.None? && step.Request? && step.id !in s.waiting && due
  {
    InvAlways(Initial(now), run);
  }

  /** Timers, the continuations behind them and the clock: nothing the database has a part in. */
  predicate OnItsOwn(step: Step) { step.TimerFires? || step.Continue? || step.Tick? }

  lemma {:induction false} ExecInTwo(s: State, run: seq<Step>, more: seq<Step>)
    ensures Exec(s, run + more) == Exec(Exec(s, run), more)
    decreases |run|
  {
    if run == [] {
      assert run + more == more;
    } else {
      assert (run + more)[1..] == run[1..] + more;
      ExecInTwo(Next(s, run[0]), run[1..], more);
    }
  }

  /** One request whose time is up goes on: by its timer if nothing else let it go. */
  lemma OneGoesOn(s: State, id: nat) returns (run: seq<Step>)
    requires Inv(s) && id in s.waiting
    requires !StillOut(s, s.waiting[id]) || s.waiting[id].timedOut || s.now >= s.waiting[id].since + SYNC_TIMEOUT_MS
    ensures forall step :: step in run ==> step.TimerFires? || step.Continue?
    ensures Exec(s, run).waiting == s.waiting - {id} && Exec(s, run).now == s.now
    ensures Inv(Exec(s, run))
  {
    if s.waiting[id].timedOut || !StillOut(s, s.waiting[id]) {
      run := [Continue(id)];
      assert run[1..] == [];
      assert Exec(Next(s, run[0]), []) == Next(s, run[0]);
    } else {
      var fired := Next(s, TimerFires(id));
      run := [TimerFires(id), Continue(id)];
      assert run[1..] == [Continue(id)] && run[1..][1..] == [];
      assert Exec(fired, [Continue(id)]) == Exec(Next(fired, Continue(id)), []);
      assert fired.waiting - {id} == s.waiting - {id};
    }
    InvAlways(s, run);
  }

  /** The clock is never held up by a database that does not answer: timers and continuations alone let it go on. */
  lemma {:induction false} TimeCanPass(s: State) returns (run: seq<Step>)
    requires Inv(s)
    ensures forall step :: step in run ==> step.TimerFires? || step.Continue?
    ensures Exec(s, run).now == s.now && Exec(s, run).waiting.Keys <= s.waiting.Keys
    ensures Inv(Exec(s, run)) && CanHappen(Exec(s, run), Tick(s.now + 1))
    decreases s.waiting.Keys
  {
    if CanHappen(s, Tick(s.now + 1)) {
      run := [];
    } else {
      var id :| id in s.waiting
        && (!StillOut(s, s.waiting[id]) || s.waiting[id].timedOut || s.now >= s.waiting[id].since + SYNC_TIMEOUT_MS);
      var first := OneGoesOn(s, id);
      var t := Exec(s, first);
      assert t.waiting.Keys == s.waiting.Keys - {id};
      var rest := TimeCanPass(t);
      ExecInTwo(s, first, rest);
      run := first + rest;
    }
  }

  /** So any amount of time can pass without an answer. */
  lemma {:induction false} AnyTimeCanPass(s: State, d: nat) returns (run: seq<Step>)
    requires Inv(s)
    ensures forall step :: step in run ==> OnItsOwn(step)
    ensures Inv(Exec(s, run)) && Exec(s, run).now == s.now + d && Exec(s, run).waiting.Keys <= s.waiting.Keys
    ensures forall id :: id in Exec(s, run).waiting ==> Exec(s, run).waiting[id].since == s.waiting[id].since
  {
    if d == 0 {
      run := [];
    } else {
      var first := AnyTimeCanPass(s, d - 1);
      var t := Exec(s, first);
      var going := TimeCanPass(t);
      var u := Exec(t, going);
      ExecInTwo(s, first, going);
      ExecInTwo(s, first + going, [Tick(t.now + 1)]);
      run := first + going + [Tick(t.now + 1)];
      assert Exec(u, [Tick(t.now + 1)]) == Exec(Next(u, Tick(t.now + 1)), []);
      InvAlways(s, run);
      assert forall step :: step in first + going ==> OnItsOwn(step);
      SinceIsKept(s, run);
    }
  }

  /** While nobody new asks, a request that waits has waited since it began to. */
  lemma {:induction false} SinceIsKept(s: State, run: seq<Step>)
    requires forall step :: step in run ==> OnItsOwn(step)
    ensures Exec(s, run).waiting.Keys <= s.waiting.Keys
    ensures forall id :: id in Exec(s, run).waiting ==> Exec(s, run).waiting[id].since == s.waiting[id].since
    decreases |run|
  {
    if run != [] {
      assert run[0] in run;
      SinceIsKept(Next(s, run[0]), run[1..]);
    }
  }

  /**
   * In every run, no request has waited longer than its budget; and that is not the
   * clock standing still for it: with no answer from the database at all, the clock
   * passes the budget and the request has gone on.
   */
  lemma NobodyWaitsPastTheBudget(now: int, run: seq<Step>, id: nat)
    requires id in Exec(Initial(now), run).waiting
    ensures
      var s := Exec(Initial(now), run);
      s.now - s.waiting[id].since <= SYNC_TIMEOUT_MS
    ensures
      var s := Exec(Initial(now), run);
      exists more: seq<Step> ::
        && (forall step :: step in more ==> OnItsOwn(step))
        && Exec(s, more).now == s.waiting[id].since + SYNC_TIMEOUT_MS + 1
        && id !in Exec(s, more).waiting
  {
    InvAlways(Initial(now), run);
    var s := Exec(Initial(now), run);
    var more := AnyTimeCanPass(s, s.waiting[id].since + SYNC_TIMEOUT_MS + 1 - s.now);
    assert id !in Exec(s, more).waiting;
  }

  /** Who is made to wait: a request of a process that is answering, when there is a check to wait for; it waits for that one. */
  lemma WhoWaits(s: State, id: nat)
    requires id !in s.waiting
    ensures
      var t := Next(s, Request(id));
      && (id in t.waiting <==> s.checks.answering && t.checks.inflight.Some?)
      && (id in t.waiting ==> StillOut(t, t.waiting[id]) && t.waiting[id].since == s.now && !t.waiting[id].timedOut)
  {
  }

  ghost predicate TimersAreDue(s: State) {
    forall id :: id in s.waiting && s.waiting[id].timedOut ==> s.now >= s.waiting[id].since + SYNC_TIMEOUT_MS
  }

  lemma {:induction false} TimersAreDueAlways(s: State, run: seq<Step>)
    requires TimersAreDue(s)
    ensures TimersAreDue(Exec(s, run))
    decreases |run|
  {
    if run != [] {
      TimersAreDueAlways(Next(s, run[0]), run[1..]);
    }
  }

  /** And nobody goes on early: in every run a request is let go when its check is no longer out, or its whole budget is up. */
  lemma NobodyGoesOnEarly(now: int, run: seq<Step>, step: Step, id: nat)
    requires id in Exec(Initial(now), run).waiting && id !in Next(Exec(Initial(now), run), step).waiting
    ensures
      var s := Exec(Initial(now), run);
      !StillOut(s, s.waiting[id]) || s.now - s.waiting[id].since == SYNC_TIMEOUT_MS
  {
    InvAlways(Initial(now), run);
    TimersAreDueAlways(Initial(now), run);
  }

  /** While nothing succeeds, a process whose checks are not answering makes no new request wait. */
  lemma {:induction false} NobodyNewWaits(s: State, run: seq<Step>)
    requires !s.checks.answering && forall step :: step in run ==> !step.ReadSucceeds?
    ensures !Exec(s, run).checks.answering && Exec(s, run).waiting.Keys <= s.waiting.Keys
    decreases |run|
  {
    if run != [] {
      assert run[0] in run;
      NobodyNewWaits(Next(s, run[0]), run[1..]);
    }
  }

  /**
   * Once a check has failed, or a request gave up on one that was still out, no new
   * request waits until a check succeeds.
   */
  lemma OneFailureSparesTheRest(s: State, step: Step, run: seq<Step>)
    requires CanHappen(s, step)
    requires step.ReadFails? || (step.Continue? && s.waiting[step.id].timedOut && StillOut(s, s.waiting[step.id]))
    requires forall later :: later in run ==> !later.ReadSucceeds?
    ensures Exec(Next(s, step), run).waiting.Keys <= Next(s, step).waiting.Keys <= s.waiting.Keys
  {
    NobodyNewWaits(Next(s, step), run);
  }

  /** A success that arrives between the timer and the request's continuation is not overwritten. */
  lemma LateSuccessStands(s: State, id: nat)
    requires Inv(s) && id in s.waiting && s.waiting[id].timedOut && StillOut(s, s.waiting[id])
    ensures Next(Next(s, ReadSucceeds), Continue(id)).checks.answering
  {
  }
}
