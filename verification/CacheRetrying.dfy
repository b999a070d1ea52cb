/**
 * How long a process goes on retrying its bumps of a scope, in the protocol as a whole:
 * its answers and timers are the events of the retrying machine, and they run out.
 */
module CacheRetrying {
  import opened Basics
  import opened CacheKeys
  import CacheEpoch
  import opened CacheProtocol
  import opened CacheSettling

  /** A process's bumps of a scope that are out for the first time. */
  ghost function FirstOut(s: State, m: nat, scope: Scope): set<nat>
    requires m in s.processes
  {
    set c | c in s.awaiting && c in s.bumps && s.bumps[c].owner == m && s.bumps[c].scope == scope && !IsRetry(s.processes[m], scope, c)
  }

  /** What the protocol's state says about one process's retrying in one scope. */
  ghost function RetriesOf(s: State, m: nat, scope: Scope): CacheEpoch.Retries {
    if m in s.processes then CacheEpoch.Retries(|FirstOut(s, m, scope)|, PendingOf(s.processes[m], scope))
    else CacheEpoch.Retries(0, None)
  }

  /** A timer of it going off, or one of its bumps coming back. */
  ghost predicate IsAttempt(s: State, step: Step, m: nat, scope: Scope) {
    match step
    case TimerFires(n, sc, _) => n == m && sc == scope && TimerRuns(s, m, scope)
    case BumpLands(call) => IsAwaited(s, call) && call in s.executed && s.bumps[call].owner == m && s.bumps[call].scope == scope
    case BumpFails(call, outcome) =>
      IsAwaited(s, call) && outcome != CacheEpoch.Landed && s.bumps[call].owner == m && s.bumps[call].scope == scope
    case _ => false
  }

  /** A clear of its own, which issues a bump. */
  ghost predicate IsClear(s: State, step: Step, m: nat, scope: Scope) {
    step.ClearLocally? && step.m == m && CanClear(s, m, step.write) && ScopeOf(s.writes[step.write].kind) == scope
  }

  /** The event of the retrying machine an attempt is. */
  ghost function EventOf(s: State, step: Step, m: nat, scope: Scope): CacheEpoch.RetryEvent
    requires m in s.processes && IsAttempt(s, step, m, scope)
  {
    match step
    case TimerFires(_, _, ending) => CacheEpoch.RetryEvent.TimerFires(ending, s.nextCall)
    case BumpLands(call) =>
      if IsRetry(s.processes[m], scope, call) then CacheEpoch.RetryAnswers(CacheEpoch.Landed) else CacheEpoch.FirstAnswered(CacheEpoch.Landed)
    case BumpFails(call, outcome) =>
      if IsRetry(s.processes[m], scope, call) then CacheEpoch.RetryAnswers(outcome) else CacheEpoch.FirstAnswered(outcome)
  }

  lemma AfterAnAnswer(p: Process, scope: Scope, call: nat, outcome: CacheEpoch.Outcome)
    ensures
      var q := WithPending(p, scope, PendingAfter(p, scope, call, outcome));
      && PendingOf(q, scope) == PendingAfter(p, scope, call, outcome)
      && (IsRetry(p, scope, call) ==> forall c :: !IsRetry(q, scope, c))
      && (!IsRetry(p, scope, call) ==> forall c :: IsRetry(q, scope, c) <==> IsRetry(p, scope, c))
  {
  }

  /** One bump of the process answered: its retry's, or one of those out for the first time. */
  lemma OneAnswered(s: State, t: State, m: nat, scope: Scope, call: nat, outcome: CacheEpoch.Outcome)
    requires IsAwaited(s, call) && s.bumps[call].owner == m && s.bumps[call].scope == scope
    requires m in t.processes && t.awaiting == s.awaiting - {call} && t.bumps == s.bumps
    requires t.processes[m].pending == WithPending(s.processes[m], scope, PendingAfter(s.processes[m], scope, call, outcome)).pending
    ensures
      var e := if IsRetry(s.processes[m], scope, call) then CacheEpoch.RetryAnswers(outcome) else CacheEpoch.FirstAnswered(outcome);
      CacheEpoch.CanHappen(RetriesOf(s, m, scope), e) && RetriesOf(t, m, scope) == CacheEpoch.Happen(RetriesOf(s, m, scope), e)
  {
    var p := s.processes[m];
    AfterAnAnswer(p, scope, call, outcome);
    hide WithPending, CacheEpoch.AfterRetry, CacheEpoch.AfterFailedBump;
    if IsRetry(p, scope, call) {
      assert FirstOut(t, m, scope) == FirstOut(s, m, scope);
    } else {
      assert call in FirstOut(s, m, scope);
      assert FirstOut(t, m, scope) == FirstOut(s, m, scope) - {call};
    }
  }

  lemma LandingIsAnEvent(s: State, m: nat, scope: Scope, call: nat)
    requires m in s.processes && IsAttempt(s, BumpLands(call), m, scope)
    ensures
      var e := EventOf(s, BumpLands(call), m, scope);
      && CacheEpoch.CanHappen(RetriesOf(s, m, scope), e)
      && RetriesOf(Next(s, BumpLands(call)), m, scope) == CacheEpoch.Happen(RetriesOf(s, m, scope), e)
  {
    hide PendingAfter, WithPending, CacheEpoch.AfterBump, RetriesOf, CacheEpoch.CanHappen, CacheEpoch.Happen;
    OneAnswered(s, Next(s, BumpLands(call)), m, scope, call, CacheEpoch.Landed);
  }

  lemma FailingIsAnEvent(s: State, m: nat, scope: Scope, call: nat, outcome: CacheEpoch.Outcome)
    requires m in s.processes && IsAttempt(s, BumpFails(call, outcome), m, scope)
    ensures
      var e := EventOf(s, BumpFails(call, outcome), m, scope);
      && CacheEpoch.CanHappen(RetriesOf(s, m, scope), e)
      && RetriesOf(Next(s, BumpFails(call, outcome)), m, scope) == CacheEpoch.Happen(RetriesOf(s, m, scope), e)
  {
    hide PendingAfter, WithPending, GivingUp, RetriesOf, CacheEpoch.CanHappen, CacheEpoch.Happen;
    var q := WithPending(s.processes[m], scope, PendingAfter(s.processes[m], scope, call, outcome));
    GivingUpOnlyRecords(s.(awaiting := s.awaiting - {call}, processes := s.processes[m := q]), m, scope);
    OneAnswered(s, Next(s, BumpFails(call, outcome)), m, scope, call, outcome);
  }

  lemma NextCallIsFree(s: State, m: nat, scope: Scope)
    requires DatabaseOk(s) && CallsOk(s) && m in s.processes
    ensures s.nextCall !in s.bumps && s.nextCall !in s.awaiting && !IsRetry(s.processes[m], scope, s.nextCall)
    ensures forall c :: c in s.awaiting ==> c in s.bumps
  {
    NextCallIsNew(s);
    assert ProcessOk(s, m, s.processes[m]);
  }

  /** One bump more is out: for the first time, or as the retry. */
  lemma OneMoreOut(s: State, t: State, m: nat, scope: Scope, call: nat)
    requires m in s.processes && m in t.processes && call !in s.bumps && call !in s.awaiting
    requires forall c :: c in s.awaiting ==> c in s.bumps
    requires t.awaiting == s.awaiting + {call} && call in t.bumps && t.bumps == s.bumps[call := t.bumps[call]]
    requires t.bumps[call].owner == m && t.bumps[call].scope == scope
    requires forall c :: c in s.bumps ==> (IsRetry(t.processes[m], scope, c) <==> IsRetry(s.processes[m], scope, c))
    ensures |FirstOut(t, m, scope)| == |FirstOut(s, m, scope)| + if IsRetry(t.processes[m], scope, call) then 0 else 1
  {
    hide IsRetry;
    if IsRetry(t.processes[m], scope, call) {
      assert FirstOut(t, m, scope) == FirstOut(s, m, scope);
    } else {
      assert FirstOut(t, m, scope) == FirstOut(s, m, scope) + {call};
    }
  }

  lemma DrainedTimer(s: State, m: nat, scope: Scope)
    requires TimerRuns(s, m, scope)
    ensures RetriesOf(Next(s, TimerFires(m, scope, true)), m, scope) == RetriesOf(s, m, scope).(pending := None)
  {
    var t := Next(s, TimerFires(m, scope, true));
    GivingUpOnlyRecords(WithProcess(s, m, WithPending(s.processes[m], scope, None)), m, scope);
    hide GivingUp;
    assert t.processes == s.processes[m := WithPending(s.processes[m], scope, None)];
    assert t.awaiting == s.awaiting && t.bumps == s.bumps;
    hide Next;
    assert FirstOut(t, m, scope) == FirstOut(s, m, scope);
  }

  lemma TimerIsAnEvent(s: State, m: nat, scope: Scope, ending: bool)
    requires DatabaseOk(s) && CallsOk(s) && TimerRuns(s, m, scope)
    ensures
      var e := CacheEpoch.RetryEvent.TimerFires(ending, s.nextCall);
      && CacheEpoch.CanHappen(RetriesOf(s, m, scope), e)
      && RetriesOf(Next(s, TimerFires(m, scope, ending)), m, scope) == CacheEpoch.Happen(RetriesOf(s, m, scope), e)
  {
    if ending {
      DrainedTimer(s, m, scope);
      hide Next, DatabaseOk, CallsOk;
    } else {
      var t := Next(s, TimerFires(m, scope, false));
      assert t == Firing(s, m, scope, false);
      NextCallIsFree(s, m, scope);
      FiringAgainIsIssuing(s, m, scope);
      hide DatabaseOk, CallsOk, ClearedIn, Firing, Next;
      OneMoreOut(s, t, m, scope, s.nextCall);
    }
  }

  lemma ClearingIsIssuing(s: State, m: nat, scope: Scope, i: nat)
    requires DatabaseOk(s) && CallsOk(s) && IsClear(s, ClearLocally(m, i), m, scope)
    ensures RetriesOf(Next(s, ClearLocally(m, i)), m, scope) == CacheEpoch.Happen(RetriesOf(s, m, scope), CacheEpoch.Issued)
  {
    var t := Next(s, ClearLocally(m, i));
    assert t == Clearing(s, m, i);
    NextCallIsFree(s, m, scope);
    hide DatabaseOk, CallsOk, ClearedIn, WithoutStale, Next;
    assert t.processes[m].pending == s.processes[m].pending;
    OneMoreOut(s, t, m, scope, s.nextCall);
  }

  /** Steps that are neither change nothing of it, except that a crash ends it. */
  predicate SameRetrying(s: State, t: State, m: nat, scope: Scope) {
    && m in s.processes && m in t.processes
    && PendingOf(t.processes[m], scope) == PendingOf(s.processes[m], scope)
    && (forall c :: c in s.bumps && s.bumps[c].owner == m && s.bumps[c].scope == scope ==>
          (c in t.awaiting && c in t.bumps && t.bumps[c] == s.bumps[c] <==> c in s.awaiting))
    && (forall c :: c in t.awaiting && c in t.bumps && t.bumps[c].owner == m && t.bumps[c].scope == scope ==> c in s.bumps && s.bumps[c] == t.bumps[c])
  }

  lemma SameRetryingIsSame(s: State, t: State, m: nat, scope: Scope)
    requires SameRetrying(s, t, m, scope)
    ensures RetriesOf(t, m, scope) == RetriesOf(s, m, scope)
  {
    assert forall c :: IsRetry(t.processes[m], scope, c) <==> IsRetry(s.processes[m], scope, c);
    hide IsRetry;
    assert FirstOut(t, m, scope) == FirstOut(s, m, scope);
  }

  lemma AsideIsNoEvent(s: State, step: Step, m: nat, scope: Scope)
    requires CallsOk(s) && IsAside(step) && m in s.processes
    ensures RetriesOf(Next(s, step), m, scope) == RetriesOf(s, m, scope)
  {
    AsideStepChangesNoBump(s, step);
    AsideStepKeepsDuties(s, step, m);
    assert forall c :: c in s.awaiting ==> c in s.bumps;
    hide CallsOk, Next, RetriesOf;
    SameRetryingIsSame(s, Next(s, step), m, scope);
  }

  lemma CrashIsNoEvent(s: State, n: nat, m: nat, scope: Scope)
    requires CallsOk(s) && m in s.processes && n != m
    ensures RetriesOf(Next(s, Crash(n)), m, scope) == RetriesOf(s, m, scope)
  {
    hide Announced, RetriesOf;
    SameRetryingIsSame(s, Next(s, Crash(n)), m, scope);
  }

  /** A bump issued by somebody else, or for the other scope. */
  lemma OthersIssue(s: State, t: State, m: nat, scope: Scope)
    requires DatabaseOk(s) && CallsOk(s) && m in s.processes && m in t.processes
    requires t.awaiting == s.awaiting + {s.nextCall} && s.nextCall in t.bumps && t.bumps == s.bumps[s.nextCall := t.bumps[s.nextCall]]
    requires !(t.bumps[s.nextCall].owner == m && t.bumps[s.nextCall].scope == scope)
    requires PendingOf(t.processes[m], scope) == PendingOf(s.processes[m], scope)
    ensures RetriesOf(t, m, scope) == RetriesOf(s, m, scope)
  {
    NextCallIsFree(s, m, scope);
    hide DatabaseOk, CallsOk, RetriesOf, PendingOf, IsRetry;
    SameRetryingIsSame(s, t, m, scope);
  }

  lemma OthersClearIsNoEvent(s: State, n: nat, i: nat, m: nat, scope: Scope)
    requires DatabaseOk(s) && CallsOk(s) && m in s.processes && !IsClear(s, ClearLocally(n, i), m, scope)
    ensures RetriesOf(Next(s, ClearLocally(n, i)), m, scope) == RetriesOf(s, m, scope)
  {
    hide DatabaseOk, CallsOk, WithoutStale, ClearedIn, RetriesOf;
    if CanClear(s, n, i) {
      assert Next(s, ClearLocally(n, i)) == Clearing(s, n, i);
      hide Next;
      OthersIssue(s, Clearing(s, n, i), m, scope);
    }
  }

  lemma DatabaseStepLeavesTheRest(s: State, step: Step)
    requires step.Commit? || step.ExecuteBump? || step.LoseBump?
    ensures var t := Next(s, step); t.awaiting == s.awaiting && t.bumps == s.bumps && t.processes == s.processes
  {
  }

  lemma DatabaseStepIsNoEvent(s: State, step: Step, m: nat, scope: Scope)
    requires CallsOk(s) && m in s.processes && (step.Commit? || step.ExecuteBump? || step.LoseBump?)
    ensures RetriesOf(Next(s, step), m, scope) == RetriesOf(s, m, scope)
  {
    assert forall c :: c in s.awaiting ==> c in s.bumps;
    DatabaseStepLeavesTheRest(s, step);
    hide CallsOk, RetriesOf, Next;
    SameRetryingIsSame(s, Next(s, step), m, scope);
  }

  lemma PendingElsewhere(p: Process, other: Scope, pending: Option<CacheEpoch.PendingBump>, scope: Scope)
    requires other != scope
    ensures PendingOf(WithPending(p, other, pending), scope) == PendingOf(p, scope)
  {
  }

  /** Somebody else's answer, or one of the other scope. */
  lemma OthersAnswer(s: State, t: State, m: nat, scope: Scope, call: nat, pending: Option<CacheEpoch.PendingBump>)
    requires CallsOk(s) && IsAwaited(s, call) && m in s.processes && !(s.bumps[call].owner == m && s.bumps[call].scope == scope)
    requires t.awaiting == s.awaiting - {call} && t.bumps == s.bumps && m in t.processes
    requires s.bumps[call].owner != m ==> t.processes[m] == s.processes[m]
    requires s.bumps[call].owner == m ==> t.processes[m].pending == WithPending(s.processes[m], s.bumps[call].scope, pending).pending
    ensures RetriesOf(t, m, scope) == RetriesOf(s, m, scope)
  {
    if s.bumps[call].owner == m { PendingElsewhere(s.processes[m], s.bumps[call].scope, pending, scope); }
    assert forall c :: c in s.awaiting ==> c in s.bumps;
    hide CallsOk, WithPending, RetriesOf;
    SameRetryingIsSame(s, t, m, scope);
  }

  lemma OthersLandingIsNoEvent(s: State, call: nat, m: nat, scope: Scope)
    requires CallsOk(s) && m in s.processes && !IsAttempt(s, BumpLands(call), m, scope)
    ensures RetriesOf(Next(s, BumpLands(call)), m, scope) == RetriesOf(s, m, scope)
  {
    hide CallsOk, PendingAfter, WithPending, CacheEpoch.AfterBump, RetriesOf;
    if IsAwaited(s, call) && call in s.executed {
      var b := s.bumps[call];
      OthersAnswer(s, Next(s, BumpLands(call)), m, scope, call, PendingAfter(s.processes[b.owner], b.scope, call, CacheEpoch.Landed));
    }
  }

  lemma OthersFailingIsNoEvent(s: State, call: nat, outcome: CacheEpoch.Outcome, m: nat, scope: Scope)
    requires CallsOk(s) && m in s.processes && !IsAttempt(s, BumpFails(call, outcome), m, scope)
    ensures RetriesOf(Next(s, BumpFails(call, outcome)), m, scope) == RetriesOf(s, m, scope)
  {
    hide CallsOk, PendingAfter, WithPending, GivingUp, RetriesOf;
    if IsAwaited(s, call) && outcome != CacheEpoch.Landed {
      var b := s.bumps[call];
      var pending := PendingAfter(s.processes[b.owner], b.scope, call, outcome);
      var q := WithPending(s.processes[b.owner], b.scope, pending);
      GivingUpOnlyRecords(s.(awaiting := s.awaiting - {call}, processes := s.processes[b.owner := q]), b.owner, b.scope);
      OthersAnswer(s, Next(s, BumpFails(call, outcome)), m, scope, call, pending);
    }
  }

  lemma OthersTimerIsNoEvent(s: State, n: nat, other: Scope, ending: bool, m: nat, scope: Scope)
    requires DatabaseOk(s) && CallsOk(s) && m in s.processes && !IsAttempt(s, TimerFires(n, other, ending), m, scope)
    ensures RetriesOf(Next(s, TimerFires(n, other, ending)), m, scope) == RetriesOf(s, m, scope)
  {
    hide DatabaseOk, CallsOk, RetriesOf;
    if TimerRuns(s, n, other) {
      assert Next(s, TimerFires(n, other, ending)) == Firing(s, n, other, ending);
      hide Next;
      if ending { OthersDrain(s, n, other, m, scope); } else { OthersFire(s, n, other, m, scope); }
    }
  }

  lemma OthersDrain(s: State, n: nat, other: Scope, m: nat, scope: Scope)
    requires CallsOk(s) && TimerRuns(s, n, other) && m in s.processes && !(n == m && other == scope)
    ensures RetriesOf(Firing(s, n, other, true), m, scope) == RetriesOf(s, m, scope)
  {
    var q := WithPending(s.processes[n], other, None);
    GivingUpOnlyRecords(WithProcess(s, n, q), n, other);
    assert forall c :: c in s.awaiting ==> c in s.bumps;
    if other != scope { PendingElsewhere(s.processes[n], other, None, scope); }
    hide CallsOk, RetriesOf, GivingUp, PendingOf;
    SameRetryingIsSame(s, Firing(s, n, other, true), m, scope);
  }

  lemma OthersFire(s: State, n: nat, other: Scope, m: nat, scope: Scope)
    requires DatabaseOk(s) && CallsOk(s) && TimerRuns(s, n, other) && m in s.processes && !(n == m && other == scope)
    ensures RetriesOf(Firing(s, n, other, false), m, scope) == RetriesOf(s, m, scope)
  {
    FiringAgainIsIssuing(s, n, other);
    hide DatabaseOk, CallsOk, RetriesOf, ClearedIn, Firing;
    OthersIssue(s, Firing(s, n, other, false), m, scope);
  }

  lemma NoEventForNobody(s: State, step: Step, m: nat, scope: Scope)
    requires CallsOk(s) && m !in s.processes
    ensures RetriesOf(Next(s, step), m, scope) == CacheEpoch.Retries(0, None)
  {
    if step == Boot(m) && m !in s.booted {
      assert FirstOut(Next(s, step), m, scope) == {};
    } else {
      NobodyComes(s, step, m);
      hide Next;
    }
  }

  /** A clear costs at most sixteen attempts, an attempt uses one up, and no other step costs any. */
  lemma AttemptsUseUpWork(s: State, step: Step, m: nat, scope: Scope)
    requires Inv(s)
    ensures
      CacheEpoch.Work(RetriesOf(Next(s, step), m, scope)) + (if IsAttempt(s, step, m, scope) then 1 else 0)
        <= CacheEpoch.Work(RetriesOf(s, m, scope)) + (if IsClear(s, step, m, scope) then 16 else 0)
  {
    OnSchedule(s, m, scope);
    assert DatabaseOk(s) && CallsOk(s);
    hide Inv, DatabaseOk, CallsOk, Next, RetriesOf, CacheEpoch.Work, CacheEpoch.CanHappen, CacheEpoch.Happen, IsAwaited, TimerRuns, CanClear;
    if m !in s.processes {
      NoEventForNobody(s, step, m, scope);
      NobodyTries(s, step, m, scope);
    } else if IsAttempt(s, step, m, scope) {
      AttemptIsAnEvent(s, step, m, scope);
      CacheEpoch.EveryEventUsesUpWork(RetriesOf(s, m, scope), EventOf(s, step, m, scope));
    } else if IsClear(s, step, m, scope) {
      ClearingIsIssuing(s, m, scope, step.write);
      CacheEpoch.EveryEventUsesUpWork(RetriesOf(s, m, scope), CacheEpoch.Issued);
    } else {
      NoEvent(s, step, m, scope);
    }
  }

  lemma OnSchedule(s: State, m: nat, scope: Scope)
    requires Inv(s)
    ensures CacheEpoch.WellFormed(RetriesOf(s, m, scope).pending)
    ensures CacheEpoch.CanHappen(RetriesOf(s, m, scope), CacheEpoch.Issued)
    ensures 0 <= CacheEpoch.Work(RetriesOf(s, m, scope))
    ensures m !in s.processes ==> CacheEpoch.Work(RetriesOf(s, m, scope)) == 0
  {
    if m in s.processes { assert CallsOk(s) && ProcessOk(s, m, s.processes[m]); }
  }

  lemma NobodyTries(s: State, step: Step, m: nat, scope: Scope)
    requires CallsOk(s) && m !in s.processes
    ensures !IsAttempt(s, step, m, scope) && !IsClear(s, step, m, scope)
    ensures CacheEpoch.Work(CacheEpoch.Retries(0, None)) == 0
  {
  }

  lemma AttemptIsAnEvent(s: State, step: Step, m: nat, scope: Scope)
    requires DatabaseOk(s) && CallsOk(s) && m in s.processes && IsAttempt(s, step, m, scope)
    ensures
      var e := EventOf(s, step, m, scope);
      && !e.Issued? && CacheEpoch.CanHappen(RetriesOf(s, m, scope), e)
      && RetriesOf(Next(s, step), m, scope) == CacheEpoch.Happen(RetriesOf(s, m, scope), e)
  {
    hide DatabaseOk, CallsOk, Next, RetriesOf, CacheEpoch.CanHappen, CacheEpoch.Happen;
    match step
    case TimerFires(_, _, ending) => TimerIsAnEvent(s, m, scope, ending);
    case BumpLands(call) => LandingIsAnEvent(s, m, scope, call);
    case BumpFails(call, outcome) => FailingIsAnEvent(s, m, scope, call, outcome);
  }

  lemma NoEvent(s: State, step: Step, m: nat, scope: Scope)
    requires DatabaseOk(s) && CallsOk(s) && m in s.processes && !IsAttempt(s, step, m, scope) && !IsClear(s, step, m, scope)
    ensures CacheEpoch.WellFormed(RetriesOf(s, m, scope).pending) ==>
      CacheEpoch.Work(RetriesOf(Next(s, step), m, scope)) <= CacheEpoch.Work(RetriesOf(s, m, scope))
  {
    hide DatabaseOk, CallsOk, Next;
    match step
    case Crash(n) => if n == m { CrashEndsIt(s, m, scope); } else { CrashIsNoEvent(s, n, m, scope); }
    case Commit(_, _) => DatabaseStepIsNoEvent(s, step, m, scope);
    case ExecuteBump(_) => DatabaseStepIsNoEvent(s, step, m, scope);
    case LoseBump(_) => DatabaseStepIsNoEvent(s, step, m, scope);
    case ClearLocally(n, i) => OthersClearIsNoEvent(s, n, i, m, scope);
    case BumpLands(call) => OthersLandingIsNoEvent(s, call, m, scope);
    case BumpFails(call, outcome) => OthersFailingIsNoEvent(s, call, outcome, m, scope);
    case TimerFires(n, other, ending) => OthersTimerIsNoEvent(s, n, other, ending, m, scope);
    case _ => AsideIsNoEvent(s, step, m, scope);
  }

  lemma CrashEndsIt(s: State, m: nat, scope: Scope)
    requires m in s.processes
    ensures RetriesOf(Next(s, Crash(m)), m, scope) == CacheEpoch.Retries(0, None)
  {
  }

  ghost function Attempts(s: State, run: seq<Step>, m: nat, scope: Scope): nat
    decreases |run|
  {
    if run == [] then 0
    else (if IsAttempt(s, run[0], m, scope) then 1 else 0) + Attempts(Next(s, run[0]), run[1..], m, scope)
  }

  ghost function ClearsOf(s: State, run: seq<Step>, m: nat, scope: Scope): nat
    decreases |run|
  {
    if run == [] then 0
    else (if IsClear(s, run[0], m, scope) then 1 else 0) + ClearsOf(Next(s, run[0]), run[1..], m, scope)
  }

  lemma {:induction false} AttemptsFrom(s: State, run: seq<Step>, m: nat, scope: Scope)
    requires Inv(s)
    ensures Attempts(s, run, m, scope) <= CacheEpoch.Work(RetriesOf(s, m, scope)) + 16 * ClearsOf(s, run, m, scope)
    decreases |run|
  {
    OnSchedule(s, m, scope);
    hide Inv, Next, RetriesOf, CacheEpoch.Work, CacheEpoch.CanHappen, IsAttempt, IsClear;
    if run != [] {
      AttemptsUseUpWork(s, run[0], m, scope);
      InvKept(s, run[0]);
      AttemptsFrom(Next(s, run[0]), run[1..], m, scope);
    }
  }

  /**
   * In every run a process answers for, or waits out, at most sixteen bumps and timers of
   * a scope for each write of the scope it cleared up after: retrying always stops.
   */
  lemma AttemptsAreBounded(seed: map<Scope, nat>, run: seq<Step>, m: nat, scope: Scope)
    ensures Attempts(Initial(seed), run, m, scope) <= 16 * ClearsOf(Initial(seed), run, m, scope)
  {
    assert Inv(Initial(seed));
    OnSchedule(Initial(seed), m, scope);
    hide Inv;
    AttemptsFrom(Initial(seed), run, m, scope);
  }

  // ---- When a bump is given up ----

  /** The process's retry of the scope comes back failed. */
  ghost predicate RetryFails(s: State, step: Step, m: nat, scope: Scope) {
    && step.BumpFails? && step.outcome == CacheEpoch.Failed && IsAwaited(s, step.call)
    && s.bumps[step.call].owner == m && s.bumps[step.call].scope == scope && IsRetry(s.processes[m], scope, step.call)
  }

  predicate HasRetry(s: State, m: nat, scope: Scope) { m in s.processes && scope in s.processes[m].pending }

  /** The process's retry of the scope comes back with its number. */
  ghost predicate RetryLands(s: State, step: Step, m: nat, scope: Scope) {
    && step.BumpLands? && IsAwaited(s, step.call) && step.call in s.executed
    && s.bumps[step.call].owner == m && s.bumps[step.call].scope == scope && IsRetry(s.processes[m], scope, step.call)
  }

  /** A failure counts up; a landing, or a retry that is new or gone, starts the count again. */
  ghost function CountOn(s: State, step: Step, m: nat, scope: Scope, sofar: nat): nat {
    if RetryFails(s, step, m, scope) then sofar + 1
    else if RetryLands(s, step, m, scope) || !HasRetry(s, m, scope) || !HasRetry(Next(s, step), m, scope) then 0
    else sofar
  }

  /** How often the scope's retry has failed in a row when the run ends, if it had failed so often before. */
  ghost function FailedInARow(s: State, run: seq<Step>, m: nat, scope: Scope, sofar: nat): nat
    decreases |run|
  {
    if run == [] then sofar else FailedInARow(Next(s, run[0]), run[1..], m, scope, CountOn(s, run[0], m, scope, sofar))
  }

  lemma WhatAnEventDoes(r: CacheEpoch.Retries, e: CacheEpoch.RetryEvent)
    requires CacheEpoch.CanHappen(r, e) && CacheEpoch.Happen(r, e).pending.Some?
    ensures CacheEpoch.Happen(r, e).pending.value.attempt ==
      if e == CacheEpoch.RetryAnswers(CacheEpoch.Failed) then r.pending.value.attempt + 1
      else if e == CacheEpoch.RetryAnswers(CacheEpoch.Landed) || r.pending.None? then 0
      else r.pending.value.attempt
  {
  }

  lemma WhichEvents(s: State, step: Step, m: nat, scope: Scope)
    requires m in s.processes
    ensures RetryFails(s, step, m, scope) <==>
      IsAttempt(s, step, m, scope) && EventOf(s, step, m, scope) == CacheEpoch.RetryAnswers(CacheEpoch.Failed)
    ensures RetryLands(s, step, m, scope) <==>
      IsAttempt(s, step, m, scope) && EventOf(s, step, m, scope) == CacheEpoch.RetryAnswers(CacheEpoch.Landed)
  {
    hide IsAwaited, IsRetry;
  }

  lemma NobodysRetry(s: State, step: Step, m: nat, scope: Scope)
    requires CallsOk(s) && m !in s.processes
    ensures !RetryFails(s, step, m, scope) && !RetryLands(s, step, m, scope)
  {
  }

  /** One failure more, a fresh start, or the same count: what a step makes of the retry's attempt. */
  lemma AttemptFollows(s: State, step: Step, m: nat, scope: Scope)
    requires Inv(s) && m in s.processes && RetriesOf(Next(s, step), m, scope).pending.Some?
    ensures var before, after := RetriesOf(s, m, scope).pending, RetriesOf(Next(s, step), m, scope).pending.value.attempt;
      && (RetryFails(s, step, m, scope) && before.Some? ==> after == before.value.attempt + 1)
      && (!RetryFails(s, step, m, scope) ==>
        after == if RetryLands(s, step, m, scope) || before.None? then 0 else before.value.attempt)
  {
    InvParts(s);
    WhichEvents(s, step, m, scope);
    hide Inv, DatabaseOk, CallsOk, Next, RetriesOf, RetryFails, RetryLands, IsAttempt, IsClear, EventOf,
         CacheEpoch.CanHappen, CacheEpoch.Happen;
    if IsAttempt(s, step, m, scope) {
      AttemptIsAnEvent(s, step, m, scope);
      WhatAnEventDoes(RetriesOf(s, m, scope), EventOf(s, step, m, scope));
    } else if IsClear(s, step, m, scope) {
      ClearingIsIssuing(s, m, scope, step.write);
      IssuingKeepsTheRetry(RetriesOf(s, m, scope));
    } else {
      SameOrGone(s, step, m, scope);
    }
  }

  lemma AttemptCounts(s: State, step: Step, m: nat, scope: Scope, sofar: nat)
    requires Inv(s) && HasRetry(Next(s, step), m, scope)
    requires HasRetry(s, m, scope) ==> s.processes[m].pending[scope].attempt == sofar
    ensures Next(s, step).processes[m].pending[scope].attempt == CountOn(s, step, m, scope, sofar)
  {
    InvParts(s);
    RetriesAreSeen(s, m, scope);
    RetriesAreSeen(Next(s, step), m, scope);
    FailsWhatItHas(s, step, m, scope);
    if m !in s.processes {
      NoEventForNobody(s, step, m, scope);
    } else {
      hide Inv, DatabaseOk, CallsOk, Next, RetriesOf, HasRetry, RetryFails, RetryLands;
      AttemptFollows(s, step, m, scope);
    }
  }

  lemma IssuingKeepsTheRetry(r: CacheEpoch.Retries)
    ensures CacheEpoch.CanHappen(r, CacheEpoch.Issued) && CacheEpoch.Happen(r, CacheEpoch.Issued).pending == r.pending
  {
  }

  lemma RetriesAreSeen(s: State, m: nat, scope: Scope)
    ensures HasRetry(s, m, scope) <==> RetriesOf(s, m, scope).pending.Some?
    ensures HasRetry(s, m, scope) ==> RetriesOf(s, m, scope).pending == Some(s.processes[m].pending[scope])
  {
  }

  lemma SameOrGone(s: State, step: Step, m: nat, scope: Scope)
    requires DatabaseOk(s) && CallsOk(s) && m in s.processes && !IsAttempt(s, step, m, scope) && !IsClear(s, step, m, scope)
    ensures RetriesOf(Next(s, step), m, scope) in {RetriesOf(s, m, scope), CacheEpoch.Retries(0, None)}
  {
    hide DatabaseOk, CallsOk, Next, RetriesOf;
    match step
    case Crash(n) => if n == m { CrashEndsIt(s, m, scope); } else { CrashIsNoEvent(s, n, m, scope); }
    case Commit(_, _) => DatabaseStepIsNoEvent(s, step, m, scope);
    case ExecuteBump(_) => DatabaseStepIsNoEvent(s, step, m, scope);
    case LoseBump(_) => DatabaseStepIsNoEvent(s, step, m, scope);
    case ClearLocally(n, i) => OthersClearIsNoEvent(s, n, i, m, scope);
    case BumpLands(call) => OthersLandingIsNoEvent(s, call, m, scope);
    case BumpFails(call, outcome) => OthersFailingIsNoEvent(s, call, outcome, m, scope);
    case TimerFires(n, other, ending) => OthersTimerIsNoEvent(s, n, other, ending, m, scope);
    case _ => AsideIsNoEvent(s, step, m, scope);
  }

  /** The attempt a retry stands at is how often it has failed in a row. */
  lemma {:induction false} AttemptIsTheStreak(s: State, run: seq<Step>, m: nat, scope: Scope, sofar: nat)
    requires Inv(s) && (HasRetry(s, m, scope) ==> s.processes[m].pending[scope].attempt == sofar)
    ensures
      var t := Exec(s, run);
      HasRetry(t, m, scope) ==> t.processes[m].pending[scope].attempt == FailedInARow(s, run, m, scope, sofar)
    decreases |run|
  {
    if run != [] {
      var t := Next(s, run[0]);
      InvKept(s, run[0]);
      if HasRetry(t, m, scope) { AttemptCounts(s, run[0], m, scope, sofar); }
      hide Inv, Next, CountOn;
      AttemptIsTheStreak(t, run[1..], m, scope, CountOn(s, run[0], m, scope, sofar));
    }
  }

  lemma FailsWhatItHas(s: State, step: Step, m: nat, scope: Scope)
    ensures RetryFails(s, step, m, scope) ==> HasRetry(s, m, scope)
  {
  }

  lemma RecordsTheUncovered(after: State, m: nat, scope: Scope, i: nat)
    requires m in after.processes && i in GivingUp(after, m, scope).abandoned && i !in after.abandoned
    ensures
      var t := GivingUp(after, m, scope);
      i in after.processes[m].cleared && !Covered(t, m, i) && t.processes == after.processes
  {
    var t := GivingUp(after, m, scope);
    assert Announced(t, i) <==> Announced(after, i);
    assert OnItsWay(t, m, i) <==> OnItsWay(after, m, i);
    assert ToBeRetried(t, m, i) <==> ToBeRetried(after, m, i);
  }

  /** A write goes on record as given up only when its process had cleared up after it and nothing covers it any longer. */
  lemma OnlyTheUncoveredAreGivenUp(s: State, step: Step, i: nat)
    requires i in Next(s, step).abandoned && i !in s.abandoned
    ensures
      var t := Next(s, step);
      exists m :: m in s.processes && i in s.processes[m].cleared && !Announced(t, i) && (m in t.processes ==> !Covered(t, m, i))
  {
    WhatGivesUp(s, step);
    var t := Next(s, step);
    if step.Crash? {
      assert step.m in s.processes && i in s.processes[step.m].cleared;
      assert Announced(t, i) <==> Announced(s, i);
    } else if step.BumpFails? {
      var b := s.bumps[step.call];
      var p := s.processes[b.owner];
      var after := s.(awaiting := s.awaiting - {step.call},
                      processes := s.processes[b.owner := WithPending(p, b.scope, PendingAfter(p, b.scope, step.call, step.outcome))]);
      assert t == GivingUp(after, b.owner, b.scope);
      hide Next, Covered, GivingUp, PendingAfter;
      RecordsTheUncovered(after, b.owner, b.scope, i);
      CoveredIsAnnounced(t, b.owner, i);
    } else {
      var p := s.processes[step.m];
      var after := s.(processes :=
        s.processes[step.m := WithPending(p, step.scope, CacheEpoch.AfterTimer(p.pending[step.scope], step.ending, s.nextCall))]);
      assert t == GivingUp(after, step.m, step.scope);
      hide Next, Covered, GivingUp;
      RecordsTheUncovered(after, step.m, step.scope, i);
      CoveredIsAnnounced(t, step.m, i);
    }
  }

  lemma CoveredIsAnnounced(t: State, m: nat, i: nat)
    ensures Announced(t, i) ==> Covered(t, m, i)
  {
  }

  /** An answer that fails gives writes up only when it is the retry's and at the end of the schedule. */
  lemma OnlyTheLastAttemptGivesUp(s: State, call: nat)
    requires Inv(s) && Next(s, BumpFails(call, CacheEpoch.Failed)).abandoned != s.abandoned
    ensures call in s.bumps
    ensures
      var b := s.bumps[call];
      && RetryFails(s, BumpFails(call, CacheEpoch.Failed), b.owner, b.scope)
      && s.processes[b.owner].pending[b.scope].attempt == 5
  {
    InvParts(s);
    assert IsAwaited(s, call);
    var b := s.bumps[call];
    assert ProcessOk(s, b.owner, s.processes[b.owner]);
    hide Inv, DatabaseOk, CallsOk, Covered, ClearedIn;
    var p := s.processes[b.owner];
    assert PendingAfter(p, b.scope, call, CacheEpoch.Failed).None?;
  }

  /** What gives writes up: a crash, a broken bump, a timer that finds the process ending, or a failed retry. */
  lemma WhatGivesUp(s: State, step: Step)
    requires Next(s, step).abandoned != s.abandoned
    ensures step.Crash? || (step.TimerFires? && step.ending) || step.BumpFails?
  {
    if IsAside(step) { AsideStepChangesNoBump(s, step); }
    hide Covered, Announced, PendingAfter, WithPending, CacheEpoch.AfterBump, CacheEpoch.AfterRead, CacheEpoch.AfterTimer, HoldingLoad,
         WithoutStale, ClearedIn;
  }

  /**
   * In every run a write is given up because its process crashes or is ending, because
   * its bump is broken, or because the scope's retry fails for the sixth time in a row.
   */
  lemma OnlyTheSixthFailureGivesUp(seed: map<Scope, nat>, run: seq<Step>, step: Step)
    requires Next(Exec(Initial(seed), run), step).abandoned != Exec(Initial(seed), run).abandoned
    ensures
      || step.Crash? || (step.TimerFires? && step.ending) || (step.BumpFails? && step.outcome == CacheEpoch.Broken)
      || (step.BumpFails? && step.outcome == CacheEpoch.Failed
          && var s := Exec(Initial(seed), run);
             step.call in s.bumps &&
             var b := s.bumps[step.call];
             RetryFails(s, step, b.owner, b.scope) && FailedInARow(Initial(seed), run + [step], b.owner, b.scope, 0) == 6)
  {
    StartsInOrder(seed);
    hide Inv, Initial, Next, Exec, RetryFails, FailedInARow;
    var s := Exec(Initial(seed), run);
    InvAlways(Initial(seed), run);
    WhatGivesUp(s, step);
    if step.BumpFails? && step.outcome == CacheEpoch.Failed {
      SixthIn(Initial(seed), run, step.call);
    } else if step.BumpFails? {
      LandedIsNoFailure(s, step.call);
    }
  }

  lemma StartsInOrder(seed: map<Scope, nat>)
    ensures Inv(Initial(seed)) && forall m :: m in Initial(seed).processes ==> Initial(seed).processes[m].pending == map[]
  {
  }

  lemma LandedIsNoFailure(s: State, call: nat)
    ensures Next(s, BumpFails(call, CacheEpoch.Landed)) == s
  {
  }

  lemma SixthIn(start: State, run: seq<Step>, call: nat)
    requires Inv(start) && (forall m :: m in start.processes ==> start.processes[m].pending == map[])
    requires
      var s := Exec(start, run);
      Inv(s) && Next(s, BumpFails(call, CacheEpoch.Failed)).abandoned != s.abandoned
    ensures
      var s, step := Exec(start, run), BumpFails(call, CacheEpoch.Failed);
      && call in s.bumps
      && RetryFails(s, step, s.bumps[call].owner, s.bumps[call].scope)
      && FailedInARow(start, run + [step], s.bumps[call].owner, s.bumps[call].scope, 0) == 6
  {
    var s, step := Exec(start, run), BumpFails(call, CacheEpoch.Failed);
    OnlyTheLastAttemptGivesUp(s, call);
    hide Inv, Next, Exec;
    var b := s.bumps[call];
    FailsWhatItHas(s, step, b.owner, b.scope);
    hide RetryFails;
    AttemptIsTheStreak(start, run, b.owner, b.scope, 0);
    OneMoreFailure(start, run, step, b.owner, b.scope, 0);
  }

  lemma {:induction false} OneMoreFailure(s: State, run: seq<Step>, step: Step, m: nat, scope: Scope, sofar: nat)
    requires RetryFails(Exec(s, run), step, m, scope)
    ensures FailedInARow(s, run + [step], m, scope, sofar) == FailedInARow(s, run, m, scope, sofar) + 1
    decreases |run|
  {
    hide RetryFails, RetryLands, Next, HasRetry;
    if run == [] {
      assert run + [step] == [step] && [step][1..] == [];
      assert FailedInARow(s, [step], m, scope, sofar) == FailedInARow(Next(s, step), [], m, scope, sofar + 1);
    } else {
      assert (run + [step])[1..] == run[1..] + [step];
      OneMoreFailure(Next(s, run[0]), run[1..], step, m, scope, CountOn(s, run[0], m, scope, sofar));
    }
  }
}
