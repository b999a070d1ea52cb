/**
 * Where the cache-epoch protocol ends up: what a later number tells whoever hears it,
 * what becomes of every write cleared up after, that everybody can always still be told,
 * and what everybody holds then.
 */
module CacheSettling {
  import opened Basics
  import opened CacheKeys
  import CacheEpoch
  import opened CacheProtocol

  lemma {:induction false} ExecInTwo(s: State, run: seq<Step>, more: seq<Step>)
    ensures Exec(s, run + more) == Exec(Exec(s, run), more)
    decreases |run|
  {
    if run == [] {
      assert run + more == more;
    } else {
      assert (run + more)[1..] == run[1..] + more;
      ExecInTwo(Next(s, run[0]), run[1..], more);
    }
  }

  lemma ExecOne(s: State, step: Step)
    ensures Exec(s, [step]) == Next(s, step)
  {
    assert Exec(s, [step]) == Exec(Next(s, step), []);
  }

  // ---- What became of a write, its process gone or not ----

  lemma GivingUpOnlyRecords(s: State, m: nat, scope: Scope)
    requires m in s.processes
    ensures GivingUp(s, m, scope) == s.(abandoned := GivingUp(s, m, scope).abandoned)
    ensures s.abandoned <= GivingUp(s, m, scope).abandoned
  {
  }

  /** What every step leaves standing, except the processes. */
  ghost predicate Stands(s: State, t: State) {
    && (forall st :: st in s.landed ==> st in t.landed && t.landed[st] == s.landed[st])
    && s.abandoned <= t.abandoned && s.writes <= t.writes
    && s.nextCall <= t.nextCall && (forall c :: c in t.answers ==> c in s.answers || c < s.nextCall)
    && (forall scope :: scope in s.epochs ==> scope in t.epochs)
  }

  lemma LandingStepStands(s: State, step: Step)
    requires DatabaseOk(s) && (step.ExecuteBump? || step.LoseBump? || step.BumpLands?)
    ensures Stands(s, Next(s, step))
  {
    hide PendingAfter, WithPending, CacheEpoch.AfterBump;
    if step.ExecuteBump? && CanArrive(s, step.call) {
      assert Stamp(s.bumps[step.call].scope, Next(s, step).executed[step.call]) !in s.landed;
    }
  }

  lemma FailingStepStands(s: State, step: Step)
    requires step.BumpFails? || step.TimerFires?
    ensures Stands(s, Next(s, step))
  {
    hide PendingAfter, WithPending, CacheEpoch.AfterTimer, GivingUp, ClearedIn;
    match step
    case BumpFails(call, outcome) =>
      if IsAwaited(s, call) {
        var b := s.bumps[call];
        var q := WithPending(s.processes[b.owner], b.scope, PendingAfter(s.processes[b.owner], b.scope, call, outcome));
        GivingUpOnlyRecords(s.(awaiting := s.awaiting - {call}, processes := s.processes[b.owner := q]), b.owner, b.scope);
      }
    case TimerFires(m, scope, ending) =>
      if TimerRuns(s, m, scope) {
        var q := WithPending(s.processes[m], scope, CacheEpoch.AfterTimer(s.processes[m].pending[scope], ending, s.nextCall));
        GivingUpOnlyRecords(s.(processes := s.processes[m := q]), m, scope);
      }
  }

  /** Reading, loading and evicting, and the arrival of a process: nothing of a bump or a write in them. */
  predicate IsAside(step: Step) {
    step.Boot? || step.StartRead? || step.ExecuteRead? || step.ReadLands? || step.ReadFails? || step.Load? || step.Evict?
  }

  predicate SameBumps(s: State, t: State) {
    && t.writes == s.writes && t.epochs == s.epochs && t.landed == s.landed && t.abandoned == s.abandoned
    && t.bumps == s.bumps && t.awaiting == s.awaiting && t.executed == s.executed && t.lost == s.lost
  }

  predicate SameDuties(p: Process, q: Process) { q.cleared == p.cleared && q.pending == p.pending }

  lemma AsideStepChangesNoBump(s: State, step: Step)
    requires IsAside(step)
    ensures SameBumps(s, Next(s, step))
    ensures s.nextCall <= Next(s, step).nextCall
    ensures forall c :: c in Next(s, step).answers ==> c in s.answers || c < s.nextCall
  {
    hide CacheEpoch.AfterRead, HoldingLoad;
  }

  lemma ChangedAside(s: State, n: nat, p: Process, m: nat)
    requires n in s.processes && m in s.processes && SameDuties(s.processes[n], p)
    ensures m in s.processes[n := p] && SameDuties(s.processes[m], s.processes[n := p][m])
  {
  }

  lemma ReadStepKeepsDuties(s: State, step: Step, n: nat, m: nat)
    requires m in s.processes && step in {StartRead(n), ReadLands(n), ReadFails(n)}
    ensures m in Next(s, step).processes && SameDuties(s.processes[m], Next(s, step).processes[m])
  {
    hide CacheEpoch.AfterRead;
    if n in s.processes {
      var p := s.processes[n];
      if step == StartRead(n) {
        ChangedAside(s, n, p.(reading := Some(s.nextCall)), m);
      } else if step == ReadFails(n) {
        ChangedAside(s, n, p.(reading := None), m);
      } else if ReadIsBack(s, n) {
        ChangedAside(s, n, p.(local := CacheEpoch.AfterRead(p.local, s.answers[p.reading.value]), reading := None), m);
      }
    }
  }

  lemma CacheStepKeepsDuties(s: State, step: Step, n: nat, key: Key, m: nat)
    requires m in s.processes && step in {Load(n, key), Evict(n, key)}
    ensures m in Next(s, step).processes && SameDuties(s.processes[m], Next(s, step).processes[m])
  {
    hide HoldingLoad;
    if n in s.processes {
      var p := s.processes[n];
      if step == Load(n, key) {
        ChangedAside(s, n, p.(local := p.local.(cache := HoldingLoad(p.local.cache, key, |s.writes|))), m);
      } else {
        ChangedAside(s, n, p.(local := p.local.(cache := p.local.cache - {key})), m);
      }
    }
  }

  lemma ArrivalKeepsDuties(s: State, step: Step, m: nat)
    requires m in s.booted && m in s.processes && (step.Boot? || step.ExecuteRead?)
    ensures m in Next(s, step).processes && SameDuties(s.processes[m], Next(s, step).processes[m])
  {
  }

  lemma AsideStepKeepsDuties(s: State, step: Step, m: nat)
    requires CallsOk(s) && IsAside(step) && m in s.processes
    ensures m in Next(s, step).processes && SameDuties(s.processes[m], Next(s, step).processes[m])
  {
    assert m in s.booted;
    hide CallsOk, Next;
    match step
    case StartRead(n) => ReadStepKeepsDuties(s, step, n, m);
    case ReadLands(n) => ReadStepKeepsDuties(s, step, n, m);
    case ReadFails(n) => ReadStepKeepsDuties(s, step, n, m);
    case Load(n, key) => CacheStepKeepsDuties(s, step, n, key, m);
    case Evict(n, key) => CacheStepKeepsDuties(s, step, n, key, m);
    case _ => ArrivalKeepsDuties(s, step, m);
  }

  lemma ProcessStepStands(s: State, step: Step)
    requires step.Crash? || step.Commit? || step.ClearLocally?
    ensures Stands(s, Next(s, step))
  {
    hide Announced, ClearedIn, WithoutStale;
  }

  /** No number handed out is handed out again, and what has been given up on stays on record. */
  lemma HistoryStands(s: State, step: Step)
    requires DatabaseOk(s)
    ensures Stands(s, Next(s, step))
  {
    hide DatabaseOk;
    if step.ExecuteBump? || step.LoseBump? || step.BumpLands? {
      LandingStepStands(s, step);
    } else if step.BumpFails? || step.TimerFires? {
      FailingStepStands(s, step);
    } else if step.Crash? || step.Commit? || step.ClearLocally? {
      ProcessStepStands(s, step);
    } else {
      AsideStepChangesNoBump(s, step);
      hide Next;
    }
  }

  lemma PendingIsNotMemory(p: Process, scope: Scope, pending: Option<CacheEpoch.PendingBump>)
    ensures WithPending(p, scope, pending).cleared == p.cleared && WithPending(p, scope, pending).local == p.local
  {
  }

  lemma BumpStepRemembers(s: State, step: Step, m: nat)
    requires m in s.processes && (step.BumpLands? || step.BumpFails? || step.TimerFires?)
    ensures m in Next(s, step).processes && s.processes[m].cleared == Next(s, step).processes[m].cleared
  {
    hide PendingAfter, WithPending, CacheEpoch.AfterBump, CacheEpoch.AfterTimer, GivingUp, ClearedIn;
    match step
    case BumpLands(call) =>
      if IsAwaited(s, call) {
        var b := s.bumps[call];
        PendingIsNotMemory(s.processes[b.owner], b.scope, PendingAfter(s.processes[b.owner], b.scope, call, CacheEpoch.Landed));
      }
    case BumpFails(call, outcome) =>
      if IsAwaited(s, call) {
        var b := s.bumps[call];
        var pending := PendingAfter(s.processes[b.owner], b.scope, call, outcome);
        var q := WithPending(s.processes[b.owner], b.scope, pending);
        PendingIsNotMemory(s.processes[b.owner], b.scope, pending);
        GivingUpOnlyRecords(s.(awaiting := s.awaiting - {call}, processes := s.processes[b.owner := q]), b.owner, b.scope);
      }
    case TimerFires(n, scope, ending) =>
      if TimerRuns(s, n, scope) {
        var pending := CacheEpoch.AfterTimer(s.processes[n].pending[scope], ending, s.nextCall);
        PendingIsNotMemory(s.processes[n], scope, pending);
        GivingUpOnlyRecords(s.(processes := s.processes[n := WithPending(s.processes[n], scope, pending)]), n, scope);
      }
  }

  lemma ClearedIsRemembered(s: State, step: Step, m: nat)
    requires CallsOk(s) && m in s.processes && step != Crash(m)
    ensures m in Next(s, step).processes && s.processes[m].cleared <= Next(s, step).processes[m].cleared
  {
    if step.BumpLands? || step.BumpFails? || step.TimerFires? {
      BumpStepRemembers(s, step, m);
    } else if IsAside(step) {
      AsideStepKeepsDuties(s, step, m);
      hide Next;
    } else {
      hide CallsOk, Announced, WithoutStale, ClearedIn;
    }
  }

  /** Its process remembers the write, or it has been announced, or it was given up on. */
  ghost predicate AccountedFor(s: State, m: nat, i: nat) {
    (m in s.processes && i in s.processes[m].cleared) || Announced(s, i) || i in s.abandoned
  }

  lemma StaysAccountedFor(s: State, step: Step, m: nat, i: nat)
    requires DatabaseOk(s) && CallsOk(s) && AccountedFor(s, m, i)
    ensures AccountedFor(Next(s, step), m, i)
  {
    HistoryStands(s, step);
    if Announced(s, i) {
      var st :| st in s.landed && i in s.landed[st];
      hide Next;
      assert Announced(Next(s, step), i);
    } else if i !in s.abandoned {
      if step == Crash(m) {
        assert Next(s, step) == Crashed(s, m);
      } else {
        ClearedIsRemembered(s, step, m);
      }
    }
  }

  lemma {:induction false} OnceClearedAccountedFor(s: State, run: seq<Step>, m: nat, i: nat)
    requires Inv(s) && AccountedFor(s, m, i)
    ensures AccountedFor(Exec(s, run), m, i) && s.writes <= Exec(s, run).writes && s.abandoned <= Exec(s, run).abandoned
    decreases |run|
  {
    if run != [] {
      InvKept(s, run[0]);
      HistoryStands(s, run[0]);
      StaysAccountedFor(s, run[0], m, i);
      hide Inv, AccountedFor, Next;
      OnceClearedAccountedFor(Next(s, run[0]), run[1..], m, i);
    }
  }

  // ---- The numbers that are handed out ----

  function NumberOf(epochs: map<Scope, nat>, scope: Scope): nat { if scope in epochs then epochs[scope] else 0 }

  /** A bump of the process's own was given this number. */
  ghost predicate OwnNumber(s: State, m: nat, scope: Scope, k: nat) {
    exists c :: c in s.executed && c in s.bumps && s.bumps[c].owner == m && s.bumps[c].scope == scope && s.executed[c] == k
  }

  /** Bumps and their numbers stand, and a new number is the next one of its scope. */
  ghost predicate NumbersGrow(s: State, step: Step, t: State) {
    && (forall c :: c in s.bumps ==> c in t.bumps && t.bumps[c] == s.bumps[c])
    && (forall c :: c in s.executed ==> c in t.executed && t.executed[c] == s.executed[c])
    && (forall c :: c in t.executed && c !in s.executed ==> c in s.bumps && t.executed[c] == NumberOf(s.epochs, s.bumps[c].scope) + 1)
    && (forall c, d :: c in t.executed && c !in s.executed && d in t.executed && d !in s.executed ==> c == d)
    && (forall scope :: NumberOf(s.epochs, scope) <= NumberOf(t.epochs, scope))
  }

  lemma AsideStepNumbers(s: State, step: Step)
    requires IsAside(step)
    ensures NumbersGrow(s, step, Next(s, step))
  {
    AsideStepChangesNoBump(s, step);
    hide Next;
  }

  lemma ProcessStepNumbers(s: State, step: Step)
    requires DatabaseOk(s) && (step.Crash? || step.Commit? || step.ClearLocally? || step.LoseBump?)
    ensures NumbersGrow(s, step, Next(s, step))
  {
    NextCallIsNew(s);
    hide DatabaseOk, Announced, ClearedIn, WithoutStale;
  }

  lemma ArrivalNumbers(s: State, call: nat)
    ensures NumbersGrow(s, ExecuteBump(call), Next(s, ExecuteBump(call)))
  {
  }

  lemma AnswerNumbers(s: State, step: Step)
    requires step.BumpLands? || step.BumpFails?
    ensures NumbersGrow(s, step, Next(s, step))
  {
    hide PendingAfter, WithPending, CacheEpoch.AfterBump, GivingUp;
    if step.BumpFails? && IsAwaited(s, step.call) {
      var b := s.bumps[step.call];
      var q := WithPending(s.processes[b.owner], b.scope, PendingAfter(s.processes[b.owner], b.scope, step.call, step.outcome));
      GivingUpOnlyRecords(s.(awaiting := s.awaiting - {step.call}, processes := s.processes[b.owner := q]), b.owner, b.scope);
    }
  }

  lemma TimerNumbers(s: State, m: nat, scope: Scope, ending: bool)
    requires DatabaseOk(s)
    ensures NumbersGrow(s, TimerFires(m, scope, ending), Next(s, TimerFires(m, scope, ending)))
  {
    NextCallIsNew(s);
    hide DatabaseOk, WithPending, CacheEpoch.AfterTimer, GivingUp, ClearedIn;
    if TimerRuns(s, m, scope) {
      var q := WithPending(s.processes[m], scope, CacheEpoch.AfterTimer(s.processes[m].pending[scope], ending, s.nextCall));
      GivingUpOnlyRecords(s.(processes := s.processes[m := q]), m, scope);
    }
  }

  lemma NumbersOnlyGrow(s: State, step: Step)
    requires DatabaseOk(s)
    ensures NumbersGrow(s, step, Next(s, step))
  {
    hide DatabaseOk, Next, NumbersGrow;
    match step
    case Crash(_) => ProcessStepNumbers(s, step);
    case Commit(_, _) => ProcessStepNumbers(s, step);
    case ClearLocally(_, _) => ProcessStepNumbers(s, step);
    case LoseBump(_) => ProcessStepNumbers(s, step);
    case ExecuteBump(call) => ArrivalNumbers(s, call);
    case BumpLands(_) => AnswerNumbers(s, step);
    case BumpFails(_, _) => AnswerNumbers(s, step);
    case TimerFires(m, scope, ending) => TimerNumbers(s, m, scope, ending);
    case _ => AsideStepNumbers(s, step);
  }

  /** No two bumps of a scope are given the same number. */
  ghost predicate Numbered(s: State) {
    forall c, d :: c in s.executed && c in s.bumps && d in s.executed && d in s.bumps ==>
      (s.bumps[c].scope == s.bumps[d].scope && s.executed[c] == s.executed[d] ==> c == d)
  }

  lemma HandedOut(s: State, c: nat)
    requires DatabaseOk(s) && c in s.executed
    ensures c in s.bumps && s.executed[c] <= NumberOf(s.epochs, s.bumps[c].scope)
  {
    assert Heard(s.epochs, Stamp(s.bumps[c].scope, s.executed[c]));
  }

  lemma StaysNumbered(s: State, step: Step)
    requires DatabaseOk(s) && Numbered(s)
    ensures Numbered(Next(s, step))
  {
    NumbersOnlyGrow(s, step);
    forall c | c in s.executed ensures c in s.bumps && s.executed[c] <= NumberOf(s.epochs, s.bumps[c].scope) { HandedOut(s, c); }
    hide DatabaseOk, Next, NumberOf;
  }

  /** What a run leaves of the numbers: those handed out stand, each to one bump, and the counters only go up. */
  lemma {:induction false} NumbersStand(s: State, run: seq<Step>)
    requires Inv(s)
    ensures Inv(Exec(s, run)) && (Numbered(s) ==> Numbered(Exec(s, run)))
    ensures
      var t := Exec(s, run);
      && (forall c :: c in s.executed && c in s.bumps ==> c in t.executed && c in t.bumps && t.executed[c] == s.executed[c] && t.bumps[c] == s.bumps[c])
      && (forall scope :: NumberOf(s.epochs, scope) <= NumberOf(t.epochs, scope)) && s.writes <= t.writes
    decreases |run|
  {
    if run != [] {
      OneStepStands(s, run[0]);
      hide Inv, Next, Numbered, NumberOf;
      NumbersStand(Next(s, run[0]), run[1..]);
    }
  }

  lemma OneStepStands(s: State, step: Step)
    requires Inv(s)
    ensures Inv(Next(s, step)) && NumbersGrow(s, step, Next(s, step)) && (Numbered(s) ==> Numbered(Next(s, step)))
    ensures s.writes <= Next(s, step).writes
  {
    assert DatabaseOk(s);
    hide Inv, DatabaseOk, Next, Numbered, NumbersGrow;
    InvKept(s, step);
    NumbersOnlyGrow(s, step);
    HistoryStands(s, step);
    if Numbered(s) { StaysNumbered(s, step); }
  }

  // ---- What a later number tells, whoever's write it stands for ----

  predicate AllFresh(cache: map<Key, CacheEpoch.Entry>, writes: seq<Write>, i: nat) {
    forall k :: k in cache ==> Fresh(cache[k], writes, i)
  }

  predicate Holds(cache: map<Key, CacheEpoch.Entry>, writes: seq<Write>) {
    forall k :: k in cache ==> EntryOk(k, cache[k], |writes|)
  }

  /** What one step can do to what one process holds. */
  ghost predicate LocalMoves(s: State, step: Step, l: CacheEpoch.Local, u: CacheEpoch.Local, m: nat) {
    || (u.lastSeen == l.lastSeen && forall k :: k in u.cache ==> k in l.cache && u.cache[k] == l.cache[k])
    || (step.Load? && u == l.(cache := HoldingLoad(l.cache, step.key, |s.writes|)))
    || (exists rows :: u == CacheEpoch.AfterRead(l, rows))
    || (step.BumpLands? && step.call in s.bumps && step.call in s.executed && s.bumps[step.call].owner == m
        && u == CacheEpoch.AfterBump(l, s.bumps[step.call].scope, s.executed[step.call]))
  }

  lemma ReadStepMoves(s: State, step: Step, m: nat)
    requires m in s.processes && (step.StartRead? || step.ReadFails? || step.ExecuteRead?)
    ensures m in Next(s, step).processes && LocalMoves(s, step, s.processes[m].local, Next(s, step).processes[m].local, m)
  {
  }

  lemma HearingMoves(s: State, n: nat, m: nat)
    requires m in s.processes
    ensures
      var t := Next(s, ReadLands(n));
      m in t.processes && LocalMoves(s, ReadLands(n), s.processes[m].local, t.processes[m].local, m)
  {
    hide CacheEpoch.AfterRead;
    if ReadIsBack(s, n) {
      assert Next(s, ReadLands(n)) == HearingRead(s, n);
      hide Next;
      if n == m {
        var rows := s.answers[s.processes[m].reading.value];
        assert HearingRead(s, n).processes[m].local == CacheEpoch.AfterRead(s.processes[m].local, rows);
      }
    }
  }

  lemma CacheStepMoves(s: State, step: Step, m: nat)
    requires m in s.processes && (step.Load? || step.Evict?)
    ensures m in Next(s, step).processes && LocalMoves(s, step, s.processes[m].local, Next(s, step).processes[m].local, m)
  {
    hide HoldingLoad;
  }

  lemma ProcessStepMoves(s: State, step: Step, m: nat)
    requires m in s.processes && m in s.booted && (step.Boot? || step.Crash? || step.Commit? || step.ClearLocally?)
    ensures m in Next(s, step).processes ==> LocalMoves(s, step, s.processes[m].local, Next(s, step).processes[m].local, m)
  {
    hide Announced, ClearedIn;
  }

  lemma DatabaseStepMoves(s: State, step: Step, m: nat)
    requires m in s.processes && (step.ExecuteBump? || step.LoseBump?)
    ensures m in Next(s, step).processes && LocalMoves(s, step, s.processes[m].local, Next(s, step).processes[m].local, m)
  {
  }

  lemma LandingMoves(s: State, call: nat, m: nat)
    requires m in s.processes
    ensures
      var t := Next(s, BumpLands(call));
      m in t.processes && LocalMoves(s, BumpLands(call), s.processes[m].local, t.processes[m].local, m)
  {
    hide PendingAfter, WithPending, CacheEpoch.AfterBump;
  }

  lemma FailingMoves(s: State, step: Step, m: nat)
    requires m in s.processes && (step.BumpFails? || step.TimerFires?)
    ensures m in Next(s, step).processes && LocalMoves(s, step, s.processes[m].local, Next(s, step).processes[m].local, m)
  {
    hide PendingAfter, WithPending, CacheEpoch.AfterTimer, GivingUp, ClearedIn;
    if step.BumpFails? && IsAwaited(s, step.call) {
      var b := s.bumps[step.call];
      var pending := PendingAfter(s.processes[b.owner], b.scope, step.call, step.outcome);
      PendingIsNotMemory(s.processes[b.owner], b.scope, pending);
      var q := WithPending(s.processes[b.owner], b.scope, pending);
      GivingUpOnlyRecords(s.(awaiting := s.awaiting - {step.call}, processes := s.processes[b.owner := q]), b.owner, b.scope);
    } else if step.TimerFires? && TimerRuns(s, step.m, step.scope) {
      var pending := CacheEpoch.AfterTimer(s.processes[step.m].pending[step.scope], step.ending, s.nextCall);
      PendingIsNotMemory(s.processes[step.m], step.scope, pending);
      var q := WithPending(s.processes[step.m], step.scope, pending);
      GivingUpOnlyRecords(s.(processes := s.processes[step.m := q]), step.m, step.scope);
    }
  }

  lemma StepMoves(s: State, step: Step, m: nat)
    requires CallsOk(s) && m in s.processes && m in Next(s, step).processes
    ensures LocalMoves(s, step, s.processes[m].local, Next(s, step).processes[m].local, m)
  {
    assert m in s.booted;
    hide CallsOk, Next, LocalMoves;
    match step
    case Boot(_) => ProcessStepMoves(s, step, m);
    case Crash(_) => ProcessStepMoves(s, step, m);
    case Commit(_, _) => ProcessStepMoves(s, step, m);
    case ClearLocally(_, _) => ProcessStepMoves(s, step, m);
    case ExecuteBump(_) => DatabaseStepMoves(s, step, m);
    case LoseBump(_) => DatabaseStepMoves(s, step, m);
    case BumpLands(call) => LandingMoves(s, call, m);
    case BumpFails(_, _) => FailingMoves(s, step, m);
    case TimerFires(_, _, _) => FailingMoves(s, step, m);
    case Load(_, _) => CacheStepMoves(s, step, m);
    case Evict(_, _) => CacheStepMoves(s, step, m);
    case ReadLands(n) => HearingMoves(s, n, m);
    case _ => ReadStepMoves(s, step, m);
  }

  /** An effect of the scope leaves nothing older than a write of it. */
  lemma BumpTells(l: CacheEpoch.Local, scope: Scope, epoch: nat, writes: seq<Write>, i: nat)
    requires Holds(l.cache, writes) && i < |writes|
    ensures
      var u, mine := CacheEpoch.AfterBump(l, scope, epoch), ScopeOf(writes[i].kind);
      && (AllFresh(l.cache, writes, i) ==> AllFresh(u.cache, writes, i))
      && (scope == mine && CacheEpoch.MovedElsewhere(l.lastSeen, scope, epoch) ==> AllFresh(u.cache, writes, i))
      && (scope != mine ==> NumberOf(u.lastSeen, mine) == NumberOf(l.lastSeen, mine))
      && (scope == mine ==> NumberOf(u.lastSeen, mine) == Max(NumberOf(l.lastSeen, mine), epoch))
  {
    var u, mine := CacheEpoch.AfterBump(l, scope, epoch), ScopeOf(writes[i].kind);
    if scope == mine && CacheEpoch.MovedElsewhere(l.lastSeen, scope, epoch) {
      forall k | k in u.cache ensures Fresh(u.cache[k], writes, i) { SurvivorsAreUntouched(k, u.cache[k], scope, writes, i); }
    }
    hide Fresh, EntryOk;
  }

  lemma ReadTells(l: CacheEpoch.Local, rows: map<Scope, nat>, writes: seq<Write>, i: nat)
    requires Holds(l.cache, writes) && i < |writes|
    ensures
      var u, mine := CacheEpoch.AfterRead(l, rows), ScopeOf(writes[i].kind);
      && (AllFresh(l.cache, writes, i) ==> AllFresh(u.cache, writes, i))
      && (NumberOf(u.lastSeen, mine) != NumberOf(l.lastSeen, mine) ==> AllFresh(u.cache, writes, i))
  {
    var u, mine := CacheEpoch.AfterRead(l, rows), ScopeOf(writes[i].kind);
    if mine in rows && CacheEpoch.Moved(l.lastSeen, mine, rows[mine]) {
      forall k | k in u.cache ensures Fresh(u.cache[k], writes, i) { SurvivorsAreUntouched(k, u.cache[k], mine, writes, i); }
    }
    hide Fresh, EntryOk;
  }

  /** Every number above n the process has taken on has been its own. */
  ghost predicate OnlyOwnNumbers(s: State, m: nat, scope: Scope, n: nat, upTo: nat) {
    forall k: nat :: n < k <= upTo ==> OwnNumber(s, m, scope, k)
  }

  /** The process holds nothing older than write i, unless it has heard nothing above n but its own numbers. */
  ghost predicate Told(s: State, m: nat, n: nat, i: nat)
    requires m in s.processes && i < |s.writes|
  {
    var l, scope := s.processes[m].local, ScopeOf(s.writes[i].kind);
    OnlyOwnNumbers(s, m, scope, n, NumberOf(l.lastSeen, scope)) || AllFresh(l.cache, s.writes, i)
  }

  ghost predicate AllTold(s: State, n: nat, i: nat) { i < |s.writes| && forall m :: m in s.processes ==> Told(s, m, n, i) }

  lemma HeldIsOk(s: State, m: nat)
    requires Inv(s) && m in s.processes
    ensures Holds(s.processes[m].local.cache, s.writes)
  {
    assert CachesOk(s) && CacheOk(s.processes[m].local, s.processes[m].cleared, s.writes, s.landed);
  }

  lemma OwnNumbersStand(s: State, step: Step, t: State, m: nat, scope: Scope, n: nat, upTo: nat)
    requires DatabaseOk(s) && NumbersGrow(s, step, t) && OnlyOwnNumbers(s, m, scope, n, upTo)
    ensures OnlyOwnNumbers(t, m, scope, n, upTo)
  {
    hide DatabaseOk;
    forall k: nat | n < k <= upTo ensures OwnNumber(t, m, scope, k) {
      assert OwnNumber(s, m, scope, k);
      var c :| c in s.executed && c in s.bumps && s.bumps[c].owner == m && s.bumps[c].scope == scope && s.executed[c] == k;
    }
  }

  lemma OwnBumpTells(s: State, call: nat, m: nat, n: nat, i: nat)
    requires m in s.processes && i < |s.writes| && Told(s, m, n, i) && Holds(s.processes[m].local.cache, s.writes)
    requires call in s.bumps && call in s.executed && s.bumps[call].owner == m
    ensures
      var u := CacheEpoch.AfterBump(s.processes[m].local, s.bumps[call].scope, s.executed[call]);
      var scope := ScopeOf(s.writes[i].kind);
      OnlyOwnNumbers(s, m, scope, n, NumberOf(u.lastSeen, scope)) || AllFresh(u.cache, s.writes, i)
  {
    var scope := ScopeOf(s.writes[i].kind);
    BumpTells(s.processes[m].local, s.bumps[call].scope, s.executed[call], s.writes, i);
    hide CacheEpoch.AfterBump, AllFresh, Holds;
    if s.bumps[call].scope == scope { assert OwnNumber(s, m, scope, s.executed[call]); }
  }

  /** What one process's move leaves of being told, whatever the move. */
  lemma MovesTell(s: State, step: Step, u: CacheEpoch.Local, m: nat, n: nat, i: nat)
    requires Inv(s) && m in s.processes && i < |s.writes| && Told(s, m, n, i) && LocalMoves(s, step, s.processes[m].local, u, m)
    ensures
      var scope := ScopeOf(s.writes[i].kind);
      OnlyOwnNumbers(s, m, scope, n, NumberOf(u.lastSeen, scope)) || AllFresh(u.cache, s.writes, i)
  {
    var l, scope := s.processes[m].local, ScopeOf(s.writes[i].kind);
    HeldIsOk(s, m);
    hide Inv;
    if step.Load? && u == l.(cache := HoldingLoad(l.cache, step.key, |s.writes|)) {
      if AllFresh(l.cache, s.writes, i) { LoadIsAsFreshAsTheCache(l.cache, step.key, s.writes, i); }
    } else if rows :| u == CacheEpoch.AfterRead(l, rows) {
      ReadTells(l, rows, s.writes, i);
      hide CacheEpoch.AfterRead, AllFresh;
    } else if step.BumpLands? && step.call in s.bumps && step.call in s.executed && s.bumps[step.call].owner == m
      && u == CacheEpoch.AfterBump(l, s.bumps[step.call].scope, s.executed[step.call])
    {
      OwnBumpTells(s, step.call, m, n, i);
    }
  }

  lemma StepTells(s: State, step: Step, n: nat, i: nat)
    requires Inv(s) && AllTold(s, n, i)
    ensures AllTold(Next(s, step), n, i)
  {
    var t := Next(s, step);
    OneStepStands(s, step);
    InvParts(s);
    assert i < |t.writes| && t.writes[i] == s.writes[i];
    forall m | m in t.processes ensures Told(t, m, n, i) {
      if m in s.processes {
        StepMoves(s, step, m);
        MovesTell(s, step, t.processes[m].local, m, n, i);
        StillTold(s, step, t, m, n, i);
      } else {
        ArrivesEmpty(s, step, m);
      }
    }
  }

  lemma InvParts(s: State)
    requires Inv(s)
    ensures DatabaseOk(s) && CallsOk(s)
  {
  }

  lemma ArrivesEmpty(s: State, step: Step, m: nat)
    requires m !in s.processes && m in Next(s, step).processes
    ensures Next(s, step).processes[m].local == CacheEpoch.Local(map[], map[])
  {
    if !step.Boot? { NobodyComes(s, step, m); }
  }

  lemma NobodyComes(s: State, step: Step, m: nat)
    requires m !in s.processes && (step == Boot(m) ==> m in s.booted)
    ensures m !in Next(s, step).processes
  {
    if step.BumpLands? || step.BumpFails? || step.TimerFires? {
      hide Covered, PendingAfter, WithPending, CacheEpoch.AfterBump, CacheEpoch.AfterTimer, ClearedIn;
    } else {
      hide Announced, CacheEpoch.AfterRead, HoldingLoad, WithoutStale, ClearedIn;
    }
  }

  lemma StillTold(s: State, step: Step, t: State, m: nat, n: nat, i: nat)
    requires DatabaseOk(s) && NumbersGrow(s, step, t) && m in t.processes && i < |s.writes| && s.writes <= t.writes
    requires
      var u, scope := t.processes[m].local, ScopeOf(s.writes[i].kind);
      OnlyOwnNumbers(s, m, scope, n, NumberOf(u.lastSeen, scope)) || AllFresh(u.cache, s.writes, i)
    ensures Told(t, m, n, i)
  {
    var u, scope := t.processes[m].local, ScopeOf(s.writes[i].kind);
    assert t.writes[i] == s.writes[i];
    if OnlyOwnNumbers(s, m, scope, n, NumberOf(u.lastSeen, scope)) {
      OwnNumbersStand(s, step, t, m, scope, n, NumberOf(u.lastSeen, scope));
    }
    hide DatabaseOk, NumbersGrow, OnlyOwnNumbers;
  }

  lemma {:induction false} RunTells(s: State, run: seq<Step>, n: nat, i: nat)
    requires Inv(s) && AllTold(s, n, i)
    ensures AllTold(Exec(s, run), n, i)
    decreases |run|
  {
    if run != [] {
      StepTells(s, run[0], n, i);
      InvKept(s, run[0]);
      hide Inv, AllTold, Next;
      RunTells(Next(s, run[0]), run[1..], n, i);
    }
  }

  lemma NobodyIsAhead(s: State, i: nat)
    requires Inv(s) && i < |s.writes|
    ensures AllTold(s, NumberOf(s.epochs, ScopeOf(s.writes[i].kind)), i)
  {
    forall m | m in s.processes ensures Told(s, m, NumberOf(s.epochs, ScopeOf(s.writes[i].kind)), i) {
      assert CallsOk(s) && ProcessOk(s, m, s.processes[m]);
    }
  }

  /**
   * Whatever becomes of a committed write's own bump, its process included: once a process
   * has taken on any later number of the write's scope that is not one of its own, it
   * holds nothing older than the write.
   */
  lemma ALaterNumberTellsEverybody(seed: map<Scope, nat>, before: seq<Step>, after: seq<Step>, i: nat, m: nat, k: nat, key: Key)
    requires i < |Exec(Initial(seed), before).writes|
    requires
      var early := Exec(Initial(seed), before);
      var s, scope := Exec(early, after), ScopeOf(early.writes[i].kind);
      && m in s.processes && key in s.processes[m].local.cache
      && NumberOf(early.epochs, scope) < k <= NumberOf(s.processes[m].local.lastSeen, scope) && !OwnNumber(s, m, scope, k)
    ensures Fresh(Exec(Exec(Initial(seed), before), after).processes[m].local.cache[key], Exec(Exec(Initial(seed), before), after).writes, i)
  {
    InvAlways(Initial(seed), before);
    var early := Exec(Initial(seed), before);
    LaterNumberTells(early, after, i, m, k);
  }

  lemma LaterNumberTells(early: State, after: seq<Step>, i: nat, m: nat, k: nat)
    requires Inv(early) && i < |early.writes|
    requires
      var s, scope := Exec(early, after), ScopeOf(early.writes[i].kind);
      && m in s.processes && NumberOf(early.epochs, scope) < k <= NumberOf(s.processes[m].local.lastSeen, scope)
      && !OwnNumber(s, m, scope, k)
    ensures AllFresh(Exec(early, after).processes[m].local.cache, Exec(early, after).writes, i)
  {
    hide Inv, Exec;
    NumbersStand(early, after);
    NobodyIsAhead(early, i);
    RunTells(early, after, NumberOf(early.epochs, ScopeOf(early.writes[i].kind)), i);
    assert Exec(early, after).writes[i] == early.writes[i];
    assert Told(Exec(early, after), m, NumberOf(early.epochs, ScopeOf(early.writes[i].kind)), i);
    hide OwnNumber;
  }

  // ---- A process's next bump ----

  function KindOf(scope: Scope): WriteKind { if scope.All? then GameWrite else CommentWrite }

  /** Everything this process has cleared up after in the scope is announced. */
  ghost predicate OwnAnnounced(s: State, m: nat, scope: Scope)
    requires m in s.processes
  {
    forall i: nat :: i in s.processes[m].cleared && InScope(s, i, scope) ==> Announced(s, i)
  }

  /** A clear issues a bump, still to arrive, for everything its process has cleared up after in the scope. */
  lemma ClearingIssuesForAll(s: State, m: nat, i: nat, scope: Scope)
    requires DatabaseOk(s) && CanClear(s, m, i) && ScopeOf(s.writes[i].kind) == scope
    ensures
      var u := Next(s, ClearLocally(m, i));
      && CanArrive(u, s.nextCall) && u.bumps[s.nextCall].scope == scope && u.bumps[s.nextCall].owner == m && m in u.processes
      && (forall j: nat :: j in u.processes[m].cleared && InScope(u, j, scope) ==> j in u.bumps[s.nextCall].covers)
      && s.processes[m].cleared + {i} <= u.processes[m].cleared && u.writes == s.writes
      && u.processes == s.processes[m := u.processes[m]]
  {
    NextCallIsNew(s);
    var q := Cleared(s.processes[m], i, s.writes[i].kind);
    assert Next(s, ClearLocally(m, i)) == Issue(WithProcess(s, m, q), m, scope);
    hide Next, WithoutStale;
  }

  lemma ArrivingAnnounces(s: State, c: nat)
    requires CanArrive(s, c)
    ensures
      var t := Next(s, ExecuteBump(c));
      && t.processes == s.processes && t.writes == s.writes && s.bumps[c].scope in t.epochs && t.bumps == s.bumps
      && t.awaiting == s.awaiting && t.lost == s.lost && t.abandoned == s.abandoned && c in t.executed
      && (forall d :: d in t.executed ==> d == c || d in s.executed) && s.epochs.Keys <= t.epochs.Keys
      && forall j: nat :: j in s.bumps[c].covers ==> Announced(t, j)
  {
    var t := Next(s, ExecuteBump(c));
    assert t == Executing(s, c);
    var st := Stamp(s.bumps[c].scope, t.executed[c]);
    assert st in t.landed && t.landed[st] == s.bumps[c].covers;
    hide Next;
  }

  /** The bump of a clear, carried out, announces every write of the scope its process ever cleared up after, given up on or not. */
  lemma NextBumpAnnounces(s: State, m: nat, i: nat, scope: Scope)
    requires Inv(s) && CanClear(s, m, i) && ScopeOf(s.writes[i].kind) == scope
    ensures
      var t := Next(Next(s, ClearLocally(m, i)), ExecuteBump(s.nextCall));
      && m in t.processes && s.processes[m].cleared + {i} <= t.processes[m].cleared && OwnAnnounced(t, m, scope) && scope in t.epochs
      && t.processes.Keys == s.processes.Keys && t.writes == s.writes
      && forall n :: n in s.processes && n != m ==> t.processes[n] == s.processes[n]
  {
    assert DatabaseOk(s);
    hide Inv, DatabaseOk, Next, CanArrive, Announced;
    ClearingIssuesForAll(s, m, i, scope);
    ArrivingAnnounces(Next(s, ClearLocally(m, i)), s.nextCall);
  }

  lemma WritingOnce(s: State, m: nat, kind: WriteKind)
    requires Inv(s) && m in s.processes
    ensures
      var u := Next(s, Commit(m, kind));
      && Inv(u) && CanClear(u, m, |s.writes|) && u.processes == s.processes && u.nextCall == s.nextCall
      && u.writes == s.writes + [Write(kind, m)]
  {
    InvKept(s, Commit(m, kind));
    assert CallsOk(s) && ProcessOk(s, m, s.processes[m]);
    hide Inv;
  }

  lemma ThreeSteps(s: State, a: Step, b: Step, c: Step)
    ensures Exec(s, [a, b, c]) == Next(Next(Next(s, a), b), c)
  {
    hide Next;
    assert [a, b, c] == [a] + ([b] + [c]);
    ExecInTwo(s, [a], [b] + [c]);
    ExecOne(s, a);
    ExecInTwo(Next(s, a), [b], [c]);
    ExecOne(Next(s, a), b);
    ExecOne(Next(Next(s, a), b), c);
  }


  // ---- Settled ----

  /** No bump of the scope is out or due. */
  ghost predicate Quiet(s: State, scope: Scope) {
    && (forall c :: c in s.awaiting && c in s.bumps ==> s.bumps[c].scope != scope)
    && (forall m :: m in s.processes ==> scope !in s.processes[m].pending)
  }

  /** The process holds the very number the scope has come to. */
  ghost predicate CaughtUp(s: State, scope: Scope, reader: nat) {
    && reader in s.processes && scope in s.epochs && scope in s.processes[reader].local.lastSeen
    && s.processes[reader].local.lastSeen[scope] == s.epochs[scope]
  }


  lemma QuietMeansAnnounced(s: State, scope: Scope, m: nat, i: nat)
    requires Inv(s) && Quiet(s, scope) && InScope(s, i, scope) && AccountedFor(s, m, i)
    requires i !in s.abandoned || Announced(s, i)
    ensures Announced(s, i)
  {
    hide CachesOk;
  }

  /**
   * Once a scope is quiet, every entry of a caught-up process shows every write of the
   * scope that was ever cleared up after, by a process still there or long gone: unless
   * that very write was given up on, has not been announced since, and nobody else's
   * number has come after it.
   */
  lemma SettledProcessesAgree(
      seed: map<Scope, nat>, before: seq<Step>, after: seq<Step>, scope: Scope, reader: nat, writer: nat, i: nat, key: Key)
    requires
      var early := Exec(Initial(seed), before);
      writer in early.processes && i in early.processes[writer].cleared
    requires
      var early := Exec(Initial(seed), before);
      var s := Exec(early, after);
      && Quiet(s, scope) && CaughtUp(s, scope, reader) && key in s.processes[reader].local.cache && InScope(s, i, scope)
      && (i !in s.abandoned || Announced(s, i)
          || exists k: nat :: NumberOf(early.epochs, scope) < k <= s.epochs[scope] && !OwnNumber(s, reader, scope, k))
    ensures
      var s := Exec(Exec(Initial(seed), before), after);
      var e := s.processes[reader].local.cache[key];
      && (forall p :: p in e && Clears(s.writes[i].kind, p) ==> i < e[p])
      && (forall p :: p in e && DependsOn(p, s.writes[i].kind) ==> i < e[p])
  {
    DependentsAreDropped(Exec(Exec(Initial(seed), before), after).writes[i].kind);
    var early := Exec(Initial(seed), before);
    InvAlways(Initial(seed), before);
    InvAlways(early, after);
    var s := Exec(early, after);
    if i !in s.abandoned || Announced(s, i) {
      OnceClearedAccountedFor(early, after, writer, i);
      QuietMeansAnnounced(s, scope, writer, i);
      var st :| st in s.landed && i in s.landed[st];
      assert DatabaseOk(s) && Heard(s.epochs, st) && InHistory(s.writes, st.scope, s.landed[st]);
      ExecInTwo(Initial(seed), before, after);
      HeldEntriesAreFresh(seed, before + after, reader, key, st, i);
    } else {
      var k: nat :| NumberOf(early.epochs, scope) < k <= s.epochs[scope] && !OwnNumber(s, reader, scope, k);
      ClearedIsKnown(early, after, writer, i);
      LaterNumberTells(early, after, i, reader, k);
    }
  }

  lemma ClearedIsKnown(early: State, after: seq<Step>, writer: nat, i: nat)
    requires Inv(early) && writer in early.processes && i in early.processes[writer].cleared
    ensures i < |early.writes| && early.writes <= Exec(early, after).writes
  {
    assert CallsOk(early) && ProcessOk(early, writer, early.processes[writer]);
    hide Inv, CallsOk;
    NumbersStand(early, after);
  }

  // ---- The bumps that are out come back ----

  /** Nobody goes, nothing is lost, and no cache is touched but by what the protocol tells. */
  predicate IsGentle(step: Step) { !step.Crash? && !step.LoseBump? && !step.Load? && !step.Evict? }

  /** The scope's retry has still to go out, now or once more. */
  predicate Due(p: Process, scope: Scope) {
    scope in p.pending && (p.pending[scope].inFlight.None? || p.pending[scope].again)
  }

  function OutIn(s: State, scope: Scope): set<nat> {
    set c | c in s.awaiting && c in s.bumps && s.bumps[c].scope == scope
  }

  function DueIn(s: State, scope: Scope): set<nat> { set m | m in s.processes && Due(s.processes[m], scope) }

  /** The same processes, with the same to remember. */
  ghost predicate SameCompany(s: State, t: State) {
    && t.processes.Keys == s.processes.Keys && t.writes == s.writes && t.lost == s.lost && s.epochs.Keys <= t.epochs.Keys
    && forall m :: m in s.processes ==> t.processes[m].cleared == s.processes[m].cleared
  }

  /** Out, and never to be answered but by a failure. */
  function LostIn(s: State, scope: Scope): set<nat> { OutIn(s, scope) * s.lost }

  lemma LandingKeepsDue(p: Process, scope: Scope, call: nat)
    ensures Due(WithPending(p, scope, PendingAfter(p, scope, call, CacheEpoch.Landed)), scope) <==> Due(p, scope)
  {
  }

  lemma LandingSettlesOne(s: State, scope: Scope, call: nat)
    requires call in OutIn(s, scope) && IsAwaited(s, call) && call in s.executed
    ensures
      var t := Next(s, BumpLands(call));
      SameCompany(s, t) && t.abandoned == s.abandoned && OutIn(t, scope) == OutIn(s, scope) - {call} && DueIn(t, scope) == DueIn(s, scope)
  {
    hide PendingAfter, WithPending, CacheEpoch.AfterBump;
    var t := Next(s, BumpLands(call));
    var m := s.bumps[call].owner;
    assert t == Landing(s, call);
    PendingIsNotMemory(s.processes[m], scope, PendingAfter(s.processes[m], scope, call, CacheEpoch.Landed));
    LandingKeepsDue(s.processes[m], scope, call);
    forall n | n in s.processes ensures Due(t.processes[n], scope) <==> Due(s.processes[n], scope) {
      if n == m {
        assert t.processes[m].pending == WithPending(s.processes[m], scope, PendingAfter(s.processes[m], scope, call, CacheEpoch.Landed)).pending;
      }
    }
  }

  /** A failure is the end of one call, and at worst makes its process's retry due. */
  lemma FailingSettlesOne(s: State, scope: Scope, call: nat)
    requires call in OutIn(s, scope) && IsAwaited(s, call)
    ensures
      var t := Next(s, BumpFails(call, CacheEpoch.Failed));
      && SameCompany(s, t) && OutIn(t, scope) == OutIn(s, scope) - {call}
      && DueIn(t, scope) <= DueIn(s, scope) + {s.bumps[call].owner}
  {
    var m := s.bumps[call].owner;
    var pending := PendingAfter(s.processes[m], scope, call, CacheEpoch.Failed);
    var q := WithPending(s.processes[m], scope, pending);
    var u := s.(awaiting := s.awaiting - {call}, processes := s.processes[m := q]);
    PendingIsNotMemory(s.processes[m], scope, pending);
    GivingUpOnlyRecords(u, m, scope);
    hide GivingUp, PendingAfter, WithPending;
    assert Next(s, BumpFails(call, CacheEpoch.Failed)) in {u, GivingUp(u, m, scope)};
    hide Next, Due;
  }

  lemma FiringMovesOne(s: State, scope: Scope, m: nat)
    requires DatabaseOk(s) && CallsOk(s) && TimerRuns(s, m, scope)
    ensures
      var t := Next(s, TimerFires(m, scope, false));
      && SameCompany(s, t) && t.abandoned == s.abandoned && t.lost == s.lost && DueIn(t, scope) == DueIn(s, scope) - {m} && m in DueIn(s, scope)
      && OutIn(t, scope) == OutIn(s, scope) + {s.nextCall} && s.nextCall !in OutIn(s, scope) && s.nextCall !in s.lost
  {
    FiredAgain(s, scope, m);
    var t := Next(s, TimerFires(m, scope, false));
    assert ProcessOk(s, m, s.processes[m]);
    hide DatabaseOk, CallsOk, ProcessOk, Next;
    assert !Due(t.processes[m], scope) && t.processes[m].cleared == s.processes[m].cleared;
  }

  lemma FiredAgain(s: State, scope: Scope, m: nat)
    requires DatabaseOk(s) && TimerRuns(s, m, scope)
    ensures
      var t := Next(s, TimerFires(m, scope, false));
      && t.processes == s.processes[m := RetryOut(s.processes[m], scope, s.nextCall)] && t.abandoned == s.abandoned
      && t.writes == s.writes && t.epochs == s.epochs && t.lost == s.lost && t.awaiting == s.awaiting + {s.nextCall}
      && s.nextCall !in s.bumps && s.nextCall in t.bumps && t.bumps == s.bumps[s.nextCall := t.bumps[s.nextCall]]
      && t.bumps[s.nextCall].scope == scope && s.nextCall !in s.lost
  {
    var t := Next(s, TimerFires(m, scope, false));
    assert t == Firing(s, m, scope, false);
    NextCallIsNew(s);
    FiringAgainIsIssuing(s, m, scope);
    hide DatabaseOk, ClearedIn, Firing, Next;
  }

  /** With no bump out, a retry that has not gone waits on its timer. */
  lemma DueMeansTimer(s: State, scope: Scope, m: nat)
    requires CallsOk(s) && OutIn(s, scope) == {} && m in s.processes && scope in s.processes[m].pending
    ensures TimerRuns(s, m, scope)
  {
    assert ProcessOk(s, m, s.processes[m]);
    var inFlight := s.processes[m].pending[scope].inFlight;
    if inFlight.Some? { IsOutIn(s, scope, inFlight.value); }
  }

  lemma IsOutIn(s: State, scope: Scope, call: nat)
    requires call in s.awaiting && call in s.bumps && s.bumps[call].scope == scope
    ensures OutIn(s, scope) != {}
  {
    assert call in OutIn(s, scope);
  }

  lemma IsDueIn(s: State, scope: Scope, m: nat)
    requires TimerRuns(s, m, scope)
    ensures DueIn(s, scope) != {}
  {
    assert m in DueIn(s, scope);
  }

  lemma OutIsAwaited(s: State, scope: Scope, call: nat)
    requires Inv(s) && call in OutIn(s, scope)
    ensures IsAwaited(s, call)
  {
    assert CallsOk(s);
  }

  lemma NothingRemaining(s: State, scope: Scope)
    requires Inv(s) && OutIn(s, scope) == {} && DueIn(s, scope) == {}
    ensures Quiet(s, scope)
  {
    forall c | c in s.awaiting && c in s.bumps ensures s.bumps[c].scope != scope {
      if s.bumps[c].scope == scope { IsOutIn(s, scope, c); }
    }
    forall m | m in s.processes ensures scope !in s.processes[m].pending {
      if scope in s.processes[m].pending {
        DueMeansTimer(s, scope, m);
        IsDueIn(s, scope, m);
      }
    }
  }

  /** A call that is lost can be waited for in vain and then make a retry due, which is one call more. */
  function Remaining(s: State, scope: Scope): nat { |OutIn(s, scope)| + 2 * |LostIn(s, scope)| + 2 * |DueIn(s, scope)| }

  /** Nearer to rest, with nobody gone, and nothing given up but for a call that was lost. */
  ghost predicate Nearer(s: State, t: State, scope: Scope) {
    && SameCompany(s, t) && Remaining(t, scope) < Remaining(s, scope)
    && (LostIn(s, scope) == {} ==> LostIn(t, scope) == {} && t.abandoned == s.abandoned)
  }

  /** One bump carried out and answered. */
  lemma OneBumpLess(s: State, scope: Scope, call: nat) returns (run: seq<Step>)
    requires Inv(s) && call in OutIn(s, scope) && call !in s.lost
    ensures (forall step :: step in run ==> IsGentle(step)) && Nearer(s, Exec(s, run), scope)
  {
    hide Inv, Next, Exec, Due;
    OutIsAwaited(s, scope, call);
    var u := Next(s, ExecuteBump(call));
    ArrivedOrNot(s, call);
    LandingSettlesOne(u, scope, call);
    run := [ExecuteBump(call)] + [BumpLands(call)];
    ExecInTwo(s, [ExecuteBump(call)], [BumpLands(call)]);
    ExecOne(s, ExecuteBump(call));
    ExecOne(u, BumpLands(call));
    FewerOut(s, u, Next(u, BumpLands(call)), scope, call);
  }

  lemma ArrivedOrNot(s: State, call: nat)
    requires IsAwaited(s, call) && call !in s.lost
    ensures
      var u := Next(s, ExecuteBump(call));
      && call in u.executed && IsAwaited(u, call) && u.processes == s.processes && u.writes == s.writes && u.bumps == s.bumps
      && u.awaiting == s.awaiting && u.lost == s.lost && u.abandoned == s.abandoned && s.epochs.Keys <= u.epochs.Keys
  {
    if CanArrive(s, call) {
      ArrivingAnnounces(s, call);
      hide Next;
    }
  }

  lemma FewerOut(s: State, u: State, t: State, scope: Scope, call: nat)
    requires u.bumps == s.bumps && u.awaiting == s.awaiting && u.processes == s.processes && u.writes == s.writes && u.lost == s.lost
    requires u.abandoned == s.abandoned && s.epochs.Keys <= u.epochs.Keys && call in OutIn(s, scope) && call !in s.lost
    requires SameCompany(u, t) && t.abandoned == u.abandoned
    requires OutIn(t, scope) == OutIn(u, scope) - {call} && DueIn(t, scope) == DueIn(u, scope)
    ensures Nearer(s, t, scope)
  {
    assert OutIn(u, scope) == OutIn(s, scope) && DueIn(u, scope) == DueIn(s, scope);
    hide OutIn, DueIn;
    assert LostIn(t, scope) == LostIn(s, scope);
    assert |OutIn(t, scope)| == |OutIn(s, scope)| - 1;
  }

  /** One call that was lost, found to have failed. */
  lemma OneLostLess(s: State, scope: Scope, call: nat) returns (run: seq<Step>)
    requires Inv(s) && call in OutIn(s, scope) && call in s.lost
    ensures (forall step :: step in run ==> IsGentle(step)) && Nearer(s, Exec(s, run), scope)
  {
    hide Inv, Next, Exec, OutIn, DueIn;
    OutIsAwaited(s, scope, call);
    FailingSettlesOne(s, scope, call);
    run := [BumpFails(call, CacheEpoch.Failed)];
    ExecOne(s, BumpFails(call, CacheEpoch.Failed));
    var t := Exec(s, run);
    assert LostIn(t, scope) == LostIn(s, scope) - {call} && call in LostIn(s, scope);
    AtMostOneMore(DueIn(t, scope), DueIn(s, scope), s.bumps[call].owner);
  }

  lemma AtMostOneMore(a: set<nat>, b: set<nat>, x: nat)
    requires a <= b + {x}
    ensures |a| <= |b| + 1
  {
    Subset(a, b + {x});
    if x in b { assert b + {x} == b; }
  }

  lemma {:induction false} Subset(a: set<nat>, b: set<nat>)
    requires a <= b
    ensures |a| <= |b|
  {
    if x :| x in a {
      Subset(a - {x}, b - {x});
    }
  }

  /** One timer gone off. */
  lemma OneTimerLess(s: State, scope: Scope, m: nat) returns (run: seq<Step>)
    requires Inv(s) && OutIn(s, scope) == {} && m in DueIn(s, scope)
    ensures (forall step :: step in run ==> IsGentle(step)) && Nearer(s, Exec(s, run), scope)
  {
    hide Inv, Next, OutIn, DueIn, Exec, SameCompany, TimerRuns;
    run := [TimerFires(m, scope, false)];
    InvParts(s);
    DueIsPending(s, scope, m);
    DueMeansTimer(s, scope, m);
    hide DatabaseOk, CallsOk;
    FiringMovesOne(s, scope, m);
    ExecOne(s, TimerFires(m, scope, false));
    OneMoreOutOneLessDue(s, Exec(s, run), scope, m, s.nextCall);
  }

  lemma DueIsPending(s: State, scope: Scope, m: nat)
    requires m in DueIn(s, scope)
    ensures m in s.processes && scope in s.processes[m].pending
  {
  }

  lemma OneMoreOutOneLessDue(s: State, t: State, scope: Scope, m: nat, call: nat)
    requires OutIn(t, scope) == OutIn(s, scope) + {call} && call !in OutIn(s, scope) && call !in s.lost && t.lost == s.lost
    requires DueIn(t, scope) == DueIn(s, scope) - {m} && m in DueIn(s, scope)
    ensures Remaining(t, scope) < Remaining(s, scope) && LostIn(t, scope) == LostIn(s, scope)
  {
    hide OutIn, DueIn;
    assert LostIn(t, scope) == LostIn(s, scope);
  }

  /** Answers and timers bring the scope to rest, with nobody gone; nothing is given up on the way unless a call was lost. */
  lemma {:induction false} CanQuieten(s: State, scope: Scope) returns (run: seq<Step>)
    requires Inv(s)
    ensures forall step :: step in run ==> IsGentle(step)
    ensures
      var t := Exec(s, run);
      Quiet(t, scope) && SameCompany(s, t) && (LostIn(s, scope) == {} ==> t.abandoned == s.abandoned)
    decreases Remaining(s, scope)
  {
    hide Inv, Next, Quiet, Remaining, OutIn, DueIn, IsGentle, LostIn;
    var first: seq<Step> := [];
    assert Exec(s, first) == s;
    if OutIn(s, scope) != {} {
      var call :| call in OutIn(s, scope);
      if call in s.lost { first := OneLostLess(s, scope, call); } else { first := OneBumpLess(s, scope, call); }
    } else if DueIn(s, scope) != {} {
      var m :| m in DueIn(s, scope);
      first := OneTimerLess(s, scope, m);
    } else {
      NothingRemaining(s, scope);
      return first;
    }
    InvAlways(s, first);
    var rest := CanQuieten(Exec(s, first), scope);
    ExecInTwo(s, first, rest);
    run := first + rest;
  }


  // ---- And then a read ----

  /** Reads are answered under numbers that have been given out. */
  ghost predicate Answered(s: State) { forall c :: c in s.answers ==> c < s.nextCall }

  lemma {:induction false} AnsweredAlways(s: State, run: seq<Step>)
    requires Inv(s) && Answered(s)
    ensures Answered(Exec(s, run))
    decreases |run|
  {
    if run != [] {
      HistoryStands(s, run[0]);
      InvKept(s, run[0]);
      hide Inv, Next;
      AnsweredAlways(Next(s, run[0]), run[1..]);
    }
  }

  lemma DroppingARead(s: State, m: nat)
    requires m in s.processes
    ensures Next(s, ReadFails(m)) == WithProcess(s, m, s.processes[m].(reading := None))
  {
  }

  lemma AskingForARead(s: State, m: nat)
    requires m in s.processes && s.processes[m].reading.None?
    ensures Next(s, StartRead(m)) == Reading(s, m)
  {
  }

  lemma AnsweringARead(s: State, call: nat)
    requires call < s.nextCall && call !in s.answers
    ensures Next(s, ExecuteRead(call)) == Answering(s, call)
  {
  }

  lemma TakingARead(s: State, m: nat)
    requires ReadIsBack(s, m)
    ensures Next(s, ReadLands(m)) == HearingRead(s, m)
  {
  }

  /** A read of its own, all the way, brings any process up to date and changes nothing else. */
  lemma CanCatchUp(s: State, reader: nat) returns (run: seq<Step>)
    requires Inv(s) && Answered(s) && reader in s.processes
    ensures forall step :: step in run ==> IsGentle(step)
    ensures
      var p := s.processes[reader];
      var q := p.(local := CacheEpoch.AfterRead(p.local, s.epochs), reading := None);
      Exec(s, run) == WithProcess(s, reader, q).(nextCall := s.nextCall + 1, answers := s.answers[s.nextCall := s.epochs])
  {
    hide Inv, Next, Exec, CacheEpoch.AfterRead;
    var call := s.nextCall;
    DroppingARead(s, reader);
    var s1 := WithProcess(s, reader, s.processes[reader].(reading := None));
    AskingForARead(s1, reader);
    var s2 := Reading(s1, reader);
    AnsweringARead(s2, call);
    var s3 := Answering(s2, call);
    TakingARead(s3, reader);
    run := [ReadFails(reader)] + ([StartRead(reader)] + ([ExecuteRead(call)] + [ReadLands(reader)]));
    FourSteps(s, ReadFails(reader), StartRead(reader), ExecuteRead(call), ReadLands(reader));
    assert s3.processes[reader] == s.processes[reader].(reading := Some(call));
  }

  lemma SeenIsBehind(s: State, m: nat)
    requires Inv(s) && m in s.processes
    ensures Behind(s.processes[m].local.lastSeen, s.epochs)
  {
    assert CallsOk(s) && ProcessOk(s, m, s.processes[m]);
  }

  lemma ReadIsCaughtUp(l: CacheEpoch.Local, epochs: map<Scope, nat>, scope: Scope)
    requires Behind(l.lastSeen, epochs) && scope in epochs
    ensures
      var seen := CacheEpoch.AfterRead(l, epochs).lastSeen;
      scope in seen && seen[scope] == epochs[scope]
  {
  }

  lemma FourSteps(s: State, a: Step, b: Step, c: Step, d: Step)
    ensures Exec(s, [a] + ([b] + ([c] + [d]))) == Next(Next(Next(Next(s, a), b), c), d)
  {
    hide Next;
    ExecInTwo(s, [a], [b] + ([c] + [d]));
    ExecOne(s, a);
    ExecInTwo(Next(s, a), [b], [c] + [d]);
    ExecOne(Next(s, a), b);
    ExecInTwo(Next(Next(s, a), b), [c], [d]);
    ExecOne(Next(Next(s, a), b), c);
    ExecOne(Next(Next(Next(s, a), b), c), d);
  }

  // ---- Everybody can be told ----

  lemma StaysQuiet(s: State, t: State, scope: Scope)
    requires Quiet(s, scope) && t.awaiting == s.awaiting && t.bumps == s.bumps && t.processes.Keys == s.processes.Keys
    requires forall m :: m in s.processes ==> t.processes[m].pending == s.processes[m].pending
    ensures Quiet(t, scope)
  {
  }

  /** Nothing is out or due, and the reader, who has caught up, holds nothing older than any write of the scope. */
  ghost predicate Settled(s: State, scope: Scope, reader: nat) {
    && Quiet(s, scope) && CaughtUp(s, scope, reader)
    && forall i: nat :: InScope(s, i, scope) ==> AllFresh(s.processes[reader].local.cache, s.writes, i)
  }

  lemma {:induction false} NewName(names: set<nat>) returns (x: nat)
    ensures forall y :: y in names ==> y < x
  {
    x := 0;
    if names != {} {
      var y :| y in names;
      var z := NewName(names - {y});
      x := if y < z then z else y + 1;
      assert forall other :: other in names ==> other == y || other in names - {y};
    }
  }

  /** Somebody new comes, writes, and clears up after it: a bump of theirs is on its way. */
  lemma SomebodyElseWrites(s: State, scope: Scope) returns (w: nat, run: seq<Step>)
    requires Inv(s)
    ensures forall step :: step in run ==> IsGentle(step)
    ensures
      var u := Exec(s, run);
      && Inv(u) && w !in s.processes && s.processes.Keys <= u.processes.Keys
      && CanArrive(u, s.nextCall) && u.bumps[s.nextCall].owner == w && u.bumps[s.nextCall].scope == scope
  {
    hide Inv, Next, Exec, CanClear, CanArrive;
    w := NewName(s.booted);
    ComingIn(s, w);
    var u := Next(s, Boot(w));
    var i := |u.writes|;
    WritingOnce(u, w, KindOf(scope));
    var v := Next(u, Commit(w, KindOf(scope)));
    InvParts(v);
    hide DatabaseOk, CallsOk;
    InvKept(v, ClearLocally(w, i));
    ClearingIssuesForAll(v, w, i, scope);
    run := [Boot(w), Commit(w, KindOf(scope)), ClearLocally(w, i)];
    ThreeSteps(s, Boot(w), Commit(w, KindOf(scope)), ClearLocally(w, i));
  }

  lemma ComingIn(s: State, w: nat)
    requires Inv(s) && w !in s.booted
    ensures
      var u := Next(s, Boot(w));
      && Inv(u) && w !in s.processes && w in u.processes && s.processes.Keys <= u.processes.Keys && u.nextCall == s.nextCall
  {
    InvParts(s);
    assert s.processes.Keys <= s.booted;
    InvKept(s, Boot(w));
    hide Inv, DatabaseOk, CallsOk;
  }

  lemma NumberOfArrival(s: State, call: nat)
    requires Inv(s) && CanArrive(s, call)
    ensures
      var t := Next(s, ExecuteBump(call));
      && Inv(t) && call in t.executed && call in t.bumps && t.bumps[call] == s.bumps[call]
      && t.executed[call] == NumberOf(s.epochs, s.bumps[call].scope) + 1 <= NumberOf(t.epochs, s.bumps[call].scope)
      && t.processes == s.processes && t.writes == s.writes && (Numbered(s) ==> Numbered(t))
  {
    OneStepStands(s, ExecuteBump(call));
    ArrivingAnnounces(s, call);
    InvParts(Next(s, ExecuteBump(call)));
    HandedOut(Next(s, ExecuteBump(call)), call);
    hide Inv, DatabaseOk, CallsOk, Next, Numbered;
  }

  /** A number is one bump's, and so one process's. */
  lemma NotItsOwn(s: State, call: nat, reader: nat, scope: Scope)
    requires Numbered(s) && call in s.executed && call in s.bumps && s.bumps[call].scope == scope && s.bumps[call].owner != reader
    ensures !OwnNumber(s, reader, scope, s.executed[call])
  {
  }

  /** Somebody else's bump, once it has arrived and been read, settles the scope for the reader. */
  lemma ArrivalSettles(u: State, scope: Scope, reader: nat, call: nat) returns (run: seq<Step>)
    requires Inv(u) && Numbered(u) && Answered(u) && reader in u.processes
    requires CanArrive(u, call) && u.bumps[call].scope == scope && u.bumps[call].owner != reader
    ensures (forall step :: step in run ==> IsGentle(step)) && Settled(Exec(u, run), scope, reader)
  {
    hide Inv, Numbered, Answered, Next, Exec, Quiet, CanArrive, OwnNumber, AllFresh, NumberOf, CacheEpoch.AfterRead;
    var first := [ExecuteBump(call)];
    NumberOfArrival(u, call);
    ExecOne(u, ExecuteBump(call));
    var v := Exec(u, first);
    var quieting := CanQuieten(v, scope);
    var x := Exec(v, quieting);
    NumbersStand(v, quieting);
    ExecInTwo(u, first, quieting);
    AnsweredAlways(u, first + quieting);
    assert reader in x.processes.Keys;
    var reading := CanCatchUp(x, reader);
    run := first + quieting + reading;
    ExecInTwo(u, first + quieting, reading);
    ReadSettles(u, v, x, Exec(x, reading), scope, reader, call, run);
  }

  /** u is where the bump was on its way, v where it had arrived, x where all was quiet, and t is after the read. */
  lemma ReadSettles(u: State, v: State, x: State, t: State, scope: Scope, reader: nat, call: nat, run: seq<Step>)
    requires Inv(u) && Numbered(u) && Inv(x) && Numbered(x) && t == Exec(u, run) && Quiet(x, scope) && x.writes == v.writes == u.writes
    requires call in x.executed && call in x.bumps && x.bumps[call].scope == scope && x.bumps[call].owner != reader
    requires x.executed[call] == NumberOf(u.epochs, scope) + 1 <= NumberOf(x.epochs, scope)
    requires reader in x.processes
    requires
      var p := x.processes[reader];
      var q := p.(local := CacheEpoch.AfterRead(p.local, x.epochs), reading := None);
      t == WithProcess(x, reader, q).(nextCall := x.nextCall + 1, answers := x.answers[x.nextCall := x.epochs])
    ensures Settled(t, scope, reader)
  {
    hide Inv, Exec, Quiet, AllFresh, CacheEpoch.AfterRead, Behind, Numbered, OwnNumber;
    SeenIsBehind(x, reader);
    ReadIsCaughtUp(x.processes[reader].local, x.epochs, scope);
    ReadIsIn(x, reader, t);
    hide WithProcess;
    StaysQuiet(x, t, scope);
    SameNumbers(x, t);
    NotItsOwn(t, call, reader, scope);
    forall i: nat | InScope(t, i, scope) ensures AllFresh(t.processes[reader].local.cache, t.writes, i) {
      LaterNumberTells(u, run, i, reader, x.executed[call]);
    }
  }

  lemma ReadIsIn(x: State, reader: nat, t: State)
    requires reader in x.processes
    requires
      var p := x.processes[reader];
      var q := p.(local := CacheEpoch.AfterRead(p.local, x.epochs), reading := None);
      t == WithProcess(x, reader, q).(nextCall := x.nextCall + 1, answers := x.answers[x.nextCall := x.epochs])
    ensures t.executed == x.executed && t.bumps == x.bumps && t.awaiting == x.awaiting && t.writes == x.writes && t.epochs == x.epochs
    ensures t.processes.Keys == x.processes.Keys && forall m :: m in x.processes ==> t.processes[m].pending == x.processes[m].pending
    ensures t.processes[reader].local == CacheEpoch.AfterRead(x.processes[reader].local, x.epochs)
  {
    hide CacheEpoch.AfterRead;
  }

  lemma SameNumbers(s: State, t: State)
    requires Numbered(s) && t.executed == s.executed && t.bumps == s.bumps
    ensures Numbered(t)
  {
  }

  /**
   * From every state a run can reach, everybody can still be told: without a crash, a loss,
   * a load or an eviction, some run leaves the scope quiet and the reader caught up with
   * nothing older than any write of the scope, given up, lost or never cleared up after.
   */
  lemma CanAlwaysSettle(seed: map<Scope, nat>, before: seq<Step>, scope: Scope, reader: nat) returns (run: seq<Step>)
    requires reader in Exec(Initial(seed), before).processes
    ensures forall step :: step in run ==> IsGentle(step)
    ensures Settled(Exec(Exec(Initial(seed), before), run), scope, reader)
    ensures Exec(Initial(seed), before).writes <= Exec(Exec(Initial(seed), before), run).writes
  {
    assert Inv(Initial(seed)) && Numbered(Initial(seed)) && Answered(Initial(seed));
    hide Inv, Numbered, Answered, Next, Exec, Settled, CanArrive;
    var s := Exec(Initial(seed), before);
    NumbersStand(Initial(seed), before);
    AnsweredAlways(Initial(seed), before);
    var w, writing := SomebodyElseWrites(s, scope);
    var u := Exec(s, writing);
    NumbersStand(s, writing);
    AnsweredAlways(s, writing);
    assert reader in u.processes.Keys;
    var settling := ArrivalSettles(u, scope, reader, s.nextCall);
    NumbersStand(u, settling);
    ExecInTwo(s, writing, settling);
    run := writing + settling;
  }

  // ---- What a process's own numbers tell it ----

  /** A clear that reaches whatever the write invalidates leaves nothing older than it. */
  lemma OwnClearIsFresh(cache: map<Key, CacheEpoch.Entry>, writes: seq<Write>, kind: WriteKind, i: nat)
    requires Holds(cache, writes) && i < |writes| && forall key :: Clears(writes[i].kind, key) ==> Clears(kind, key)
    ensures AllFresh(WithoutStale(cache, kind), writes, i)
  {
    forall k | k in WithoutStale(cache, kind) ensures Fresh(cache[k], writes, i) {
      if exists p :: p in cache[k] && Clears(writes[i].kind, p) {
        var p :| p in cache[k] && Clears(writes[i].kind, p);
        if p != k { ClearsReachWhatWasBuiltFromThem(k, p, kind); }
        assert false;
      }
    }
  }

  lemma MovesKeepFresh(s: State, step: Step, u: CacheEpoch.Local, m: nat, i: nat)
    requires Inv(s) && m in s.processes && i < |s.writes| && LocalMoves(s, step, s.processes[m].local, u, m)
    requires AllFresh(s.processes[m].local.cache, s.writes, i)
    ensures AllFresh(u.cache, s.writes, i)
  {
    var l := s.processes[m].local;
    HeldIsOk(s, m);
    hide Inv;
    if step.Load? && u == l.(cache := HoldingLoad(l.cache, step.key, |s.writes|)) {
      LoadIsAsFreshAsTheCache(l.cache, step.key, s.writes, i);
    } else if rows :| u == CacheEpoch.AfterRead(l, rows) {
      ReadTells(l, rows, s.writes, i);
    } else if step.BumpLands? && step.call in s.bumps && step.call in s.executed && s.bumps[step.call].owner == m
      && u == CacheEpoch.AfterBump(l, s.bumps[step.call].scope, s.executed[step.call])
    {
      BumpTells(l, s.bumps[step.call].scope, s.executed[step.call], s.writes, i);
    }
  }

  /** What a process has once let go of, being older than a write, it never holds again. */
  lemma {:induction false} FreshStays(s: State, run: seq<Step>, m: nat, i: nat)
    requires Inv(s) && m in s.booted && i < |s.writes| && (m in s.processes ==> AllFresh(s.processes[m].local.cache, s.writes, i))
    ensures
      var t := Exec(s, run);
      s.writes <= t.writes && (m in t.processes ==> AllFresh(t.processes[m].local.cache, t.writes, i))
    decreases |run|
  {
    if run != [] {
      FreshAfterStep(s, run[0], m, i);
      InvKept(s, run[0]);
      hide Inv, Next, AllFresh;
      FreshStays(Next(s, run[0]), run[1..], m, i);
    }
  }

  lemma FreshAfterStep(s: State, step: Step, m: nat, i: nat)
    requires Inv(s) && m in s.booted && i < |s.writes| && (m in s.processes ==> AllFresh(s.processes[m].local.cache, s.writes, i))
    ensures
      var t := Next(s, step);
      && m in t.booted && s.writes <= t.writes
      && (m in t.processes ==> AllFresh(t.processes[m].local.cache, t.writes, i))
  {
    var t := Next(s, step);
    OneStepStands(s, step);
    InvParts(s);
    BootedStays(s, step);
    hide Next;
    if m in t.processes {
      if m !in s.processes { NobodyComes(s, step, m); }
      StepMoves(s, step, m);
      MovesKeepFresh(s, step, t.processes[m].local, m, i);
      assert t.writes[i] == s.writes[i];
    }
  }

  lemma BootedStays(s: State, step: Step)
    ensures s.booted <= Next(s, step).booted
  {
    if step.BumpLands? || step.BumpFails? || step.TimerFires? {
      hide Covered, PendingAfter, WithPending, CacheEpoch.AfterBump, CacheEpoch.AfterTimer, ClearedIn;
    } else {
      hide Announced, CacheEpoch.AfterRead, HoldingLoad, WithoutStale, ClearedIn;
    }
  }

  /**
   * A process that cleared up after a game write, or after a comment, holds nothing older
   * than any write of that scope committed by then, in every later run: so only its own
   * news can leave it with its own numbers and something stale.
   */
  lemma AnOwnClearTellsItsProcess(seed: map<Scope, nat>, before: seq<Step>, after: seq<Step>, m: nat, j: nat, i: nat)
    requires
      var early := Exec(Initial(seed), before);
      && CanClear(early, m, j) && i < |early.writes| && ScopeOf(early.writes[i].kind) == ScopeOf(early.writes[j].kind)
      && (early.writes[j].kind.NewsWrite? ==> early.writes[i].kind.NewsWrite?)
    ensures
      var s := Exec(Next(Exec(Initial(seed), before), ClearLocally(m, j)), after);
      m in s.processes ==> AllFresh(s.processes[m].local.cache, s.writes, i)
  {
    var early := Exec(Initial(seed), before);
    InvAlways(Initial(seed), before);
    HeldIsOk(early, m);
    OwnClearIsFresh(early.processes[m].local.cache, early.writes, early.writes[j].kind, i);
    InvKept(early, ClearLocally(m, j));
    ClearingClears(early, m, j);
    InvParts(Next(early, ClearLocally(m, j)));
    assert m in Next(early, ClearLocally(m, j)).booted;
    hide Inv, Next, Exec, AllFresh;
    FreshStays(Next(early, ClearLocally(m, j)), after, m, i);
  }

  lemma ClearingClears(s: State, m: nat, j: nat)
    requires CanClear(s, m, j)
    ensures
      var t, l := Next(s, ClearLocally(m, j)), s.processes[m].local;
      && m in t.processes && t.writes == s.writes && t.epochs == s.epochs
      && t.processes[m].local == l.(cache := WithoutStale(l.cache, s.writes[j].kind))
  {
    hide WithoutStale, ClearedIn;
  }

  lemma LandingAnswers(s: State, call: nat)
    requires IsAwaited(s, call) && call in s.executed
    ensures
      var t, m := Next(s, BumpLands(call)), s.bumps[call].owner;
      && m in t.processes && t.epochs == s.epochs && t.writes == s.writes
      && t.processes[m].local == CacheEpoch.AfterBump(s.processes[m].local, s.bumps[call].scope, s.executed[call])
  {
    hide PendingAfter, WithPending, CacheEpoch.AfterBump;
  }

  lemma ClearingWaits(s: State, m: nat, j: nat)
    requires DatabaseOk(s) && CanClear(s, m, j)
    ensures
      var t := Next(s, ClearLocally(m, j));
      IsAwaited(t, s.nextCall) && CanArrive(t, s.nextCall) && t.bumps[s.nextCall].owner == m
      && t.bumps[s.nextCall].scope == ScopeOf(s.writes[j].kind)
  {
    NextCallIsNew(s);
    hide DatabaseOk, WithoutStale, ClearedIn;
  }

  function Posting(m: nat, i: nat, call: nat): seq<Step> {
    [Commit(m, NewsWrite)] + ([ClearLocally(m, i)] + ([ExecuteBump(call)] + [BumpLands(call)]))
  }

  /** A caught-up process that posts news takes on its own number and keeps whatever news does not clear, stale or not. */
  lemma OwnNewsTellsNothing(s: State, m: nat, key: Key)
    requires Inv(s) && CaughtUp(s, All, m) && key in s.processes[m].local.cache && !Clears(NewsWrite, key)
    ensures
      var t := Exec(s, Posting(m, |s.writes|, s.nextCall));
      && m in t.processes && key in t.processes[m].local.cache && t.processes[m].local.cache[key] == s.processes[m].local.cache[key]
      && NumberOf(t.processes[m].local.lastSeen, All) == s.epochs[All] + 1 && s.writes <= t.writes
  {
    var i, call := |s.writes|, s.nextCall;
    hide Inv, Next, Exec, CanClear, CanArrive, IsAwaited, DatabaseOk, CallsOk;
    WritingOnce(s, m, NewsWrite);
    CommitCounts(s, m, NewsWrite);
    var u1 := Next(s, Commit(m, NewsWrite));
    InvParts(u1);
    ClearingClears(u1, m, i);
    ClearingWaits(u1, m, i);
    InvKept(u1, ClearLocally(m, i));
    var u2 := Next(u1, ClearLocally(m, i));
    NumberOfArrival(u2, call);
    ArrivingAnnounces(u2, call);
    var u3 := Next(u2, ExecuteBump(call));
    StillAwaited(u2, u3, call);
    LandingAnswers(u3, call);
    FourSteps(s, Commit(m, NewsWrite), ClearLocally(m, i), ExecuteBump(call), BumpLands(call));
  }

  lemma StillAwaited(s: State, t: State, call: nat)
    requires IsAwaited(s, call) && t.awaiting == s.awaiting && t.bumps == s.bumps && t.processes == s.processes
    ensures IsAwaited(t, call)
  {
  }

  lemma CommitCounts(s: State, m: nat, kind: WriteKind)
    ensures Next(s, Commit(m, kind)).epochs == s.epochs
  {
  }

  const LISTENING: seq<Step> := [Boot(0), Boot(1), StartRead(1)]
  const LOADING: seq<Step> := [ExecuteRead(0), ReadLands(1), Load(1, MostPlayed)]
  const LOSING: seq<Step> := [Commit(0, GameWrite), ClearLocally(0, 0), LoseBump(1)]
  const LEAVING: seq<Step> := LISTENING + (LOADING + (LOSING + [Crash(0)]))
  const ONE: map<Scope, nat> := map[All := 1]

  function NewProcess(): Process { Process(CacheEpoch.Local(map[], map[]), {}, map[], None) }

  function Reader(): Process {
    Process(CacheEpoch.Local(ONE, map[MostPlayed := map[MostPlayed := 0]]), {}, map[], None)
  }

  lemma TheyListen()
    ensures Exec(Initial(ONE), LISTENING) ==
      Initial(ONE).(processes := map[0 := NewProcess(), 1 := NewProcess().(reading := Some(0))], booted := {0, 1}, nextCall := 1)
  {
    ThreeSteps(Initial(ONE), Boot(0), Boot(1), StartRead(1));
    var u1 := Next(Initial(ONE), Boot(0));
    var u2 := Next(u1, Boot(1));
    assert u2.processes == map[0 := NewProcess(), 1 := NewProcess()] && u2.booted == {0, 1};
    hide Exec;
  }

  lemma FirstRead()
    ensures CacheEpoch.AfterRead(CacheEpoch.Local(map[], map[]), ONE) == CacheEpoch.Local(ONE, map[])
    ensures HoldingLoad(map[], MostPlayed, 0) == map[MostPlayed := map[MostPlayed := 0]]
  {
  }

  lemma LoadHolds(s: State, m: nat, key: Key)
    requires m in s.processes && key !in s.processes[m].local.cache
    ensures Next(s, Load(m, key)) == WithCache(s, m, HoldingLoad(s.processes[m].local.cache, key, |s.writes|))
  {
    hide HoldingLoad;
  }

  lemma OneLoads(s: State)
    requires s == Initial(ONE).(processes := map[0 := NewProcess(), 1 := NewProcess().(reading := Some(0))], booted := {0, 1}, nextCall := 1)
    ensures Exec(s, LOADING) == s.(processes := map[0 := NewProcess(), 1 := Reader()], answers := map[0 := ONE])
  {
    hide Exec, Next, CacheEpoch.AfterRead, HoldingLoad;
    FirstRead();
    AnsweringARead(s, 0);
    var u1 := s.(answers := map[0 := ONE]);
    assert Answering(s, 0) == u1;
    TakingARead(u1, 1);
    var u2 := u1.(processes := map[0 := NewProcess(), 1 := NewProcess().(local := CacheEpoch.Local(ONE, map[]))]);
    assert HearingRead(u1, 1) == u2;
    LoadHolds(u2, 1, MostPlayed);
    assert WithCache(u2, 1, map[MostPlayed := map[MostPlayed := 0]]) == u2.(processes := map[0 := NewProcess(), 1 := Reader()]);
    ThreeSteps(s, ExecuteRead(0), ReadLands(1), Load(1, MostPlayed));
  }

  lemma ZeroLosesIt(s: State)
    requires s == Initial(ONE).(processes := map[0 := NewProcess(), 1 := Reader()], booted := {0, 1}, nextCall := 1, answers := map[0 := ONE])
    ensures
      var t := Exec(s, LOSING + [Crash(0)]);
      && t.processes == map[1 := Reader()] && t.epochs == ONE && t.writes == [Write(GameWrite, 0)] && t.executed == map[]
  {
    ThreeSteps(s, Commit(0, GameWrite), ClearLocally(0, 0), LoseBump(1));
    ExecInTwo(s, LOSING, [Crash(0)]);
    var u1 := Next(s, Commit(0, GameWrite));
    var u2 := Next(u1, ClearLocally(0, 0));
    assert u2.processes[1] == Reader() && u2.processes.Keys == {0, 1};
    var u3 := Next(u2, LoseBump(1));
    ExecOne(u3, Crash(0));
    hide Exec;
  }

  lemma OneIsLeftWithIt()
    ensures
      var s := Exec(Initial(ONE), LEAVING);
      && Inv(s) && s.processes == map[1 := Reader()] && s.epochs == ONE && s.writes == [Write(GameWrite, 0)]
  {
    assert Inv(Initial(ONE));
    hide Inv, Exec;
    InvAlways(Initial(ONE), LEAVING);
    TheyListen();
    var u := Exec(Initial(ONE), LISTENING);
    OneLoads(u);
    ZeroLosesIt(Exec(u, LOADING));
    ExecInTwo(Initial(ONE), LISTENING, LOADING + (LOSING + [Crash(0)]));
    ExecInTwo(u, LOADING, LOSING + [Crash(0)]);
  }

  /**
   * The exception is real. A game is deleted, the bump for it is lost and its process goes;
   * another process, which holds the old list of the most played, posts news, and takes on
   * a number above the one from before the deletion with that list still in its cache.
   */
  lemma OnlyItsOwnNumbersTellNothing()
    ensures
      var early := Exec(Initial(ONE), LEAVING);
      var s := Exec(early, Posting(1, 1, early.nextCall));
      && |early.writes| == 1 && 1 in s.processes && MostPlayed in s.processes[1].local.cache
      && NumberOf(s.processes[1].local.lastSeen, All) > NumberOf(early.epochs, All)
      && |s.writes| > 0 && !Fresh(s.processes[1].local.cache[MostPlayed], s.writes, 0)
  {
    OneIsLeftWithIt();
    hide Exec, Inv;
    var early := Exec(Initial(ONE), LEAVING);
    assert early.processes[1] == Reader() && CaughtUp(early, All, 1);
    OwnNewsTellsNothing(early, 1, MostPlayed);
    hide Posting;
    var s := Exec(early, Posting(1, 1, early.nextCall));
    assert s.writes[0] == Write(GameWrite, 0);
    assert s.processes[1].local.cache[MostPlayed] == map[MostPlayed := 0];
  }
}
