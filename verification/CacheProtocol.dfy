/**
 * The cache-epoch protocol as a whole: one database, any number of processes,
 * and calls between them that are carried out, answered and lost in any order.
 *
 * A run is any sequence of steps from an empty system; a step that cannot happen
 * where it stands changes nothing. Nothing is assumed about timing. Statements
 * are atomic, a row of the counters' table is never recreated, and a process that
 * restarts is a new process with empty caches.
 */
module CacheProtocol {
  import opened Basics
  import opened CacheKeys
  import opened CacheEpoch

  /** A committed write, numbered by its place in the database's history. */
  datatype Write = Write(kind: WriteKind, owner: nat)

  /** One attempt at a bump, and every write its process had cleared up after by then. */
  datatype Bump = Bump(owner: nat, scope: Scope, covers: set<nat>)

  datatype Stamp = Stamp(scope: Scope, epoch: nat)

  datatype Process = Process(
    local: Local,
    cleared: set<nat>,                   // own writes whose local clear has run
    pending: map<Scope, PendingBump>,
    reading: Option<nat>)                // the one read that may be out

  datatype State = State(
    writes: seq<Write>,
    epochs: map<Scope, nat>,
    landed: map<Stamp, set<nat>>,        // the writes behind every number handed out
    processes: map<nat, Process>,
    booted: set<nat>,                    // every process there has ever been
    bumps: map<nat, Bump>,               // every bump ever issued, by call
    awaiting: set<nat>,                  // bumps some process still waits for
    executed: map<nat, nat>,             // bumps the database carried out, with their numbers
    lost: set<nat>,                      // bumps that never reached the database and never will
    answers: map<nat, map<Scope, nat>>,    // reads the database carried out
    abandoned: set<nat>,                 // writes a terminal outcome left unannounced
    nextCall: nat)

  datatype Step =
    | Boot(m: nat)
    | Crash(m: nat)
    | Commit(m: nat, kind: WriteKind)
    | ClearLocally(m: nat, write: nat)
    | ExecuteBump(call: nat)
    | LoseBump(call: nat)
    | BumpLands(call: nat)
    | BumpFails(call: nat, outcome: Outcome)
    | TimerFires(m: nat, scope: Scope, ending: bool)
    | StartRead(m: nat)
    | ExecuteRead(call: nat)
    | ReadLands(m: nat)
    | ReadFails(m: nat)
    | Load(m: nat, key: Key)
    | Evict(m: nat, key: Key)

  function Initial(epochs: map<Scope, nat>): State {
    State([], epochs, map[], map[], {}, map[], {}, map[], {}, map[], {}, 0)
  }

  function InScope(s: State, write: nat, scope: Scope): bool {
    write < |s.writes| && ScopeOf(s.writes[write].kind) == scope
  }

  function ClearedIn(s: State, m: nat, scope: Scope): set<nat>
    requires m in s.processes
  {
    set i | i in s.processes[m].cleared && InScope(s, i, scope)
  }

  /** A bump going out carries everything its process has cleared up after in the scope. */
  function Issue(s: State, m: nat, scope: Scope): State
    requires m in s.processes
  {
    s.(bumps := s.bumps[s.nextCall := Bump(m, scope, ClearedIn(s, m, scope))],
       awaiting := s.awaiting + {s.nextCall},
       nextCall := s.nextCall + 1)
  }

  function PendingOf(p: Process, scope: Scope): Option<PendingBump> {
    if scope in p.pending then Some(p.pending[scope]) else None
  }

  function WithPending(p: Process, scope: Scope, pending: Option<PendingBump>): Process {
    match pending
    case None => p.(pending := p.pending - {scope})
    case Some(q) => p.(pending := p.pending[scope := q])
  }

  predicate IsRetry(p: Process, scope: Scope, call: nat) {
    scope in p.pending && p.pending[scope].inFlight == Some(call)
  }

  /** What becomes of the retry when one of its scope's bumps is answered. */
  function PendingAfter(p: Process, scope: Scope, call: nat, outcome: Outcome): Option<PendingBump> {
    if IsRetry(p, scope, call) then AfterRetry(p.pending[scope], outcome)
    else if outcome == Failed then AfterFailedBump(PendingOf(p, scope))
    else PendingOf(p, scope)
  }

  /** Some number handed out by the database stands for this write. */
  ghost predicate Announced(s: State, write: nat) {
    exists stamp :: stamp in s.landed && write in s.landed[stamp]
  }

  /** Its process still waits for a bump that covers this write. */
  ghost predicate OnItsWay(s: State, m: nat, write: nat) {
    exists call :: call in s.awaiting && call in s.bumps && s.bumps[call].owner == m && write in s.bumps[call].covers
  }

  /** The scope's retry will go out once more, after this write. */
  ghost predicate ToBeRetried(s: State, m: nat, write: nat) {
    && m in s.processes && write < |s.writes|
    && var scope := ScopeOf(s.writes[write].kind);
       && scope in s.processes[m].pending
       && (s.processes[m].pending[scope].inFlight.None? || s.processes[m].pending[scope].again)
  }

  ghost predicate Covered(s: State, m: nat, write: nat) {
    Announced(s, write) || OnItsWay(s, m, write) || ToBeRetried(s, m, write)
  }

  /** A terminal outcome gives up on exactly the writes of its process and scope nothing else covers. */
  ghost function GivingUp(s: State, m: nat, scope: Scope): State
    requires m in s.processes
  {
    s.(abandoned := s.abandoned + set i | i in ClearedIn(s, m, scope) && !Covered(s, m, i))
  }

  /** The facet lists a load asks the cache for start loading too unless they are held. */
  function WithParts(cache: map<Key, Entry>, parts: set<Key>, version: nat): map<Key, Entry> {
    cache + map p | p in parts - cache.Keys :: map[p := version]
  }

  /** How old the data is that a load takes from a held facet list. */
  function PartVersion(held: map<Key, Entry>, part: Key, version: nat): nat {
    if part in held && part in held[part] then held[part][part] else version
  }

  function HoldingLoad(cache: map<Key, Entry>, key: Key, version: nat): map<Key, Entry> {
    var held := WithParts(cache, BuiltFrom(key), version);
    held[key := (map p | p in BuiltFrom(key) :: PartVersion(held, p, version))[key := version]]
  }

  ghost function Next(s: State, step: Step): State {
    match step
    case Boot(m) => if m in s.booted then s else Booting(s, m)
    case Crash(m) => if m in s.processes then Crashed(s, m) else s
    case Commit(m, kind) => if m in s.processes then Committing(s, Write(kind, m)) else s
    case ClearLocally(m, i) => if CanClear(s, m, i) then Clearing(s, m, i) else s
    case ExecuteBump(call) => if CanArrive(s, call) then Executing(s, call) else s
    case LoseBump(call) => if CanArrive(s, call) then s.(lost := s.lost + {call}) else s
    case BumpLands(call) =>
      if IsAwaited(s, call) && call in s.executed then Landing(s, call) else s
    case BumpFails(call, outcome) =>
      if IsAwaited(s, call) && outcome != Landed then Failing(s, call, outcome) else s
    case TimerFires(m, scope, ending) => if TimerRuns(s, m, scope) then Firing(s, m, scope, ending) else s
    case StartRead(m) => if m in s.processes && s.processes[m].reading.None? then Reading(s, m) else s
    case ExecuteRead(call) => if call < s.nextCall && call !in s.answers then Answering(s, call) else s
    case ReadLands(m) => if ReadIsBack(s, m) then HearingRead(s, m) else s
    case ReadFails(m) =>
      if m in s.processes then WithProcess(s, m, s.processes[m].(reading := None)) else s
    case Load(m, key) =>
      if m in s.processes && key !in s.processes[m].local.cache
      then WithCache(s, m, HoldingLoad(s.processes[m].local.cache, key, |s.writes|)) else s
    case Evict(m, key) =>
      if m in s.processes then WithCache(s, m, s.processes[m].local.cache - {key}) else s
  }

  /** Still on its way to the database, whether or not anybody waits for it. */
  predicate CanArrive(s: State, call: nat) { call in s.bumps && call !in s.executed && call !in s.lost }

  predicate CanClear(s: State, m: nat, i: nat) {
    m in s.processes && i < |s.writes| && s.writes[i].owner == m && i !in s.processes[m].cleared
  }

  predicate IsAwaited(s: State, call: nat) {
    call in s.awaiting && call in s.bumps && s.bumps[call].owner in s.processes
  }

  predicate TimerRuns(s: State, m: nat, scope: Scope) {
    m in s.processes && scope in s.processes[m].pending && s.processes[m].pending[scope].inFlight.None?
  }

  predicate ReadIsBack(s: State, m: nat) {
    m in s.processes && s.processes[m].reading.Some? && s.processes[m].reading.value in s.answers
  }

  function WithProcess(s: State, m: nat, p: Process): State {
    s.(processes := s.processes[m := p])
  }

  function WithCache(s: State, m: nat, cache: map<Key, Entry>): State
    requires m in s.processes
  {
    var p := s.processes[m];
    WithProcess(s, m, p.(local := p.local.(cache := cache)))
  }

  function Booting(s: State, m: nat): State {
    s.(processes := s.processes[m := Process(Local(map[], map[]), {}, map[], None)], booted := s.booted + {m})
  }

  function Committing(s: State, w: Write): State {
    s.(writes := s.writes + [w])
  }

  function Reading(s: State, m: nat): State
    requires m in s.processes
  {
    WithProcess(s, m, s.processes[m].(reading := Some(s.nextCall))).(nextCall := s.nextCall + 1)
  }

  function Answering(s: State, call: nat): State {
    s.(answers := s.answers[call := s.epochs])
  }

  function HearingRead(s: State, m: nat): State
    requires ReadIsBack(s, m)
  {
    var p := s.processes[m];
    WithProcess(s, m, p.(local := AfterRead(p.local, s.answers[p.reading.value]), reading := None))
  }

  function WithoutStale(cache: map<Key, Entry>, kind: WriteKind): map<Key, Entry> {
    map k | k in cache && !Clears(kind, k) :: cache[k]
  }

  function Cleared(p: Process, i: nat, kind: WriteKind): Process {
    p.(local := p.local.(cache := WithoutStale(p.local.cache, kind)), cleared := p.cleared + {i})
  }

  /** The local clear and the issuing of the bump are one turn of the event loop. */
  function Clearing(s: State, m: nat, i: nat): State
    requires m in s.processes && i < |s.writes|
  {
    var kind := s.writes[i].kind;
    Issue(WithProcess(s, m, Cleared(s.processes[m], i, kind)), m, ScopeOf(kind))
  }

  /** INSERT ... ON CONFLICT DO UPDATE: a fresh row starts at one, an existing one goes up by one. */
  function Executing(s: State, call: nat): State
    requires call in s.bumps
  {
    var b := s.bumps[call];
    var epoch := if b.scope in s.epochs then s.epochs[b.scope] + 1 else 1;
    s.(epochs := s.epochs[b.scope := epoch],
       landed := s.landed[Stamp(b.scope, epoch) := b.covers],
       executed := s.executed[call := epoch])
  }

  ghost function Landing(s: State, call: nat): State
    requires call in s.bumps && call in s.executed && s.bumps[call].owner in s.processes
  {
    var b := s.bumps[call];
    var p := s.processes[b.owner];
    var q := WithPending(p, b.scope, PendingAfter(p, b.scope, call, Landed));
    s.(awaiting := s.awaiting - {call},
       processes := s.processes[b.owner := q.(local := AfterBump(p.local, b.scope, s.executed[call]))])
  }

  ghost function Failing(s: State, call: nat, outcome: Outcome): State
    requires call in s.bumps && s.bumps[call].owner in s.processes
  {
    var b := s.bumps[call];
    var p := s.processes[b.owner];
    var pending := PendingAfter(p, b.scope, call, outcome);
    var after := s.(awaiting := s.awaiting - {call},
                    processes := s.processes[b.owner := WithPending(p, b.scope, pending)]);
    if outcome == Broken || pending.None? then GivingUp(after, b.owner, b.scope) else after
  }

  ghost function Firing(s: State, m: nat, scope: Scope, ending: bool): State
    requires m in s.processes && scope in s.processes[m].pending
  {
    var p := s.processes[m];
    var q := WithPending(p, scope, AfterTimer(p.pending[scope], ending, s.nextCall));
    var after := s.(processes := s.processes[m := q]);
    if ending then GivingUp(after, m, scope) else Issue(after, m, scope)
  }

  ghost function Crashed(s: State, m: nat): State
    requires m in s.processes
  {
    var silenced := s.(awaiting := set c | c in s.awaiting && c in s.bumps && s.bumps[c].owner != m);
    silenced.(processes := s.processes - {m},
              abandoned := s.abandoned + set i | i in s.processes[m].cleared && !Announced(s, i))
  }

  ghost function Exec(s: State, run: seq<Step>): State
    decreases |run|
  {
    if run == [] then s else Exec(Next(s, run[0]), run[1..])
  }

  // ---- What every step keeps ----

  predicate InHistory(writes: seq<Write>, scope: Scope, covers: set<nat>) {
    forall i :: i in covers ==> i < |writes| && ScopeOf(writes[i].kind) == scope
  }

  /** Nothing has been handed out that the counters have not reached. */
  ghost predicate DatabaseOk(s: State) {
    && LandedOk(s.landed, s.epochs, s.writes)
    && BumpsOk(s.bumps, s.nextCall, s.writes)
    && ExecutedOk(s.executed, s.bumps, s.landed)
    && AnswersOk(s.answers, s.epochs)
    && s.lost <= s.bumps.Keys
  }

  predicate LandedOk(landed: map<Stamp, set<nat>>, epochs: map<Scope, nat>, writes: seq<Write>) {
    forall st :: st in landed ==> Heard(epochs, st) && InHistory(writes, st.scope, landed[st])
  }

  predicate BumpsOk(bumps: map<nat, Bump>, nextCall: nat, writes: seq<Write>) {
    forall c :: c in bumps ==> c < nextCall && InHistory(writes, bumps[c].scope, bumps[c].covers)
  }

  predicate ExecutedOk(executed: map<nat, nat>, bumps: map<nat, Bump>, landed: map<Stamp, set<nat>>) {
    forall c :: c in executed ==>
      c in bumps && Stamp(bumps[c].scope, executed[c]) in landed
      && landed[Stamp(bumps[c].scope, executed[c])] == bumps[c].covers
  }

  predicate AnswersOk(answers: map<nat, map<Scope, nat>>, epochs: map<Scope, nat>) {
    forall c :: c in answers ==> Behind(answers[c], epochs)
  }

  predicate Behind(seen: map<Scope, nat>, epochs: map<Scope, nat>) {
    forall scope :: scope in seen ==> scope in epochs && seen[scope] <= epochs[scope]
  }

  /** Processes and their calls know about each other. */
  ghost predicate CallsOk(s: State) {
    && s.processes.Keys <= s.booted
    && (forall c :: c in s.bumps ==> s.bumps[c].owner in s.booted)
    && (forall c :: c in s.awaiting ==> c in s.bumps && s.bumps[c].owner in s.processes)
    && (forall c :: c in s.bumps && s.bumps[c].owner in s.processes ==>
          s.bumps[c].covers <= s.processes[s.bumps[c].owner].cleared)
    && (forall m :: m in s.processes ==> ProcessOk(s, m, s.processes[m]))
  }

  ghost predicate ProcessOk(s: State, m: nat, p: Process) {
    && Behind(p.local.lastSeen, s.epochs)
    && (forall i :: i in p.cleared ==> i < |s.writes| && s.writes[i].owner == m)
    && (forall scope :: scope in p.pending ==>
          && WellFormed(Some(p.pending[scope]))
          && (p.pending[scope].inFlight.Some? ==>
                var c := p.pending[scope].inFlight.value;
                c in s.awaiting && c in s.bumps && s.bumps[c].owner == m && s.bumps[c].scope == scope))
  }

  predicate EntryOk(key: Key, e: Entry, written: nat) {
    key in e && forall p :: p in e ==> (p == key || p in BuiltFrom(key)) && e[p] <= written
  }

  /** No part of the entry is older than the write, if the write invalidates that part. */
  predicate Fresh(e: Entry, writes: seq<Write>, i: nat) {
    i < |writes| && forall p :: p in e && Clears(writes[i].kind, p) ==> i < e[p]
  }

  ghost predicate CacheOk(l: Local, cleared: set<nat>, writes: seq<Write>, landed: map<Stamp, set<nat>>) {
    && (forall k :: k in l.cache ==> EntryOk(k, l.cache[k], |writes|))
    && (forall k, i :: k in l.cache && i in cleared ==> Fresh(l.cache[k], writes, i))
    && (forall k, st, i :: k in l.cache && st in landed && Heard(l.lastSeen, st) && i in landed[st] ==>
          Fresh(l.cache[k], writes, i))
  }

  predicate Heard(lastSeen: map<Scope, nat>, st: Stamp) {
    st.scope in lastSeen && st.epoch <= lastSeen[st.scope]
  }

  ghost predicate CachesOk(s: State) {
    forall m :: m in s.processes ==> CacheOk(s.processes[m].local, s.processes[m].cleared, s.writes, s.landed)
  }

  ghost predicate NothingForgotten(s: State) {
    forall m, i :: m in s.processes && i in s.processes[m].cleared ==> Covered(s, m, i) || i in s.abandoned
  }

  ghost predicate Inv(s: State) {
    DatabaseOk(s) && CallsOk(s) && CachesOk(s) && NothingForgotten(s)
  }

  // ---- The database and the calls ----

  lemma IssuingKeepsDatabase(s: State, m: nat, scope: Scope)
    requires DatabaseOk(s) && m in s.processes
    ensures DatabaseOk(Issue(s, m, scope))
  {
  }

  lemma ExecutingKeepsDatabase(s: State, call: nat)
    requires DatabaseOk(s) && call in s.bumps && call !in s.executed
    ensures DatabaseOk(Executing(s, call))
  {
    var b, t := s.bumps[call], Executing(s, call);
    assert Stamp(b.scope, t.executed[call]) !in s.landed;
    assert InHistory(s.writes, b.scope, b.covers);
    assert ExecutedOk(t.executed, t.bumps, t.landed);
    assert LandedOk(t.landed, t.epochs, t.writes);
    assert AnswersOk(t.answers, t.epochs);
  }

  lemma CommittingKeepsDatabase(s: State, w: Write)
    requires DatabaseOk(s)
    ensures DatabaseOk(Committing(s, w))
  {
  }

  // ---- Processes and their calls ----

  lemma CommittingKeepsCalls(s: State, w: Write)
    requires CallsOk(s)
    ensures CallsOk(Committing(s, w))
  {
  }

  lemma BootingKeepsCalls(s: State, m: nat)
    requires CallsOk(s) && m !in s.booted
    ensures CallsOk(Booting(s, m))
  {
  }

  lemma CrashingKeepsCalls(s: State, m: nat)
    requires CallsOk(s) && m in s.processes
    ensures CallsOk(Crashed(s, m))
  {
    var t := Crashed(s, m);
    forall n | n in t.processes ensures ProcessOk(t, n, t.processes[n]) {
      assert ProcessOk(s, n, s.processes[n]);
    }
  }

  lemma ExecutingKeepsCalls(s: State, call: nat)
    requires CallsOk(s) && call in s.bumps
    ensures CallsOk(Executing(s, call))
  {
  }

  /** Replacing one process by one that is still in order, when no call is answered or issued. */
  lemma ProcessChangeKeepsCalls(s: State, m: nat, p: Process)
    requires CallsOk(s) && m in s.processes && ProcessOk(s, m, p) && s.processes[m].cleared <= p.cleared
    ensures CallsOk(WithProcess(s, m, p))
  {
  }

  lemma IssuingKeepsCalls(s: State, m: nat, scope: Scope)
    requires DatabaseOk(s) && CallsOk(s) && m in s.processes
    ensures CallsOk(Issue(s, m, scope))
  {
    var t := Issue(s, m, scope);
    assert s.nextCall !in s.bumps;
    forall n | n in t.processes ensures ProcessOk(t, n, t.processes[n]) {
      assert ProcessOk(s, n, s.processes[n]);
    }
  }

  /** Answering one call, once nobody's retry is that call any more. */
  lemma AnsweringKeepsCalls(s: State, call: nat, p: Process)
    requires CallsOk(s) && IsAwaited(s, call)
    requires p.cleared == s.processes[s.bumps[call].owner].cleared
    requires Behind(p.local.lastSeen, s.epochs)
    requires forall scope :: scope in p.pending ==>
      WellFormed(Some(p.pending[scope])) && p.pending[scope].inFlight != Some(call)
      && (p.pending[scope].inFlight.Some? ==>
            scope in s.processes[s.bumps[call].owner].pending
            && p.pending[scope].inFlight == s.processes[s.bumps[call].owner].pending[scope].inFlight)
    ensures CallsOk(WithProcess(s, s.bumps[call].owner, p).(awaiting := s.awaiting - {call}))
  {
    var m := s.bumps[call].owner;
    var t := WithProcess(s, m, p).(awaiting := s.awaiting - {call});
    assert ProcessOk(s, m, s.processes[m]);
    forall n | n in t.processes ensures ProcessOk(t, n, t.processes[n]) {
      if n != m { assert ProcessOk(s, n, s.processes[n]); }
    }
  }

  lemma LandingKeepsCalls(s: State, call: nat)
    requires DatabaseOk(s) && CallsOk(s) && IsAwaited(s, call) && call in s.executed
    ensures CallsOk(Landing(s, call))
  {
    var b := s.bumps[call];
    var p := s.processes[b.owner];
    assert ProcessOk(s, b.owner, p);
    var q := WithPending(p, b.scope, PendingAfter(p, b.scope, call, Landed));
    assert Heard(s.epochs, Stamp(b.scope, s.executed[call]));
    AnsweringKeepsCalls(s, call, q.(local := AfterBump(p.local, b.scope, s.executed[call])));
  }

  lemma FailingKeepsCalls(s: State, call: nat, outcome: Outcome)
    requires DatabaseOk(s) && CallsOk(s) && IsAwaited(s, call)
    ensures CallsOk(Failing(s, call, outcome))
  {
    var b := s.bumps[call];
    var p := s.processes[b.owner];
    assert ProcessOk(s, b.owner, p);
    var q := WithPending(p, b.scope, PendingAfter(p, b.scope, call, outcome));
    AnsweringKeepsCalls(s, call, q);
    var t := WithProcess(s, b.owner, q).(awaiting := s.awaiting - {call});
    AbandoningKeepsCalls(t, Failing(s, call, outcome));
  }

  /** What has been given up on is nobody's business but the record's. */
  lemma AbandoningKeepsCalls(s: State, t: State)
    requires CallsOk(s) && t == s.(abandoned := t.abandoned)
    ensures CallsOk(t)
  {
  }

  lemma FiringKeepsCalls(s: State, m: nat, scope: Scope, ending: bool)
    requires DatabaseOk(s) && CallsOk(s) && TimerRuns(s, m, scope)
    ensures CallsOk(Firing(s, m, scope, ending))
  {
    var p := s.processes[m];
    assert ProcessOk(s, m, p);
    if ending {
      var q := WithPending(p, scope, None);
      ProcessChangeKeepsCalls(s, m, q);
      AbandoningKeepsCalls(WithProcess(s, m, q), Firing(s, m, scope, ending));
    } else {
      FiringAgainIsIssuing(s, m, scope);
      IssuingKeepsCalls(s, m, scope);
      RetryIsOut(Issue(s, m, scope), m, scope, s.nextCall);
    }
  }

  function RetryOut(p: Process, scope: Scope, call: nat): Process
    requires scope in p.pending
  {
    p.(pending := p.pending[scope := p.pending[scope].(inFlight := Some(call))])
  }

  lemma FiringAgainIsIssuing(s: State, m: nat, scope: Scope)
    requires TimerRuns(s, m, scope)
    ensures Firing(s, m, scope, false) ==
            WithProcess(Issue(s, m, scope), m, RetryOut(s.processes[m], scope, s.nextCall))
  {
    var u := WithProcess(s, m, RetryOut(s.processes[m], scope, s.nextCall));
    assert ClearedIn(u, m, scope) == ClearedIn(s, m, scope);
  }

  lemma RetryIsOut(s: State, m: nat, scope: Scope, call: nat)
    requires CallsOk(s) && TimerRuns(s, m, scope)
    requires call in s.awaiting && call in s.bumps && s.bumps[call].owner == m && s.bumps[call].scope == scope
    ensures CallsOk(WithProcess(s, m, RetryOut(s.processes[m], scope, call)))
  {
    assert ProcessOk(s, m, s.processes[m]);
    ProcessChangeKeepsCalls(s, m, RetryOut(s.processes[m], scope, call));
  }

  lemma ClearingKeepsCalls(s: State, m: nat, i: nat)
    requires DatabaseOk(s) && CallsOk(s) && CanClear(s, m, i)
    ensures CallsOk(Clearing(s, m, i))
  {
    var kind := s.writes[i].kind;
    var q := Cleared(s.processes[m], i, kind);
    assert ProcessOk(s, m, s.processes[m]);
    ProcessChangeKeepsCalls(s, m, q);
    IssuingKeepsCalls(WithProcess(s, m, q), m, ScopeOf(kind));
  }

  // ---- One process's cache ----

  /** What a scope's effect leaves holds nothing any write of the scope invalidates. */
  lemma SurvivorsAreUntouched(key: Key, e: Entry, scope: Scope, writes: seq<Write>, i: nat)
    requires EntryOk(key, e, |writes|) && !InEffect(scope, key)
    requires i < |writes| && ScopeOf(writes[i].kind) == scope
    ensures Fresh(e, writes, i)
  {
  }

  /** The answer to a bump: a gap of one is the process's own writes, which it has cleared. */
  lemma BumpAnswerKeepsCache(l: Local, cleared: set<nat>, writes: seq<Write>, epochs: map<Scope, nat>,
                             landed: map<Stamp, set<nat>>, scope: Scope, epoch: nat)
    requires CacheOk(l, cleared, writes, landed) && LandedOk(landed, epochs, writes)
    requires Stamp(scope, epoch) in landed && landed[Stamp(scope, epoch)] <= cleared
    ensures CacheOk(AfterBump(l, scope, epoch), cleared, writes, landed)
  {
    var t := AfterBump(l, scope, epoch);
    forall k, st, i | k in t.cache && st in landed && Heard(t.lastSeen, st) && i in landed[st]
      ensures Fresh(t.cache[k], writes, i)
    {
      assert Heard(epochs, st);
      if st.scope == scope && MovedElsewhere(l.lastSeen, scope, epoch) {
        SurvivorsAreUntouched(k, t.cache[k], scope, writes, i);
      }
    }
  }

  /** The answer to a read: a scope whose number moved is dropped, the others say nothing new. */
  lemma ReadAnswerKeepsCache(l: Local, cleared: set<nat>, writes: seq<Write>, epochs: map<Scope, nat>,
                             landed: map<Stamp, set<nat>>, rows: map<Scope, nat>)
    requires CacheOk(l, cleared, writes, landed) && LandedOk(landed, epochs, writes)
    ensures CacheOk(AfterRead(l, rows), cleared, writes, landed)
  {
    var t := AfterRead(l, rows);
    forall k, st, i | k in t.cache && st in landed && Heard(t.lastSeen, st) && i in landed[st]
      ensures Fresh(t.cache[k], writes, i)
    {
      assert Heard(epochs, st);
      if st.scope in rows && Moved(l.lastSeen, st.scope, rows[st.scope]) {
        SurvivorsAreUntouched(k, t.cache[k], st.scope, writes, i);
      }
    }
  }

  lemma LocalClearKeepsCache(l: Local, cleared: set<nat>, writes: seq<Write>, landed: map<Stamp, set<nat>>, i: nat)
    requires CacheOk(l, cleared, writes, landed) && i < |writes|
    ensures CacheOk(l.(cache := WithoutStale(l.cache, writes[i].kind)), cleared + {i}, writes, landed)
  {
    var kind := writes[i].kind;
    var t := l.(cache := WithoutStale(l.cache, kind));
    forall k | k in t.cache ensures Fresh(t.cache[k], writes, i) {
      if exists p :: p in t.cache[k] && Clears(kind, p) {
        var p :| p in t.cache[k] && Clears(kind, p);
        if p != k { ClearsReachWhatWasBuiltFromThem(k, p, kind); }
        assert false;
      }
    }
  }

  /** A load that starts now sees every committed write, except through what it takes from the cache. */
  lemma LoadKeepsCache(l: Local, cleared: set<nat>, writes: seq<Write>, epochs: map<Scope, nat>,
                       landed: map<Stamp, set<nat>>, key: Key)
    requires CacheOk(l, cleared, writes, landed) && LandedOk(landed, epochs, writes)
    requires forall i :: i in cleared ==> i < |writes|
    ensures CacheOk(l.(cache := HoldingLoad(l.cache, key, |writes|)), cleared, writes, landed)
  {
    var t := HoldingLoad(l.cache, key, |writes|);
    LoadedEntriesAreOk(l.cache, key, |writes|);
    hide HoldingLoad, Fresh, EntryOk;
    forall k, i | k in t && i in cleared ensures Fresh(t[k], writes, i) {
      LoadIsAsFreshAsTheCache(l.cache, key, writes, i);
    }
    forall k, st, i | k in t && st in landed && Heard(l.lastSeen, st) && i in landed[st]
      ensures Fresh(t[k], writes, i)
    {
      assert InHistory(writes, st.scope, landed[st]);
      LoadIsAsFreshAsTheCache(l.cache, key, writes, i);
    }
  }

  lemma LoadedEntriesAreOk(cache: map<Key, Entry>, key: Key, written: nat)
    requires forall k :: k in cache ==> EntryOk(k, cache[k], written)
    ensures forall k :: k in HoldingLoad(cache, key, written) ==> EntryOk(k, HoldingLoad(cache, key, written)[k], written)
  {
    hide BuiltFrom;
  }

  lemma LoadIsAsFreshAsTheCache(cache: map<Key, Entry>, key: Key, writes: seq<Write>, i: nat)
    requires i < |writes| && forall k :: k in cache ==> Fresh(cache[k], writes, i)
    ensures forall k :: k in HoldingLoad(cache, key, |writes|) ==> Fresh(HoldingLoad(cache, key, |writes|)[k], writes, i)
  {
  }

  // ---- Every process's cache ----

  predicate SameHoldings(s: State, t: State) {
    && t.writes == s.writes && t.landed == s.landed
    && forall m :: m in t.processes ==>
         m in s.processes && t.processes[m].local == s.processes[m].local && t.processes[m].cleared == s.processes[m].cleared
  }

  lemma SameHoldingsAreOk(s: State, t: State)
    requires CachesOk(s) && SameHoldings(s, t)
    ensures CachesOk(t)
  {
  }

  lemma OneProcessChangesItsCache(s: State, m: nat, p: Process)
    requires CachesOk(s) && CacheOk(p.local, p.cleared, s.writes, s.landed)
    ensures CachesOk(WithProcess(s, m, p))
  {
  }

  lemma CommittingKeepsCaches(s: State, w: Write)
    requires CachesOk(s)
    ensures CachesOk(Committing(s, w))
  {
    var t := Committing(s, w);
    forall m | m in t.processes ensures CacheOk(t.processes[m].local, t.processes[m].cleared, t.writes, t.landed) {
      var p := s.processes[m];
      assert CacheOk(p.local, p.cleared, s.writes, s.landed);
      forall k, st, i | k in p.local.cache && st in s.landed && Heard(p.local.lastSeen, st) && i in s.landed[st]
        ensures Fresh(p.local.cache[k], t.writes, i)
      {
        assert Fresh(p.local.cache[k], s.writes, i);
      }
      forall k, i | k in p.local.cache && i in p.cleared ensures Fresh(p.local.cache[k], t.writes, i) {
        assert Fresh(p.local.cache[k], s.writes, i);
      }
    }
  }

  /** The number a bump is given is above everything any process has heard of. */
  lemma ExecutingKeepsCaches(s: State, call: nat)
    requires DatabaseOk(s) && CallsOk(s) && CachesOk(s) && call in s.bumps
    ensures CachesOk(Executing(s, call))
  {
    var t := Executing(s, call);
    forall m | m in t.processes ensures CacheOk(t.processes[m].local, t.processes[m].cleared, t.writes, t.landed) {
      var p := s.processes[m];
      assert ProcessOk(s, m, p) && CacheOk(p.local, p.cleared, s.writes, s.landed);
      forall k, st, i | k in p.local.cache && st in t.landed && Heard(p.local.lastSeen, st) && i in t.landed[st]
        ensures Fresh(p.local.cache[k], t.writes, i)
      {
        assert st in s.landed && t.landed[st] == s.landed[st];
      }
    }
  }

  lemma LandingKeepsCaches(s: State, call: nat)
    requires DatabaseOk(s) && CallsOk(s) && CachesOk(s) && IsAwaited(s, call) && call in s.executed
    ensures CachesOk(Landing(s, call))
  {
    hide CacheOk;
    var b := s.bumps[call];
    var p := s.processes[b.owner];
    var q := WithPending(p, b.scope, PendingAfter(p, b.scope, call, Landed)).(
      local := AfterBump(p.local, b.scope, s.executed[call]));
    BumpAnswerKeepsCache(p.local, p.cleared, s.writes, s.epochs, s.landed, b.scope, s.executed[call]);
    OneProcessChangesItsCache(s, b.owner, q);
    SameHoldingsAreOk(WithProcess(s, b.owner, q), Landing(s, call));
  }

  // ---- No cleared-up write is forgotten ----

  predicate SameOrSooner(before: Option<PendingBump>, after: Option<PendingBump>) {
    before.Some? && (before.value.inFlight.None? || before.value.again) ==>
      after.Some? && (after.value.inFlight.None? || after.value.again)
  }

  /** Everything that stood for a write of this scope still does, but for one call. */
  ghost predicate StillStands(s: State, t: State, m: nat, scope: Scope, except: set<nat>) {
    && s.writes <= t.writes
    && (forall st :: st in s.landed ==> st in t.landed && t.landed[st] == s.landed[st])
    && (forall c :: c in s.awaiting && c in s.bumps && s.bumps[c].owner == m && c !in except ==>
          c in t.awaiting && c in t.bumps && t.bumps[c] == s.bumps[c])
    && m in s.processes && m in t.processes
    && SameOrSooner(PendingOf(s.processes[m], scope), PendingOf(t.processes[m], scope))
  }

  lemma CoverStands(s: State, t: State, m: nat, scope: Scope, except: set<nat>, i: nat)
    requires StillStands(s, t, m, scope, except) && InScope(s, i, scope) && Covered(s, m, i)
    requires forall c :: c in except && c in s.bumps ==> i !in s.bumps[c].covers
    ensures Covered(t, m, i)
  {
  }

  /** Steps after which everything that stood for any write still does. */
  lemma NothingFallsAway(s: State, t: State)
    requires NothingForgotten(s) && CallsOk(s)
    requires s.abandoned <= t.abandoned
    requires forall m :: m in t.processes && t.processes[m].cleared != {} ==>
      m in s.processes && t.processes[m].cleared <= s.processes[m].cleared
      && forall scope :: StillStands(s, t, m, scope, {})
    ensures NothingForgotten(t)
  {
    forall m, i | m in t.processes && i in t.processes[m].cleared ensures Covered(t, m, i) || i in t.abandoned {
      assert ProcessOk(s, m, s.processes[m]);
      if i !in s.abandoned {
        var scope := ScopeOf(s.writes[i].kind);
        assert StillStands(s, t, m, scope, {});
        CoverStands(s, t, m, scope, {}, i);
      }
    }
  }

  /** Steps that leave the announcements, the calls and the retries of the processes that remain alone. */
  predicate SameCover(s: State, t: State) {
    && t.writes == s.writes && t.landed == s.landed && t.bumps == s.bumps && s.abandoned <= t.abandoned
    && (forall c :: c in s.awaiting && c in s.bumps && s.bumps[c].owner in t.processes ==> c in t.awaiting)
    && (forall m :: m in t.processes && t.processes[m].cleared != {} ==>
          m in s.processes && t.processes[m].cleared == s.processes[m].cleared
          && t.processes[m].pending == s.processes[m].pending)
  }

  lemma SameCoverForgetsNothing(s: State, t: State)
    requires NothingForgotten(s) && SameCover(s, t)
    ensures NothingForgotten(t)
  {
  }

  lemma CommittingForgetsNothing(s: State, w: Write)
    requires CallsOk(s) && NothingForgotten(s)
    ensures NothingForgotten(Committing(s, w))
  {
  }

  predicate SameDatabase(s: State, t: State) {
    && t.writes == s.writes && t.epochs == s.epochs && t.landed == s.landed && t.bumps == s.bumps && t.lost == s.lost
    && t.executed == s.executed && t.answers == s.answers && t.nextCall >= s.nextCall
  }

  lemma SameDatabaseIsOk(s: State, t: State)
    requires DatabaseOk(s) && SameDatabase(s, t)
    ensures DatabaseOk(t)
  {
  }

  lemma ExecutingForgetsNothing(s: State, call: nat)
    requires DatabaseOk(s) && CallsOk(s) && NothingForgotten(s) && call in s.bumps
    ensures NothingForgotten(Executing(s, call))
  {
    var b, t := s.bumps[call], Executing(s, call);
    assert Stamp(b.scope, t.epochs[b.scope]) !in s.landed;
    NothingFallsAway(s, t);
  }

  lemma ClearingForgetsNothing(s: State, m: nat, i: nat)
    requires DatabaseOk(s) && CallsOk(s) && NothingForgotten(s) && CanClear(s, m, i)
    ensures NothingForgotten(Clearing(s, m, i))
  {
    hide CallsOk, DatabaseOk;
    var t := Clearing(s, m, i);
    NextCallIsNew(s);
    forall n, j | n in t.processes && j in t.processes[n].cleared ensures Covered(t, n, j) || j in t.abandoned {
      OwnProcessOk(s, n);
      if n == m && j == i {
        assert i in ClearedIn(t, m, ScopeOf(s.writes[i].kind));
        assert s.nextCall in t.awaiting && i in t.bumps[s.nextCall].covers;
      } else if j !in s.abandoned {
        var scope := ScopeOf(s.writes[j].kind);
        CoverStands(s, t, n, scope, {}, j);
      }
    }
  }

  /** The call that landed stands for its writes by the number it was given. */
  lemma LandingForgetsNothing(s: State, call: nat)
    requires DatabaseOk(s) && CallsOk(s) && NothingForgotten(s) && IsAwaited(s, call) && call in s.executed
    ensures NothingForgotten(Landing(s, call))
  {
    hide CallsOk;
    var t, b := Landing(s, call), s.bumps[call];
    forall n, j | n in t.processes && j in t.processes[n].cleared ensures Covered(t, n, j) || j in t.abandoned {
      OwnProcessOk(s, n);
      if j in b.covers {
        assert j in t.landed[Stamp(b.scope, s.executed[call])];
      } else if j !in s.abandoned {
        CoverStands(s, t, n, ScopeOf(s.writes[j].kind), {call}, j);
      }
    }
  }

  lemma GivingUpForgetsNothing(s: State, u: State, m: nat, scope: Scope, call: nat)
    requires DatabaseOk(s) && CallsOk(s) && NothingForgotten(s)
    requires m in u.processes && u.writes == s.writes && u.abandoned == s.abandoned
    requires u.processes.Keys == s.processes.Keys
    requires forall n :: n in s.processes ==> u.processes[n].cleared == s.processes[n].cleared
    requires forall n, sc :: n in s.processes && (n != m || sc != scope) ==> StillStands(s, u, n, sc, {call})
    requires call in s.bumps ==> s.bumps[call].owner == m && s.bumps[call].scope == scope
    ensures NothingForgotten(GivingUp(u, m, scope))
  {
    var t := GivingUp(u, m, scope);
    forall n, j | n in t.processes && j in t.processes[n].cleared ensures Covered(t, n, j) || j in t.abandoned {
      assert ProcessOk(s, n, s.processes[n]);
      var sc := ScopeOf(s.writes[j].kind);
      if n == m && sc == scope {
        assert j in ClearedIn(u, m, scope);
        assert Covered(u, n, j) ==> Covered(t, n, j);
      } else if j !in s.abandoned {
        assert StillStands(s, u, n, sc, {call});
        CoverStands(s, u, n, sc, {call}, j);
        assert Covered(t, n, j);
      }
    }
  }

  // ---- Every step ----

  lemma BootingKeepsInv(s: State, m: nat)
    requires Inv(s) && m !in s.booted
    ensures Inv(Booting(s, m))
  {
    hide DatabaseOk, CallsOk, CachesOk, NothingForgotten;
    var t := Booting(s, m);
    SameDatabaseIsOk(s, t);
    BootingKeepsCalls(s, m);
    OneProcessChangesItsCache(s, m, t.processes[m]);
    SameHoldingsAreOk(WithProcess(s, m, t.processes[m]), t);
    SameCoverForgetsNothing(s, t);
  }

  lemma CrashingKeepsInv(s: State, m: nat)
    requires Inv(s) && m in s.processes
    ensures Inv(Crashed(s, m))
  {
    hide DatabaseOk, CallsOk, CachesOk, NothingForgotten;
    var t := Crashed(s, m);
    SameDatabaseIsOk(s, t);
    CrashingKeepsCalls(s, m);
    SameHoldingsAreOk(s, t);
    SameCoverForgetsNothing(s, t);
  }

  lemma CommittingKeepsInv(s: State, w: Write)
    requires Inv(s)
    ensures Inv(Committing(s, w))
  {
    hide DatabaseOk, CallsOk, CachesOk, NothingForgotten;
    CommittingKeepsDatabase(s, w);
    CommittingKeepsCalls(s, w);
    CommittingKeepsCaches(s, w);
    CommittingForgetsNothing(s, w);
  }

  lemma ClearingKeepsCaches(s: State, m: nat, i: nat)
    requires CachesOk(s) && CanClear(s, m, i)
    ensures CachesOk(Clearing(s, m, i))
  {
    hide CacheOk;
    var p := s.processes[m];
    var q := Cleared(p, i, s.writes[i].kind);
    LocalClearKeepsCache(p.local, p.cleared, s.writes, s.landed, i);
    OneProcessChangesItsCache(s, m, q);
    SameHoldingsAreOk(WithProcess(s, m, q), Clearing(s, m, i));
  }

  lemma ClearingKeepsInv(s: State, m: nat, i: nat)
    requires Inv(s) && CanClear(s, m, i)
    ensures Inv(Clearing(s, m, i))
  {
    hide DatabaseOk, CallsOk, CachesOk, NothingForgotten;
    var kind := s.writes[i].kind;
    var u := WithProcess(s, m, Cleared(s.processes[m], i, kind));
    SameDatabaseIsOk(s, u);
    IssuingKeepsDatabase(u, m, ScopeOf(kind));
    ClearingKeepsCalls(s, m, i);
    ClearingKeepsCaches(s, m, i);
    ClearingForgetsNothing(s, m, i);
  }

  lemma ExecutingKeepsInv(s: State, call: nat)
    requires Inv(s) && call in s.bumps && call !in s.executed
    ensures Inv(Executing(s, call))
  {
    hide DatabaseOk, CallsOk, CachesOk, NothingForgotten;
    ExecutingKeepsDatabase(s, call);
    ExecutingKeepsCalls(s, call);
    ExecutingKeepsCaches(s, call);
    ExecutingForgetsNothing(s, call);
  }

  lemma LandingKeepsInv(s: State, call: nat)
    requires Inv(s) && IsAwaited(s, call) && call in s.executed
    ensures Inv(Landing(s, call))
  {
    hide DatabaseOk, CallsOk, CachesOk, NothingForgotten;
    SameDatabaseIsOk(s, Landing(s, call));
    LandingKeepsCalls(s, call);
    LandingKeepsCaches(s, call);
    LandingForgetsNothing(s, call);
  }

  lemma FailingKeepsInv(s: State, call: nat, outcome: Outcome)
    requires Inv(s) && IsAwaited(s, call) && outcome != Landed
    ensures Inv(Failing(s, call, outcome))
  {
    hide DatabaseOk, CallsOk, CachesOk, NothingForgotten;
    SameDatabaseIsOk(s, Failing(s, call, outcome));
    FailingKeepsCalls(s, call, outcome);
    FailingKeepsCaches(s, call, outcome);
    FailingForgetsNothing(s, call, outcome);
  }

  lemma FailingKeepsCaches(s: State, call: nat, outcome: Outcome)
    requires CachesOk(s) && IsAwaited(s, call)
    ensures CachesOk(Failing(s, call, outcome))
  {
  }

  lemma OwnProcessOk(s: State, m: nat)
    requires CallsOk(s) && m in s.processes
    ensures ProcessOk(s, m, s.processes[m])
  {
  }

  lemma FailingForgetsNothing(s: State, call: nat, outcome: Outcome)
    requires DatabaseOk(s) && CallsOk(s) && NothingForgotten(s) && IsAwaited(s, call) && outcome != Landed
    ensures NothingForgotten(Failing(s, call, outcome))
  {
    hide DatabaseOk, CallsOk, NothingForgotten, Covered;
    var b := s.bumps[call];
    var p := s.processes[b.owner];
    OwnProcessOk(s, b.owner);
    var pending := PendingAfter(p, b.scope, call, outcome);
    var u := s.(awaiting := s.awaiting - {call},
                processes := s.processes[b.owner := WithPending(p, b.scope, pending)]);
    if outcome == Broken || pending.None? {
      GivingUpForgetsNothing(s, u, b.owner, b.scope, call);
    } else {
      RetryingForgetsNothing(s, u, call);
    }
  }

  /** A failed bump whose scope is going to be retried leaves its writes to the retry. */
  lemma RetryingForgetsNothing(s: State, u: State, call: nat)
    requires DatabaseOk(s) && CallsOk(s) && NothingForgotten(s) && IsAwaited(s, call)
    requires
      var m, scope := s.bumps[call].owner, s.bumps[call].scope;
      && m in u.processes
      && u == s.(awaiting := s.awaiting - {call}, processes := s.processes[m := u.processes[m]])
      && u.processes[m].cleared == s.processes[m].cleared
      && scope in u.processes[m].pending
      && (u.processes[m].pending[scope].inFlight.None? || u.processes[m].pending[scope].again)
      && forall sc :: sc != scope ==> PendingOf(u.processes[m], sc) == PendingOf(s.processes[m], sc)
    ensures NothingForgotten(u)
  {
    var b := s.bumps[call];
    forall n, j | n in u.processes && j in u.processes[n].cleared ensures Covered(u, n, j) || j in u.abandoned {
      assert ProcessOk(s, n, s.processes[n]);
      var scope := ScopeOf(s.writes[j].kind);
      if n == b.owner && scope == b.scope {
        assert ToBeRetried(u, n, j);
      } else if j !in s.abandoned {
        CoverStands(s, u, n, scope, {call}, j);
      }
    }
  }

  lemma FiringKeepsInv(s: State, m: nat, scope: Scope, ending: bool)
    requires Inv(s) && TimerRuns(s, m, scope)
    ensures Inv(Firing(s, m, scope, ending))
  {
    hide DatabaseOk, CallsOk, CachesOk, NothingForgotten;
    FiringKeepsCalls(s, m, scope, ending);
    FiringKeepsCaches(s, m, scope, ending);
    if ending {
      SameDatabaseIsOk(s, Firing(s, m, scope, ending));
      DrainingForgetsNothing(s, m, scope);
    } else {
      var u := WithProcess(s, m, RetryOut(s.processes[m], scope, s.nextCall));
      SameDatabaseIsOk(s, u);
      IssuingKeepsDatabase(u, m, scope);
      FiringAgainForgetsNothing(s, m, scope);
    }
  }

  lemma FiringKeepsCaches(s: State, m: nat, scope: Scope, ending: bool)
    requires CachesOk(s) && TimerRuns(s, m, scope)
    ensures CachesOk(Firing(s, m, scope, ending))
  {
  }

  lemma NextCallIsNew(s: State)
    requires DatabaseOk(s)
    ensures s.nextCall !in s.bumps
  {
  }

  lemma DrainingForgetsNothing(s: State, m: nat, scope: Scope)
    requires DatabaseOk(s) && CallsOk(s) && NothingForgotten(s) && TimerRuns(s, m, scope)
    ensures NothingForgotten(Firing(s, m, scope, true))
  {
    hide DatabaseOk, CallsOk, NothingForgotten, Covered;
    NextCallIsNew(s);
    var u := WithProcess(s, m, WithPending(s.processes[m], scope, None));
    GivingUpForgetsNothing(s, u, m, scope, s.nextCall);
  }

  /** The retry that goes out covers whatever was waiting for it. */
  lemma FiringAgainForgetsNothing(s: State, m: nat, scope: Scope)
    requires DatabaseOk(s) && CallsOk(s) && NothingForgotten(s) && TimerRuns(s, m, scope)
    ensures NothingForgotten(Firing(s, m, scope, false))
  {
    hide CallsOk, DatabaseOk;
    var t := Firing(s, m, scope, false);
    NextCallIsNew(s);
    forall n, j | n in t.processes && j in t.processes[n].cleared ensures Covered(t, n, j) || j in t.abandoned {
      OwnProcessOk(s, n);
      if n == m && ScopeOf(s.writes[j].kind) == scope {
        assert j in t.bumps[s.nextCall].covers;
        assert OnItsWay(t, n, j);
      } else if j !in s.abandoned {
        CoverStands(s, t, n, ScopeOf(s.writes[j].kind), {}, j);
      }
    }
  }

  function QuietChange(s: State, m: nat, p: Process, nextCall: nat): State {
    s.(processes := s.processes[m := p], nextCall := nextCall)
  }

  /** Steps that only move a read along, or change one process's cache. */
  lemma QuietChangeKeepsInv(s: State, m: nat, p: Process, nextCall: nat)
    requires Inv(s) && m in s.processes && CacheOk(p.local, p.cleared, s.writes, s.landed)
    requires p.cleared == s.processes[m].cleared && p.pending == s.processes[m].pending
    requires Behind(p.local.lastSeen, s.epochs) && nextCall >= s.nextCall
    ensures Inv(QuietChange(s, m, p, nextCall))
  {
    hide DatabaseOk, CallsOk, CachesOk, NothingForgotten;
    QuietChangeKeepsDatabase(s, m, p, nextCall);
    QuietChangeKeepsCalls(s, m, p, nextCall);
    QuietChangeKeepsCaches(s, m, p, nextCall);
    QuietChangeForgetsNothing(s, m, p, nextCall);
  }

  lemma QuietChangeKeepsDatabase(s: State, m: nat, p: Process, nextCall: nat)
    requires DatabaseOk(s) && nextCall >= s.nextCall
    ensures DatabaseOk(QuietChange(s, m, p, nextCall))
  {
  }

  lemma QuietChangeKeepsCaches(s: State, m: nat, p: Process, nextCall: nat)
    requires CachesOk(s) && CacheOk(p.local, p.cleared, s.writes, s.landed)
    ensures CachesOk(QuietChange(s, m, p, nextCall))
  {
  }

  lemma QuietChangeForgetsNothing(s: State, m: nat, p: Process, nextCall: nat)
    requires NothingForgotten(s) && m in s.processes
    requires p.cleared == s.processes[m].cleared && p.pending == s.processes[m].pending
    ensures NothingForgotten(QuietChange(s, m, p, nextCall))
  {
  }

  lemma QuietChangeKeepsCalls(s: State, m: nat, p: Process, nextCall: nat)
    requires CallsOk(s) && m in s.processes && Behind(p.local.lastSeen, s.epochs)
    requires p.cleared == s.processes[m].cleared && p.pending == s.processes[m].pending
    ensures CallsOk(QuietChange(s, m, p, nextCall))
  {
  }

  lemma RecordKeepsCalls(s: State, t: State)
    requires CallsOk(s) && t == s.(lost := t.lost, answers := t.answers, nextCall := t.nextCall)
    ensures CallsOk(t)
  {
  }

  lemma AnsweringKeepsDatabase(s: State, call: nat)
    requires DatabaseOk(s)
    ensures DatabaseOk(Answering(s, call))
  {
  }

  lemma AnsweringKeepsInv(s: State, call: nat)
    requires Inv(s)
    ensures Inv(Answering(s, call))
  {
    hide DatabaseOk, CallsOk, CachesOk, NothingForgotten;
    var t := Answering(s, call);
    AnsweringKeepsDatabase(s, call);
    RecordKeepsCalls(s, t);
    SameHoldingsAreOk(s, t);
    SameCoverForgetsNothing(s, t);
  }

  lemma LosingKeepsInv(s: State, call: nat)
    requires Inv(s) && call in s.bumps
    ensures Inv(s.(lost := s.lost + {call}))
  {
    hide CallsOk, CachesOk, NothingForgotten;
    var t := s.(lost := s.lost + {call});
    RecordKeepsCalls(s, t);
    SameHoldingsAreOk(s, t);
    SameCoverForgetsNothing(s, t);
  }

  lemma HearingReadKeepsInv(s: State, m: nat)
    requires Inv(s) && ReadIsBack(s, m)
    ensures Inv(HearingRead(s, m))
  {
    var p := s.processes[m];
    var rows := s.answers[p.reading.value];
    assert ProcessOk(s, m, p);
    ReadAnswerKeepsCache(p.local, p.cleared, s.writes, s.epochs, s.landed, rows);
    QuietChangeKeepsInv(s, m, p.(local := AfterRead(p.local, rows), reading := None), s.nextCall);
  }

  lemma LoadingKeepsInv(s: State, m: nat, key: Key)
    requires Inv(s) && m in s.processes
    ensures Inv(WithCache(s, m, HoldingLoad(s.processes[m].local.cache, key, |s.writes|)))
  {
    var p := s.processes[m];
    assert ProcessOk(s, m, p);
    LoadKeepsCache(p.local, p.cleared, s.writes, s.epochs, s.landed, key);
    QuietChangeKeepsInv(s, m, p.(local := p.local.(cache := HoldingLoad(p.local.cache, key, |s.writes|))), s.nextCall);
  }

  lemma EvictingKeepsInv(s: State, m: nat, key: Key)
    requires Inv(s) && m in s.processes
    ensures Inv(WithCache(s, m, s.processes[m].local.cache - {key}))
  {
    var p := s.processes[m];
    assert ProcessOk(s, m, p) && CacheOk(p.local, p.cleared, s.writes, s.landed);
    QuietChangeKeepsInv(s, m, p.(local := p.local.(cache := p.local.cache - {key})), s.nextCall);
  }

  lemma ReadStepKeepsInv(s: State, m: nat, reading: Option<nat>, nextCall: nat)
    requires Inv(s) && m in s.processes && nextCall >= s.nextCall
    ensures Inv(QuietChange(s, m, s.processes[m].(reading := reading), nextCall))
  {
    assert ProcessOk(s, m, s.processes[m]);
    QuietChangeKeepsInv(s, m, s.processes[m].(reading := reading), nextCall);
  }

  lemma ProcessStepKeepsInv(s: State, step: Step)
    requires Inv(s) && (step.Boot? || step.Crash? || step.Commit? || step.ClearLocally?)
    ensures Inv(Next(s, step))
  {
    hide DatabaseOk, CallsOk, CachesOk, NothingForgotten;
    match step
    case Boot(m) => if m !in s.booted { BootingKeepsInv(s, m); }
    case Crash(m) => if m in s.processes { CrashingKeepsInv(s, m); }
    case Commit(m, kind) => if m in s.processes { CommittingKeepsInv(s, Write(kind, m)); }
    case ClearLocally(m, i) => if CanClear(s, m, i) { ClearingKeepsInv(s, m, i); }
  }

  lemma BumpStepKeepsInv(s: State, step: Step)
    requires Inv(s) && (step.ExecuteBump? || step.LoseBump? || step.BumpLands? || step.BumpFails? || step.TimerFires?)
    ensures Inv(Next(s, step))
  {
    hide DatabaseOk, CallsOk, CachesOk, NothingForgotten;
    match step
    case ExecuteBump(call) => if CanArrive(s, call) { ExecutingKeepsInv(s, call); }
    case LoseBump(call) => if CanArrive(s, call) { LosingKeepsInv(s, call); }
    case BumpLands(call) => if IsAwaited(s, call) && call in s.executed { LandingKeepsInv(s, call); }
    case BumpFails(call, outcome) =>
      if IsAwaited(s, call) && outcome != Landed { FailingKeepsInv(s, call, outcome); }
    case TimerFires(m, scope, ending) => if TimerRuns(s, m, scope) { FiringKeepsInv(s, m, scope, ending); }
  }

  lemma ReadStepsKeepInv(s: State, step: Step)
    requires Inv(s) && (step.StartRead? || step.ExecuteRead? || step.ReadLands?)
    ensures Inv(Next(s, step))
  {
    hide DatabaseOk, CallsOk, CachesOk, NothingForgotten;
    match step
    case StartRead(m) => if m in s.processes && s.processes[m].reading.None? { ReadStepKeepsInv(s, m, Some(s.nextCall), s.nextCall + 1); }
    case ExecuteRead(call) => if call < s.nextCall && call !in s.answers { AnsweringKeepsInv(s, call); }
    case ReadLands(m) => if ReadIsBack(s, m) { HearingReadKeepsInv(s, m); }
  }

  lemma CacheStepKeepsInv(s: State, step: Step)
    requires Inv(s) && (step.ReadFails? || step.Load? || step.Evict?)
    ensures Inv(Next(s, step))
  {
    hide DatabaseOk, CallsOk, CachesOk, NothingForgotten;
    match step
    case ReadFails(m) => if m in s.processes { ReadStepKeepsInv(s, m, None, s.nextCall); }
    case Load(m, key) =>
      if m in s.processes && key !in s.processes[m].local.cache { LoadingKeepsInv(s, m, key); }
    case Evict(m, key) => if m in s.processes { EvictingKeepsInv(s, m, key); }
  }

  lemma InvKept(s: State, step: Step)
    requires Inv(s)
    ensures Inv(Next(s, step))
  {
    hide DatabaseOk, CallsOk, CachesOk, NothingForgotten;
    if step.Boot? || step.Crash? || step.Commit? || step.ClearLocally? {
      ProcessStepKeepsInv(s, step);
    } else if step.ExecuteBump? || step.LoseBump? || step.BumpLands? || step.BumpFails? || step.TimerFires? {
      BumpStepKeepsInv(s, step);
    } else if step.StartRead? || step.ExecuteRead? || step.ReadLands? {
      ReadStepsKeepInv(s, step);
    } else {
      CacheStepKeepsInv(s, step);
    }
  }

  lemma {:induction false} InvAlways(s: State, run: seq<Step>)
    requires Inv(s)
    ensures Inv(Exec(s, run))
    decreases |run|
  {
    if run != [] {
      InvKept(s, run[0]);
      InvAlways(Next(s, run[0]), run[1..]);
    }
  }

  // ---- What holds in every run ----

  /**
   * In every run, whatever was overtaken, lost or shared: an entry a process holds
   * was loaded after every write that invalidates it and that stands behind a
   * number the process has taken on.
   */
  lemma HeldEntriesAreFresh(seed: map<Scope, nat>, run: seq<Step>, m: nat, key: Key, st: Stamp, i: nat)
    requires
      var s := Exec(Initial(seed), run);
      && m in s.processes && key in s.processes[m].local.cache
      && st in s.landed && i in s.landed[st] && Heard(s.processes[m].local.lastSeen, st)
    ensures
      var s := Exec(Initial(seed), run);
      var e := s.processes[m].local.cache[key];
      && i < |s.writes|
      && (forall p :: p in e && Clears(s.writes[i].kind, p) ==> i < e[p])
      && (forall p :: p in e && DependsOn(p, s.writes[i].kind) ==> i < e[p])
  {
    InvAlways(Initial(seed), run);
    var s := Exec(Initial(seed), run);
    assert CacheOk(s.processes[m].local, s.processes[m].cleared, s.writes, s.landed);
    assert Fresh(s.processes[m].local.cache[key], s.writes, i);
    DependentsAreDropped(s.writes[i].kind);
  }

  /** What the process that wrote holds is fresh at once, whatever becomes of the bump. */
  lemma WritersAreFreshAtOnce(seed: map<Scope, nat>, run: seq<Step>, m: nat, key: Key, i: nat)
    requires
      var s := Exec(Initial(seed), run);
      m in s.processes && key in s.processes[m].local.cache && i in s.processes[m].cleared
    ensures
      var s := Exec(Initial(seed), run);
      var e := s.processes[m].local.cache[key];
      && i < |s.writes|
      && (forall p :: p in e && Clears(s.writes[i].kind, p) ==> i < e[p])
      && (forall p :: p in e && DependsOn(p, s.writes[i].kind) ==> i < e[p])
  {
    InvAlways(Initial(seed), run);
    var s := Exec(Initial(seed), run);
    assert CacheOk(s.processes[m].local, s.processes[m].cleared, s.writes, s.landed);
    assert Fresh(s.processes[m].local.cache[key], s.writes, i);
    DependentsAreDropped(s.writes[i].kind);
  }

  /**
   * In every run, a write its process has cleared up after is announced, on its way,
   * waiting for the scope's one retry, or was given up on by a terminal outcome;
   * and the retry keeps its place in the schedule.
   */
  lemma NoWriteIsForgotten(seed: map<Scope, nat>, run: seq<Step>, m: nat, i: nat)
    requires m in Exec(Initial(seed), run).processes && i in Exec(Initial(seed), run).processes[m].cleared
    ensures
      var s := Exec(Initial(seed), run);
      Announced(s, i) || OnItsWay(s, m, i) || ToBeRetried(s, m, i) || i in s.abandoned
    ensures
      var p := Exec(Initial(seed), run).processes[m];
      forall scope :: scope in p.pending ==> p.pending[scope].attempt < |BUMP_RETRY_DELAYS_MS|
  {
    InvAlways(Initial(seed), run);
    var s := Exec(Initial(seed), run);
    assert ProcessOk(s, m, s.processes[m]);
    assert Covered(s, m, i) || i in s.abandoned;
  }
}
