/**
 * Choosing the game of the week: any number of callers, each an optimistic read,
 * then a transaction that takes one advisory lock, checks again at the wall clock,
 * inserts, and commits or rolls back. Games are edited and deleted meanwhile.
 *
 * Statements are atomic and see what is committed. A pick is stamped with the
 * moment its transaction began, which can be long before the lock was granted.
 */
module GameOfTheWeek {
  import opened Basics

  const DAY: int := 86_400_000
  const WEEK: int := 7 * DAY
  const RECENT: int := 60 * DAY

  datatype Game = Game(playable: bool, ratingSum: nat, ratingCount: nat)

  datatype Pick = Pick(game: nat, startDate: int, endDate: int)

  /** Where a caller stands in its transaction, and when that transaction began. */
  datatype Caller =
    | Connecting
    | Begun(began: int)
    | Locked(began: int)
    | FoundNone(began: int)
    | NoneSuited(began: int)
    | Chosen(began: int, game: nat)
    | Inserted(began: int, pick: Pick)
    | Finishing(began: int)

  datatype State = State(
    now: int,
    games: map<nat, Game>,
    nextGame: nat,               // serial ids of deleted games are not given out again
    picks: map<nat, Pick>,       // committed, by serial id
    nextPick: nat,
    callers: map<nat, Caller>,
    lock: Option<nat>)

  datatype Step =
    | Ask(c: nat)
    | Begin(c: nat)
    | Acquire(c: nat)
    | Recheck(c: nat)
    | Choose(c: nat, game: nat)
    | NoneSuits(c: nat)
    | ChooseAny(c: nat, game: nat)
    | ChooseNone(c: nat)
    | Insert(c: nat)
    | Commit(c: nat)
    | Abort(c: nat)
    | Tick(to: int)
    | SaveGame(id: nat, row: Game)
    | DeleteGame(id: nat)

  predicate Playable(s: State, game: nat) { game in s.games && s.games[game].playable }

  /** The join both reads make: the pick's dates hold the moment, and its game can be played. */
  predicate Live(s: State, p: Pick, at: int) {
    p.startDate <= at <= p.endDate && Playable(s, p.game)
  }

  predicate SomeLive(s: State, at: int) {
    exists i :: i in s.picks && Live(s, s.picks[i], at)
  }

  predicate Eligible(s: State, began: int, game: nat) {
    && Playable(s, game)
    && (s.games[game].ratingCount == 0 || s.games[game].ratingSum >= 4 * s.games[game].ratingCount)
    && forall i :: i in s.picks && s.picks[i].game == game ==> s.picks[i].startDate <= began - RECENT
  }

  predicate InTransaction(p: Caller) { !p.Connecting? }

  /** Past the lock: from its being granted to the end of the transaction. */
  predicate Holding(p: Caller) { !p.Connecting? && !p.Begun? }

  /** The re-check found nothing current, so this caller may add a pick. */
  predicate Selecting(p: Caller) { p.FoundNone? || p.NoneSuited? || p.Chosen? || p.Inserted? }

  predicate At(s: State, c: nat, p: Caller) { c in s.callers && s.callers[c] == p }

  function Moved(s: State, c: nat, p: Caller): State { s.(callers := s.callers[c := p]) }

  /** The end of a transaction, or of its session, takes the lock with it. */
  function Ended(s: State, c: nat): State {
    s.(callers := s.callers - {c}, lock := if s.lock == Some(c) then None else s.lock)
  }

  function Next(s: State, step: Step): State {
    match step
    case Ask(c) => if c !in s.callers && !SomeLive(s, s.now) then Moved(s, c, Connecting) else s
    case Begin(c) => if At(s, c, Connecting) then Moved(s, c, Begun(s.now)) else s
    case Acquire(c) =>
      if c in s.callers && s.callers[c].Begun? && s.lock.None?
      then Moved(s, c, Locked(s.callers[c].began)).(lock := Some(c)) else s
    case Recheck(c) =>
      if c in s.callers && s.callers[c].Locked?
      then Moved(s, c, if SomeLive(s, s.now) then Finishing(s.callers[c].began) else FoundNone(s.callers[c].began))
      else s
    case Choose(c, game) =>
      if c in s.callers && s.callers[c].FoundNone? && Eligible(s, s.callers[c].began, game)
      then Moved(s, c, Chosen(s.callers[c].began, game)) else s
    case NoneSuits(c) =>
      if c in s.callers && s.callers[c].FoundNone? && forall g :: g in s.games ==> !Eligible(s, s.callers[c].began, g)
      then Moved(s, c, NoneSuited(s.callers[c].began)) else s
    case ChooseAny(c, game) =>
      if c in s.callers && s.callers[c].NoneSuited? && Playable(s, game)
      then Moved(s, c, Chosen(s.callers[c].began, game)) else s
    case ChooseNone(c) =>
      if c in s.callers && s.callers[c].NoneSuited? && forall g :: g in s.games ==> !Playable(s, g)
      then Moved(s, c, Finishing(s.callers[c].began)) else s
    case Insert(c) =>
      if c in s.callers && s.callers[c].Chosen? && s.callers[c].game in s.games
      then
        var began := s.callers[c].began;
        Moved(s, c, Inserted(began, Pick(s.callers[c].game, began, began + WEEK)))
      else s
    case Commit(c) =>
      if c in s.callers && s.callers[c].Inserted?
      then Ended(s, c).(picks := s.picks[s.nextPick := s.callers[c].pick], nextPick := s.nextPick + 1)
      else if c in s.callers && s.callers[c].Finishing? then Ended(s, c)
      else s
    case Abort(c) => if c in s.callers then Ended(s, c) else s
    case Tick(to) => if s.now <= to then s.(now := to) else s
    case SaveGame(id, row) =>
      if id in s.games then s.(games := s.games[id := row])
      else if id >= s.nextGame then s.(games := s.games[id := row], nextGame := id + 1)
      else s
    case DeleteGame(id) =>
      // The row a pick points at cannot go while the pick's transaction holds it.
      if exists c :: c in s.callers && s.callers[c].Inserted? && s.callers[c].pick.game == id then s
      else s.(games := s.games - {id}, picks := map i | i in s.picks && s.picks[i].game != id :: s.picks[i])
  }

  function Exec(s: State, run: seq<Step>): State
    decreases |run|
  {
    if run == [] then s else Exec(Next(s, run[0]), run[1..])
  }

  /** Where a run may start: any games, any picks of them that have begun, nobody asking. */
  ghost predicate Initial(s: State) {
    && s.callers == map[] && s.lock == None
    && (forall i :: i in s.picks ==> i < s.nextPick && s.picks[i].startDate <= s.now && s.picks[i].game in s.games)
    && (forall g :: g in s.games ==> g < s.nextGame)
  }

  // ---- What the lock and the foreign key see to, whatever is edited meanwhile ----

  ghost predicate Recorded(s: State) {
    && (forall i :: i in s.picks ==> i < s.nextPick && s.picks[i].startDate <= s.now && s.picks[i].game in s.games)
    && (forall g :: g in s.games ==> g < s.nextGame)
  }

  ghost predicate Queued(s: State) {
    && (forall c :: c in s.callers && Holding(s.callers[c]) ==> s.lock == Some(c))
    && (s.lock.Some? ==> s.lock.value in s.callers && Holding(s.callers[s.lock.value]))
  }

  /** Stamped with its transaction's beginning, and pointing at a game that is or was there. */
  predicate Stamped(s: State, p: Caller) {
    && (InTransaction(p) ==> p.began <= s.now)
    && (p.Chosen? ==> p.game < s.nextGame)
    && (p.Inserted? ==> p.pick == Pick(p.pick.game, p.began, p.began + WEEK) && p.pick.game in s.games)
  }

  ghost predicate Orderly(s: State) {
    Recorded(s) && Queued(s) && forall c :: c in s.callers ==> Stamped(s, s.callers[c])
  }

  lemma StepStaysOrderly(s: State, step: Step)
    requires Orderly(s)
    ensures Orderly(Next(s, step))
  {
    StepKeepsCallers(s, step);
    StepKeepsRecords(s, step);
    hide Eligible, SomeLive, Stamped, Recorded;
  }

  lemma StepKeepsCallers(s: State, step: Step)
    requires Orderly(s)
    ensures forall c :: c in Next(s, step).callers ==> Stamped(Next(s, step), Next(s, step).callers[c])
  {
    hide SomeLive, Queued;
  }

  lemma StepKeepsRecords(s: State, step: Step)
    requires Orderly(s)
    ensures Recorded(Next(s, step))
  {
    hide Eligible, SomeLive, Queued;
  }

  lemma {:induction false} OrderlyAlways(s: State, run: seq<Step>)
    requires Orderly(s)
    ensures Orderly(Exec(s, run))
    decreases |run|
  {
    if run != [] {
      StepStaysOrderly(s, run[0]);
      OrderlyAlways(Next(s, run[0]), run[1..]);
    }
  }

  /** Between the lock and the end of its transaction a caller is alone, and a lock has a caller that will release it. */
  lemma OneCallerPastTheLock(s0: State, run: seq<Step>, c: nat, d: nat)
    requires Initial(s0)
    ensures
      var s := Exec(s0, run);
      && (c in s.callers && Holding(s.callers[c]) && d in s.callers && Holding(s.callers[d]) ==> c == d)
      && (s.lock.Some? ==> s.lock.value in s.callers && Holding(s.callers[s.lock.value]))
  {
    OrderlyAlways(s0, run);
  }

  /** Nobody starts to ask for a pick while one is current. */
  lemma AsksIffNoneIsCurrent(s: State, c: nat)
    requires c !in s.callers
    ensures c in Next(s, Ask(c)).callers <==>
      forall i :: i in s.picks && s.picks[i].startDate <= s.now <= s.picks[i].endDate ==>
        !(s.picks[i].game in s.games && s.games[s.picks[i].game].playable)
  {
  }

  // ---- Which game a selection may pick ----

  /** No pick of it started in the sixty days before the moment. */
  ghost predicate Rested(s: State, game: nat, moment: int) {
    forall i :: i in s.picks && s.picks[i].game == game ==> s.picks[i].startDate <= moment - 60 * 86_400_000
  }

  /** It has a stream, has not been picked for sixty days, and is unrated or averages at least four. */
  ghost predicate WellSuited(s: State, game: nat, moment: int) {
    && game in s.games && s.games[game].playable && Rested(s, game, moment)
    && (s.games[game].ratingCount > 0 ==> s.games[game].ratingSum as real / s.games[game].ratingCount as real >= 4.0)
  }

  lemma AverageOfFour(g: Game)
    requires g.ratingCount > 0
    ensures g.ratingSum as real / g.ratingCount as real >= 4.0 <==> g.ratingSum >= 4 * g.ratingCount
  {
    QuotientOrder(g.ratingSum as real, g.ratingCount as real, 4.0);
  }

  lemma QuotientOrder(sum: real, count: real, bound: real)
    requires count > 0.0
    ensures sum / count >= bound <==> sum >= bound * count
  {
    DividedBack(sum, count);
    ProductOrder(sum / count, bound, count);
  }

  lemma DividedBack(a: real, b: real)
    requires b > 0.0
    ensures (a / b) * b == a
  {
  }

  lemma ProductOrder(a: real, b: real, c: real)
    requires c > 0.0
    ensures a >= b <==> a * c >= b * c
  {
  }

  lemma EligibleIsWellSuited(s: State, began: int, game: nat)
    ensures Eligible(s, began, game) <==> WellSuited(s, game, began)
  {
    if game in s.games && s.games[game].ratingCount > 0 { AverageOfFour(s.games[game]); }
  }

  /** The step makes this game the one the caller will insert. */
  ghost predicate Chooses(s: State, step: Step, c: nat, game: nat) {
    c in s.callers && !s.callers[c].Chosen? && c in Next(s, step).callers
    && Next(s, step).callers[c].Chosen? && Next(s, step).callers[c].game == game
  }

  /**
   * Read off the tables alone: the first query's choice is of a game well suited at the moment the transaction began, it
   * finds none exactly when none is, and the second query, which only then is asked, chooses any that can be played.
   */
  lemma ChoosesWhatSuits(s: State, c: nat, game: nat)
    requires c in s.callers
    ensures Chooses(s, Choose(c, game), c, game) <==> s.callers[c].FoundNone? && WellSuited(s, game, s.callers[c].began)
    ensures c in Next(s, NoneSuits(c)).callers
    ensures s.callers[c].FoundNone? ==>
      (Next(s, NoneSuits(c)).callers[c].NoneSuited? <==> forall g :: g in s.games ==> !WellSuited(s, g, s.callers[c].began))
    ensures Chooses(s, ChooseAny(c, game), c, game) <==> s.callers[c].NoneSuited? && game in s.games && s.games[game].playable
  {
    if InTransaction(s.callers[c]) {
      var began := s.callers[c].began;
      forall g ensures Eligible(s, began, g) <==> WellSuited(s, g, began) { EligibleIsWellSuited(s, began, g); }
    }
    hide Eligible, WellSuited;
  }

  /** A selection goes on while some game can be played, and ends without one exactly when none can. */
  lemma SomethingIsChosenIffPlayable(s: State, c: nat)
    requires c in s.callers
    ensures s.callers[c].FoundNone? ==>
      (exists game: nat :: Chooses(s, Choose(c, game), c, game)) || Next(s, NoneSuits(c)).callers[c].NoneSuited?
    ensures s.callers[c].NoneSuited? ==>
      ((exists game: nat :: Chooses(s, ChooseAny(c, game), c, game)) <==> exists g :: g in s.games && s.games[g].playable)
    ensures s.callers[c].NoneSuited? ==>
      (Next(s, ChooseNone(c)) != s <==> forall g :: g in s.games ==> !s.games[g].playable)
  {
    ChoosesWhatSuits(s, c, 0);
    if s.callers[c].FoundNone? && !Next(s, NoneSuits(c)).callers[c].NoneSuited? {
      var g :| g in s.games && WellSuited(s, g, s.callers[c].began);
      ChoosesWhatSuits(s, c, g);
    }
    if s.callers[c].NoneSuited? {
      forall game: nat ensures Chooses(s, ChooseAny(c, game), c, game) <==> game in s.games && s.games[game].playable {
        ChoosesWhatSuits(s, c, game);
      }
      assert Next(s, ChooseNone(c)) != s ==> At(Next(s, ChooseNone(c)), c, Finishing(s.callers[c].began));
      if g :| g in s.games && s.games[g].playable { assert Chooses(s, ChooseAny(c, g), c, g); }
    }
    hide Chooses, WellSuited, Eligible;
  }

  /** And no other step makes a caller's choice, or changes one, or comes to nothing suiting. */
  lemma OnlyChoosingChooses(s: State, step: Step, c: nat)
    requires c in Next(s, step).callers && (c in s.callers ==> s.callers[c] != Next(s, step).callers[c])
    ensures
      var to := Next(s, step).callers[c];
      && (to.Chosen? ==>
        c in s.callers && InTransaction(s.callers[c]) && s.callers[c].began == to.began
        && step in {Choose(c, to.game), ChooseAny(c, to.game)} && Chooses(s, step, c, to.game))
      && (to.NoneSuited? ==> c in s.callers && s.callers[c] == FoundNone(to.began) && step == NoneSuits(c))
  {
    hide Eligible, SomeLive;
  }

  /** The state in which a caller's first query came back empty. */
  ghost predicate NothingSuits(s: State, c: nat, began: int) {
    c in s.callers && s.callers[c] == FoundNone(began) && forall g :: g in s.games ==> !WellSuited(s, g, began)
  }

  lemma {:induction false} NothingSuitedInSomeStep(s: State, run: seq<Step>, c: nat) returns (k: nat)
    requires c in Exec(s, run).callers && Exec(s, run).callers[c].NoneSuited?
    requires c in s.callers ==> s.callers[c] != Exec(s, run).callers[c]
    ensures k < |run| && NothingSuits(Exec(s, run[..k]), c, Exec(s, run).callers[c].began)
    decreases |run|
  {
    var t := Next(s, run[0]);
    var end := Exec(s, run).callers[c];
    if c in t.callers && t.callers[c] == end {
      k := 0;
      OnlyChoosingChooses(s, run[0], c);
      ChoosesWhatSuits(s, c, 0);
      assert run[..0] == [];
    } else {
      var rest := NothingSuitedInSomeStep(t, run[1..], c);
      k := rest + 1;
      assert run[..k][0] == run[0] && run[..k][1..] == run[1..][..rest];
    }
  }

  lemma {:induction false} ChosenInSomeStep(s: State, run: seq<Step>, c: nat) returns (k: nat)
    requires c in Exec(s, run).callers && Exec(s, run).callers[c].Chosen?
    requires c in s.callers ==> s.callers[c] != Exec(s, run).callers[c]
    ensures
      var end := Exec(s, run).callers[c];
      && k < |run| && c in Exec(s, run[..k]).callers
      && (var u := Exec(s, run[..k]);
          || (u.callers[c] == FoundNone(end.began) && WellSuited(u, end.game, end.began))
          || (u.callers[c] == NoneSuited(end.began) && end.game in u.games && u.games[end.game].playable))
    decreases |run|
  {
    var t := Next(s, run[0]);
    var end := Exec(s, run).callers[c];
    if c in t.callers && t.callers[c] == end {
      k := 0;
      OnlyChoosingChooses(s, run[0], c);
      ChoosesWhatSuits(s, c, end.game);
      assert run[..0] == [];
    } else {
      var rest := ChosenInSomeStep(t, run[1..], c);
      k := rest + 1;
      assert run[..k][0] == run[0] && run[..k][1..] == run[1..][..rest];
    }
  }

  /**
   * Over runs: whatever game a caller has chosen was well suited when its query answered; or it could be played when the
   * second query answered, and in an earlier state, when the first one did, no game was well suited.
   */
  lemma ChosenWell(s0: State, run: seq<Step>, c: nat) returns (k: nat, j: nat)
    requires Initial(s0) && c in Exec(s0, run).callers && Exec(s0, run).callers[c].Chosen?
    ensures
      var end := Exec(s0, run).callers[c];
      && j <= k < |run|
      && (var u := Exec(s0, run[..k]);
          || WellSuited(u, end.game, end.began)
          || (end.game in u.games && u.games[end.game].playable && NothingSuits(Exec(s0, run[..j]), c, end.began)))
  {
    k := ChosenInSomeStep(s0, run, c);
    j := k;
    var u := Exec(s0, run[..k]);
    if u.callers[c].NoneSuited? {
      j := NothingSuitedInSomeStep(s0, run[..k], c);
      assert run[..k][..j] == run[..j];
    }
  }

  /** A pick is of the game that was chosen, for seven days from when its transaction began. */
  lemma InsertsTheChoice(s: State, step: Step, c: nat)
    requires c in Next(s, step).callers && Next(s, step).callers[c].Inserted?
    ensures
      var to := Next(s, step).callers[c];
      || (c in s.callers && s.callers[c] == to)
      || (c in s.callers && s.callers[c] == Chosen(to.began, to.pick.game)
          && to.pick.startDate == to.began && to.pick.endDate == to.began + 7 * 86_400_000)
  {
    hide Eligible, SomeLive;
  }

  /** The re-check goes on to a selection exactly when no pick's dates hold the moment with a game that can be played. */
  lemma RecheckGoesOnIff(s: State, c: nat)
    requires c in s.callers && s.callers[c].Locked?
    ensures
      var to := Next(s, Recheck(c)).callers;
      c in to && to[c] ==
        if exists i :: i in s.picks && s.picks[i].startDate <= s.now <= s.picks[i].endDate
             && s.picks[i].game in s.games && s.games[s.picks[i].game].playable
        then Finishing(s.callers[c].began) else FoundNone(s.callers[c].began)
  {
  }

  /** A caller's own next statement, while its connection stands. */
  predicate GoesOn(step: Step, c: nat) {
    match step
    case Recheck(d) => d == c
    case Choose(d, _) => d == c
    case NoneSuits(d) => d == c
    case ChooseAny(d, _) => d == c
    case ChooseNone(d) => d == c
    case Insert(d) => d == c
    case Commit(d) => d == c
    case _ => false
  }

  /** What a transaction that got the lock comes to: nothing more than one pick, and that one when it had something to pick. */
  ghost predicate Settles(s: State, c: nat, t: State)
    requires c in s.callers && InTransaction(s.callers[c])
  {
    && t.lock.None? && t.callers == s.callers - {c} && t.games == s.games
    && (t.picks == s.picks
        || exists game: nat :: game in s.games && t.picks == s.picks[s.nextPick := Pick(game, s.callers[c].began, s.callers[c].began + WEEK)])
    && ((s.callers[c].FoundNone? || s.callers[c].NoneSuited? || (s.callers[c].Locked? && !SomeLive(s, s.now))) && (exists g :: g in s.games && s.games[g].playable) ==>
        s.nextPick in t.picks)
  }

  lemma OneStatementMore(s: State, step: Step, run: seq<Step>)
    ensures Exec(s, [step] + run) == Exec(Next(s, step), run)
  {
    assert ([step] + run)[1..] == run;
  }

  /**
   * Whoever holds the lock gives it up by its own statements alone, committing a pick if there was one to make; only a
   * game deleted between the choice and the insert ends it otherwise, and then an abort does.
   */
  lemma TheLockIsGivenUp(s: State, c: nat) returns (run: seq<Step>)
    requires Orderly(s) && c in s.callers && Holding(s.callers[c])
    requires s.callers[c].Chosen? ==> s.callers[c].game in s.games
    ensures |run| <= 5 && forall step :: step in run ==> GoesOn(step, c)
    ensures Settles(s, c, Exec(s, run))
  {
    var began := s.callers[c].began;
    assert s.lock == Some(c);
    match s.callers[c]
    case Finishing(_) =>
      run := [Commit(c)];
      OneStatementMore(s, Commit(c), []);
    case Inserted(_, pick) =>
      run := [Commit(c)];
      OneStatementMore(s, Commit(c), []);
      assert pick.game in s.games;
    case Chosen(_, game) =>
      run := [Insert(c), Commit(c)];
      InsertsAndCommits(s, c);
    case FoundNone(_) =>
      run := SelectsAndCommits(s, c);
    case NoneSuited(_) =>
      run := SelectsAnyAndCommits(s, c);
    case Locked(_) =>
      run := ChecksAndSelects(s, c);
  }

  lemma ChecksAndSelects(s: State, c: nat) returns (run: seq<Step>)
    requires Orderly(s) && c in s.callers && s.callers[c].Locked?
    ensures |run| <= 5 && forall step :: step in run ==> GoesOn(step, c)
    ensures Settles(s, c, Exec(s, run))
  {
    var t := Next(s, Recheck(c));
    if SomeLive(s, s.now) {
      run := [Recheck(c), Commit(c)];
      OneStatementMore(s, Recheck(c), [Commit(c)]);
      OneStatementMore(t, Commit(c), []);
    } else {
      StepStaysOrderly(s, Recheck(c));
      var rest := SelectsAndCommits(t, c);
      run := [Recheck(c)] + rest;
      OneStatementMore(s, Recheck(c), rest);
    }
  }

  lemma InsertsAndCommits(s: State, c: nat)
    requires Orderly(s) && c in s.callers && s.callers[c].Chosen? && s.callers[c].game in s.games
    ensures
      var t := Exec(s, [Insert(c), Commit(c)]);
      && Settles(s, c, t) && s.nextPick in t.picks
  {
    var began := s.callers[c].began;
    var game := s.callers[c].game;
    OneStatementMore(s, Insert(c), [Commit(c)]);
    OneStatementMore(Next(s, Insert(c)), Commit(c), []);
    var t := Exec(s, [Insert(c), Commit(c)]);
    assert t.picks == s.picks[s.nextPick := Pick(game, began, began + WEEK)];
  }

  lemma ChoosesAndCommits(s: State, step: Step, c: nat, game: nat)
    requires Orderly(s) && Chooses(s, step, c, game) && Playable(s, game) && step in {Choose(c, game), ChooseAny(c, game)}
    ensures
      var t := Exec(s, [step, Insert(c), Commit(c)]);
      InTransaction(s.callers[c]) && Settles(s, c, t) && s.nextPick in t.picks
  {
    var u := Next(s, step);
    ChoosingOnlyChooses(s, step, c, game);
    StepStaysOrderly(s, step);
    hide Next, Exec, Orderly, Chooses, Settles, SomeLive;
    OneStatementMore(s, step, [Insert(c), Commit(c)]);
    assert [step] + [Insert(c), Commit(c)] == [step, Insert(c), Commit(c)];
    InsertsAndCommits(u, c);
    SettlesFromThere(s, u, c, Exec(u, [Insert(c), Commit(c)]));
  }

  lemma ChoosingOnlyChooses(s: State, step: Step, c: nat, game: nat)
    requires Chooses(s, step, c, game) && step in {Choose(c, game), ChooseAny(c, game)}
    ensures
      var u := Next(s, step);
      && InTransaction(s.callers[c]) && u.callers[c] == Chosen(s.callers[c].began, game) && SameBut(s, u, c)
  {
    hide Eligible;
  }

  predicate SameBut(s: State, u: State, c: nat) {
    u.callers - {c} == s.callers - {c} && u.picks == s.picks && u.nextPick == s.nextPick && u.games == s.games
  }

  lemma SettlesFromThere(s: State, u: State, c: nat, t: State)
    requires c in s.callers && c in u.callers && InTransaction(s.callers[c]) && InTransaction(u.callers[c]) && SameBut(s, u, c)
    requires s.callers[c].began == u.callers[c].began && Settles(u, c, t) && s.nextPick in t.picks
    ensures Settles(s, c, t)
  {
  }

  lemma NoneToCommit(s: State, c: nat)
    requires Orderly(s) && c in s.callers && s.callers[c].NoneSuited? && forall g :: g in s.games ==> !s.games[g].playable
    ensures Settles(s, c, Exec(s, [ChooseNone(c), Commit(c)]))
  {
    OneStatementMore(s, ChooseNone(c), [Commit(c)]);
    OneStatementMore(Next(s, ChooseNone(c)), Commit(c), []);
    hide SomeLive, Eligible;
  }

  lemma SelectsAnyAndCommits(s: State, c: nat) returns (run: seq<Step>)
    requires Orderly(s) && c in s.callers && s.callers[c].NoneSuited?
    ensures |run| <= 3 && forall step :: step in run ==> GoesOn(step, c)
    ensures Settles(s, c, Exec(s, run))
  {
    hide Next, Exec, Orderly, Chooses, Settles, SomeLive, WellSuited;
    SomethingIsChosenIffPlayable(s, c);
    if game: nat :| Chooses(s, ChooseAny(c, game), c, game) {
      run := [ChooseAny(c, game), Insert(c), Commit(c)];
      ChoosesWhatSuits(s, c, game);
      ChoosesAndCommits(s, ChooseAny(c, game), c, game);
    } else {
      run := [ChooseNone(c), Commit(c)];
      NoneToCommit(s, c);
    }
  }

  lemma SelectsAndCommits(s: State, c: nat) returns (run: seq<Step>)
    requires Orderly(s) && c in s.callers && s.callers[c].FoundNone?
    ensures |run| <= 4 && forall step :: step in run ==> GoesOn(step, c)
    ensures Settles(s, c, Exec(s, run))
  {
    SomethingIsChosenIffPlayable(s, c);
    if game: nat :| Chooses(s, Choose(c, game), c, game) {
      hide Next, Exec, Orderly, Chooses, Settles, SomeLive, WellSuited;
      run := [Choose(c, game), Insert(c), Commit(c)];
      ChoosesWhatSuits(s, c, game);
      SuitedIsPlayable(s, game, s.callers[c].began);
      ChoosesAndCommits(s, Choose(c, game), c, game);
    } else {
      var u := Next(s, NoneSuits(c));
      StepStaysOrderly(s, NoneSuits(c));
      FallingBackChangesNothing(s, c);
      hide Next, Exec, Orderly, Chooses, SomeLive, WellSuited;
      var rest := SelectsAnyAndCommits(u, c);
      run := [NoneSuits(c)] + rest;
      OneStatementMore(s, NoneSuits(c), rest);
      SettlesFromTheSame(s, u, c, Exec(u, rest));
    }
  }

  lemma FallingBackChangesNothing(s: State, c: nat)
    requires c in s.callers && c in Next(s, NoneSuits(c)).callers && Next(s, NoneSuits(c)).callers[c].NoneSuited? && s.callers[c].FoundNone?
    ensures SameBut(s, Next(s, NoneSuits(c)), c) && Next(s, NoneSuits(c)).callers[c].began == s.callers[c].began
  {
    hide Eligible;
  }

  lemma SettlesFromTheSame(s: State, u: State, c: nat, t: State)
    requires c in s.callers && c in u.callers && s.callers[c].FoundNone? && u.callers[c].NoneSuited? && SameBut(s, u, c)
    requires s.callers[c].began == u.callers[c].began && Settles(u, c, t)
    ensures Settles(s, c, t)
  {
  }

  lemma SuitedIsPlayable(s: State, game: nat, moment: int)
    ensures WellSuited(s, game, moment) ==> Playable(s, game)
  {
  }

  /** An abort, or a session that ends, gives the lock up from anywhere and commits nothing. */
  lemma AbortingGivesTheLockUp(s: State, c: nat)
    requires Orderly(s) && c in s.callers
    ensures
      var t := Next(s, Abort(c));
      && t.callers == s.callers - {c} && t.picks == s.picks && t.games == s.games
      && (Holding(s.callers[c]) ==> t.lock.None?)
  {
  }

  // ---- One pick at a time ----

  /** Giving a game its stream while a pick of it is still running. */
  predicate Revives(s: State, step: Step) {
    && step.SaveGame? && step.row.playable && !Playable(s, step.id)
    && exists i :: i in s.picks && s.picks[i].game == step.id && s.now <= s.picks[i].endDate
  }

  ghost predicate NothingRevived(s: State, run: seq<Step>)
    decreases |run|
  {
    run == [] || (!Revives(s, run[0]) && NothingRevived(Next(s, run[0]), run[1..]))
  }

  ghost predicate Current(s: State, i: nat) { i in s.picks && Live(s, s.picks[i], s.now) }

  ghost predicate OnlyOneCurrent(s: State) {
    forall i: nat, j: nat :: Current(s, i) && Current(s, j) ==> i == j
  }

  /** The last moment at which this pick and one a transaction made can both be running. */
  function LastTogether(p: Pick, began: int): int {
    if p.endDate < began + WEEK then p.endDate else began + WEEK
  }

  /**
   * A caller past its re-check can still put a current pick beside p: they would overlap,
   * and its game can be played, or can be made so without reviving another pick of it.
   */
  ghost predicate CanStillCommit(s: State, p: Pick, caller: Caller) {
    && Selecting(caller) && s.now <= LastTogether(p, caller.began)
    && match caller
       case FoundNone(_) => true
       case NoneSuited(_) => true
       case Chosen(began, game) => CanComeToPlay(s, game, LastTogether(p, began))
       case Inserted(began, pick) => CanComeToPlay(s, pick.game, LastTogether(p, began))
       case _ => false
  }

  ghost predicate CanComeToPlay(s: State, game: nat, until: int) {
    && game in s.games
    && (Playable(s, game) || forall k :: k in s.picks && s.picks[k].game == game ==> s.picks[k].endDate < until)
  }

  /** One current pick at most, and nobody at work who could add to it. */
  ghost predicate Calm(s: State) {
    && OnlyOneCurrent(s)
    && forall i: nat, c: nat :: Current(s, i) && c in s.callers ==> !CanStillCommit(s, s.picks[i], s.callers[c])
  }

  /** A pick comes to be current by its commit or by its game's revival, and in no other way. */
  lemma NoOtherWayToBeCurrent(s: State, step: Step, i: nat)
    requires Recorded(s) && !Revives(s, step) && Current(Next(s, step), i)
    ensures
      || (Current(s, i) && Next(s, step).picks[i] == s.picks[i])
      || (i == s.nextPick && step.Commit? && step.c in s.callers && s.callers[step.c].Inserted?
          && Next(s, step).picks[i] == s.callers[step.c].pick)
  {
    hide Eligible, SomeLive;
  }

  lemma TransactionsOnlyAddPicks(s: State, step: Step)
    requires Recorded(s) && !(step.SaveGame? || step.DeleteGame? || step.Tick?)
    ensures
      var t := Next(s, step);
      && t.games == s.games && t.now == s.now
      && forall k :: k in s.picks ==> k in t.picks && t.picks[k] == s.picks[k]
  {
    hide Eligible, SomeLive;
  }

  /** What a caller past its re-check was one step before. */
  lemma OneStepEarlier(s: State, step: Step, c: nat)
    requires c in Next(s, step).callers && Selecting(Next(s, step).callers[c])
    requires !(step == Recheck(c) && !SomeLive(s, s.now))
    ensures c in s.callers
    ensures
      var was, next := s.callers[c], Next(s, step).callers[c];
      || next == was
      || (was == FoundNone(next.began) && (next.NoneSuited? || next.Chosen?))
      || (was == NoneSuited(next.began) && next.Chosen?)
      || (next.Inserted? && was == Chosen(next.began, next.pick.game))
  {
    hide Eligible, SomeLive;
  }

  lemma NobodyGainsAChanceInATransaction(s: State, step: Step, p: Pick, c: nat)
    requires Orderly(s) && !(step.SaveGame? || step.DeleteGame? || step.Tick?)
    requires !(step == Recheck(c) && !SomeLive(s, s.now))
    requires c in Next(s, step).callers && CanStillCommit(Next(s, step), p, Next(s, step).callers[c])
    ensures c in s.callers && CanStillCommit(s, p, s.callers[c])
  {
    TransactionsOnlyAddPicks(s, step);
    OneStepEarlier(s, step, c);
    hide Next, SomeLive, Recorded, Queued;
  }

  lemma NobodyGainsAChanceFromEdits(s: State, step: Step, p: Pick, c: nat)
    requires Orderly(s) && !Revives(s, step) && (step.SaveGame? || step.DeleteGame? || step.Tick?)
    requires c in Next(s, step).callers && CanStillCommit(Next(s, step), p, Next(s, step).callers[c])
    ensures c in s.callers && CanStillCommit(s, p, s.callers[c])
  {
    var t := Next(s, step);
    assert t.callers == s.callers;
    if step.DeleteGame? {
      assert forall k :: k in s.picks && s.picks[k].game in t.games ==> k in t.picks && t.picks[k] == s.picks[k];
    }
    hide Queued;
  }

  lemma StepKeepsCalm(s: State, step: Step)
    requires Orderly(s) && Calm(s) && !Revives(s, step)
    ensures Calm(Next(s, step))
  {
    var t := Next(s, step);
    forall i: nat, j: nat | Current(t, i) && Current(t, j) ensures i == j {
      OnlyOneStays(s, step, i, j);
    }
    forall i: nat, c: nat | Current(t, i) && c in t.callers ensures !CanStillCommit(t, t.picks[i], t.callers[c]) {
      ChancesStayNone(s, step, i, c);
    }
  }

  /** Committing beside a current pick takes a chance to commit a current one. */
  lemma OnlyOneStays(s: State, step: Step, i: nat, j: nat)
    requires Orderly(s) && Calm(s) && !Revives(s, step) && Current(Next(s, step), i) && Current(Next(s, step), j)
    ensures i == j
  {
    NoOtherWayToBeCurrent(s, step, i);
    NoOtherWayToBeCurrent(s, step, j);
    if i != j && i == s.nextPick {
      CommitTakesAChance(s, step, j);
    } else if i != j && j == s.nextPick {
      CommitTakesAChance(s, step, i);
    }
  }

  lemma CommitTakesAChance(s: State, step: Step, i: nat)
    requires Orderly(s) && Current(s, i) && step.Commit? && step.c in s.callers && s.callers[step.c].Inserted?
    requires Live(s, s.callers[step.c].pick, s.now)
    ensures CanStillCommit(s, s.picks[i], s.callers[step.c])
  {
    hide Recorded, Queued;
    assert Stamped(s, s.callers[step.c]);
  }

  lemma ChancesStayNone(s: State, step: Step, i: nat, c: nat)
    requires Orderly(s) && Calm(s) && !Revives(s, step) && Current(Next(s, step), i) && c in Next(s, step).callers
    ensures !CanStillCommit(Next(s, step), Next(s, step).picks[i], Next(s, step).callers[c])
  {
    var t := Next(s, step);
    NoOtherWayToBeCurrent(s, step, i);
    if i == s.nextPick {
      assert Holding(s.callers[step.c]);
      assert c != step.c && !Holding(s.callers[c]);
    } else if CanStillCommit(t, t.picks[i], t.callers[c]) {
      if step.SaveGame? || step.DeleteGame? || step.Tick? {
        NobodyGainsAChanceFromEdits(s, step, s.picks[i], c);
      } else {
        assert SomeLive(s, s.now);
        NobodyGainsAChanceInATransaction(s, step, s.picks[i], c);
      }
    }
  }

  lemma {:induction false} CalmAlways(s: State, run: seq<Step>)
    requires Orderly(s) && Calm(s) && NothingRevived(s, run)
    ensures Calm(Exec(s, run))
    decreases |run|
  {
    if run != [] {
      StepStaysOrderly(s, run[0]);
      StepKeepsCalm(s, run[0]);
      CalmAlways(Next(s, run[0]), run[1..]);
    }
  }

  // ---- And exactly then ----

  /** At most one pick is current, now and in every run that revives none. */
  ghost predicate SafeFromNowOn(s: State) {
    forall run: seq<Step> :: NothingRevived(s, run) ==> OnlyOneCurrent(Exec(s, run))
  }

  lemma OneStepBefore(s: State, step: Step)
    requires !Revives(s, step) && !SafeFromNowOn(Next(s, step))
    ensures !SafeFromNowOn(s)
  {
    var run :| NothingRevived(Next(s, step), run) && !OnlyOneCurrent(Exec(Next(s, step), run));
    assert ([step] + run)[1..] == run;
    assert NothingRevived(s, [step] + run) && !OnlyOneCurrent(Exec(s, [step] + run));
  }

  lemma CommittingDoubles(s: State, i: nat, c: nat)
    requires Orderly(s) && Current(s, i) && c in s.callers && s.callers[c].Inserted?
    requires s.now <= LastTogether(s.picks[i], s.callers[c].began) && Playable(s, s.callers[c].pick.game)
    ensures !SafeFromNowOn(s)
  {
    var t := Next(s, Commit(c));
    assert Stamped(s, s.callers[c]);
    assert Current(t, i) && Current(t, s.nextPick) && i != s.nextPick;
    var none: seq<Step> := [];
    assert NothingRevived(t, none) && !OnlyOneCurrent(Exec(t, none));
    OneStepBefore(s, Commit(c));
  }

  lemma InsertingDoubles(s: State, i: nat, c: nat)
    requires Orderly(s) && Current(s, i) && c in s.callers && s.callers[c].Chosen?
    requires s.now <= LastTogether(s.picks[i], s.callers[c].began) && Playable(s, s.callers[c].game)
    ensures !SafeFromNowOn(s)
  {
    StepStaysOrderly(s, Insert(c));
    CommittingDoubles(Next(s, Insert(c)), i, c);
    OneStepBefore(s, Insert(c));
  }

  lemma ChoosingDoubles(s: State, i: nat, c: nat)
    requires Orderly(s) && Current(s, i) && c in s.callers && (s.callers[c].FoundNone? || s.callers[c].NoneSuited?)
    requires s.now <= LastTogether(s.picks[i], s.callers[c].began)
    ensures !SafeFromNowOn(s)
    decreases s.callers[c].FoundNone?
  {
    var game := s.picks[i].game;
    if g :| s.callers[c].FoundNone? && g in s.games && Eligible(s, s.callers[c].began, g) {
      StepStaysOrderly(s, Choose(c, g));
      InsertingDoubles(Next(s, Choose(c, g)), i, c);
      OneStepBefore(s, Choose(c, g));
    } else if s.callers[c].FoundNone? {
      StepStaysOrderly(s, NoneSuits(c));
      ChoosingDoubles(Next(s, NoneSuits(c)), i, c);
      OneStepBefore(s, NoneSuits(c));
    } else {
      StepStaysOrderly(s, ChooseAny(c, game));
      InsertingDoubles(Next(s, ChooseAny(c, game)), i, c);
      OneStepBefore(s, ChooseAny(c, game));
    }
  }

  /** Waiting for the game's other picks to end, then giving it a stream, revives nothing. */
  lemma WaitingThenPlaying(s: State, i: nat, game: nat, until: int) returns (t: State)
    requires Orderly(s) && Current(s, i) && !Playable(s, game) && CanComeToPlay(s, game, until)
    requires s.now <= until <= s.picks[i].endDate
    ensures Orderly(t) && Current(t, i) && t.picks == s.picks && t.callers == s.callers && t.now == until && Playable(t, game)
    ensures SafeFromNowOn(s) ==> SafeFromNowOn(t)
  {
    var u := Next(s, Tick(until));
    t := Next(u, SaveGame(game, GOOD));
    StepStaysOrderly(s, Tick(until));
    StepStaysOrderly(u, SaveGame(game, GOOD));
    if !SafeFromNowOn(t) {
      OneStepBefore(u, SaveGame(game, GOOD));
      OneStepBefore(s, Tick(until));
    }
  }

  lemma AChanceDoubles(s: State, i: nat, c: nat)
    requires Orderly(s) && Current(s, i) && c in s.callers && CanStillCommit(s, s.picks[i], s.callers[c])
    ensures !SafeFromNowOn(s)
  {
    var last := LastTogether(s.picks[i], s.callers[c].began);
    if s.callers[c].FoundNone? || s.callers[c].NoneSuited? {
      ChoosingDoubles(s, i, c);
    } else {
      var game := if s.callers[c].Chosen? then s.callers[c].game else s.callers[c].pick.game;
      var t := s;
      if !Playable(s, game) {
        t := WaitingThenPlaying(s, i, game, last);
      }
      if s.callers[c].Chosen? { InsertingDoubles(t, i, c); } else { CommittingDoubles(t, i, c); }
    }
  }

  /**
   * At most one pick is current now and through every later run that revives none, if and
   * only if at most one is current and no caller past its re-check can still commit a
   * current one beside it.
   */
  lemma OnlyOneFromNowOnIffCalm(s: State)
    requires Orderly(s)
    ensures SafeFromNowOn(s) <==> Calm(s)
  {
    if Calm(s) {
      forall run: seq<Step> | NothingRevived(s, run) ensures OnlyOneCurrent(Exec(s, run)) {
        CalmAlways(s, run);
      }
    } else if !OnlyOneCurrent(s) {
      var none: seq<Step> := [];
      assert NothingRevived(s, none) && !OnlyOneCurrent(Exec(s, none));
    } else {
      var i: nat, c: nat :| Current(s, i) && c in s.callers && CanStillCommit(s, s.picks[i], s.callers[c]);
      AChanceDoubles(s, i, c);
    }
  }

  /** The same of what a save leaves, which is where a revival is or is not harmless. */
  lemma SaveIsHarmlessIff(s: State, id: nat, row: Game)
    requires Orderly(s)
    ensures SafeFromNowOn(Next(s, SaveGame(id, row))) <==> Calm(Next(s, SaveGame(id, row)))
  {
    StepStaysOrderly(s, SaveGame(id, row));
    OnlyOneFromNowOnIffCalm(Next(s, SaveGame(id, row)));
  }

  // ---- From the first insertion on ----

  /** Nobody past its re-check has a current pick before it. */
  ghost predicate FoundNothing(s: State) {
    forall c: nat, i: nat :: c in s.callers && Selecting(s.callers[c]) ==> !Current(s, i)
  }

  ghost predicate Harmless(s: State, first: int, step: Step) {
    Revives(s, step) ==> if s.nextPick > first then Calm(Next(s, step)) else FoundNothing(Next(s, step))
  }

  ghost predicate AllHarmless(s: State, first: int, run: seq<Step>)
    decreases |run|
  {
    run == [] || (Harmless(s, first, run[0]) && AllHarmless(Next(s, run[0]), first, run[1..]))
  }

  lemma StepFindsNothing(s: State, step: Step)
    requires Orderly(s) && FoundNothing(s) && !Revives(s, step)
    ensures FoundNothing(Next(s, step))
  {
    var t := Next(s, step);
    forall c: nat, i: nat | c in t.callers && Selecting(t.callers[c]) && Current(t, i) ensures false {
      NoOtherWayToBeCurrent(s, step, i);
      SelectingBefore(s, step, c);
      if i == s.nextPick {
        assert c != step.c && Holding(s.callers[c]) && Holding(s.callers[step.c]);
      }
    }
  }

  lemma SelectingBefore(s: State, step: Step, c: nat)
    requires c in Next(s, step).callers && Selecting(Next(s, step).callers[c])
    ensures c in s.callers && (Selecting(s.callers[c]) || (step == Recheck(c) && !SomeLive(s, s.now)))
    ensures step.Commit? && step.c in s.callers && s.callers[step.c].Inserted? ==> c != step.c && Selecting(s.callers[c])
  {
    hide Eligible, SomeLive;
  }

  lemma FirstInsertionIsCalm(s: State, step: Step)
    requires Orderly(s) && FoundNothing(s) && Next(s, step).nextPick != s.nextPick
    ensures Calm(Next(s, step))
  {
    var t := Next(s, step);
    assert step.Commit? && step.c in s.callers && s.callers[step.c].Inserted?;
    forall i: nat | Current(t, i) ensures i == s.nextPick {
      NoOtherWayToBeCurrent(s, step, i);
      assert Selecting(s.callers[step.c]);
    }
    forall c: nat | c in t.callers ensures !Selecting(t.callers[c]) {
      assert Holding(s.callers[step.c]) && (c in s.callers && c != step.c ==> !Holding(s.callers[c]));
    }
  }

  lemma {:induction false} CalmFromTheFirstInsertion(s: State, first: int, run: seq<Step>)
    requires Orderly(s) && first <= s.nextPick && (if s.nextPick > first then Calm(s) else FoundNothing(s))
    requires AllHarmless(s, first, run)
    ensures Orderly(Exec(s, run)) && (Exec(s, run).nextPick > first ==> Calm(Exec(s, run)))
    decreases |run|
  {
    if run != [] {
      var t := Next(s, run[0]);
      StepStaysOrderly(s, run[0]);
      NumbersOnlyGrow(s, run[0]);
      if s.nextPick > first {
        if !Revives(s, run[0]) { StepKeepsCalm(s, run[0]); }
      } else if t.nextPick > first {
        FirstInsertionIsCalm(s, run[0]);
      } else if !Revives(s, run[0]) {
        StepFindsNothing(s, run[0]);
      }
      hide Calm, FoundNothing, Orderly;
      CalmFromTheFirstInsertion(t, first, run[1..]);
    }
  }

  lemma NumbersOnlyGrow(s: State, step: Step)
    ensures Next(s, step).nextPick >= s.nextPick
    ensures Revives(s, step) ==> Next(s, step).nextPick == s.nextPick
  {
  }

  /**
   * Under every interleaving of callers, and of edits whose revivals are harmless, once a
   * run has inserted a pick at most one pick is playable and current at any moment from
   * then on.
   */
  lemma AtMostOnePickIsCurrent(s0: State, run: seq<Step>, at: int, i: nat, j: nat)
    requires Initial(s0) && AllHarmless(s0, s0.nextPick, run)
    requires
      var s := Exec(s0, run);
      && s.nextPick > s0.nextPick && s.now <= at
      && i in s.picks && Live(s, s.picks[i], at) && j in s.picks && Live(s, s.picks[j], at)
    ensures i == j
  {
    var s := Exec(s0, run);
    CalmFromTheFirstInsertion(s0, s0.nextPick, run);
    assert Current(s, i) && Current(s, j);
  }

  lemma {:induction false} WithoutRevivalsAllIsHarmless(s: State, first: int, run: seq<Step>)
    requires NothingRevived(s, run)
    ensures AllHarmless(s, first, run)
    decreases |run|
  {
    if run != [] { WithoutRevivalsAllIsHarmless(Next(s, run[0]), first, run[1..]); }
  }

  /** Here and after every step of the run, at most one pick is current in all that can follow without a revival. */
  ghost predicate StaysSafe(s: State, run: seq<Step>)
    decreases |run|
  {
    SafeFromNowOn(s) && (run == [] || StaysSafe(Next(s, run[0]), run[1..]))
  }

  /** Over a whole run it is exactly the harmful revivals that put it at risk. */
  lemma {:induction false} SafeIffAllHarmless(s: State, first: int, run: seq<Step>)
    requires Orderly(s) && Calm(s) && s.nextPick > first
    ensures StaysSafe(s, run) <==> AllHarmless(s, first, run)
    decreases |run|
  {
    OnlyOneFromNowOnIffCalm(s);
    if run != [] {
      var t := Next(s, run[0]);
      StepStaysOrderly(s, run[0]);
      NumbersOnlyGrow(s, run[0]);
      if !Revives(s, run[0]) { StepKeepsCalm(s, run[0]); }
      OnlyOneFromNowOnIffCalm(t);
      hide Calm, Orderly, Revives;
      if Calm(t) { SafeIffAllHarmless(t, first, run[1..]); }
    }
  }

  /**
   * So from any start with at most one current pick: uniqueness holds now, after every
   * step of the run, and in all that can follow each of them, exactly when every revival
   * of the run leaves the site calm.
   */
  lemma OnlyOneThroughoutIff(s0: State, run: seq<Step>)
    requires Initial(s0) && OnlyOneCurrent(s0)
    ensures StaysSafe(s0, run) <==> AllHarmless(s0, -1, run)
  {
    SafeIffAllHarmless(s0, -1, run);
  }

  lemma {:induction false} NothingFoundAlways(s: State, run: seq<Step>)
    requires Orderly(s) && FoundNothing(s) && NothingRevived(s, run)
    ensures Orderly(Exec(s, run)) && FoundNothing(Exec(s, run))
    decreases |run|
  {
    if run != [] {
      StepStaysOrderly(s, run[0]);
      StepFindsNothing(s, run[0]);
      NothingFoundAlways(Next(s, run[0]), run[1..]);
    }
  }

  /** A pick is committed only when every earlier one is over or cannot be played. */
  lemma InsertedOnlyWhenNoneIsCurrent(s0: State, run: seq<Step>, c: nat, i: nat)
    requires Initial(s0) && NothingRevived(s0, run)
    requires
      var s := Exec(s0, run);
      c in s.callers && s.callers[c].Inserted? && i in s.picks
    ensures
      var s := Exec(s0, run);
      forall at :: s.now <= at ==> !Live(s, s.picks[i], at)
  {
    NothingFoundAlways(s0, run);
    assert !Current(Exec(s0, run), i);
  }

  const GOOD: Game := Game(true, 0, 0)
  const GONE: Game := Game(false, 0, 0)

  /** One pick is running, its game has lost its stream, and another game can be played. */
  const ABANDONED: State := State(DAY, map[1 := GONE, 2 := GOOD], 3, map[0 := Pick(1, 0, WEEK)], 1, map[], None)

  const RESELECTED: State :=
    ABANDONED.(picks := map[0 := Pick(1, 0, WEEK), 1 := Pick(2, DAY, DAY + WEEK)], nextPick := 2)

  const RESELECT: seq<Step> := [Ask(0), Begin(0), Acquire(0), Recheck(0), Choose(0, 2), Insert(0), Commit(0)]

  lemma {:induction false} ExecInTwo(s: State, run: seq<Step>, more: seq<Step>)
    ensures Exec(s, run + more) == Exec(Exec(s, run), more)
    decreases |run|
  {
    if run == [] {
      assert run + more == more;
    } else {
      assert (run + more)[1..] == run[1..] + more;
      ExecInTwo(Next(s, run[0]), run[1..], more);
    }
  }

  lemma OneMoreStep(s: State, run: seq<Step>, t: State, step: Step, u: State)
    requires Exec(s, run) == t && Next(t, step) == u
    ensures Exec(s, run + [step]) == u
  {
    ExecInTwo(s, run, [step]);
    assert Exec(t, [step]) == Exec(Next(t, step), []);
  }

  lemma TakingTheLock()
    ensures Exec(ABANDONED, RESELECT[..4]) == ABANDONED.(callers := map[0 := FoundNone(DAY)], lock := Some(0))
  {
    var s1 := ABANDONED.(callers := map[0 := Connecting]);
    var s2 := ABANDONED.(callers := map[0 := Begun(DAY)]);
    var s3 := ABANDONED.(callers := map[0 := Locked(DAY)], lock := Some(0));
    var s4 := ABANDONED.(callers := map[0 := FoundNone(DAY)], lock := Some(0));
    assert Next(ABANDONED, Ask(0)) == s1 && Next(s1, Begin(0)) == s2 && Next(s2, Acquire(0)) == s3 && Next(s3, Recheck(0)) == s4;
    assert Exec(ABANDONED, []) == ABANDONED;
    hide Next, Exec;
    OneMoreStep(ABANDONED, [], ABANDONED, Ask(0), s1);
    OneMoreStep(ABANDONED, [Ask(0)], s1, Begin(0), s2);
    OneMoreStep(ABANDONED, [Ask(0), Begin(0)], s2, Acquire(0), s3);
    OneMoreStep(ABANDONED, [Ask(0), Begin(0), Acquire(0)], s3, Recheck(0), s4);
    assert RESELECT[..4] == [Ask(0), Begin(0), Acquire(0)] + [Recheck(0)];
  }

  lemma MakingThePick()
    ensures Exec(ABANDONED.(callers := map[0 := FoundNone(DAY)], lock := Some(0)), RESELECT[4..]) == RESELECTED
  {
    var s4 := ABANDONED.(callers := map[0 := FoundNone(DAY)], lock := Some(0));
    var s5 := ABANDONED.(callers := map[0 := Chosen(DAY, 2)], lock := Some(0));
    var s6 := ABANDONED.(callers := map[0 := Inserted(DAY, Pick(2, DAY, DAY + WEEK))], lock := Some(0));
    assert Eligible(s4, DAY, 2);
    assert Next(s4, Choose(0, 2)) == s5 && Next(s5, Insert(0)) == s6 && Next(s6, Commit(0)) == RESELECTED;
    assert Exec(s4, []) == s4;
    hide Next, Exec;
    OneMoreStep(s4, [], s4, Choose(0, 2), s5);
    OneMoreStep(s4, [Choose(0, 2)], s5, Insert(0), s6);
    OneMoreStep(s4, [Choose(0, 2), Insert(0)], s6, Commit(0), RESELECTED);
    assert RESELECT[4..] == [Choose(0, 2), Insert(0)] + [Commit(0)];
  }

  lemma TheStreamComesBack()
    ensures
      var s := Next(RESELECTED, SaveGame(1, GOOD));
      s.picks.Keys == {0, 1} && Live(s, s.picks[0], s.now) && Live(s, s.picks[1], s.now)
  {
  }

  /**
   * Reviving a running pick can break it: a second pick has replaced the one whose game
   * lost its stream, and the stream comes back within the first one's week.
   */
  lemma ARevivedPickIsASecondOne()
    ensures Initial(ABANDONED)
    ensures
      var s := Exec(ABANDONED, RESELECT + [SaveGame(1, GOOD)]);
      s.picks.Keys == {0, 1} && Live(s, s.picks[0], s.now) && Live(s, s.picks[1], s.now)
  {
    TakingTheLock();
    MakingThePick();
    TheStreamComesBack();
    hide Next, Exec, Live;
    ExecInTwo(ABANDONED, RESELECT[..4], RESELECT[4..]);
    assert RESELECT[..4] + RESELECT[4..] == RESELECT;
    OneMoreStep(ABANDONED, RESELECT, RESELECTED, SaveGame(1, GOOD), Next(RESELECTED, SaveGame(1, GOOD)));
  }
}
