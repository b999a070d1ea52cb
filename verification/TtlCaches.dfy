/**
 * The time-to-live cache: loads that settle in any order, timers that may or may
 * not be stopped in time, and deletes in between.
 *
 * A load, the entry holding it and the timer armed for that entry share one
 * number. Timers are punctual: the clock never passes a live timer's moment.
 */
module TtlCaches {
  import opened Basics

  /** How a load settled, with the lifetime the caller gives that outcome. */
  datatype Settlement = Resolved(ttl: int) | Rejected(failureTtl: int)

  datatype View = View(
    entries: map<string, nat>,     // which load a key holds
    keyOf: map<nat, string>,       // the key every load was started for
    loading: set<nat>,             // loads that have not settled
    timers: map<nat, int>,         // live expiry timers, and when they fire
    now: int)

  datatype Step =
    | Get(key: string)
    | Settle(load: nat, outcome: Settlement)
    | Expire(load: nat)
    | Delete(key: string)
    | Clear
    | Tick(to: int)

  function Initial(now: int): View { View(map[], map[], {}, map[], now) }

  /** Whether the cache still holds this very load, and not a newer one for its key. */
  predicate Holds(v: View, load: nat) {
    load in v.keyOf && v.keyOf[load] in v.entries && v.entries[v.keyOf[load]] == load
  }

  function Dropping(v: View, key: string): View {
    if key !in v.entries then v
    else v.(timers := v.timers - {v.entries[key]}, entries := v.entries - {key})
  }

  function Getting(v: View, key: string): View {
    if key in v.entries then v
    else
      var load := |v.keyOf|;
      v.(entries := v.entries[key := load], keyOf := v.keyOf[load := key], loading := v.loading + {load})
  }

  /** None when the outcome is not kept at all. */
  function Lifetime(outcome: Settlement): Option<int> {
    match outcome
    case Resolved(ttl) => Some(if ttl < 0 then 0 else ttl)
    case Rejected(ttl) => if ttl <= 0 then None else Some(ttl)
  }

  function Settling(v: View, load: nat, outcome: Settlement): View
    requires load in v.keyOf
  {
    var u := v.(loading := v.loading - {load});
    if !Holds(v, load) then u
    else
      match Lifetime(outcome)
      case None => Dropping(u, v.keyOf[load])
      case Some(ttl) => u.(timers := v.timers[load := v.now + ttl])
  }

  function Expiring(v: View, load: nat): View
    requires load in v.keyOf
  {
    var u := v.(timers := v.timers - {load});
    if Holds(v, load) then Dropping(u, v.keyOf[load]) else u
  }

  function Clearing(v: View): View {
    v.(entries := map[], timers := v.timers - v.entries.Values)
  }

  predicate CanHappen(v: View, step: Step) {
    match step
    case Settle(load, _) => load in v.loading && load in v.keyOf
    case Expire(load) => load in v.timers && load in v.keyOf && v.now >= v.timers[load]
    case Tick(to) => v.now <= to && forall load :: load in v.timers ==> to <= v.timers[load]
    case _ => true
  }

  function Happen(v: View, step: Step): View
    requires CanHappen(v, step)
  {
    match step
    case Get(key) => Getting(v, key)
    case Settle(load, outcome) => Settling(v, load, outcome)
    case Expire(load) => Expiring(v, load)
    case Delete(key) => Dropping(v, key)
    case Clear => Clearing(v)
    case Tick(to) => v.(now := to)
  }

  /** A step that cannot happen where it stands changes nothing. */
  function Next(v: View, step: Step): View {
    if CanHappen(v, step) then Happen(v, step) else v
  }

  function Exec(v: View, run: seq<Step>): View
    decreases |run|
  {
    if run == [] then v else Exec(Next(v, run[0]), run[1..])
  }

  /** Loads are numbered in the order they started, and every key holds one of its own. */
  ghost predicate Numbered(v: View) {
    && (forall load :: load in v.keyOf <==> 0 <= load < |v.keyOf|)
    && v.loading <= v.keyOf.Keys
    && (forall key :: key in v.entries ==> v.entries[key] in v.keyOf && v.keyOf[v.entries[key]] == key)
  }

  /** A held entry is loading or has a live timer, and no other timer is live. */
  ghost predicate Timed(v: View) {
    && (forall load :: load in v.timers <==> load in v.keyOf && Holds(v, load) && load !in v.loading)
    && (forall load :: load in v.timers ==> v.now <= v.timers[load])
  }

  ghost predicate Disciplined(v: View) { Numbered(v) && Timed(v) }

  lemma OneMoreKey<T>(keyOf: map<nat, T>, load: nat, key: T)
    requires load !in keyOf
    ensures |keyOf[load := key]| == |keyOf| + 1
  {
    var more := keyOf[load := key];
    assert more.Keys == keyOf.Keys + {load};
    assert |more.Keys| == |keyOf.Keys| + 1;
  }

  lemma OneMoreNumber(v: View, key: string)
    requires Numbered(v)
    ensures Numbered(Getting(v, key))
  {
    if key !in v.entries {
      OneMoreKey(v.keyOf, |v.keyOf|, key);
    }
  }

  /** What a key not held yet is given is held, and what was held still is. */
  lemma GettingHoldsOneMore(v: View, key: string, load: nat)
    requires Numbered(v) && key !in v.entries
    ensures Holds(Getting(v, key), load) <==> load == |v.keyOf| || Holds(v, load)
  {
  }

  lemma GettingKeepsDiscipline(v: View, key: string)
    requires Disciplined(v)
    ensures Disciplined(Getting(v, key))
  {
    OneMoreNumber(v, key);
    if key !in v.entries {
      forall load: nat ensures Holds(Getting(v, key), load) <==> load == |v.keyOf| || Holds(v, load) {
        GettingHoldsOneMore(v, key, load);
      }
      assert |v.keyOf| !in v.keyOf;
      hide Holds, Numbered;
    }
  }

  lemma DroppingKeepsDiscipline(v: View, key: string)
    requires Disciplined(v)
    ensures Disciplined(Dropping(v, key))
  {
  }

  lemma SettlingKeepsDiscipline(v: View, load: nat, outcome: Settlement)
    requires Disciplined(v) && load in v.loading && load in v.keyOf
    ensures Disciplined(Settling(v, load, outcome))
  {
    var t := Settling(v, load, outcome);
    forall l: nat ensures Holds(t, l) <==> Holds(v, l) && (l == load ==> Lifetime(outcome).Some?) {
      SettlingHoldsTheRest(v, load, outcome, l);
    }
    hide Holds;
  }

  lemma SettlingHoldsTheRest(v: View, load: nat, outcome: Settlement, l: nat)
    requires Numbered(v) && load in v.keyOf
    ensures Holds(Settling(v, load, outcome), l) <==> Holds(v, l) && (l == load ==> Lifetime(outcome).Some?)
  {
  }

  lemma ExpiringKeepsDiscipline(v: View, load: nat)
    requires Disciplined(v) && load in v.timers && load in v.keyOf
    ensures Disciplined(Expiring(v, load))
  {
  }

  lemma ClearingKeepsDiscipline(v: View)
    requires Disciplined(v)
    ensures Disciplined(Clearing(v))
  {
  }

  lemma DisciplineKept(v: View, step: Step)
    requires Disciplined(v)
    ensures Disciplined(Next(v, step))
  {
    if CanHappen(v, step) {
      match step
      case Get(key) => GettingKeepsDiscipline(v, key);
      case Settle(load, outcome) => SettlingKeepsDiscipline(v, load, outcome);
      case Expire(load) => ExpiringKeepsDiscipline(v, load);
      case Delete(key) => DroppingKeepsDiscipline(v, key);
      case Clear => ClearingKeepsDiscipline(v);
      case Tick(to) =>
    }
  }

  /** In every run at most one load is held per key, and the live timers are exactly the held, settled ones. */
  lemma {:induction false} TimersAreTheHeldSettledLoads(v: View, run: seq<Step>)
    requires Disciplined(v)
    ensures Disciplined(Exec(v, run))
    decreases |run|
  {
    if run != [] {
      DisciplineKept(v, run[0]);
      TimersAreTheHeldSettledLoads(Next(v, run[0]), run[1..]);
    }
  }

  /** Whatever an old load does, the entry that replaced it stands, with its own timer. */
  lemma OldLoadsTouchNothingNewer(v: View, load: nat, newer: nat, step: Step)
    requires Disciplined(v) && Holds(v, newer) && newer != load
    requires step.Settle? || step.Expire?
    requires step.load == load
    ensures
      var t := Next(v, step);
      && Holds(t, newer)
      && (newer in t.timers <==> newer in v.timers)
      && (newer in v.timers ==> t.timers[newer] == v.timers[newer])
  {
  }

  /** A load that has settled can only be dropped: it is not held anew, and its timer does not move. */
  lemma SettledLoadsOnlyGo(v: View, step: Step, load: nat)
    requires Disciplined(v) && load in v.keyOf && (load !in v.loading || !Holds(v, load))
    ensures
      var t := Next(v, step);
      && load in t.keyOf && (load !in t.loading || !Holds(t, load))
      && (Holds(t, load) ==> Holds(v, load) && load in t.timers && load in v.timers && t.timers[load] == v.timers[load])
  {
  }

  /** A load that was dropped is never held again. */
  lemma {:induction false} DroppedLoadsStayDropped(v: View, run: seq<Step>, load: nat)
    requires Disciplined(v) && load in v.keyOf && !Holds(v, load)
    ensures load in Exec(v, run).keyOf && !Holds(Exec(v, run), load) && load !in Exec(v, run).timers
    decreases |run|
  {
    if run != [] {
      hide Disciplined;
      DisciplineKept(v, run[0]);
      SettledLoadsOnlyGo(v, run[0], load);
      DroppedLoadsStayDropped(Next(v, run[0]), run[1..], load);
    }
  }

  lemma {:induction false} NotHeldPastItsTimer(v: View, run: seq<Step>, load: nat, due: int)
    requires Disciplined(v) && load in v.keyOf && load !in v.loading
    requires Holds(v, load) ==> load in v.timers && v.timers[load] == due
    ensures
      var w := Exec(v, run);
      && Disciplined(w) && load in w.keyOf && load !in w.loading
      && (Holds(w, load) ==> w.now <= due && load in w.timers && w.timers[load] == due)
    decreases |run|
  {
    if run != [] {
      DisciplineKept(v, run[0]);
      NothingLoadsTwice(v, run[0], load);
      SettledLoadsOnlyGo(v, run[0], load);
      hide Disciplined;
      NotHeldPastItsTimer(Next(v, run[0]), run[1..], load, due);
    }
  }

  /** Expiries and the clock: what goes on when nobody uses the cache. */
  predicate OnItsOwn(step: Step) { step.Expire? || step.Tick? }

  lemma {:induction false} ExecInTwo(v: View, run: seq<Step>, more: seq<Step>)
    ensures Exec(v, run + more) == Exec(Exec(v, run), more)
    decreases |run|
  {
    if run == [] {
      assert run + more == more;
    } else {
      assert (run + more)[1..] == run[1..] + more;
      ExecInTwo(Next(v, run[0]), run[1..], more);
    }
  }

  lemma ExecOne(v: View, step: Step)
    ensures Exec(v, [step]) == Next(v, step)
  {
    assert [step][1..] == [];
  }

  lemma ExpiringStopsItsTimer(v: View, load: nat)
    requires Disciplined(v) && load in v.timers
    ensures Expiring(v, load).timers == v.timers - {load} && Expiring(v, load).now == v.now
  {
  }

  /** A due timer fires, and then the clock goes on: expiries alone make room for any moment. */
  lemma {:induction false} TimeCanPass(v: View) returns (run: seq<Step>)
    requires Disciplined(v)
    ensures forall step :: step in run ==> step.Expire?
    ensures Disciplined(Exec(v, run)) && Exec(v, run).now == v.now && CanHappen(Exec(v, run), Tick(v.now + 1))
    decreases v.timers.Keys
  {
    assert forall load :: load in v.timers ==> load in v.keyOf;
    if CanHappen(v, Tick(v.now + 1)) {
      run := [];
    } else {
      var load :| load in v.timers && v.now >= v.timers[load];
      var t := Next(v, Expire(load));
      ExpiringStopsItsTimer(v, load);
      DisciplineKept(v, Expire(load));
      assert t.timers.Keys == v.timers.Keys - {load};
      hide Disciplined, Expiring, Exec, Next;
      var rest := TimeCanPass(t);
      run := [Expire(load)] + rest;
      ExecInTwo(v, [Expire(load)], rest);
      ExecOne(v, Expire(load));
    }
  }

  lemma {:induction false} AnyTimeCanPass(v: View, d: nat) returns (run: seq<Step>)
    requires Disciplined(v)
    ensures forall step :: step in run ==> OnItsOwn(step)
    ensures Disciplined(Exec(v, run)) && Exec(v, run).now == v.now + d
  {
    if d == 0 {
      run := [];
    } else {
      var first := AnyTimeCanPass(v, d - 1);
      var t := Exec(v, first);
      var expiries := TimeCanPass(t);
      var u := Exec(t, expiries);
      ExecInTwo(v, first, expiries);
      ExecInTwo(v, first + expiries, [Tick(t.now + 1)]);
      ExecOne(u, Tick(t.now + 1));
      DisciplineKept(u, Tick(t.now + 1));
      run := first + expiries + [Tick(t.now + 1)];
    }
  }

  /** With nobody using the cache, the clock passes a held load's moment and the load is gone. */
  ghost predicate GoesOnItsOwn(w: View, load: nat, moment: int) {
    exists more: seq<Step> ::
      (forall step :: step in more ==> OnItsOwn(step)) && Exec(w, more).now == moment && !Holds(Exec(w, more), load)
  }

  /**
   * Whatever else happens, a settled load is gone by the moment its lifetime ends; and
   * that is the timer's doing, not the clock standing still: while it is held, its own
   * timer and the clock suffice to see it go.
   */
  lemma HeldNoLongerThanItsLifetime(v: View, run: seq<Step>, load: nat, due: int)
    requires Disciplined(v) && load in v.keyOf && load !in v.loading
    requires Holds(v, load) ==> load in v.timers && v.timers[load] == due
    ensures
      var w := Exec(v, run);
      Holds(w, load) ==> w.now <= due && GoesOnItsOwn(w, load, due + 1)
  {
    hide Disciplined;
    NotHeldPastItsTimer(v, run, load, due);
    var w := Exec(v, run);
    if Holds(w, load) {
      var more := AnyTimeCanPass(w, due + 1 - w.now);
      NotHeldPastItsTimer(w, more, load, due);
    }
  }

  lemma NothingLoadsTwice(v: View, step: Step, load: nat)
    requires Disciplined(v) && load in v.keyOf && load !in v.loading
    ensures load !in Next(v, step).loading
  {
  }

  // ---- And no shorter ----

  /** How a settled load is kept: a value for its lifetime, at once over when that is negative; a failure only for a positive one. */
  lemma SettledIsKeptFor(v: View, load: nat, outcome: Settlement)
    requires Disciplined(v) && load in v.loading && load in v.keyOf && Holds(v, load)
    ensures
      var t := Next(v, Settle(load, outcome));
      match outcome
      case Resolved(ttl) => Holds(t, load) && load in t.timers && t.timers[load] == v.now + (if ttl > 0 then ttl else 0)
      case Rejected(ttl) =>
        if ttl > 0 then Holds(t, load) && load in t.timers && t.timers[load] == v.now + ttl else v.keyOf[load] !in t.entries
  {
  }

  predicate Drops(step: Step, key: string) { step.Clear? || step == Delete(key) }

  lemma NotDueIsKept(v: View, step: Step, load: nat)
    requires Disciplined(v) && Holds(v, load) && load in v.timers && v.now < v.timers[load]
    requires !Drops(step, v.keyOf[load])
    ensures
      var t := Next(v, step);
      Holds(t, load) && t.keyOf[load] == v.keyOf[load] && load in t.timers && t.timers[load] == v.timers[load]
  {
  }

  lemma {:induction false} TheClockGoesOn(v: View, run: seq<Step>)
    requires Disciplined(v)
    ensures Exec(v, run).now >= v.now
    decreases |run|
  {
    if run != [] {
      DisciplineKept(v, run[0]);
      hide Disciplined;
      TheClockGoesOn(Next(v, run[0]), run[1..]);
    }
  }

  /** A settled load is held until the moment its timer says, through any run that neither deletes its key nor clears. */
  lemma {:induction false} HeldUntilItsTimer(v: View, run: seq<Step>, load: nat)
    requires Disciplined(v) && Holds(v, load) && load in v.timers
    requires forall step :: step in run ==> !Drops(step, v.keyOf[load])
    requires Exec(v, run).now < v.timers[load]
    ensures var w := Exec(v, run); Holds(w, load) && load in w.timers && w.timers[load] == v.timers[load]
    decreases |run|
  {
    if run != [] {
      var t := Next(v, run[0]);
      assert run[0] in run && forall step :: step in run[1..] ==> step in run;
      TheClockGoesOn(v, run);
      NotDueIsKept(v, run[0], load);
      DisciplineKept(v, run[0]);
      hide Disciplined, Next;
      HeldUntilItsTimer(t, run[1..], load);
    }
  }

  const HOUR: int := 3_600_000

  /** How long a game-of-the-week pick may be held; None is a value with no usable end date. */
  function GameOfTheWeekTtl(endDate: Option<int>, now: int): int {
    match endDate
    case None => HOUR
    case Some(end) => if HOUR <= end - now then HOUR else end - now
  }

  /**
   * A pick that resolves while it is current is never held past its own end date,
   * and one that resolves after it is not held past that moment: the expiry that ends
   * it needs nobody but the clock.
   */
  lemma PickIsNotHeldPastItsEnd(v: View, run: seq<Step>, load: nat, end: int)
    requires Disciplined(v) && CanHappen(v, Settle(load, Resolved(GameOfTheWeekTtl(Some(end), v.now))))
    ensures
      var w := Exec(Next(v, Settle(load, Resolved(GameOfTheWeekTtl(Some(end), v.now)))), run);
      var last := if v.now <= end then end else v.now;
      Holds(w, load) ==> w.now <= last && exists moment :: moment <= last + 1 && GoesOnItsOwn(w, load, moment)
  {
    var outcome := Resolved(GameOfTheWeekTtl(Some(end), v.now));
    var u := Next(v, Settle(load, outcome));
    DisciplineKept(v, Settle(load, outcome));
    if Holds(u, load) {
      HeldNoLongerThanItsLifetime(u, run, load, u.timers[load]);
    } else {
      DroppedLoadsStayDropped(u, run, load);
    }
  }

  /** And it is held for the hour, or up to its end date if that comes first. */
  lemma PickIsHeldThatLong(v: View, run: seq<Step>, load: nat, end: Option<int>)
    requires Disciplined(v) && load in v.loading && load in v.keyOf && Holds(v, load)
    requires forall step :: step in run ==> !Drops(step, v.keyOf[load])
    ensures
      var w := Exec(Next(v, Settle(load, Resolved(GameOfTheWeekTtl(end, v.now)))), run);
      w.now < v.now + 3_600_000 && (end.Some? ==> w.now < end.value) ==> Holds(w, load)
  {
    var step := Settle(load, Resolved(GameOfTheWeekTtl(end, v.now)));
    var t := Next(v, step);
    SettledIsKeptFor(v, load, step.outcome);
    DisciplineKept(v, step);
    if Exec(t, run).now < t.timers[load] { HeldUntilItsTimer(t, run, load); }
  }

  class TtlCache {
    var entries: map<string, nat>
    var keyOf: map<nat, string>
    var loading: set<nat>
    var timers: map<nat, int>
    var now: int

    function AsView(): View
      reads this
    {
      View(entries, keyOf, loading, timers, now)
    }

    constructor (now: int)
      ensures AsView() == Initial(now) && Disciplined(AsView())
    {
      entries, keyOf, loading, timers := map[], map[], {}, map[];
      this.now := now;
    }

    /** Answers with the load the key holds, starting one if it holds none. */
    method Fetch(key: string) returns (load: nat)
      requires Disciplined(AsView())
      modifies this
      ensures AsView() == Getting(old(AsView()), key) && Disciplined(AsView())
      ensures key in entries && load == entries[key]
    {
      ghost var was := AsView();
      if key in entries {
        return entries[key];
      }
      load := |keyOf|;
      loading := loading + {load};
      keyOf := keyOf[load := key];
      entries := entries[key := load];
      GettingKeepsDiscipline(was, key);
    }

    method DeleteKey(key: string)
      modifies this`entries, this`timers
      ensures AsView() == Dropping(old(AsView()), key)
    {
      if key !in entries {
        return;
      }
      timers := timers - {entries[key]};
      entries := entries - {key};
    }

    /** Removes the key only while it still holds this load. */
    method Evict(key: string, load: nat)
      modifies this`entries, this`timers
      ensures AsView() == if key in old(entries) && old(entries)[key] == load then Dropping(old(AsView()), key) else old(AsView())
    {
      if key !in entries || entries[key] != load {
        return;
      }
      DeleteKey(key);
    }

    /** The two handlers hung on the load's promise. */
    method LoadSettled(load: nat, outcome: Settlement)
      requires Disciplined(AsView()) && load in loading
      modifies this
      ensures AsView() == Settling(old(AsView()), load, outcome) && Disciplined(AsView())
    {
      SettlingKeepsDiscipline(AsView(), load, outcome);
      hide Disciplined;
      loading := loading - {load};
      match outcome {
        case Resolved(ttl) => OnResolved(load, ttl);
        case Rejected(failureTtl) => OnRejected(load, failureTtl);
      }
    }

    method OnResolved(load: nat, ttl: int)
      requires load in keyOf
      modifies `timers
      ensures AsView() == Settling(old(AsView()), load, Resolved(ttl)).(loading := loading)
    {
      var key := keyOf[load];
      if key !in entries || entries[key] != load {
        return;
      }
      var lifetime := if ttl < 0 then 0 else ttl;
      timers := timers[load := now + lifetime];
    }

    method OnRejected(load: nat, failureTtl: int)
      requires load in keyOf
      modifies `entries, `timers
      ensures AsView() == Settling(old(AsView()), load, Rejected(failureTtl)).(loading := loading)
    {
      var key := keyOf[load];
      if failureTtl <= 0 {
        Evict(key, load);
        return;
      }
      if key !in entries || entries[key] != load {
        return;
      }
      timers := timers[load := now + failureTtl];
    }

    method TimerFired(load: nat)
      requires Disciplined(AsView()) && load in timers && now >= timers[load]
      modifies this
      ensures AsView() == Expiring(old(AsView()), load) && Disciplined(AsView())
    {
      ghost var was := AsView();
      timers := timers - {load};
      Evict(keyOf[load], load);
      ExpiringKeepsDiscipline(was, load);
    }

    /** Stops every entry's timer, then forgets the entries. */
    method ClearAll()
      requires Disciplined(AsView())
      modifies this
      ensures AsView() == Clearing(old(AsView())) && Disciplined(AsView())
    {
      ghost var was := AsView();
      ClearingKeepsDiscipline(was);
      StopTimers();
      entries := map[];
    }

    method StopTimers()
      modifies this`timers
      ensures timers == old(timers) - entries.Values
    {
      var rest := entries.Keys;
      ghost var stopped: set<string> := {};
      while rest != {}
        invariant stopped !! rest && stopped + rest == entries.Keys
        invariant timers == old(timers) - Loads(entries, stopped)
        decreases rest
      {
        var k :| k in rest;
        OneMoreLoad(entries, stopped, k);
        timers := timers - {entries[k]};
        stopped, rest := stopped + {k}, rest - {k};
      }
      assert Loads(entries, entries.Keys) == entries.Values;
    }
  }

  lemma OneMoreLoad(entries: map<string, nat>, keys: set<string>, k: string)
    requires keys <= entries.Keys && k in entries
    ensures Loads(entries, keys + {k}) == Loads(entries, keys) + {entries[k]}
  {
  }

  function Loads(entries: map<string, nat>, keys: set<string>): set<nat>
    requires keys <= entries.Keys
  {
    set k | k in keys :: entries[k]
  }
}
