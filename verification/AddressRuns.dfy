/**
 * Addresses over whole runs of creates, renames and deletes: what the slug history
 * and the number registry are for, when a save can break it, and how slugs are chosen.
 */
module AddressRuns {
  import opened Basics
  import opened Numerals
  import opened Addresses

  /** A write that was refused, or one whose slug nobody else had ever held, hurts no address. */
  lemma StepKeeps(s: Site, step: Step)
    requires Healthy(s) && Fresh(s, step)
    ensures Healthy(Next(s, step)) && Keeps(s, Next(s, step))
  {
    hide Healthy, Serves, NumericAddress, IsAddress;
    if Accepted(s, step) {
      match step
      case Create(_, _, _) => CreateKeeps(s, step);
      case Update(_, _, _, _) => UpdateKeeps(s, step);
      case Delete(_, _) => DeleteKeeps(s, step);
    }
  }

  ghost predicate FreshRun(s: Site, run: seq<Step>)
    decreases |run|
  {
    run == [] || (Fresh(s, run[0]) && FreshRun(Next(s, run[0]), run[1..]))
  }

  ghost predicate StaysLive(s: Site, run: seq<Step>, id: nat)
    decreases |run|
  {
    Live(s, id) && (run == [] || StaysLive(Next(s, run[0]), run[1..], id))
  }

  /**
   * Whatever an address opens, it opens that for as long as the entry is there, through
   * any run of creates, renames and deletes, after at most one redirect.
   */
  lemma {:induction false} AddressesNeverChangeHands(s: Site, run: seq<Step>, address: string, id: nat)
    requires Healthy(s) && FreshRun(s, run) && StaysLive(s, run, id) && Reaches(s, address, id)
    ensures Healthy(Exec(s, run)) && Reaches(Exec(s, run), address, id)
    decreases |run|
  {
    if run != [] {
      var t := Next(s, run[0]);
      hide Healthy, Serves, Next, Reaches, Live;
      StepKeeps(s, run[0]);
      RouterServes(s, address, id);
      RouterServes(t, address, id);
      assert Live(t, id);
      AddressesNeverChangeHands(t, run[1..], address, id);
    }
  }

  lemma {:induction false} HealthyAlways(s: Site, run: seq<Step>)
    requires Healthy(s) && FreshRun(s, run)
    ensures Healthy(Exec(s, run))
    decreases |run|
  {
    if run != [] {
      StepKeeps(s, run[0]);
      HealthyAlways(Next(s, run[0]), run[1..]);
    }
  }

  /** Every slug an entry was ever live at goes on opening it. */
  lemma SlugsOnceHeldStillOpen(s: Site, before: seq<Step>, after: seq<Step>, id: nat)
    requires Healthy(s) && FreshRun(s, before) && FreshRun(Exec(s, before), after)
    requires StaysLive(Exec(s, before), after, id)
    ensures Reaches(Exec(Exec(s, before), after), Exec(s, before).entries[id].slug, id)
  {
    var t := Exec(s, before);
    hide Healthy, Next, Exec, Resolve;
    HealthyAlways(s, before);
    assert Live(t, id);
    CurrentSlugOpens(t, id);
    AddressesNeverChangeHands(t, after, t.entries[id].slug, id);
  }

  /** A new game opens at its slug, and at its number, which no slug past or present spells. */
  lemma NewEntriesOpen(s: Site, step: Step)
    requires Healthy(s) && step.Create? && Accepted(s, step) && Fresh(s, step)
    ensures Reaches(Next(s, step), step.slug, step.id)
    ensures s.kind.Games? ==> Reaches(Next(s, step), Numeral(step.id), step.id)
  {
    assert Next(s, step).kind == s.kind;
    hide Healthy, Next, Serves, Reaches;
    CreateKeeps(s, step);
    RouterServes(Next(s, step), step.slug, step.id);
    RouterServes(Next(s, step), Numeral(step.id), step.id);
  }

  /** A slug that is also a number belongs to whoever held it, not to the game with that id. */
  lemma HistoricalNumbersWin(s: Site, address: string, id: nat)
    requires Healthy(s) && address in s.history && Live(s, s.history[address].owner)
    ensures Reaches(s, address, id) <==> id == s.history[address].owner
  {
  }

  // ---- Saves that lost a race ----

  ghost predicate KeepsHolders(s: Site, t: Site) {
    forall a, i :: Reaches(s, a, i) && Live(t, i) ==> Reaches(t, a, i)
  }

  lemma FreshSavesKeepHolders(s: Site, step: Step)
    requires Healthy(s) && Fresh(s, step)
    ensures KeepsHolders(s, Next(s, step))
  {
    hide Healthy, Next, Reaches, Serves;
    StepKeeps(s, step);
    forall a, i | Reaches(s, a, i) && Live(Next(s, step), i) ensures Reaches(Next(s, step), a, i) {
      RouterServes(s, a, i);
      RouterServes(Next(s, step), a, i);
    }
  }

  /**
   * A save resolves its slug, and commits it later. The history row is written with
   * ON CONFLICT DO NOTHING, so a slug somebody else came to hold in between is taken
   * over rather than refused: a save that goes through keeps every address with its
   * holder exactly when, at the commit, nobody else had ever held its slug, or its holder
   * is a hidden article, which it opens no longer.
   */
  lemma SavesAreSafeIffFresh(s: Site, step: Step)
    requires Healthy(s) && !step.Delete? && Accepted(s, step) && IsAddress(step.slug)
    ensures Healthy(Next(s, step)) <==> Fresh(s, step)
    ensures KeepsHolders(s, Next(s, step)) <==> Fresh(s, step) || !Live(s, s.history[step.slug].owner)
    ensures s.kind.Games? ==> (KeepsHolders(s, Next(s, step)) <==> Fresh(s, step))
  {
    var t := Next(s, step);
    if Fresh(s, step) {
      StepKeeps(s, step);
      FreshSavesKeepHolders(s, step);
    } else {
      TakenOver(s, step);
      if !Live(s, s.history[step.slug].owner) { NobodyIsDeprived(s, step); }
      hide Healthy, Next, Reaches, Serves, Resolve;
    }
  }

  /** A slug whose holder is hidden opens nothing, and taking it over takes it from nobody. */
  lemma NobodyIsDeprived(s: Site, step: Step)
    requires Healthy(s) && !step.Delete? && Accepted(s, step) && IsAddress(step.slug)
    requires step.slug in s.history && !Live(s, s.history[step.slug].owner)
    ensures KeepsHolders(s, Next(s, step))
  {
    var t := Next(s, step);
    SaveWrites(s, step);
    OneSlugOneHolder(s, step);
    forall a, i | Reaches(s, a, i) && Live(t, i) ensures Reaches(t, a, i) {
      RouterServes(s, a, i);
      KeptByOne(s, step, a, i);
    }
  }

  lemma KeptByOne(s: Site, step: Step, a: string, i: nat)
    requires Healthy(s) && !step.Delete? && Accepted(s, step) && IsAddress(step.slug)
    requires step.slug in s.history && !Live(s, s.history[step.slug].owner)
    requires Serves(s, a) == Some(i)
    ensures Reaches(Next(s, step), a, i)
  {
    var t := Next(s, step);
    SaveWrites(s, step);
    OneSlugOneHolder(s, step);
    assert s.kind.News?;
    assert t.kind == s.kind;
    hide NumericAddress, IsAddress, Next;
    assert a != step.slug && Live(t, i);
    if i == step.id {
      assert t.entries[i].slug == step.slug;
    } else {
      assert t.entries[i] == s.entries[i] && t.entries[i].slug != step.slug;
    }
  }

  /** What happens otherwise: the slug's holder loses it to the save. */
  lemma TakenOver(s: Site, step: Step)
    requires Healthy(s) && !step.Delete? && Accepted(s, step) && IsAddress(step.slug) && !Fresh(s, step)
    ensures
      var t, holder := Next(s, step), s.history[step.slug].owner;
      && !Healthy(t) && holder != step.id
      && (Live(s, holder) ==> Reaches(s, step.slug, holder) && Live(t, holder) && !Reaches(t, step.slug, holder) && Reaches(t, step.slug, step.id))
  {
    var holder := s.history[step.slug].owner;
    RouterServes(s, step.slug, holder);
    SaveWrites(s, step);
    OneSlugOneHolder(s, step);
    hide NumericAddress, IsAddress, Next, NumbersHold, Resolve, BySlug, Accepted;
    assert Next(s, step).entries[step.id].slug == step.slug;
  }

  lemma OneSlugOneHolder(s: Site, step: Step)
    requires Healthy(s) && !step.Delete? && Accepted(s, step) && IsAddress(step.slug) && step.slug in s.history
    ensures Resolve(Next(s, step), step.slug) == Page(step.id)
  {
    var t := Next(s, step);
    SaveWrites(s, step);
    hide NumericAddress, IsAddress, Next, NumbersHold;
    assert t.entries[step.id].slug == step.slug && !t.entries[step.id].hidden;
    assert BySlug(t, step.slug) == Some(step.id);
  }

  lemma SaveWrites(s: Site, step: Step)
    requires HistoryHolds(s) && !step.Delete? && Accepted(s, step) && step.slug in s.history
    ensures Next(s, step).entries == s.entries[step.id := Entry(step.slug, step.title, false)]
    ensures Next(s, step).history == s.history
  {
    hide NumericAddress, IsAddress;
  }

  /** A numeric slug cannot be lost that way: the registry refuses the save. */
  lemma NumbersAreNeverTakenOver(s: Site, step: Step)
    requires Healthy(s) && s.kind.Games? && !step.Delete? && NumericAddress(step.slug).Some? && !Fresh(s, step)
    ensures !Accepted(s, step)
  {
  }

  /**
   * The race itself: while a new "doom" is being saved, another game takes the slug and
   * is renamed away from it. The old game's address then opens the new one.
   */
  lemma ARaceTakesAnAddress()
    ensures
      var doom, quake := Title("Doom", "doom"), Title("Quake", "quake");
      var start := Site(Games, map[], map[], map[], 0);
      var raced := Next(Next(start, Create(1, doom, "doom")), Update(1, quake, "quake", {}));
      var after := Next(raced, Create(2, doom, "doom"));
      && Healthy(start) && Fresh(start, Create(2, doom, "doom"))
      && Healthy(raced) && Accepted(raced, Create(2, doom, "doom"))
      && Reaches(raced, "doom", 1) && Live(after, 1) && Reaches(after, "doom", 2)
  {
    var doom, quake := Title("Doom", "doom"), Title("Quake", "quake");
    var start := Site(Games, map[], map[], map[], 0);
    var first, second := Create(1, doom, "doom"), Update(1, quake, "quake", {});
    RaceBegins(doom, quake);
    assert NumericAddress("doom").None?;
    hide Next, Healthy, Reaches, NumericAddress;
    StepKeeps(start, first);
    StepKeeps(Next(start, first), second);
    RaceEnds(doom, quake, Next(Next(start, first), second));
  }

  lemma RaceEnds(doom: Title, quake: Title, raced: Site)
    requires Healthy(raced) && raced.entries == map[1 := Entry("quake", quake, false)]
    requires raced.kind == Games && raced.registry == map[1 := 1]
    requires "doom" in raced.history && raced.history["doom"].owner == 1
    ensures Accepted(raced, Create(2, doom, "doom"))
    ensures var after := Next(raced, Create(2, doom, "doom")); Reaches(raced, "doom", 1) && Live(after, 1) && Reaches(after, "doom", 2)
  {
    var save := Create(2, doom, "doom");
    assert NumericAddress("doom").None?;
    hide Next, Healthy, Reaches, NumericAddress;
    assert Accepted(raced, save);
    TakenOver(raced, save);
  }

  lemma RaceBegins(doom: Title, quake: Title)
    ensures
      var start := Site(Games, map[], map[], map[], 0);
      var one := Next(start, Create(1, doom, "doom"));
      var two := Next(one, Update(1, quake, "quake", {}));
      && Healthy(start)
      && one == Site(Games, map[1 := Entry("doom", doom, false)], map["doom" := Past(1, 0)], map[1 := 1], 1)
      && two == Site(Games, map[1 := Entry("quake", quake, false)], map["doom" := Past(1, 0), "quake" := Past(1, 1)], map[1 := 1], 2)
  {
  }

  // ---- The first slug ----

  /** The slug an entry had first, which the feeds name it by for good. */
  ghost predicate IsFirstSlug(s: Site, id: nat, slug: string) {
    && slug in s.history && s.history[slug].owner == id
    && forall b :: b in s.history && s.history[b].owner == id ==> s.history[slug].order <= s.history[b].order
  }

  lemma StepKeepsFirstSlug(s: Site, step: Step, id: nat, slug: string)
    requires Healthy(s) && Fresh(s, step) && Live(Next(s, step), id) && IsFirstSlug(s, id, slug)
    ensures IsFirstSlug(Next(s, step), id, slug)
  {
    hide NumericAddress, IsAddress, NumbersHold;
    if Accepted(s, step) && step.Create? {
      CreateShape(s, step);
      hide Next;
    } else if Accepted(s, step) && step.Update? {
      UpdateShape(s, step);
      hide Next;
    } else if Accepted(s, step) && s.kind.Games? {
      RefreshKeepsTheRest(Removed(s, step.id), NumbersOf(s, step.id), step.busy);
      hide Refresh;
    }
  }

  /** Renames never change an entry's first slug, and it never stops opening the entry. */
  lemma {:induction false} FirstSlugIsForGood(s: Site, run: seq<Step>, id: nat, slug: string)
    requires Healthy(s) && FreshRun(s, run) && StaysLive(s, run, id) && IsFirstSlug(s, id, slug)
    ensures IsFirstSlug(Exec(s, run), id, slug) && Reaches(Exec(s, run), slug, id)
    decreases |run|
  {
    hide Healthy, Next, Reaches;
    if run == [] {
      RouterServes(s, slug, id);
    } else {
      StepKeeps(s, run[0]);
      assert Live(Next(s, run[0]), id);
      StepKeepsFirstSlug(s, run[0], id, slug);
      FirstSlugIsForGood(Next(s, run[0]), run[1..], id, slug);
    }
  }

  // ---- Taking down ----

  /** After a deletion no address opens the entry. */
  lemma DeletedAnswersNowhere(s: Site, step: Step, address: string)
    requires Healthy(s) && step.Delete? && Accepted(s, step)
    ensures !Reaches(Next(s, step), address, step.id)
  {
  }

  ghost predicate Retired(s: Site, address: string) {
    s.kind.News? && address in s.history && s.history[address].owner in s.entries && !Live(s, s.history[address].owner)
  }

  lemma StepKeepsRetired(s: Site, step: Step, address: string)
    requires Healthy(s) && Fresh(s, step) && Retired(s, address)
    ensures Retired(Next(s, step), address)
  {
  }

  /** A deleted article's slugs answer nothing, ever, and go to no other article. */
  lemma {:induction false} RetiredSlugsStayRetired(s: Site, run: seq<Step>, address: string, id: nat)
    requires Healthy(s) && FreshRun(s, run) && Retired(s, address)
    ensures !Reaches(Exec(s, run), address, id)
    decreases |run|
  {
    hide Healthy, Next, Reaches;
    if run == [] {
      RouterServes(s, address, id);
    } else {
      StepKeeps(s, run[0]);
      StepKeepsRetired(s, run[0], address);
      RetiredSlugsStayRetired(Next(s, run[0]), run[1..], address, id);
    }
  }
}
