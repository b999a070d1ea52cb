/**
 * The addresses games and articles answer at: current slugs, every slug ever held,
 * and for games the bare numeric id, with the registry the database keeps so that
 * no number names two games.
 */
module Addresses {
  import opened Basics
  import opened Numerals

  datatype Kind = Games | News

  /** A title as the slug code reads it: trimmed, and the base slugify makes of it. */
  datatype Title = Title(text: string, base: string)

  datatype Entry = Entry(slug: string, title: Title, hidden: bool)

  /** A row of the slug history: whose it is, and where it stands in the order of recording. */
  datatype Past = Past(owner: nat, order: nat)

  datatype Site = Site(
    kind: Kind,
    entries: map<nat, Entry>,
    history: map<string, Past>,
    registry: map<nat, nat>,
    recorded: nat
  )

  predicate IsAddressChar(c: char) { 'a' <= c <= 'z' || '0' <= c <= '9' || c == '-' }

  /** /^[a-z0-9-]+$/ */
  predicate IsAddress(text: string) {
    text != "" && forall i :: 0 <= i < |text| ==> IsAddressChar(text[i])
  }

  // ---- The router ----

  datatype Answer = Page(id: nat) | Redirect(slug: string) | NotFound

  ghost function BySlug(s: Site, slug: string): Option<nat> {
    if i :| i in s.entries && s.entries[i].slug == slug && !s.entries[i].hidden then Some(i) else None
  }

  function Live(s: Site, id: nat): bool { id in s.entries && !s.entries[id].hidden }

  /** The slug first, then the history, and only then the legacy id. */
  ghost function Resolve(s: Site, address: string): Answer {
    if !IsAddress(address) then NotFound
    else if BySlug(s, address).Some? then Page(BySlug(s, address).value)
    else if address in s.history && Live(s, s.history[address].owner) then
      Redirect(s.entries[s.history[address].owner].slug)
    else if s.kind.Games? && NumericAddress(address).Some? && Live(s, NumericAddress(address).value) then
      Redirect(s.entries[NumericAddress(address).value].slug)
    else NotFound
  }

  /** The address opens the entry, at once or after one redirect. */
  ghost predicate Reaches(s: Site, address: string, id: nat) {
    match Resolve(s, address)
    case Page(i) => i == id
    case Redirect(slug) => Resolve(s, slug) == Page(id)
    case NotFound => false
  }

  // ---- Writing ----

  datatype Step =
    | Create(id: nat, title: Title, slug: string)
    | Update(id: nat, title: Title, slug: string, busy: set<nat>)
    | Delete(id: nat, busy: set<nat>)

  /** claim_game_numeric_address: a number stays with whoever has it, and a live id is nobody else's. */
  predicate ClaimRefused(s: Site, address: Option<nat>, owner: nat) {
    && s.kind.Games? && address.Some?
    && var n := address.value;
       if n in s.registry then s.registry[n] != owner else n in s.entries && n != owner
  }

  function Claimed(s: Site, address: Option<nat>, owner: nat): Site {
    if s.kind.Games? && address.Some? then s.(registry := s.registry[address.value := owner]) else s
  }

  /** ON CONFLICT ("slug") DO NOTHING */
  function Recorded(s: Site, slug: string, owner: nat): Site {
    if slug in s.history then s
    else s.(history := s.history[slug := Past(owner, s.recorded)], recorded := s.recorded + 1)
  }

  /** Who an address goes to once it is released: whoever the router would now find there. */
  ghost function Candidate(s: Site, n: nat): Option<nat> {
    if BySlug(s, Numeral(n)).Some? then BySlug(s, Numeral(n))
    else if Numeral(n) in s.history && s.history[Numeral(n)].owner in s.entries then Some(s.history[Numeral(n)].owner)
    else if n in s.entries then Some(n)
    else None
  }

  /** refresh_game_numeric_address; a row someone is deleting is skipped rather than waited for. */
  ghost function Refreshed(s: Site, n: nat, busy: set<nat>): Option<nat> {
    var owner := Candidate(s, n);
    if owner == Some(n) && n in busy && !(n in s.registry && s.registry[n] == n) then None else owner
  }

  ghost function Refresh(s: Site, released: set<nat>, busy: set<nat>): Site {
    s.(registry := map n | n in s.registry.Keys + released && (n in released ==> Refreshed(s, n, busy).Some?) ::
         if n in released then Refreshed(s, n, busy).value else s.registry[n])
  }

  function NumbersIn(slugs: set<string>): set<nat> {
    set slug | slug in slugs && NumericAddress(slug).Some? :: NumericAddress(slug).value
  }

  /** The numbers a game's id, slug and history rows spell. */
  ghost function NumbersOf(s: Site, id: nat): set<nat>
    requires id in s.entries
  {
    {id} + NumbersIn({s.entries[id].slug}) + NumbersIn(set slug | slug in s.history && s.history[slug].owner == id)
  }

  /** Whether the database takes the write; a refused one changes nothing and is retried with another slug. */
  predicate Accepted(s: Site, step: Step) {
    match step
    case Create(id, _, slug) =>
      && 0 < id <= MAX_INT4 && id !in s.entries && id !in s.registry
      && (forall j :: j in s.entries ==> s.entries[j].slug != slug)
      && !ClaimRefused(s, NumericAddress(slug), id)
    case Update(id, _, slug, _) =>
      && Live(s, id)
      && (forall j :: j in s.entries && j != id ==> s.entries[j].slug != slug)
      && (slug != s.entries[id].slug || slug !in s.history ==> !ClaimRefused(s, NumericAddress(slug), id))
    case Delete(id, _) => Live(s, id)
  }

  /** The row and what cascades from it. */
  function Removed(s: Site, id: nat): Site {
    s.(entries := s.entries - {id},
       history := map slug | slug in s.history && s.history[slug].owner != id :: s.history[slug],
       registry := map n | n in s.registry && s.registry[n] != id :: s.registry[n])
  }

  ghost function Next(s: Site, step: Step): Site {
    if !Accepted(s, step) then s
    else match step
      case Create(id, title, slug) =>
        var t := s.(entries := s.entries[id := Entry(slug, title, false)]);
        Claimed(Claimed(Recorded(t, slug, id), Some(id), id), NumericAddress(slug), id)
      case Update(id, title, slug, busy) =>
        var was := s.entries[id].slug;
        var t := Recorded(s.(entries := s.entries[id := Entry(slug, title, false)]), slug, id);
        if slug == was && slug in s.history then t
        else
          var c := Claimed(t, NumericAddress(slug), id);
          if s.kind.Games? && slug != was && NumericAddress(was).Some?
          then Refresh(c, {NumericAddress(was).value}, busy) else c
      case Delete(id, busy) =>
        if s.kind.News? then s.(entries := s.entries[id := s.entries[id].(hidden := true)])
        else Refresh(Removed(s, id), NumbersOf(s, id), busy)
  }

  ghost function Exec(s: Site, run: seq<Step>): Site
    decreases |run|
  {
    if run == [] then s else Exec(Next(s, run[0]), run[1..])
  }

  // ---- What an address means, told without the router ----

  /** A recorded slug belongs to whoever it is recorded for; any other number is an id. */
  function Serves(s: Site, address: string): Option<nat> {
    if address in s.history then
      if Live(s, s.history[address].owner) then Some(s.history[address].owner) else None
    else if s.kind.Games? && NumericAddress(address).Some? && Live(s, NumericAddress(address).value) then
      NumericAddress(address)
    else None
  }

  ghost predicate RegistryMatches(s: Site) {
    forall a :: NumericAddress(a).Some? ==> RegistryMatchesAt(s, a, NumericAddress(a).value)
  }

  predicate RegistryMatchesAt(s: Site, a: string, n: nat) {
    && (n in s.registry ==> Serves(s, a) == Some(s.registry[n]))
    && (n !in s.registry ==> Serves(s, a).None? || Serves(s, a) == Some(n))
  }

  ghost predicate HistoryHolds(s: Site) {
    && (forall i :: i in s.entries ==> s.entries[i].slug in s.history && s.history[s.entries[i].slug].owner == i)
    && (forall a :: a in s.history ==> IsAddress(a) && s.history[a].owner in s.entries && s.history[a].order < s.recorded)
    && (forall a, b :: a in s.history && b in s.history && s.history[a].order == s.history[b].order ==> a == b)
  }

  ghost predicate NumbersHold(s: Site) {
    && (s.kind.Games? ==> (forall i :: i in s.entries ==> !s.entries[i].hidden) && RegistryMatches(s))
    && (s.kind.News? ==> s.registry == map[])
  }

  /** Every slug in use is recorded as its holder's own, and the registry agrees with the router. */
  ghost predicate Healthy(s: Site) {
    HistoryHolds(s) && NumbersHold(s)
  }

  /** What resolveSlug promises, when the write commits: an address, and one nobody else has ever held. */
  predicate Fresh(s: Site, step: Step) {
    step.Delete? || (IsAddress(step.slug) && (step.slug in s.history ==> s.history[step.slug].owner == step.id))
  }

  lemma CurrentSlugOpens(s: Site, id: nat)
    requires Healthy(s) && Live(s, id)
    ensures IsAddress(s.entries[id].slug) && BySlug(s, s.entries[id].slug) == Some(id)
    ensures Resolve(s, s.entries[id].slug) == Page(id)
  {
  }

  /** The router and the plain reading agree, and one redirect is always enough. */
  lemma RouterServes(s: Site, address: string, id: nat)
    requires Healthy(s)
    ensures Reaches(s, address, id) <==> Serves(s, address) == Some(id)
  {
  }

  // ---- What each write does to every address ----

  /** Nobody's address changes hands while its holder is there. */
  ghost predicate Keeps(s: Site, t: Site) {
    forall a, i :: Serves(s, a) == Some(i) && Live(t, i) ==> Serves(t, a) == Some(i)
  }

  /** The slug of an entry that is new to the history is either nobody's address or already its own. */
  lemma UnrecordedSlugIsFree(s: Site, slug: string, id: nat)
    requires Healthy(s) && !ClaimRefused(s, NumericAddress(slug), id)
    ensures slug !in s.history ==> Serves(s, slug).None? || Serves(s, slug) == Some(id)
  {
  }

  /** t is s with one entry written under a slug nobody else has held. */
  ghost predicate Wrote(s: Site, t: Site, id: nat, entry: Entry) {
    && !entry.hidden && IsAddress(entry.slug) && (entry.slug in s.history ==> s.history[entry.slug].owner == id)
    && (id in s.entries ==> Live(s, id))
    && t.kind == s.kind && t.entries == s.entries[id := entry]
    && t.history == Recorded(s, entry.slug, id).history && t.recorded == Recorded(s, entry.slug, id).recorded
  }

  lemma WritingTakesOneSlug(s: Site, t: Site, id: nat, entry: Entry, a: string)
    requires HistoryHolds(s) && Wrote(s, t, id, entry)
    ensures Serves(t, a) ==
      if a == entry.slug || (a !in s.history && s.kind.Games? && NumericAddress(a) == Some(id)) then Some(id) else Serves(s, a)
  {
    hide NumericAddress, IsAddress;
  }

  lemma CreateShape(s: Site, step: Step)
    requires HistoryHolds(s) && step.Create? && Accepted(s, step) && Fresh(s, step)
    ensures Wrote(s, Next(s, step), step.id, Entry(step.slug, step.title, false))
  {
  }

  lemma AfterCreate(s: Site, step: Step, a: string)
    requires Healthy(s) && step.Create? && Accepted(s, step) && Fresh(s, step)
    ensures
      var t := Next(s, step);
      Serves(t, a) == if a == step.slug || (s.kind.Games? && NumericAddress(a) == Some(step.id)) then Some(step.id) else Serves(s, a)
    ensures a == step.slug || (s.kind.Games? && NumericAddress(a) == Some(step.id)) ==> Serves(s, a).None?
  {
    hide NumericAddress, IsAddress;
    WritingTakesOneSlug(s, Next(s, step), step.id, Entry(step.slug, step.title, false), a);
    UnrecordedSlugIsFree(s, step.slug, step.id);
    if s.kind.Games? && NumericAddress(a).Some? {
      assert RegistryMatchesAt(s, a, NumericAddress(a).value);
    }
    hide Next;
  }

  lemma RegistryAfterCreate(s: Site, step: Step, a: string)
    requires Healthy(s) && step.Create? && Accepted(s, step) && Fresh(s, step)
    requires s.kind.Games? && NumericAddress(a).Some?
    ensures RegistryMatchesAt(Next(s, step), a, NumericAddress(a).value)
  {
    AfterCreate(s, step, a);
    var n := NumericAddress(a).value;
    assert RegistryMatchesAt(s, a, n);
    OneSpellingPerId(a, n);
    OneSpellingPerId(step.slug, n);
    hide Healthy, Accepted, Serves, Numeral, NumericAddress;
  }

  /** Recording a slug nobody else has held keeps every slug in use recorded as its holder's own. */
  lemma WritingKeepsHistory(s: Site, t: Site, id: nat, entry: Entry)
    requires HistoryHolds(s) && Wrote(s, t, id, entry)
    ensures HistoryHolds(t)
  {
    hide IsAddress;
    forall i | i in t.entries ensures t.entries[i].slug in t.history && t.history[t.entries[i].slug].owner == i {
      if i != id { assert i in s.entries && s.entries[i].slug in s.history; }
    }
  }

  lemma CreateKeeps(s: Site, step: Step)
    requires Healthy(s) && step.Create? && Accepted(s, step) && Fresh(s, step)
    ensures Healthy(Next(s, step)) && Keeps(s, Next(s, step))
    ensures Serves(Next(s, step), step.slug) == Some(step.id)
    ensures s.kind.Games? ==> Serves(Next(s, step), Numeral(step.id)) == Some(step.id)
  {
    var t := Next(s, step);
    WritingKeepsHistory(s, t, step.id, Entry(step.slug, step.title, false));
    OneSpellingPerId(Numeral(step.id), step.id);
    CreateKeepsNumbers(s, step);
    hide HistoryHolds, Serves, NumericAddress, Next, Accepted, NumbersHold, Healthy;
    forall a ensures Serves(s, a).Some? ==> Serves(t, a) == Serves(s, a) {
      AfterCreate(s, step, a);
    }
    AfterCreate(s, step, step.slug);
    AfterCreate(s, step, Numeral(step.id));
  }

  lemma CreateKeepsNumbers(s: Site, step: Step)
    requires Healthy(s) && step.Create? && Accepted(s, step) && Fresh(s, step)
    ensures NumbersHold(Next(s, step))
  {
    hide HistoryHolds, Serves, NumericAddress, Accepted, RegistryMatchesAt, IsAddress;
    var t := Next(s, step);
    assert t.kind == s.kind && t.entries == s.entries[step.id := Entry(step.slug, step.title, false)];
    assert s.kind.News? ==> t.registry == s.registry;
    hide Next;
    if s.kind.Games? {
      NothingHidden(s);
      forall a | NumericAddress(a).Some? ensures RegistryMatchesAt(t, a, NumericAddress(a).value) {
        RegistryAfterCreate(s, step, a);
      }
    }
  }

  /** The owner a released number is given is the one the router finds. */
  lemma CandidateIsServed(s: Site, a: string, n: nat)
    requires HistoryHolds(s) && s.kind.Games? && (forall i :: i in s.entries ==> !s.entries[i].hidden)
    requires NumericAddress(a) == Some(n)
    ensures Candidate(s, n) == Serves(s, a)
  {
    OneSpellingPerId(a, n);
    if BySlug(s, a).Some? {
      var i := BySlug(s, a).value;
      assert s.entries[i].slug in s.history;
    }
  }

  lemma RefreshMatches(s: Site, released: set<nat>, busy: set<nat>, a: string, n: nat)
    requires HistoryHolds(s) && s.kind.Games? && (forall i :: i in s.entries ==> !s.entries[i].hidden)
    requires NumericAddress(a) == Some(n) && (n !in released ==> RegistryMatchesAt(s, a, n))
    ensures RegistryMatchesAt(Refresh(s, released, busy), a, n)
  {
    CandidateIsServed(s, a, n);
    hide HistoryHolds, NumericAddress, Candidate;
    assert Serves(Refresh(s, released, busy), a) == Serves(s, a);
  }

  lemma RefreshKeepsTheRest(s: Site, released: set<nat>, busy: set<nat>)
    ensures var t := Refresh(s, released, busy);
      && t.kind == s.kind && t.entries == s.entries && t.history == s.history && t.recorded == s.recorded
      && (HistoryHolds(s) ==> HistoryHolds(t))
  {
  }

  // ---- Renames ----

  /** A rename up to the point where the number of the old slug is released. */
  ghost function Renamed(s: Site, step: Step): Site
    requires step.Update?
  {
    Claimed(Recorded(s.(entries := s.entries[step.id := Entry(step.slug, step.title, false)]), step.slug, step.id),
            NumericAddress(step.slug), step.id)
  }

  ghost predicate GoodUpdate(s: Site, step: Step) {
    Healthy(s) && step.Update? && Accepted(s, step) && Fresh(s, step)
  }

  lemma RenamedShape(s: Site, step: Step)
    requires GoodUpdate(s, step) && step.slug != s.entries[step.id].slug
    ensures
      var t := Renamed(s, step);
      && Wrote(s, t, step.id, Entry(step.slug, step.title, false))
      && t.registry == if s.kind.Games? && NumericAddress(step.slug).Some? then s.registry[NumericAddress(step.slug).value := step.id] else s.registry
  {
  }

  lemma AfterRename(s: Site, step: Step, a: string)
    requires GoodUpdate(s, step) && step.slug != s.entries[step.id].slug
    ensures Serves(Renamed(s, step), a) == if a == step.slug then Some(step.id) else Serves(s, a)
    ensures a == step.slug ==> Serves(s, a).None? || Serves(s, a) == Some(step.id)
  {
    hide NumericAddress, IsAddress;
    RenamedShape(s, step);
    WritingTakesOneSlug(s, Renamed(s, step), step.id, Entry(step.slug, step.title, false), a);
    if step.slug !in s.history { UnrecordedSlugIsFree(s, step.slug, step.id); }
    hide Renamed;
  }

  lemma RegistryAfterRename(s: Site, step: Step, a: string)
    requires GoodUpdate(s, step) && step.slug != s.entries[step.id].slug
    requires s.kind.Games? && NumericAddress(a).Some?
    ensures RegistryMatchesAt(Renamed(s, step), a, NumericAddress(a).value)
  {
    RenamedShape(s, step);
    AfterRename(s, step, a);
    var n := NumericAddress(a).value;
    assert RegistryMatchesAt(s, a, n);
    OneSpellingPerId(a, n);
    OneSpellingPerId(step.slug, n);
    hide NumericAddress, IsAddress, Accepted, Numeral, Renamed, Serves, Healthy, Wrote;
  }

  lemma UpdateShape(s: Site, step: Step)
    requires GoodUpdate(s, step)
    ensures Wrote(s, Next(s, step), step.id, Entry(step.slug, step.title, false))
    ensures s.kind.News? ==> Next(s, step).registry == s.registry
    ensures step.slug == s.entries[step.id].slug ==> Next(s, step).registry == s.registry
    ensures step.slug != s.entries[step.id].slug ==>
      Next(s, step) == if s.kind.Games? && NumericAddress(s.entries[step.id].slug).Some?
                       then Refresh(Renamed(s, step), {NumericAddress(s.entries[step.id].slug).value}, step.busy)
                       else Renamed(s, step)
  {
    hide NumericAddress, IsAddress;
    assert s.entries[step.id].slug in s.history;
    if step.slug != s.entries[step.id].slug { RenamedShape(s, step); }
  }

  lemma UpdateKeepsNumbers(s: Site, step: Step)
    requires GoodUpdate(s, step)
    ensures NumbersHold(Next(s, step))
  {
    var t := Next(s, step);
    UpdateShape(s, step);
    forall a | s.kind.Games? && NumericAddress(a).Some? ensures RegistryMatchesAt(t, a, NumericAddress(a).value) {
      RegistryAfterUpdate(s, step, a);
    }
    hide NumericAddress, IsAddress, Accepted, Renamed, Serves, HistoryHolds, Next, Refresh;
  }

  lemma RegistryAfterUpdate(s: Site, step: Step, a: string)
    requires GoodUpdate(s, step) && s.kind.Games? && NumericAddress(a).Some?
    ensures RegistryMatchesAt(Next(s, step), a, NumericAddress(a).value)
  {
    UpdateShape(s, step);
    if step.slug == s.entries[step.id].slug {
      hide NumericAddress, IsAddress, Accepted, Next;
      assert RegistryMatchesAt(s, a, NumericAddress(a).value);
      WritingTakesOneSlug(s, Next(s, step), step.id, Entry(step.slug, step.title, false), a);
    } else {
      RegistryAfterRename(s, step, a);
      if NumericAddress(s.entries[step.id].slug).Some? { RegistryAfterRelease(s, step, a); }
      hide NumericAddress, IsAddress, Accepted, Renamed, Serves, Next, Refresh, RegistryMatchesAt, Healthy;
    }
  }

  lemma RegistryAfterRelease(s: Site, step: Step, a: string)
    requires GoodUpdate(s, step) && s.kind.Games? && NumericAddress(a).Some?
    requires step.slug != s.entries[step.id].slug && NumericAddress(s.entries[step.id].slug).Some?
    ensures RegistryMatchesAt(Refresh(Renamed(s, step), {NumericAddress(s.entries[step.id].slug).value}, step.busy), a, NumericAddress(a).value)
  {
    RenamedIsSound(s, step);
    RegistryAfterRename(s, step, a);
    assert step.id in s.entries;
    hide NumericAddress, GoodUpdate, Renamed, HistoryHolds, Refresh, RegistryMatchesAt;
    RefreshMatches(Renamed(s, step), {NumericAddress(s.entries[step.id].slug).value}, step.busy, a, NumericAddress(a).value);
  }

  lemma RenamedIsSound(s: Site, step: Step)
    requires GoodUpdate(s, step) && s.kind.Games? && step.slug != s.entries[step.id].slug
    ensures var r := Renamed(s, step); HistoryHolds(r) && r.kind.Games? && forall i :: i in r.entries ==> !r.entries[i].hidden
  {
    RenamedShape(s, step);
    NothingHidden(s);
    WritingKeepsHistory(s, Renamed(s, step), step.id, Entry(step.slug, step.title, false));
    hide NumericAddress, IsAddress, Accepted, Next, Renamed, HistoryHolds, NumbersHold;
  }

  lemma NothingHidden(s: Site)
    requires Healthy(s) && s.kind.Games?
    ensures forall i :: i in s.entries ==> !s.entries[i].hidden
  {
  }

  lemma AfterUpdate(s: Site, step: Step, a: string)
    requires GoodUpdate(s, step)
    ensures Serves(s, a).Some? ==> Serves(Next(s, step), a) == Serves(s, a)
    ensures a == step.slug ==> Serves(Next(s, step), a) == Some(step.id)
  {
    UpdateShape(s, step);
    if step.slug !in s.history { UnrecordedSlugIsFree(s, step.slug, step.id); }
    WritingTakesOneSlug(s, Next(s, step), step.id, Entry(step.slug, step.title, false), a);
    hide NumericAddress, IsAddress, Accepted, Next, NumbersHold, Wrote;
  }

  lemma UpdateKeeps(s: Site, step: Step)
    requires GoodUpdate(s, step)
    ensures Healthy(Next(s, step)) && Keeps(s, Next(s, step))
    ensures Serves(Next(s, step), step.slug) == Some(step.id)
  {
    UpdateShape(s, step);
    UpdateKeepsNumbers(s, step);
    WritingKeepsHistory(s, Next(s, step), step.id, Entry(step.slug, step.title, false));
    hide Next, NumbersHold, HistoryHolds, Serves, GoodUpdate, Wrote;
    forall a ensures Serves(s, a).Some? ==> Serves(Next(s, step), a) == Serves(s, a) {
      AfterUpdate(s, step, a);
    }
    AfterUpdate(s, step, step.slug);
  }

  // ---- Deletions ----

  lemma RemovedKeepsHistory(s: Site, id: nat)
    requires HistoryHolds(s)
    ensures HistoryHolds(Removed(s, id))
  {
  }

  lemma RegistryAfterRemoval(s: Site, id: nat, a: string, n: nat)
    requires Healthy(s) && s.kind.Games? && id in s.entries
    requires NumericAddress(a) == Some(n) && n !in NumbersOf(s, id)
    ensures RegistryMatchesAt(Removed(s, id), a, n)
  {
    assert RegistryMatchesAt(s, a, n);
    assert !(a in s.history && s.history[a].owner == id);
    assert n != id;
    hide NumericAddress, IsAddress, NumbersOf;
  }

  lemma RegistryAfterDelete(s: Site, id: nat, busy: set<nat>, a: string)
    requires Healthy(s) && s.kind.Games? && id in s.entries && NumericAddress(a).Some?
    ensures RegistryMatchesAt(Refresh(Removed(s, id), NumbersOf(s, id), busy), a, NumericAddress(a).value)
  {
    RemovedKeepsHistory(s, id);
    NothingHidden(s);
    hide NumericAddress, IsAddress, NumbersOf, Refresh, RegistryMatchesAt, HistoryHolds, NumbersHold;
    if NumericAddress(a).value !in NumbersOf(s, id) {
      RegistryAfterRemoval(s, id, a, NumericAddress(a).value);
    }
    RefreshMatches(Removed(s, id), NumbersOf(s, id), busy, a, NumericAddress(a).value);
  }

  lemma GameDeleteIsHealthy(s: Site, id: nat, busy: set<nat>)
    requires Healthy(s) && s.kind.Games? && id in s.entries
    ensures Healthy(Refresh(Removed(s, id), NumbersOf(s, id), busy))
  {
    hide NumericAddress, NumbersOf, HistoryHolds, RegistryMatchesAt, Refresh;
    RemovedKeepsHistory(s, id);
    NothingHidden(s);
    var r := Removed(s, id);
    var t := Refresh(r, NumbersOf(s, id), busy);
    RefreshKeepsTheRest(r, NumbersOf(s, id), busy);
    forall a | NumericAddress(a).Some? ensures RegistryMatchesAt(t, a, NumericAddress(a).value) {
      RegistryAfterDelete(s, id, busy, a);
    }
  }

  lemma GameDeleteServes(s: Site, id: nat, busy: set<nat>, a: string)
    requires Healthy(s) && s.kind.Games? && id in s.entries
    ensures var t := Refresh(Removed(s, id), NumbersOf(s, id), busy);
      && (Serves(s, a).Some? && Serves(s, a) != Some(id) ==> Serves(t, a) == Serves(s, a))
      && Serves(t, a) != Some(id)
  {
  }

  lemma GameDeleteKeeps(s: Site, id: nat, busy: set<nat>)
    requires Healthy(s) && s.kind.Games? && id in s.entries
    ensures var t := Refresh(Removed(s, id), NumbersOf(s, id), busy);
      Healthy(t) && Keeps(s, t) && forall a :: Serves(t, a) != Some(id)
  {
    var t := Refresh(Removed(s, id), NumbersOf(s, id), busy);
    GameDeleteIsHealthy(s, id, busy);
    assert id !in t.entries;
    hide Serves, NumbersOf, Healthy, Refresh, Removed;
    forall a ensures Serves(s, a).Some? && Serves(s, a) != Some(id) ==> Serves(t, a) == Serves(s, a)
      ensures Serves(t, a) != Some(id)
    {
      GameDeleteServes(s, id, busy, a);
    }
  }

  lemma NewsDeleteKeeps(s: Site, id: nat)
    requires Healthy(s) && s.kind.News? && id in s.entries
    ensures var t := s.(entries := s.entries[id := s.entries[id].(hidden := true)]);
      Healthy(t) && Keeps(s, t) && forall a :: Serves(t, a) != Some(id)
  {
  }

  lemma DeleteKeeps(s: Site, step: Step)
    requires Healthy(s) && step.Delete? && Accepted(s, step)
    ensures Healthy(Next(s, step)) && Keeps(s, Next(s, step))
    ensures forall a :: Serves(Next(s, step), a) != Some(step.id)
  {
    if s.kind.Games? { GameDeleteKeeps(s, step.id, step.busy); } else { NewsDeleteKeeps(s, step.id); }
    hide Healthy, Keeps, Serves, Refresh, Removed, NumbersOf;
  }
}
