/**
 * Choosing a slug for a title, and the saves that use it. Chosen and committed
 * without another write in between, a save is always accepted and always safe.
 */
module SlugChoice {
  import opened Basics
  import opened Numerals
  import opened Addresses
  import opened AddressRuns

  function Suffixed(base: string, k: nat): string { base + "-" + Numeral(k) }

  lemma SuffixesDiffer(base: string, j: nat, k: nat)
    requires 0 < j && 0 < k && Suffixed(base, j) == Suffixed(base, k)
    ensures j == k
  {
    NumeralReadsBack(j);
    NumeralReadsBack(k);
    assert Suffixed(base, j)[|base| + 1..] == Numeral(j) && Suffixed(base, k)[|base| + 1..] == Numeral(k);
  }

  lemma SuffixedIsAnAddress(base: string, k: nat)
    requires IsAddress(base) && 0 < k
    ensures IsAddress(Suffixed(base, k)) && NumericAddress(Suffixed(base, k)).None?
  {
    NumeralReadsBack(k);
    var slug := Suffixed(base, k);
    assert !IsDigit(slug[|base|]);
    forall i | 0 <= i < |slug| ensures IsAddressChar(slug[i]) {
      if i > |base| { assert IsDigit(Numeral(k)[i - |base| - 1]); }
    }
  }

  /** In the history, and not as the saving entry's own. */
  predicate HeldByOthers(s: Site, owner: Option<nat>, slug: string) {
    slug in s.history && (owner.None? || s.history[slug].owner != owner.value)
  }

  /** A number that is some other game's id. */
  predicate SomeonesId(s: Site, owner: Option<nat>, slug: string) {
    && s.kind.Games? && NumericAddress(slug).Some?
    && NumericAddress(slug).value in s.entries && owner != NumericAddress(slug)
  }

  /** What resolveSlug hands out: nothing another entry has held, nobody's number, and no fixed page. */
  predicate IsFree(s: Site, reserved: set<string>, owner: Option<nat>, base: string, slug: string) {
    && IsAddress(slug) && !HeldByOthers(s, owner, slug) && !SomeonesId(s, owner, slug)
    && (slug == base ==> base !in reserved)
  }

  /** The lowest free suffix: the base when it is free, else the first "-2", "-3", ... that is. */
  method ResolveSlug(s: Site, reserved: set<string>, base: string, owner: Option<nat>) returns (slug: string)
    requires IsAddress(base)
    ensures IsFree(s, reserved, owner, base, slug)
    ensures slug == base <==>
      && base !in reserved && (base in s.history ==> Some(s.history[base].owner) == owner)
      && forall id :: id in s.entries && s.kind == Games && NumericAddress(base) == Some(id) ==> Some(id) == owner
    ensures slug != base ==>
      exists k :: k >= 2 && slug == Suffixed(base, k)
        && (slug in s.history ==> Some(s.history[slug].owner) == owner)
        && forall j :: 2 <= j < k ==> Suffixed(base, j) in s.history && Some(s.history[Suffixed(base, j)].owner) != owner
  {
    if !HeldByOthers(s, owner, base) && base !in reserved && !SomeonesId(s, owner, base) {
      return base;
    }
    var suffix := 2;
    ghost var met: set<string> := {};
    while HeldByOthers(s, owner, Suffixed(base, suffix))
      invariant suffix >= 2 && met <= s.history.Keys
      invariant forall j :: 2 <= j < suffix ==> HeldByOthers(s, owner, Suffixed(base, j))
      invariant forall m :: m in met ==> exists j :: 2 <= j < suffix && m == Suffixed(base, j)
      decreases s.history.Keys - met
    {
      if Suffixed(base, suffix) in met {
        var j :| 2 <= j < suffix && Suffixed(base, suffix) == Suffixed(base, j);
        SuffixesDiffer(base, suffix, j);
      }
      met := met + {Suffixed(base, suffix)};
      suffix := suffix + 1;
    }
    SuffixedIsAnAddress(base, suffix);
    slug := Suffixed(base, suffix);
  }

  /** slugSharesBase: the base itself, or the base with a suffix resolveSlug could have given it. */
  predicate SharesBase(slug: string, base: string) {
    || slug == base
    || (base + "-" <= slug && var rest := slug[|base| + 1..]; rest != "" && AllDigits(rest) && rest[0] != '0')
  }

  lemma SharesBaseIff(slug: string, base: string)
    ensures SharesBase(slug, base) <==> slug == base || exists k :: k > 0 && slug == Suffixed(base, k)
  {
    if base + "-" <= slug && slug != base && SharesBase(slug, base) {
      var rest := slug[|base| + 1..];
      ReadingIsSpelling(rest);
      assert slug == Suffixed(base, Value(rest));
    }
    if k: nat :| k > 0 && slug == Suffixed(base, k) {
      NumeralReadsBack(k);
      assert slug[|base| + 1..] == Numeral(k);
    }
  }

  /** On the row: the title is the saved one, or both come to one base and the slug is that base, suffixed or not. */
  ghost predicate IsStillItsSlug(entry: Entry, title: Title) {
    || entry.title.text == title.text
    || (entry.title.base == title.base
        && (entry.slug == title.base || exists k :: k > 0 && entry.slug == title.base + "-" + Numeral(k)))
  }

  lemma KeepsItsSlugIff(entry: Entry, title: Title)
    ensures KeepsItsSlug(entry, title) <==> IsStillItsSlug(entry, title)
  {
    SharesBaseIff(entry.slug, title.base);
    if entry.slug != title.base && SharesBase(entry.slug, title.base) {
      var k :| k > 0 && entry.slug == Suffixed(title.base, k);
      assert entry.slug == title.base + "-" + Numeral(k);
    }
    hide SharesBase;
    forall k | k > 0 && entry.slug == title.base + "-" + Numeral(k) ensures entry.slug == Suffixed(title.base, k) {}
  }

  predicate KeepsItsSlug(entry: Entry, title: Title) {
    entry.title.text == title.text || (SharesBase(entry.slug, title.base) && entry.title.base == title.base)
  }

  /** The slug stays while the title's base does, and moves to a free one when it does not. */
  method ResolveSlugForUpdate(s: Site, reserved: set<string>, title: Title, id: nat) returns (slug: string)
    requires IsAddress(title.base)
    ensures id in s.entries && !s.entries[id].hidden && IsStillItsSlug(s.entries[id], title) ==> slug == s.entries[id].slug
    ensures !(id in s.entries && !s.entries[id].hidden && IsStillItsSlug(s.entries[id], title)) ==>
      IsFree(s, reserved, Some(id), title.base, slug)
  {
    if id in s.entries { KeepsItsSlugIff(s.entries[id], title); }
    if id in s.entries && !s.entries[id].hidden && KeepsItsSlug(s.entries[id], title) {
      return s.entries[id].slug;
    }
    slug := ResolveSlug(s, reserved, title.base, Some(id));
  }

  /** next_available_game_id: the sequence moves on until it meets a number that names nothing. */
  method NextAvailableId(s: Site, sequence: nat) returns (id: nat)
    ensures id > sequence && id !in s.entries && id !in s.registry
    ensures forall n :: sequence < n < id ==> n in s.entries || n in s.registry
  {
    id := sequence + 1;
    ghost var met: set<nat> := {};
    while id in s.entries || id in s.registry
      invariant id > sequence && met <= s.entries.Keys + s.registry.Keys
      invariant forall n :: sequence < n < id ==> n in s.entries || n in s.registry
      invariant forall n :: n in met ==> n < id
      decreases s.entries.Keys + s.registry.Keys - met
    {
      met := met + {id};
      id := id + 1;
    }
  }

  /** A free slug committed at once meets no other row's slug and no claim of the registry. */
  lemma FreeSlugsMeetNothing(s: Site, slug: string, id: nat)
    requires Healthy(s) && IsAddress(slug)
    requires !HeldByOthers(s, Some(id), slug) && !SomeonesId(s, Some(id), slug)
    ensures forall j :: j in s.entries && j != id ==> s.entries[j].slug != slug
    ensures !ClaimRefused(s, NumericAddress(slug), id)
  {
  }

  /**
   * Chosen and committed with no other write in between, a new entry is accepted, opens
   * at its slug, and leaves every address with its holder.
   */
  lemma CreatesSucceed(s: Site, reserved: set<string>, id: nat, title: Title, slug: string)
    requires Healthy(s) && IsFree(s, reserved, None, title.base, slug)
    requires 0 < id <= MAX_INT4 && id !in s.entries && id !in s.registry
    ensures
      var step := Create(id, title, slug);
      Accepted(s, step) && Fresh(s, step) && Reaches(Next(s, step), slug, id) && KeepsHolders(s, Next(s, step))
  {
    var step := Create(id, title, slug);
    FreeSlugsMeetNothing(s, slug, id);
    assert Accepted(s, step) && Fresh(s, step);
    hide Healthy, Next, Reaches, IsFree, Accepted, Fresh;
    NewEntriesOpen(s, step);
    FreshSavesKeepHolders(s, step);
  }

  lemma UpdatesSucceed(s: Site, reserved: set<string>, id: nat, title: Title, slug: string)
    requires Healthy(s) && Live(s, id)
    requires slug == s.entries[id].slug || IsFree(s, reserved, Some(id), title.base, slug)
    ensures
      var step := Update(id, title, slug, {});
      && Accepted(s, step) && Fresh(s, step) && Reaches(Next(s, step), slug, id) && KeepsHolders(s, Next(s, step))
      && Reaches(Next(s, step), s.entries[id].slug, id)
  {
    var step := Update(id, title, slug, {});
    if slug == s.entries[id].slug {
      OwnSlugIsFresh(s, id);
    } else {
      FreeSlugsMeetNothing(s, slug, id);
    }
    assert Accepted(s, step) && Fresh(s, step);
    CurrentSlugOpens(s, id);
    UpdateShape(s, step);
    assert Reaches(s, s.entries[id].slug, id);
    assert Live(Next(s, step), id);
    hide Healthy, Next, Reaches, IsFree, Accepted, Fresh, Resolve;
    UpdateKeeps(s, step);
    RouterServes(Next(s, step), slug, id);
    FreshSavesKeepHolders(s, step);
  }

  lemma OwnSlugIsFresh(s: Site, id: nat)
    requires Healthy(s) && Live(s, id)
    ensures IsAddress(s.entries[id].slug) && s.entries[id].slug in s.history && s.history[s.entries[id].slug].owner == id
    ensures forall j :: j in s.entries && j != id ==> s.entries[j].slug != s.entries[id].slug
  {
  }
}
