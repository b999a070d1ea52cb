/**
 * One set of filters, rendered three times: as find()'s WHERE clause, as count()'s,
 * and as the GROUP BY the sitemap reads its counts from.
 */
module Catalogue {
  import opened Basics
  import opened LikePatterns

  datatype Game = Game(
    slug: string,
    title: string,
    titleRank: int,
    lowerTitleRank: int,
    genre: Option<string>,
    developer: Option<string>,
    publisher: Option<string>,
    release: Option<int>,
    ratingSum: nat,
    ratingCount: nat,
    createdAt: int,
    updatedAt: int
  )

  type Games = map<nat, Game>

  // ---- SQL's three truth values ----

  datatype Truth = Yes | No | Unknown

  function Bool(b: bool): Truth { if b then Yes else No }

  function Equal<T(==)>(a: Option<T>, b: Option<T>): Truth {
    if a.None? || b.None? then Unknown else Bool(a == b)
  }

  function AtLeast(a: Option<int>, b: int): Truth {
    if a.None? then Unknown else Bool(a.value >= b)
  }

  function AtMost(a: Option<int>, b: int): Truth {
    if a.None? then Unknown else Bool(a.value <= b)
  }

  function And(a: Truth, b: Truth): Truth {
    if a.No? || b.No? then No else if a.Unknown? || b.Unknown? then Unknown else Yes
  }

  function Or(a: Truth, b: Truth): Truth {
    if a.Yes? || b.Yes? then Yes else if a.Unknown? || b.Unknown? then Unknown else No
  }

  function Not(a: Truth): Truth {
    match a case Yes => No case No => Yes case Unknown => Unknown
  }

  function NullIf(a: Option<string>, b: string): Option<string> { if a == Some(b) then None else a }

  function Coalesce(a: Option<string>, b: Option<string>): Option<string> { if a.Some? then a else b }

  // ---- Strings ----

  /** The byte order text_pattern_ops compares in. */
  predicate BytesBelow(a: string, b: string) {
    if a == "" then b != ""
    else b != "" && (a[0] < b[0] || (a[0] == b[0] && BytesBelow(a[1..], b[1..])))
  }

  /** "slug" ~>=~ '0' AND "slug" ~<~ ':' */
  predicate InDigitRange(slug: string) { !BytesBelow(slug, "0") && BytesBelow(slug, ":") }

  function UpperChar(c: char): char { if 'a' <= c <= 'z' then c - 'a' + 'A' else c }

  function Upper(text: string): (up: string)
    ensures |up| == |text|
    ensures forall i :: 0 <= i < |text| ==>
      if 'a' <= text[i] <= 'z' then IsCapital(up[i]) && LowerChar(up[i]) == text[i] else up[i] == text[i]
  {
    seq(|text|, i requires 0 <= i < |text| => UpperChar(text[i]))
  }

  // ---- The letter buckets ----

  const DIGIT_BUCKET := "0-9"

  function LetterBuckets(): seq<string> {
    [DIGIT_BUCKET] + seq(26, i requires 0 <= i < 26 => [('a' as int + i) as char])
  }

  /** The page of the digits and one for each letter, twenty-seven in all. */
  lemma BucketsAre(bucket: string)
    ensures bucket in LetterBuckets() <==> bucket == "0-9" || (|bucket| == 1 && 'a' <= bucket[0] <= 'z')
    ensures |LetterBuckets()| == 27 && NoDuplicates(LetterBuckets())
  {
    var letters := LetterBuckets()[1..];
    assert forall i :: 0 <= i < 26 ==> letters[i] == [('a' as int + i) as char];
    if |bucket| == 1 && 'a' <= bucket[0] <= 'z' {
      assert letters[bucket[0] as int - 'a' as int] == bucket;
    }
    if bucket in LetterBuckets() && bucket != "0-9" {
      var i :| 0 <= i < |LetterBuckets()| && LetterBuckets()[i] == bucket;
      assert letters[i - 1] == bucket;
    }
    assert DIGIT_BUCKET[0] == '0' && |DIGIT_BUCKET| == 3;
    forall i, j | 0 <= i < j < 27 ensures LetterBuckets()[i] != LetterBuckets()[j] {
      if i > 0 { assert letters[i - 1][0] != letters[j - 1][0]; }
    }
  }

  /** The page a slug is listed on. */
  function BucketOf(slug: string): string {
    if InDigitRange(slug) then DIGIT_BUCKET else if slug == "" then "" else slug[..1]
  }

  // ---- The filters ----

  datatype Filters = Filters(
    genre: Option<string>,
    letter: Option<string>,
    developer: Option<string>,
    publisher: Option<string>,
    year: Option<int>,
    releaseFrom: Option<int>,
    releaseTo: Option<int>,
    search: Option<Search>
  )

  /** How close pg_trgm finds a title, and whether that is close enough to match. */
  datatype Similarity = Similarity(matches: bool, score: real)

  /** What was typed into the search box, and what pg_trgm makes of the titles beside it. */
  datatype Search = Search(text: string, titles: map<string, Similarity>)

  function Term(s: Search): string { Trimmed(s.text) }

  /** A search of nothing but spaces does not filter either. */
  predicate Searching(f: Filters) { f.search.Some? && Term(f.search.value) != "" }

  function SimilarityOf(s: Search, g: Game): Similarity {
    if g.title in s.titles then s.titles[g.title] else Similarity(false, 0.0)
  }

  function ILikeOrNull(text: Option<string>, pattern: string): Truth {
    if text.None? then Unknown else Bool(ILike(text.value, pattern))
  }

  function SearchPattern(s: Search): string { "%" + EscapeLike(Term(s)) + "%" }

  function SearchCondition(s: Search, g: Game): Truth {
    Or(Or(Or(Bool(ILike(g.title, SearchPattern(s))), ILikeOrNull(g.developer, SearchPattern(s))),
          ILikeOrNull(g.publisher, SearchPattern(s))),
       Bool(SimilarityOf(s, g).matches))
  }

  /** An absent or empty string does not filter. */
  predicate Given(text: Option<string>) { text.Some? && text.value != "" }

  function GenreFragment(f: Filters, g: Game): seq<Truth> {
    if Given(f.genre) then [Equal(g.genre, Some(Upper(f.genre.value)))] else []
  }

  function LetterFragment(f: Filters, g: Game): seq<Truth> {
    if !Given(f.letter) then []
    else if Lower(f.letter.value) == DIGIT_BUCKET then [Bool(InDigitRange(g.slug))]
    else [Bool(Like(g.slug, EscapeLike(Lower(f.letter.value)) + "%"))]
  }

  function YearFragment(f: Filters, g: Game): seq<Truth> { if f.year.Some? then [Equal(g.release, f.year)] else [] }

  function FromFragment(f: Filters, g: Game): seq<Truth> {
    if f.releaseFrom.Some? then [AtLeast(g.release, f.releaseFrom.value)] else []
  }

  function ToFragment(f: Filters, g: Game): seq<Truth> {
    if f.releaseTo.Some? then [AtMost(g.release, f.releaseTo.value)] else []
  }

  function SearchFragment(f: Filters, g: Game): seq<Truth> {
    if Searching(f) then [SearchCondition(f.search.value, g)] else []
  }

  function DeveloperFragment(f: Filters, g: Game): seq<Truth> {
    if Given(f.developer) then [Equal(g.developer, f.developer)] else []
  }

  function PublisherFragment(f: Filters, g: Game): seq<Truth> {
    if Given(f.publisher)
    then [Or(Equal(g.publisher, f.publisher),
             And(Equal(g.developer, f.publisher), Or(Bool(g.publisher.None?), Equal(g.publisher, Some("")))))]
    else []
  }

  /** The fragments buildGameFilters would AND together, as this row answers them. */
  function Conditions(f: Filters, g: Game): seq<Truth> {
    GenreFragment(f, g) + LetterFragment(f, g) + YearFragment(f, g) + FromFragment(f, g) + ToFragment(f, g)
    + SearchFragment(f, g) + DeveloperFragment(f, g) + PublisherFragment(f, g)
  }

  predicate Selected(f: Filters, g: Game) { forall c :: c in Conditions(f, g) ==> c == Yes }

  function Matching(c: Games, f: Filters): set<nat> { set id | id in c && Selected(f, c[id]) }

  function Count(c: Games, f: Filters): nat { |Matching(c, f)| }

  // ---- What a search means ----

  predicate ContainedIn(text: Option<string>, term: string) { text.Some? && Contains(Lower(text.value), Lower(term)) }

  /** A search finds what has the term, as typed, in its title or a studio's name, and titles that come close. */
  lemma SearchFinds(s: Search, g: Game)
    ensures SearchCondition(s, g) == Yes <==>
      || Contains(Lower(g.title), Lower(Term(s))) || ContainedIn(g.developer, Term(s)) || ContainedIn(g.publisher, Term(s))
      || SimilarityOf(s, g).matches
  {
    SearchIsContaining(g.title, Term(s));
    if g.developer.Some? { SearchIsContaining(g.developer.value, Term(s)); }
    if g.publisher.Some? { SearchIsContaining(g.publisher.value, Term(s)); }
    hide Term, SimilarityOf, Contains, ILike;
  }

  /** On the row: the game is credited to this studio, as its publisher or, with none recorded, its developer. */
  predicate CreditedTo(g: Game, studio: string) {
    g.publisher == Some(studio) || ((g.publisher.None? || g.publisher == Some("")) && g.developer == Some(studio))
  }

  /** On the row: it begins as the bucket says, a letter or a digit. */
  predicate BeginsInBucket(g: Game, bucket: string) {
    if Lower(bucket) == "0-9" then g.slug != "" && '0' <= g.slug[0] <= '9' else Lower(bucket) <= g.slug
  }

  /** On the row: the term is somewhere in the title or a studio's name, or the title comes close. */
  predicate FoundBy(g: Game, s: Search) {
    || Contains(Lower(g.title), Lower(Trimmed(s.text)))
    || (g.developer.Some? && Contains(Lower(g.developer.value), Lower(Trimmed(s.text))))
    || (g.publisher.Some? && Contains(Lower(g.publisher.value), Lower(Trimmed(s.text))))
    || (g.title in s.titles && s.titles[g.title].matches)
  }

  /** What every combination of filters selects, each filter said on the row. */
  lemma SelectedIff(f: Filters, g: Game)
    ensures Selected(f, g) <==>
      && (f.genre.Some? && f.genre.value != "" ==> g.genre == Some(Upper(f.genre.value)))
      && (f.letter.Some? && f.letter.value != "" ==> BeginsInBucket(g, f.letter.value))
      && (f.year.Some? ==> g.release == f.year)
      && (f.releaseFrom.Some? ==> g.release.Some? && g.release.value >= f.releaseFrom.value)
      && (f.releaseTo.Some? ==> g.release.Some? && g.release.value <= f.releaseTo.value)
      && (f.search.Some? && Trimmed(f.search.value.text) != "" ==> FoundBy(g, f.search.value))
      && (f.developer.Some? && f.developer.value != "" ==> g.developer == f.developer)
      && (f.publisher.Some? && f.publisher.value != "" ==> CreditedTo(g, f.publisher.value))
  {
    YearsSelect(f, g);
    LetterSelects(f, g);
    SearchSelects(f, g);
    StudiosSelect(f, g);
    SelectedByParts(f, g);
    hide Selected, LetterFragment, YearFragment, FromFragment, ToFragment, SearchFragment, DeveloperFragment, PublisherFragment,
         GenreFragment, AllYes, FoundBy, BeginsInBucket, CreditedTo, Trimmed, Upper;
  }

  lemma Alone(asked: bool, answer: Truth)
    ensures AllYes(if asked then [answer] else []) <==> (asked ==> answer == Yes)
  {
    assert answer in [answer];
  }

  lemma YearsSelect(f: Filters, g: Game)
    ensures AllYes(GenreFragment(f, g)) <==> (f.genre.Some? && f.genre.value != "" ==> g.genre == Some(Upper(f.genre.value)))
    ensures AllYes(YearFragment(f, g)) <==> (f.year.Some? ==> g.release == f.year)
    ensures AllYes(FromFragment(f, g)) <==> (f.releaseFrom.Some? ==> g.release.Some? && g.release.value >= f.releaseFrom.value)
    ensures AllYes(ToFragment(f, g)) <==> (f.releaseTo.Some? ==> g.release.Some? && g.release.value <= f.releaseTo.value)
  {
    hide AllYes, Upper;
    if Given(f.genre) { Alone(true, Equal(g.genre, Some(Upper(f.genre.value)))); } else { Alone(false, Yes); }
    if f.year.Some? { Alone(true, Equal(g.release, f.year)); } else { Alone(false, Yes); }
    if f.releaseFrom.Some? { Alone(true, AtLeast(g.release, f.releaseFrom.value)); } else { Alone(false, Yes); }
    if f.releaseTo.Some? { Alone(true, AtMost(g.release, f.releaseTo.value)); } else { Alone(false, Yes); }
  }

  lemma LetterSelects(f: Filters, g: Game)
    ensures AllYes(LetterFragment(f, g)) <==> (f.letter.Some? && f.letter.value != "" ==> BeginsInBucket(g, f.letter.value))
  {
    hide AllYes, InDigitRange, Like, Lower;
    if Given(f.letter) {
      DigitsAreARange(g.slug);
      BeginsWith(g.slug, Lower(f.letter.value));
      Alone(true, Bool(InDigitRange(g.slug)));
      Alone(true, Bool(Like(g.slug, EscapeLike(Lower(f.letter.value)) + "%")));
    } else {
      Alone(false, Yes);
    }
  }

  lemma SearchSelects(f: Filters, g: Game)
    ensures AllYes(SearchFragment(f, g)) <==> (f.search.Some? && Trimmed(f.search.value.text) != "" ==> FoundBy(g, f.search.value))
  {
    hide AllYes, SearchCondition, Contains, Lower, Trimmed;
    if Searching(f) {
      SearchFinds(f.search.value, g);
      Alone(true, SearchCondition(f.search.value, g));
    } else {
      Alone(false, Yes);
    }
  }

  lemma StudiosSelect(f: Filters, g: Game)
    ensures AllYes(DeveloperFragment(f, g)) <==> (f.developer.Some? && f.developer.value != "" ==> g.developer == f.developer)
    ensures AllYes(PublisherFragment(f, g)) <==> (f.publisher.Some? && f.publisher.value != "" ==> CreditedTo(g, f.publisher.value))
  {
    hide AllYes;
    if Given(f.developer) { Alone(true, Equal(g.developer, f.developer)); } else { Alone(false, Yes); }
    if Given(f.publisher) {
      Alone(true, Or(Equal(g.publisher, f.publisher),
                     And(Equal(g.developer, f.publisher), Or(Bool(g.publisher.None?), Equal(g.publisher, Some(""))))));
    } else {
      Alone(false, Yes);
    }
  }

  /** Every fragment has to be true of the row. */
  lemma SelectedByParts(f: Filters, g: Game)
    ensures Selected(f, g) <==>
      && AllYes(GenreFragment(f, g)) && AllYes(LetterFragment(f, g)) && AllYes(YearFragment(f, g)) && AllYes(FromFragment(f, g))
      && AllYes(ToFragment(f, g)) && AllYes(SearchFragment(f, g)) && AllYes(DeveloperFragment(f, g)) && AllYes(PublisherFragment(f, g))
  {
    assert Selected(f, g) <==> AllYes(Conditions(f, g));
    hide Selected, AllYes, GenreFragment, LetterFragment, YearFragment, FromFragment, ToFragment, SearchFragment,
         DeveloperFragment, PublisherFragment;
    var a := GenreFragment(f, g) + LetterFragment(f, g);
    AllYesOfBoth(GenreFragment(f, g), LetterFragment(f, g));
    AllYesOfBoth(a, YearFragment(f, g));
    AllYesOfBoth(a + YearFragment(f, g), FromFragment(f, g));
    AllYesOfBoth(a + YearFragment(f, g) + FromFragment(f, g), ToFragment(f, g));
    var b := a + YearFragment(f, g) + FromFragment(f, g) + ToFragment(f, g);
    AllYesOfBoth(b, SearchFragment(f, g));
    AllYesOfBoth(b + SearchFragment(f, g), DeveloperFragment(f, g));
    AllYesOfBoth(b + SearchFragment(f, g) + DeveloperFragment(f, g), PublisherFragment(f, g));
  }

  ghost predicate AllYes(conditions: seq<Truth>) { forall c :: c in conditions ==> c == Yes }

  lemma AllYesOfBoth(a: seq<Truth>, b: seq<Truth>)
    ensures AllYes(a + b) <==> AllYes(a) && AllYes(b)
  {
    assert forall c :: c in a ==> c in a + b;
    assert forall c :: c in b ==> c in a + b;
  }

  // ---- The grouped counts ----

  datatype Key =
    | Letter(name: string)
    | Genre(name: string)
    | Developer(name: string)
    | Publisher(name: string)
    | Year(year: int)

  function Credited(g: Game): Option<string> { Coalesce(NullIf(g.publisher, ""), g.developer) }

  /** The row is one of those a branch of the UNION groups under this key. */
  predicate InGroup(g: Game, key: Key) {
    match key
    case Letter(name) => BucketOf(g.slug) == name
    case Genre(name) => g.genre == Some(name)
    case Developer(name) =>
      And(Bool(g.developer.Some?), Not(Equal(g.developer, Some("")))) == Yes && g.developer == Some(name)
    case Publisher(name) =>
      And(Bool(Credited(g).Some?), Not(Equal(Credited(g), Some("")))) == Yes && Credited(g) == Some(name)
    case Year(year) => g.release == Some(year)
  }

  function Grouped(c: Games, key: Key): set<nat> { set id | id in c && InGroup(c[id], key) }

  datatype Group = Group(key: Key, count: nat, latest: int)

  /** MAX("updatedAt") over the group. */
  ghost predicate IsLatest(c: Games, ids: set<nat>, latest: int)
    requires ids <= c.Keys
  {
    (exists id :: id in ids && c[id].updatedAt == latest) && forall id :: id in ids ==> c[id].updatedAt <= latest
  }

  /** What the statement answers with: one row for each group that has a game in it. */
  ghost predicate IsGrouping(c: Games, groups: seq<Group>) {
    && (forall i, j :: 0 <= i < j < |groups| ==> groups[i].key != groups[j].key)
    && (forall i :: 0 <= i < |groups| ==> groups[i].count == |Grouped(c, groups[i].key)| > 0)
    && (forall i :: 0 <= i < |groups| ==> IsLatest(c, Grouped(c, groups[i].key), groups[i].latest))
    && (forall key :: Grouped(c, key) != {} ==> exists i :: 0 <= i < |groups| && groups[i].key == key)
  }

  /** counts.get(key) || 0 */
  function Lookup(groups: seq<Group>, key: Key): nat {
    if groups == [] then 0 else if groups[0].key == key then groups[0].count else Lookup(groups[1..], key)
  }

  /** lastmods.get(key) */
  function Latest(groups: seq<Group>, key: Key): Option<int> {
    if groups == [] then None else if groups[0].key == key then Some(groups[0].latest) else Latest(groups[1..], key)
  }

  /** The filter whose page a key is the count of. */
  function FilterFor(key: Key): Filters {
    match key
    case Letter(name) => Filters(None, Some(name), None, None, None, None, None, None)
    case Genre(name) => Filters(Some(name), None, None, None, None, None, None, None)
    case Developer(name) => Filters(None, None, Some(name), None, None, None, None, None)
    case Publisher(name) => Filters(None, None, None, Some(name), None, None, None, None)
    case Year(year) => Filters(None, None, None, None, Some(year), None, None, None)
  }

  /** A page the site has: a bucket, a genre as the column spells it, a name that is not empty, any year. */
  predicate IsListing(key: Key) {
    match key
    case Letter(name) => name in LetterBuckets()
    case Genre(name) => name != "" && Upper(name) == name
    case Developer(name) => name != ""
    case Publisher(name) => name != ""
    case Year(_) => true
  }

  lemma {:induction false} LookupFinds(groups: seq<Group>, key: Key)
    requires forall i, j :: 0 <= i < j < |groups| ==> groups[i].key != groups[j].key
    ensures forall i :: 0 <= i < |groups| && groups[i].key == key ==> Lookup(groups, key) == groups[i].count
    ensures (forall i :: 0 <= i < |groups| ==> groups[i].key != key) ==> Lookup(groups, key) == 0
  {
    if groups != [] && groups[0].key != key {
      LookupFinds(groups[1..], key);
      forall i | 0 <= i < |groups| && groups[i].key == key ensures Lookup(groups, key) == groups[i].count {
        assert groups[1..][i - 1] == groups[i];
      }
    }
  }

  lemma {:induction false} LatestFinds(groups: seq<Group>, key: Key)
    requires forall i, j :: 0 <= i < j < |groups| ==> groups[i].key != groups[j].key
    ensures forall i :: 0 <= i < |groups| && groups[i].key == key ==> Latest(groups, key) == Some(groups[i].latest)
    ensures (forall i :: 0 <= i < |groups| ==> groups[i].key != key) ==> Latest(groups, key).None?
  {
    if groups != [] && groups[0].key != key {
      LatestFinds(groups[1..], key);
      forall i | 0 <= i < |groups| && groups[i].key == key ensures Latest(groups, key) == Some(groups[i].latest) {
        assert groups[1..][i - 1] == groups[i];
      }
    }
  }

  /** The date read off the grouping is that of the newest edit among the games of the group. */
  lemma LatestIsTheNewest(c: Games, groups: seq<Group>, key: Key)
    requires IsGrouping(c, groups)
    ensures Latest(groups, key).Some? <==> Grouped(c, key) != {}
    ensures Latest(groups, key).Some? ==> IsLatest(c, Grouped(c, key), Latest(groups, key).value)
  {
    LatestFinds(groups, key);
    hide IsLatest;
  }

  lemma DigitsAreARange(slug: string)
    ensures InDigitRange(slug) <==> slug != "" && '0' <= slug[0] <= '9'
  {
    if slug != "" {
      assert "0"[1..] == "" == ":"[1..];
      assert !BytesBelow(slug[1..], "");
    }
  }

  lemma BucketNames(name: string)
    ensures name in LetterBuckets() <==> name == DIGIT_BUCKET || (|name| == 1 && 'a' <= name[0] <= 'z')
  {
    if |name| == 1 && 'a' <= name[0] <= 'z' {
      assert LetterBuckets()[1 + (name[0] as int - 'a' as int)] == name;
    }
  }

  lemma OneCondition(f: Filters, g: Game, only: Truth)
    requires Conditions(f, g) == [only]
    ensures Selected(f, g) <==> only == Yes
  {
    assert only in [only];
  }

  /** The row a group counts is the row the page's filter selects, NULLs included. */
  lemma GroupIsFilter(g: Game, key: Key)
    requires IsListing(key)
    ensures InGroup(g, key) <==> Selected(FilterFor(key), g)
  {
    match key
    case Letter(name) =>
      BucketNames(name);
      assert Lower(name) == name;
      DigitsAreARange(g.slug);
      OneCondition(FilterFor(key), g, if name == DIGIT_BUCKET then Bool(InDigitRange(g.slug)) else Bool(Like(g.slug, EscapeLike(name) + "%")));
      BeginsWith(g.slug, name);
      if name != DIGIT_BUCKET && g.slug != "" { assert name <= g.slug <==> g.slug[..1] == name; }
    case Genre(name) => OneCondition(FilterFor(key), g, Equal(g.genre, Some(name)));
    case Developer(name) => OneCondition(FilterFor(key), g, Equal(g.developer, Some(name)));
    case Publisher(name) =>
      OneCondition(FilterFor(key), g,
                   Or(Equal(g.publisher, Some(name)),
                      And(Equal(g.developer, Some(name)), Or(Bool(g.publisher.None?), Equal(g.publisher, Some(""))))));
    case Year(year) => OneCondition(FilterFor(key), g, Equal(g.release, Some(year)));
  }

  /** Every count the sitemap reads off the grouping is the count() of that page. */
  lemma GroupedCountsAgree(c: Games, groups: seq<Group>, key: Key)
    requires IsGrouping(c, groups) && IsListing(key)
    ensures Lookup(groups, key) == Count(c, FilterFor(key))
  {
    forall id | id in c ensures InGroup(c[id], key) <==> Selected(FilterFor(key), c[id]) {
      GroupIsFilter(c[id], key);
    }
    assert Grouped(c, key) == Matching(c, FilterFor(key));
    LookupFinds(groups, key);
  }

  // ---- The facet lists ----

  datatype Facets = Facets(genres: seq<string>, developers: seq<string>, publishers: seq<string>, years: seq<int>)

  function IsNamed(name: Option<string>): Truth { And(Bool(name.Some?), Not(Equal(name, Some("")))) }

  /** The row puts this name on the list of developers. */
  predicate NamesDeveloper(g: Game, name: string) { IsNamed(g.developer) == Yes && g.developer == Some(name) }

  /** And on the list of publishers, by either arm of the UNION. */
  predicate NamesPublisher(g: Game, name: string) {
    || (IsNamed(g.publisher) == Yes && g.publisher == Some(name))
    || (And(IsNamed(g.developer), Or(Bool(g.publisher.None?), Equal(g.publisher, Some("")))) == Yes && g.developer == Some(name))
  }

  /** What the three DISTINCT queries answer with, and the enum of genres. */
  ghost predicate AreFacets(c: Games, f: Facets) {
    && GenresCover(c, f) && ListedOnce(f)
    && (forall name :: name in f.developers <==> exists id :: id in c && NamesDeveloper(c[id], name))
    && (forall name :: name in f.publishers <==> exists id :: id in c && NamesPublisher(c[id], name))
    && (forall year :: year in f.years <==> exists id :: id in c && c[id].release == Some(year))
  }

  /** The column takes no genre the enum does not have. */
  ghost predicate GenresCover(c: Games, f: Facets) {
    && (forall name :: name in f.genres ==> name != "" && Upper(name) == name)
    && (forall id :: id in c && c[id].genre.Some? ==> c[id].genre.value in f.genres)
  }

  ghost predicate ListedOnce(f: Facets) {
    NoDuplicates(f.genres) && NoDuplicates(f.developers) && NoDuplicates(f.publishers) && NoDuplicates(f.years)
  }

  /** The UNION names a row under what the grouping's COALESCE credits it to. */
  lemma NamesAreGroups(g: Game, name: string)
    ensures NamesDeveloper(g, name) <==> InGroup(g, Developer(name))
    ensures NamesPublisher(g, name) <==> InGroup(g, Publisher(name))
  {
  }

  /** Each facet list names exactly what has a group with a game in it. */
  lemma FacetsNameTheGroups(c: Games, f: Facets)
    requires AreFacets(c, f)
    ensures forall name :: name in f.developers <==> Grouped(c, Developer(name)) != {}
    ensures forall name :: name in f.publishers <==> Grouped(c, Publisher(name)) != {}
    ensures forall year :: year in f.years <==> Grouped(c, Year(year)) != {}
    ensures forall name :: Grouped(c, Genre(name)) != {} ==> name in f.genres
  {
    forall name ensures name in f.developers <==> Grouped(c, Developer(name)) != {} {
      DevelopersAreGroups(c, f, name);
    }
    forall name ensures name in f.publishers <==> Grouped(c, Publisher(name)) != {} {
      PublishersAreGroups(c, f, name);
    }
    forall year ensures year in f.years <==> Grouped(c, Year(year)) != {} {
      if year in f.years {
        var id :| id in c && c[id].release == Some(year);
        assert id in Grouped(c, Year(year));
      }
    }
  }

  lemma DevelopersAreGroups(c: Games, f: Facets, name: string)
    requires AreFacets(c, f)
    ensures name in f.developers <==> Grouped(c, Developer(name)) != {}
  {
    forall id | id in c ensures NamesDeveloper(c[id], name) <==> id in Grouped(c, Developer(name)) {
      NamesAreGroups(c[id], name);
    }
    hide InGroup, NamesDeveloper, NamesPublisher;
  }

  lemma PublishersAreGroups(c: Games, f: Facets, name: string)
    requires AreFacets(c, f)
    ensures name in f.publishers <==> Grouped(c, Publisher(name)) != {}
  {
    forall id | id in c ensures NamesPublisher(c[id], name) <==> id in Grouped(c, Publisher(name)) {
      NamesAreGroups(c[id], name);
    }
    hide InGroup, NamesDeveloper, NamesPublisher;
  }

  // ---- The buckets are a partition ----

  /** What slugify leaves a slug to begin with. */
  predicate StartsPlainly(slug: string) {
    slug != "" && ('a' <= slug[0] <= 'z' || '0' <= slug[0] <= '9')
  }

  function FiledUnder(c: Games, buckets: seq<string>): set<nat> { set id | id in c && BucketOf(c[id].slug) in buckets }

  function SumOverBuckets(c: Games, buckets: seq<string>): nat {
    if buckets == [] then 0
    else SumOverBuckets(c, buckets[..|buckets| - 1]) + Count(c, FilterFor(Letter(buckets[|buckets| - 1])))
  }

  lemma BucketsAreDistinct()
    ensures forall i, j :: 0 <= i < j < |LetterBuckets()| ==> LetterBuckets()[i] != LetterBuckets()[j]
  {
  }

  lemma BucketIsMatched(c: Games, name: string)
    requires name in LetterBuckets()
    ensures forall id :: id in Matching(c, FilterFor(Letter(name))) <==> id in c && BucketOf(c[id].slug) == name
  {
    hide LetterBuckets, Conditions, BucketOf;
    forall id | id in c ensures id in Matching(c, FilterFor(Letter(name))) <==> BucketOf(c[id].slug) == name {
      GroupIsFilter(c[id], Letter(name));
    }
  }

  lemma {:induction false} SumOfSome(c: Games, n: nat)
    requires n <= |LetterBuckets()|
    ensures SumOverBuckets(c, LetterBuckets()[..n]) == |FiledUnder(c, LetterBuckets()[..n])|
  {
    var buckets := LetterBuckets()[..n];
    if n == 0 {
      assert FiledUnder(c, buckets) == {};
    } else {
      var last, front := LetterBuckets()[n - 1], LetterBuckets()[..n - 1];
      assert buckets == front + [last];
      SumOfSome(c, n - 1);
      BucketsAreDistinct();
      assert last in LetterBuckets();
      BucketIsMatched(c, last);
      hide Matching, FilterFor, BucketOf, LetterBuckets;
      assert FiledUnder(c, front) !! Matching(c, FilterFor(Letter(last)));
      assert FiledUnder(c, buckets) == FiledUnder(c, front) + Matching(c, FilterFor(Letter(last)));
    }
  }

  /** The twenty-seven letter pages list every game with a plain slug, and each on one page only. */
  lemma BucketsPartition(c: Games)
    requires forall id :: id in c ==> StartsPlainly(c[id].slug)
    ensures |LetterBuckets()| == 27 && SumOverBuckets(c, LetterBuckets()) == |c|
    ensures forall id, i, j :: id in c && 0 <= i < 27 && 0 <= j < 27 ==>
      (Selected(FilterFor(Letter(LetterBuckets()[i])), c[id]) && Selected(FilterFor(Letter(LetterBuckets()[j])), c[id]) ==> i == j)
  {
    var all := LetterBuckets();
    assert all[..27] == all;
    SumOfSome(c, 27);
    forall id | id in c ensures BucketOf(c[id].slug) in all {
      DigitsAreARange(c[id].slug);
      BucketNames(BucketOf(c[id].slug));
    }
    assert FiledUnder(c, all) == c.Keys;
    BucketsAreDistinct();
    forall id, i | id in c && 0 <= i < 27 && Selected(FilterFor(Letter(all[i])), c[id]) ensures BucketOf(c[id].slug) == all[i] {
      assert all[i] in all;
      GroupIsFilter(c[id], Letter(all[i]));
    }
  }

  // ---- The curated lists ----

  datatype ListFilters = ListFilters(genre: Option<string>, releaseFrom: Option<int>, releaseTo: Option<int>)

  function AsFilters(list: ListFilters): Filters {
    Filters(list.genre, None, None, None, None, list.releaseFrom, list.releaseTo, None)
  }

  predicate InRange(list: ListFilters, year: int) {
    && (list.releaseFrom.Some? ==> year >= list.releaseFrom.value)
    && (list.releaseTo.Some? ==> year <= list.releaseTo.value)
  }

  function KeysOf(groups: seq<Group>): set<Key> { set g | g in groups :: g.key }

  /** Games whose year is in range and has been read. */
  function ReadSoFar(c: Games, keys: set<Key>, list: ListFilters): set<nat> {
    set id | id in c && c[id].release.Some? && InRange(list, c[id].release.value) && Year(c[id].release.value) in keys
  }

  lemma OneMoreYear(c: Games, keys: set<Key>, key: Key, list: ListFilters)
    requires key !in keys
    ensures |ReadSoFar(c, keys + {key}, list)| ==
      |ReadSoFar(c, keys, list)| + if key.Year? && InRange(list, key.year) then |Grouped(c, key)| else 0
  {
    var before, after := ReadSoFar(c, keys, list), ReadSoFar(c, keys + {key}, list);
    if key.Year? && InRange(list, key.year) {
      assert before !! Grouped(c, key);
      assert after == before + Grouped(c, key);
    } else {
      assert after == before;
    }
  }

  lemma OneMoreGroup(c: Games, groups: seq<Group>, list: ListFilters, i: nat)
    requires IsGrouping(c, groups) && i < |groups|
    ensures |ReadSoFar(c, KeysOf(groups[..i + 1]), list)| == |ReadSoFar(c, KeysOf(groups[..i]), list)|
      + if groups[i].key.Year? && InRange(list, groups[i].key.year) then groups[i].count else 0
  {
    assert groups[..i + 1] == groups[..i] + [groups[i]];
    assert KeysOf(groups[..i + 1]) == KeysOf(groups[..i]) + {groups[i].key};
    OneMoreYear(c, KeysOf(groups[..i]), groups[i].key, list);
    hide ReadSoFar;
  }

  lemma RangeIsRead(c: Games, groups: seq<Group>, list: ListFilters)
    requires IsGrouping(c, groups) && !Given(list.genre) && (list.releaseFrom.Some? || list.releaseTo.Some?)
    ensures ReadSoFar(c, KeysOf(groups), list) == Matching(c, AsFilters(list))
  {
    forall id | id in c ensures id in ReadSoFar(c, KeysOf(groups), list) <==> Selected(AsFilters(list), c[id]) {
      RangeCondition(list, c[id]);
      if c[id].release.Some? {
        assert id in Grouped(c, Year(c[id].release.value));
      }
    }
  }

  lemma RangeCondition(list: ListFilters, g: Game)
    requires list.releaseFrom.Some? || list.releaseTo.Some?
    ensures !Given(list.genre) ==> (Selected(AsFilters(list), g) <==> g.release.Some? && InRange(list, g.release.value))
    ensures g.release.None? ==> !Selected(AsFilters(list), g)
  {
    var conditions := Conditions(AsFilters(list), g);
    if list.releaseFrom.Some? { assert AtLeast(g.release, list.releaseFrom.value) in conditions; }
    if list.releaseTo.Some? { assert AtMost(g.release, list.releaseTo.value) in conditions; }
  }

  /** What countListGames answers: the genre's group if there is a genre, and the range only if there is none. */
  ghost function ListCount(c: Games, list: ListFilters): nat {
    if Given(list.genre) then |Grouped(c, Genre(Upper(list.genre.value)))| else Count(c, AsFilters(list))
  }

  /** It is the count of the list's own filters, on every catalogue, unless a list names both a genre and years. */
  lemma ListsAgreeUnlessBoth(list: ListFilters)
    ensures (forall c: Games :: ListCount(c, list) == Count(c, AsFilters(list)))
       <==> !(Given(list.genre) && (list.releaseFrom.Some? || list.releaseTo.Some?))
  {
    if Given(list.genre) {
      var name := Upper(list.genre.value);
      if list.releaseFrom.Some? || list.releaseTo.Some? {
        var undated := Game("x", "X", 0, 0, Some(name), None, None, None, 0, 0, 0, 0);
        var c := map[1 := undated];
        RangeCondition(list, undated);
        assert Grouped(c, Genre(name)) == {1} && Matching(c, AsFilters(list)) == {};
        assert ListCount(c, list) != Count(c, AsFilters(list));
      } else {
        forall c: Games ensures ListCount(c, list) == Count(c, AsFilters(list)) {
          forall id | id in c ensures InGroup(c[id], Genre(name)) <==> Selected(AsFilters(list), c[id]) {
            OneCondition(AsFilters(list), c[id], Equal(c[id].genre, Some(name)));
          }
          assert Grouped(c, Genre(name)) == Matching(c, AsFilters(list));
        }
      }
    }
  }

  lemma NoFilters(c: Games, list: ListFilters)
    requires !Given(list.genre) && list.releaseFrom.None? && list.releaseTo.None?
    ensures Count(c, AsFilters(list)) == |c|
  {
    forall id | id in c ensures Selected(AsFilters(list), c[id]) {
      assert Conditions(AsFilters(list), c[id]) == [];
    }
    assert Matching(c, AsFilters(list)) == c.Keys;
  }

  function SumInRange(groups: seq<Group>, list: ListFilters): nat {
    if groups == [] then 0
    else
      var last := groups[|groups| - 1];
      SumInRange(groups[..|groups| - 1], list) + if last.key.Year? && InRange(list, last.key.year) then last.count else 0
  }

  function ListTotal(list: ListFilters, groups: seq<Group>, totalGames: nat): nat {
    if Given(list.genre) then Lookup(groups, Genre(Upper(list.genre.value)))
    else if list.releaseFrom.Some? || list.releaseTo.Some? then SumInRange(groups, list)
    else totalGames
  }

  lemma {:induction false} SumIsRead(c: Games, groups: seq<Group>, list: ListFilters, i: nat)
    requires IsGrouping(c, groups) && i <= |groups|
    ensures SumInRange(groups[..i], list) == |ReadSoFar(c, KeysOf(groups[..i]), list)|
  {
    if i == 0 {
      assert ReadSoFar(c, KeysOf(groups[..0]), list) == {};
    } else {
      SumIsRead(c, groups, list, i - 1);
      OneMoreGroup(c, groups, list, i - 1);
      assert groups[..i][..i - 1] == groups[..i - 1];
      hide ReadSoFar, IsGrouping;
    }
  }

  /** Read off the grouped counts of a catalogue, it is the count the list's page would give. */
  lemma ListTotalsAgree(c: Games, list: ListFilters, groups: seq<Group>, totalGames: nat)
    requires IsGrouping(c, groups) && totalGames == |c|
    ensures ListTotal(list, groups, totalGames) == ListCount(c, list)
  {
    if Given(list.genre) {
      LookupFinds(groups, Genre(Upper(list.genre.value)));
    } else if list.releaseFrom.Some? || list.releaseTo.Some? {
      SumIsRead(c, groups, list, |groups|);
      RangeIsRead(c, groups, list);
      assert groups[..|groups|] == groups;
    } else {
      NoFilters(c, list);
    }
  }

  /** A genre's count, a sum over years, or the whole catalogue. */
  method CountListGames(list: ListFilters, groups: seq<Group>, totalGames: nat) returns (n: nat)
    ensures n == ListTotal(list, groups, totalGames)
    ensures forall c: Games :: IsGrouping(c, groups) && totalGames == |c| ==> n == ListCount(c, list)
  {
    if list.genre.Some? && list.genre.value != "" {
      n := Lookup(groups, Genre(Upper(list.genre.value)));
    } else if list.releaseFrom.Some? || list.releaseTo.Some? {
      n := 0;
      for i := 0 to |groups|
        invariant n == SumInRange(groups[..i], list)
      {
        assert groups[..i + 1][..i] == groups[..i];
        if groups[i].key.Year? && InRange(list, groups[i].key.year) {
          n := n + groups[i].count;
        }
      }
      assert groups[..|groups|] == groups;
    } else {
      n := totalGames;
    }
    forall c: Games | IsGrouping(c, groups) && totalGames == |c| ensures n == ListCount(c, list) {
      ListTotalsAgree(c, list, groups, totalGames);
    }
  }
}
