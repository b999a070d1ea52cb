/**
 * The sitemap: the pages it names, in the order it names them, and the dates it gives
 * them, built from one grouping of the catalogue, three facet lists and two tables.
 */
module Sitemap {
  import opened Basics
  import opened Ordering
  import opened Catalogue
  import Listings

  const LIMIT: nat := 25
  const NEWS_LIMIT: nat := 10
  const DAY_MS: int := 86_400_000

  datatype Listing = Home | NewsIndex | Of(key: Key)

  datatype Address = Page(listing: Listing, page: nat) | Fixed(path: string) | List(slug: string) | OfGame(slug: string) | OfArticle(slug: string)

  /** lastmod is the day the page is said to have changed, if the document says. */
  datatype Entry = Entry(address: Address, lastmod: Option<int>)

  datatype Row = Row(slug: string, updatedAt: int)

  datatype Curated = Curated(slug: string, filters: ListFilters)

  /** Everything the document is built from, as it was fetched. */
  datatype Input = Input(
    totalGames: nat,
    newsCount: nat,
    facets: Facets,
    groups: seq<Group>,
    games: seq<Row>,
    news: seq<Row>,
    hasPlays: bool)

  const ANY: ListFilters := ListFilters(None, None, None)

  function InGenre(name: string): ListFilters { ANY.(genre := Some(name)) }

  function LISTS(): seq<Curated> {
    [Curated("top-dos-games", ANY), Curated("best-rpg-games", InGenre("RPG")), Curated("best-action-games", InGenre("ACTION")),
     Curated("best-adventure-games", InGenre("ADVENTURE")), Curated("best-strategy-games", InGenre("STRATEGY")),
     Curated("best-puzzle-games", InGenre("PUZZLE")), Curated("best-platformer-games", InGenre("PLATFORMER")),
     Curated("best-horror-games", InGenre("HORROR")), Curated("best-simulation-games", InGenre("SIMULATION")),
     Curated("best-sports-games", InGenre("SPORTS")), Curated("best-racing-games", InGenre("RACING")),
     Curated("best-shooter-games", InGenre("SHOOTER")), Curated("best-fighting-games", InGenre("FIGHTING")),
     Curated("dos-games-1990s", ListFilters(None, Some(1990), Some(1999))),
     Curated("dos-games-1980s", ListFilters(None, Some(1980), Some(1989)))]
  }

  // ---- The document, part by part ----

  /** new Date(ms).toISOString().split("T")[0] */
  function Day(ms: int): int { ms / DAY_MS }

  function DayOf(latest: Option<int>): Option<int> { if latest.None? then None else Some(Day(latest.value)) }

  /** Pages from..to of one listing, in order, none of them dated. */
  function Pages(listing: Listing, from: nat, to: nat): (entries: seq<Entry>)
    decreases if from <= to then to + 1 - from else 0
  {
    if from > to then [] else [Entry(Page(listing, from), None)] + Pages(listing, from + 1, to)
  }

  /** A genre's page is a ranking by votes, which no edit dates. */
  function FirstPageDate(key: Key, groups: seq<Group>): Option<int> {
    if key.Genre? then None else DayOf(Latest(groups, key))
  }

  function PagesOf(key: Key, groups: seq<Group>, always: bool): seq<Entry> {
    var count := Lookup(groups, key);
    if count == 0 && !always then []
    else [Entry(Page(Of(key), 1), FirstPageDate(key, groups))] + Pages(Of(key), 2, PageCount(count, LIMIT))
  }

  /** The pages of each key in turn; some listings always get their first page. */
  function ListingPages(keys: seq<Key>, groups: seq<Group>, always: bool): seq<Entry> {
    if keys == [] then []
    else
      ListingPages(keys[..|keys| - 1], groups, always) + PagesOf(keys[|keys| - 1], groups, always)
  }

  function LetterKeys(): seq<Key> { seq(27, i requires 0 <= i < 27 => Letter(LetterBuckets()[i])) }
  function GenreKeys(names: seq<string>): seq<Key> { seq(|names|, i requires 0 <= i < |names| => Genre(names[i])) }
  function DeveloperKeys(names: seq<string>): seq<Key> { seq(|names|, i requires 0 <= i < |names| => Developer(names[i])) }
  function PublisherKeys(names: seq<string>): seq<Key> { seq(|names|, i requires 0 <= i < |names| => Publisher(names[i])) }
  function YearKeys(years: seq<int>): seq<Key> { seq(|years|, i requires 0 <= i < |years| => Year(years[i])) }

  /** Listings skipped while empty, and those listed because a facet list names them. */
  function CountedKeys(facets: Facets): seq<Key> { LetterKeys() + GenreKeys(facets.genres) }

  function NamedKeys(facets: Facets): seq<Key> {
    DeveloperKeys(facets.developers) + PublisherKeys(facets.publishers) + YearKeys(facets.years)
  }

  function ListEntries(lists: seq<Curated>, groups: seq<Group>, totalGames: nat): seq<Entry> {
    if lists == [] then []
    else
      var last := lists[|lists| - 1];
      ListEntries(lists[..|lists| - 1], groups, totalGames)
      + if ListTotal(last.filters, groups, totalGames) == 0 then [] else [Entry(List(last.slug), None)]
  }

  function MostPlayed(hasPlays: bool): seq<Entry> { if hasPlays then [Entry(Fixed("/most-played"), None)] else [] }

  function FixedPaths(): seq<string> {
    ["/comments", "/developers", "/publishers", "/years", "/how-to-play", "/about", "/privacy-policy", "/dmca", "/game-lists"]
  }

  function FixedPages(): seq<Entry> { seq(9, i requires 0 <= i < 9 => Entry(Fixed(FixedPaths()[i]), None)) }

  /** .reduce((a, b) => Math.max(a, b), 0) */
  function LatestEdit(rows: seq<Row>): int {
    if rows == [] then 0
    else
      var before, last := LatestEdit(rows[..|rows| - 1]), rows[|rows| - 1].updatedAt;
      if last > before then last else before
  }

  function DayUnlessZero(ms: int): Option<int> { if ms > 0 then Some(Day(ms)) else None }

  function HomeDate(i: Input): Option<int> {
    var games, news := LatestEdit(i.games), LatestEdit(i.news);
    DayUnlessZero(if games > news then games else news)
  }

  function Front(i: Input): seq<Entry> {
    [Entry(Page(NewsIndex, 1), DayUnlessZero(LatestEdit(i.news))), Entry(Page(Home, 1), HomeDate(i))]
  }

  /** The pages that are always there, and the one that needs something to have been played. */
  function Standing(i: Input): seq<Entry> { MostPlayed(i.hasPlays) + FixedPages() }

  function Indexes(i: Input): seq<Entry> {
    Pages(Home, 2, PageCount(i.totalGames, LIMIT)) + Standing(i) + Pages(NewsIndex, 2, PageCount(i.newsCount, NEWS_LIMIT))
  }

  function Listed(i: Input): seq<Entry> {
    ListingPages(CountedKeys(i.facets), i.groups, false) + ListingPages(NamedKeys(i.facets), i.groups, true)
  }

  function Body(i: Input): seq<Entry> { Indexes(i) + ListEntries(LISTS(), i.groups, i.totalGames) + Listed(i) }

  function GameEntries(rows: seq<Row>): seq<Entry> {
    seq(|rows|, k requires 0 <= k < |rows| => Entry(OfGame(rows[k].slug), Some(Day(rows[k].updatedAt))))
  }

  function ArticleEntries(rows: seq<Row>): seq<Entry> {
    seq(|rows|, k requires 0 <= k < |rows| => Entry(OfArticle(rows[k].slug), Some(Day(rows[k].updatedAt))))
  }

  function Tables(i: Input): seq<Entry> { GameEntries(i.games) + ArticleEntries(i.news) }

  function Document(i: Input): seq<Entry> { Front(i) + Body(i) + Tables(i) }

  // ---- The builder ----

  method AddPages(entries: seq<Entry>, listing: Listing, last: nat) returns (more: seq<Entry>)
    ensures more == entries + Pages(listing, 2, last)
  {
    more := entries;
    var page := 2;
    while page <= last
      invariant 2 <= page && more + Pages(listing, page, last) == entries + Pages(listing, 2, last)
      decreases last + 1 - page
    {
      more := more + [Entry(Page(listing, page), None)];
      page := page + 1;
    }
  }

  lemma OneListingMore(keys: seq<Key>, i: nat, groups: seq<Group>, always: bool)
    requires i <= |keys|
    ensures i == 0 ==> ListingPages(keys[..i], groups, always) == []
    ensures i < |keys| ==>
      ListingPages(keys[..i + 1], groups, always) == ListingPages(keys[..i], groups, always) + PagesOf(keys[i], groups, always)
  {
    if i < |keys| { assert keys[..i + 1][..i] == keys[..i]; }
  }

  method AddListing(entries: seq<Entry>, key: Key, groups: seq<Group>, always: bool) returns (more: seq<Entry>)
    ensures more == entries + PagesOf(key, groups, always)
  {
    more := entries;
    var count := Lookup(groups, key);
    if count != 0 || always {
      var pages := AddPages([Entry(Page(Of(key), 1), FirstPageDate(key, groups))], Of(key), PageCount(count, LIMIT));
      more := entries + pages;
    }
  }

  /** One loop of the builder: page 1 of each listing that has one, then its deeper pages. */
  method AddListings(entries: seq<Entry>, keys: seq<Key>, groups: seq<Group>, always: bool) returns (more: seq<Entry>)
    ensures more == entries + ListingPages(keys, groups, always)
  {
    hide ListingPages, PagesOf;
    var pages: seq<Entry> := [];
    OneListingMore(keys, 0, groups, always);
    for i := 0 to |keys|
      invariant pages == ListingPages(keys[..i], groups, always)
    {
      OneListingMore(keys, i, groups, always);
      pages := AddListing(pages, keys[i], groups, always);
    }
    assert keys[..|keys|] == keys;
    more := entries + pages;
  }

  method AddLists(entries: seq<Entry>, lists: seq<Curated>, groups: seq<Group>, totalGames: nat) returns (more: seq<Entry>)
    ensures more == entries + ListEntries(lists, groups, totalGames)
  {
    more := entries;
    for i := 0 to |lists|
      invariant more == entries + ListEntries(lists[..i], groups, totalGames)
    {
      assert lists[..i + 1][..i] == lists[..i];
      var n := CountListGames(lists[i].filters, groups, totalGames);
      if n != 0 {
        more := more + [Entry(List(lists[i].slug), None)];
      }
    }
    assert lists[..|lists|] == lists;
  }

  method AddCounted(entries: seq<Entry>, facets: Facets, groups: seq<Group>) returns (more: seq<Entry>)
    ensures more == entries + ListingPages(CountedKeys(facets), groups, false)
  {
    hide ListingPages, LetterKeys, GenreKeys;
    LoopByLoop(LetterKeys(), GenreKeys(facets.genres), groups, false);
    more := AddListings(entries, LetterKeys(), groups, false);
    more := AddListings(more, GenreKeys(facets.genres), groups, false);
  }

  method AddNamed(entries: seq<Entry>, facets: Facets, groups: seq<Group>) returns (more: seq<Entry>)
    ensures more == entries + ListingPages(NamedKeys(facets), groups, true)
  {
    hide ListingPages, DeveloperKeys, PublisherKeys, YearKeys;
    var developers, publishers := DeveloperKeys(facets.developers), PublisherKeys(facets.publishers);
    LoopByLoop(developers, publishers, groups, true);
    LoopByLoop(developers + publishers, YearKeys(facets.years), groups, true);
    more := AddListings(entries, developers, groups, true);
    more := AddListings(more, publishers, groups, true);
    more := AddListings(more, YearKeys(facets.years), groups, true);
  }

  method AddStanding(entries: seq<Entry>, i: Input) returns (more: seq<Entry>)
    ensures more == entries + Standing(i)
  {
    var pages: seq<Entry> := [];
    if i.hasPlays {
      pages := [Entry(Fixed("/most-played"), None)];
    }
    for k := 0 to |FixedPaths()|
      invariant pages == MostPlayed(i.hasPlays) + FixedPages()[..k]
    {
      pages := pages + [Entry(Fixed(FixedPaths()[k]), None)];
    }
    assert FixedPages()[..9] == FixedPages();
    more := entries + pages;
  }

  method AddIndexes(i: Input) returns (entries: seq<Entry>)
    ensures entries == Indexes(i)
  {
    hide Pages, Standing;
    entries := AddPages([], Home, PageCount(i.totalGames, LIMIT));
    entries := AddStanding(entries, i);
    entries := AddPages(entries, NewsIndex, PageCount(i.newsCount, NEWS_LIMIT));
  }

  method AddListed(entries: seq<Entry>, i: Input) returns (more: seq<Entry>)
    ensures more == entries + Listed(i)
  {
    hide ListingPages, CountedKeys, NamedKeys;
    more := AddCounted(entries, i.facets, i.groups);
    more := AddNamed(more, i.facets, i.groups);
  }

  method AddTables(entries: seq<Entry>, i: Input) returns (more: seq<Entry>)
    ensures more == entries + Tables(i)
  {
    more := entries;
    for k := 0 to |i.games|
      invariant more == entries + GameEntries(i.games)[..k]
    {
      more := more + [Entry(OfGame(i.games[k].slug), Some(Day(i.games[k].updatedAt)))];
    }
    assert GameEntries(i.games)[..|i.games|] == GameEntries(i.games);
    ghost var withGames := more;
    for k := 0 to |i.news|
      invariant more == withGames + ArticleEntries(i.news)[..k]
    {
      more := more + [Entry(OfArticle(i.news[k].slug), Some(Day(i.news[k].updatedAt)))];
    }
    assert ArticleEntries(i.news)[..|i.news|] == ArticleEntries(i.news);
  }

  /** buildEntries: the two index pages are put in front of the rest, and the tables behind it. */
  method BuildEntries(i: Input) returns (entries: seq<Entry>)
    ensures entries == Document(i)
  {
    hide Indexes, Listed, ListEntries, Tables, LISTS;
    entries := AddIndexes(i);
    entries := AddLists(entries, LISTS(), i.groups, i.totalGames);
    entries := AddListed(entries, i);
    entries := Front(i) + entries;
    entries := AddTables(entries, i);
  }

  lemma {:induction false} LoopByLoop(a: seq<Key>, b: seq<Key>, groups: seq<Group>, always: bool)
    ensures ListingPages(a + b, groups, always) == ListingPages(a, groups, always) + ListingPages(b, groups, always)
    decreases |b|
  {
    hide PagesOf;
    if b == [] {
      assert a + b == a;
    } else {
      var front, last := b[..|b| - 1], b[|b| - 1];
      var more := PagesOf(last, groups, always);
      LoopByLoop(a, front, groups, always);
      assert (a + b)[..|a + b| - 1] == a + front && (a + b)[|a + b| - 1] == last;
      assert ListingPages(a + b, groups, always) == ListingPages(a + front, groups, always) + more;
      assert ListingPages(b, groups, always) == ListingPages(front, groups, always) + more;
    }
  }

  // ---- What each part holds ----

  lemma {:induction false} PagesAre(listing: Listing, from: nat, to: nat, e: Entry)
    ensures e in Pages(listing, from, to) <==>
      e.address.Page? && e.address.listing == listing && from <= e.address.page <= to && e.lastmod.None?
    decreases if from <= to then to + 1 - from else 0
  {
    if from <= to { PagesAre(listing, from + 1, to, e); }
  }

  /** One of a key's pages, dated if it is the first. */
  predicate IsPageOf(e: Entry, key: Key, groups: seq<Group>, always: bool) {
    && e.address.Page? && e.address.listing == Of(key)
    && (Lookup(groups, key) > 0 || always)
    && 1 <= e.address.page <= Max(1, PageCount(Lookup(groups, key), LIMIT))
    && e.lastmod == if e.address.page == 1 then FirstPageDate(key, groups) else None
  }

  lemma PagesOfAre(key: Key, groups: seq<Group>, always: bool, e: Entry)
    ensures e in PagesOf(key, groups, always) <==> IsPageOf(e, key, groups, always)
  {
    PagesAre(Of(key), 2, PageCount(Lookup(groups, key), LIMIT), e);
    hide Pages, Lookup, FirstPageDate;
  }

  lemma {:induction false} ListingPagesAre(keys: seq<Key>, groups: seq<Group>, always: bool, e: Entry)
    ensures e in ListingPages(keys, groups, always) <==>
      e.address.Page? && e.address.listing.Of? && e.address.listing.key in keys && IsPageOf(e, e.address.listing.key, groups, always)
  {
    if keys != [] {
      var front, key := keys[..|keys| - 1], keys[|keys| - 1];
      assert keys == front + [key];
      ListingPagesAre(front, groups, always, e);
      PagesOfAre(key, groups, always, e);
      hide PagesOf, Lookup, FirstPageDate;
    }
  }

  lemma {:induction false} ListEntriesAre(lists: seq<Curated>, groups: seq<Group>, totalGames: nat, e: Entry)
    ensures e in ListEntries(lists, groups, totalGames) <==>
      e.address.List? && e.lastmod.None?
      && exists list :: list in lists && list.slug == e.address.slug && ListTotal(list.filters, groups, totalGames) > 0
  {
    hide ListTotal;
    if lists != [] {
      var front, last := lists[..|lists| - 1], lists[|lists| - 1];
      var more := if ListTotal(last.filters, groups, totalGames) == 0 then [] else [Entry(List(last.slug), None)];
      ListEntriesAre(front, groups, totalGames, e);
      InEither(ListEntries(front, groups, totalGames), more, e);
      assert lists == front + [last];
      assert ListEntries(lists, groups, totalGames) == ListEntries(front, groups, totalGames) + more;
      hide ListEntries;
    }
  }

  // ---- Exactly the pages that exist ----

  predicate IsNamed(doc: seq<Entry>, address: Address) { exists e :: e in doc && e.address == address }

  lemma InEither<T>(a: seq<T>, b: seq<T>, x: T)
    ensures x in a + b <==> x in a || x in b
  {
  }

  lemma InIndexes(i: Input, e: Entry)
    ensures e in Indexes(i) <==>
      || e in Pages(Home, 2, PageCount(i.totalGames, LIMIT)) || e in Standing(i)
      || e in Pages(NewsIndex, 2, PageCount(i.newsCount, NEWS_LIMIT))
  {
    hide Pages, Standing, PageCount;
    var home, standing := Pages(Home, 2, PageCount(i.totalGames, LIMIT)), Standing(i);
    InEither(home, standing, e);
    InEither(home + standing, Pages(NewsIndex, 2, PageCount(i.newsCount, NEWS_LIMIT)), e);
  }

  lemma InDocument(i: Input, e: Entry)
    ensures e in Document(i) <==>
      e in Front(i) || e in Indexes(i) || e in ListEntries(LISTS(), i.groups, i.totalGames) || e in Listed(i) || e in Tables(i)
  {
    hide Front, Indexes, ListEntries, Listed, Tables, LISTS;
    var lists := ListEntries(LISTS(), i.groups, i.totalGames);
    InEither(Indexes(i), lists, e);
    InEither(Indexes(i) + lists, Listed(i), e);
    InEither(Front(i), Body(i), e);
    InEither(Front(i) + Body(i), Tables(i), e);
  }

  lemma InStanding(i: Input, e: Entry)
    ensures e in Standing(i) <==>
      e.address.Fixed? && e.lastmod.None? && (e.address.path in FixedPaths() || (i.hasPlays && e.address.path == "/most-played"))
  {
    InEither(MostPlayed(i.hasPlays), FixedPages(), e);
    if k :| 0 <= k < 9 && e == Entry(Fixed(FixedPaths()[k]), None) { assert FixedPages()[k] == e; }
  }

  lemma InTables(i: Input, e: Entry)
    ensures e in Tables(i) <==>
      || (e.address.OfGame? && exists k :: 0 <= k < |i.games| && e == Entry(OfGame(i.games[k].slug), Some(Day(i.games[k].updatedAt))))
      || (e.address.OfArticle? && exists k :: 0 <= k < |i.news| && e == Entry(OfArticle(i.news[k].slug), Some(Day(i.news[k].updatedAt))))
  {
    InEither(GameEntries(i.games), ArticleEntries(i.news), e);
    if e in GameEntries(i.games) {
      var k :| 0 <= k < |i.games| && GameEntries(i.games)[k] == e;
    }
    if e in ArticleEntries(i.news) {
      var k :| 0 <= k < |i.news| && ArticleEntries(i.news)[k] == e;
    }
    if k :| 0 <= k < |i.games| && e == Entry(OfGame(i.games[k].slug), Some(Day(i.games[k].updatedAt))) {
      assert GameEntries(i.games)[k] == e;
    }
    if k :| 0 <= k < |i.news| && e == Entry(OfArticle(i.news[k].slug), Some(Day(i.news[k].updatedAt))) {
      assert ArticleEntries(i.news)[k] == e;
    }
  }

  lemma InFront(i: Input, e: Entry)
    ensures e in Front(i) <==> e in {Entry(Page(NewsIndex, 1), DayUnlessZero(LatestEdit(i.news))), Entry(Page(Home, 1), HomeDate(i))}
  {
    hide HomeDate, LatestEdit, DayUnlessZero;
    assert Front(i)[0] in Front(i) && Front(i)[1] in Front(i);
  }

  /** Which part of the document an address is in is settled by its kind. */
  lemma DocumentHolds(i: Input, e: Entry)
    ensures e in Document(i) <==>
      match e.address
      case Page(listing, page) => (
        match listing
        case Home =>
          || e == Entry(Page(Home, 1), HomeDate(i))
          || (e.lastmod.None? && 2 <= page <= PageCount(i.totalGames, LIMIT))
        case NewsIndex =>
          || e == Entry(Page(NewsIndex, 1), DayUnlessZero(LatestEdit(i.news)))
          || (e.lastmod.None? && 2 <= page <= PageCount(i.newsCount, NEWS_LIMIT))
        case Of(key) => e in Listed(i))
      case Fixed(_) => e in Standing(i)
      case List(_) => e in ListEntries(LISTS(), i.groups, i.totalGames)
      case _ => e in Tables(i)
  {
    InDocument(i, e);
    InFront(i, e);
    InIndexes(i, e);
    PagesAre(Home, 2, PageCount(i.totalGames, LIMIT), e);
    PagesAre(NewsIndex, 2, PageCount(i.newsCount, NEWS_LIMIT), e);
    InStanding(i, e);
    ListEntriesAre(LISTS(), i.groups, i.totalGames, e);
    InListed(i, e);
    InTables(i, e);
    hide Document, Front, Indexes, Standing, ListEntries, Listed, Tables, LISTS, Pages, FixedPaths, PageCount,
         HomeDate, LatestEdit, DayUnlessZero, IsPageOf, Day, ListTotal;
  }

  lemma InListed(i: Input, e: Entry)
    ensures e in Listed(i) <==>
      && e.address.Page? && e.address.listing.Of?
      && var key := e.address.listing.key;
         || (key in CountedKeys(i.facets) && IsPageOf(e, key, i.groups, false))
         || (key in NamedKeys(i.facets) && IsPageOf(e, key, i.groups, true))
  {
    hide ListingPages, CountedKeys, NamedKeys, IsPageOf;
    InEither(ListingPages(CountedKeys(i.facets), i.groups, false), ListingPages(NamedKeys(i.facets), i.groups, true), e);
    ListingPagesAre(CountedKeys(i.facets), i.groups, false, e);
    ListingPagesAre(NamedKeys(i.facets), i.groups, true, e);
  }

  predicate IsListed(i: Input, key: Key) {
    (key in CountedKeys(i.facets) && Lookup(i.groups, key) > 0) || key in NamedKeys(i.facets)
  }

  lemma ListingEntryIff(i: Input, key: Key, page: nat, e: Entry)
    requires e.address == Page(Of(key), page)
    ensures e in Document(i) <==>
      && 1 <= page <= Max(1, PageCount(Lookup(i.groups, key), LIMIT)) && IsListed(i, key)
      && e.lastmod == if page == 1 then FirstPageDate(key, i.groups) else None
  {
    DocumentHolds(i, e);
    InListed(i, e);
    hide Document, Listed, CountedKeys, NamedKeys, FirstPageDate, PageCount, Lookup;
  }

  /** The document names a listing's page under the one date it gives it, or not at all. */
  lemma ListingIsNamedIff(i: Input, key: Key, page: nat)
    ensures IsNamed(Document(i), Page(Of(key), page)) <==>
      1 <= page <= Max(1, PageCount(Lookup(i.groups, key), LIMIT)) && IsListed(i, key)
  {
    hide Document, IsListed, FirstPageDate, PageCount, Lookup;
    forall e: Entry | e.address == Page(Of(key), page)
      ensures e in Document(i) <==>
        && 1 <= page <= Max(1, PageCount(Lookup(i.groups, key), LIMIT)) && IsListed(i, key)
        && e.lastmod == if page == 1 then FirstPageDate(key, i.groups) else None
    {
      ListingEntryIff(i, key, page, e);
    }
    var only := Entry(Page(Of(key), page), if page == 1 then FirstPageDate(key, i.groups) else None);
    assert only.address == Page(Of(key), page);
  }

  lemma KeysAre(facets: Facets, key: Key)
    ensures key in CountedKeys(facets) <==>
      match key case Letter(name) => name in LetterBuckets() case Genre(name) => name in facets.genres case _ => false
    ensures key in NamedKeys(facets) <==>
      match key
      case Developer(name) => name in facets.developers
      case Publisher(name) => name in facets.publishers
      case Year(year) => year in facets.years
      case _ => false
  {
    match key
    case Letter(name) => if k :| 0 <= k < 27 && LetterBuckets()[k] == name { assert LetterKeys()[k] == key; }
    case Genre(name) => if k :| 0 <= k < |facets.genres| && facets.genres[k] == name { assert GenreKeys(facets.genres)[k] == key; }
    case Developer(name) =>
      if k :| 0 <= k < |facets.developers| && facets.developers[k] == name { assert DeveloperKeys(facets.developers)[k] == key; }
    case Publisher(name) =>
      if k :| 0 <= k < |facets.publishers| && facets.publishers[k] == name { assert PublisherKeys(facets.publishers)[k] == key; }
    case Year(year) => if k :| 0 <= k < |facets.years| && facets.years[k] == year { assert YearKeys(facets.years)[k] == key; }
  }

  function PageQuery(filters: Filters): Listings.Query {
    Listings.Query(filters, None, None, Some(LIMIT), None)
  }

  /** The page answers with games on it. */
  ghost predicate Serves(c: Games, siteMean: real, filters: Filters, page: nat) {
    page >= 1 && Listings.Find(c, siteMean, Listings.AtPage(PageQuery(filters), page)) != Listings.Rows([])
  }

  lemma ServedPages(c: Games, siteMean: real, filters: Filters, page: nat)
    ensures Serves(c, siteMean, filters, page) <==> 1 <= page <= PageCount(Count(c, filters), LIMIT)
  {
    Listings.PagesAreTheListing(c, siteMean, PageQuery(filters));
  }

  lemma ServedListings(c: Games, siteMean: real, groups: seq<Group>, key: Key, page: nat)
    requires IsGrouping(c, groups) && IsListing(key)
    ensures Serves(c, siteMean, FilterFor(key), page) <==> 1 <= page <= PageCount(Lookup(groups, key), LIMIT)
    ensures Lookup(groups, key) == 0 <==> Grouped(c, key) == {}
  {
    GroupedCountsAgree(c, groups, key);
    LookupFinds(groups, key);
    ServedPages(c, siteMean, FilterFor(key), page);
    hide Serves, Count, PageCount;
  }

  /**
   * Over one catalogue the document names a page of a letter, a genre, a developer, a
   * publisher or a year exactly when find() has games for that page.
   */
  lemma NamedPagesAreServedPages(c: Games, siteMean: real, i: Input, key: Key, page: nat)
    requires IsGrouping(c, i.groups) && AreFacets(c, i.facets) && IsListing(key)
    ensures IsNamed(Document(i), Page(Of(key), page)) <==> Serves(c, siteMean, FilterFor(key), page)
  {
    var count := Lookup(i.groups, key);
    ListingIsNamedIff(i, key, page);
    ServedListings(c, siteMean, i.groups, key, page);
    FacetsNameTheGroups(c, i.facets);
    KeysAre(i.facets, key);
    assert key in CountedKeys(i.facets) || key in NamedKeys(i.facets) <==> count > 0 || key in CountedKeys(i.facets);
    hide Serves, IsNamed, CountedKeys, NamedKeys, AreFacets, IsGrouping;
    assert count > 0 ==> PageCount(count, LIMIT) >= 1;
  }

  /**
   * Facet lists come out of a cache of their own and may be of another catalogue: then a
   * studio or a year is named exactly when its list has it, and a page of it exactly when
   * find() has games for it or it is the first page of one that has none any more.
   */
  lemma StaleFacetsNameTheFirstPage(c: Games, siteMean: real, i: Input, key: Key, page: nat)
    requires IsGrouping(c, i.groups) && GenresCover(c, i.facets) && IsListing(key)
    ensures IsNamed(Document(i), Page(Of(key), page)) <==>
      if key.Letter? || key.Genre? then Serves(c, siteMean, FilterFor(key), page)
      else key in NamedKeys(i.facets) && (Serves(c, siteMean, FilterFor(key), page) || (page == 1 && Grouped(c, key) == {}))
  {
    var count := Lookup(i.groups, key);
    ListingIsNamedIff(i, key, page);
    ServedListings(c, siteMean, i.groups, key, page);
    KeysAre(i.facets, key);
    if key.Genre? && count > 0 {
      var id :| id in Grouped(c, key);
      assert c[id].genre == Some(key.name);
    }
    hide Serves, IsNamed, CountedKeys, NamedKeys, IsGrouping, GenresCover, Grouped;
    assert count > 0 ==> PageCount(count, LIMIT) >= 1;
  }

  const NO_FILTERS: Filters := Filters(None, None, None, None, None, None, None, None)

  /** The front page and the news are always named, and page by page as far as they go. */
  lemma FrontPagesAreNamed(c: Games, siteMean: real, i: Input, page: nat)
    requires i.totalGames == |c|
    ensures IsNamed(Document(i), Page(Home, page)) <==> page == 1 || Serves(c, siteMean, NO_FILTERS, page)
    ensures IsNamed(Document(i), Page(NewsIndex, page)) <==> page == 1 || 1 <= page <= PageCount(i.newsCount, NEWS_LIMIT)
  {
    ServedPages(c, siteMean, NO_FILTERS, page);
    NoFilters(c, ANY);
    assert AsFilters(ANY) == NO_FILTERS;
    hide Serves, Document, PageCount, HomeDate, LatestEdit, DayUnlessZero, Count;
    forall e: Entry | e.address in {Page(Home, page), Page(NewsIndex, page)}
      ensures e in Document(i) <==>
        if page == 1 then e in {Entry(Page(NewsIndex, 1), DayUnlessZero(LatestEdit(i.news))), Entry(Page(Home, 1), HomeDate(i))}
        else e.lastmod.None? && 2 <= page <= if e.address.listing.Home? then PageCount(i.totalGames, LIMIT) else PageCount(i.newsCount, NEWS_LIMIT)
    {
      DocumentHolds(i, e);
    }
    var home := Entry(Page(Home, page), if page == 1 then HomeDate(i) else None);
    var news := Entry(Page(NewsIndex, page), if page == 1 then DayUnlessZero(LatestEdit(i.news)) else None);
    assert home.address in {Page(Home, page), Page(NewsIndex, page)} && news.address in {Page(Home, page), Page(NewsIndex, page)};
  }

  /** A curated list is named exactly when its page has games. */
  lemma NamedListsHaveGames(c: Games, siteMean: real, i: Input, list: Curated)
    requires IsGrouping(c, i.groups) && i.totalGames == |c| && list in LISTS()
    ensures IsNamed(Document(i), List(list.slug)) <==> Serves(c, siteMean, AsFilters(list.filters), 1)
  {
    hide Serves, IsGrouping, ListTotal, LISTS, Document, Count, ListCount, AsFilters, IsNamed;
    ListIsNamedIff(i, list);
    var count := Count(c, AsFilters(list.filters));
    ListTotalsAgree(c, list.filters, i.groups, i.totalGames);
    NoListNamesBoth(list);
    ListsAgreeUnlessBoth(list.filters);
    ServedPages(c, siteMean, AsFilters(list.filters), 1);
    assert ListCount(c, list.filters) == count;
    assert count > 0 <==> PageCount(count, LIMIT) >= 1;
  }

  lemma NoListNamesBoth(list: Curated)
    requires list in LISTS()
    ensures !(Given(list.filters.genre) && (list.filters.releaseFrom.Some? || list.filters.releaseTo.Some?))
  {
  }

  lemma ListIsNamedIff(i: Input, list: Curated)
    requires list in LISTS()
    ensures IsNamed(Document(i), List(list.slug)) <==> ListTotal(list.filters, i.groups, i.totalGames) > 0
  {
    ListsAreDistinct();
    hide ListTotal, LISTS, Document;
    forall e: Entry | e.address == List(list.slug)
      ensures e in Document(i) <==> e.lastmod.None? && ListTotal(list.filters, i.groups, i.totalGames) > 0
    {
      DocumentHolds(i, e);
      ListEntriesAre(LISTS(), i.groups, i.totalGames, e);
    }
    assert Entry(List(list.slug), None).address == List(list.slug);
  }

  lemma ListsAreDistinct()
    ensures forall j, k :: 0 <= j < k < |LISTS()| ==> LISTS()[j].slug != LISTS()[k].slug
  {
  }

  /** Every game and every live article has its page named, dated by its own last edit. */
  lemma EveryRowIsNamed(i: Input, e: Entry)
    requires e.address.OfGame? || e.address.OfArticle?
    ensures e in Document(i) <==>
      exists row :: row in (if e.address.OfGame? then i.games else i.news)
                    && row.slug == e.address.slug && e.lastmod == Some(Day(row.updatedAt))
  {
    DocumentHolds(i, e);
    InTables(i, e);
    hide Document, Tables, Day;
  }

  // ---- Dates ----

  /**
   * Of the listings only the first page of a letter, a studio or a year is dated, and its
   * date is the day of the newest edit among its games. Rankings by votes or plays, the
   * standing pages and deeper pages claim none.
   */
  lemma DatesAreTrue(c: Games, i: Input, e: Entry)
    requires IsGrouping(c, i.groups) && e in Document(i)
    ensures e.address.List? || e.address.Fixed? || (e.address.Page? && e.address.page != 1) ==> e.lastmod.None?
    ensures e.address.Page? && e.address.listing.Of? ==>
      var key := e.address.listing.key;
      && (e.lastmod.Some? <==> e.address.page == 1 && !key.Genre? && Grouped(c, key) != {})
      && (e.lastmod.Some? ==>
            && (exists id :: id in Grouped(c, key) && e.lastmod == Some(Day(c[id].updatedAt)))
            && forall id :: id in Grouped(c, key) ==> Day(c[id].updatedAt) <= e.lastmod.value)
  {
    DocumentHolds(i, e);
    InStanding(i, e);
    InListed(i, e);
    ListEntriesAre(LISTS(), i.groups, i.totalGames, e);
    hide Document, Listed, Standing, ListEntries, LISTS, HomeDate, LatestEdit, DayUnlessZero, PageCount, Day, Lookup, Tables,
         CountedKeys, NamedKeys;
    if e.address.Page? && e.address.listing.Of? && e.address.page == 1 && !e.address.listing.key.Genre? {
      FirstPageDateIsTrue(c, i.groups, e.address.listing.key);
    }
  }

  lemma FirstPageDateIsTrue(c: Games, groups: seq<Group>, key: Key)
    requires IsGrouping(c, groups) && !key.Genre?
    ensures
      var date := FirstPageDate(key, groups);
      && (date.Some? <==> Grouped(c, key) != {})
      && (date.Some? ==>
            && (exists id :: id in Grouped(c, key) && date == Some(Day(c[id].updatedAt)))
            && forall id :: id in Grouped(c, key) ==> Day(c[id].updatedAt) <= date.value)
  {
    LatestIsTheNewest(c, groups, key);
    hide Latest, Grouped, IsGrouping;
  }

  lemma {:induction false} LatestEditIs(rows: seq<Row>)
    ensures forall k :: 0 <= k < |rows| ==> rows[k].updatedAt <= LatestEdit(rows)
    ensures LatestEdit(rows) >= 0 && (LatestEdit(rows) > 0 ==> exists k :: 0 <= k < |rows| && rows[k].updatedAt == LatestEdit(rows))
  {
    if rows != [] {
      var front := rows[..|rows| - 1];
      LatestEditIs(front);
      if k :| 0 <= k < |front| && front[k].updatedAt == LatestEdit(front) { assert rows[k].updatedAt == LatestEdit(front); }
    }
  }

  /** The day of the newest of the edits, and none without one after the beginning of 1970. */
  ghost predicate IsNewestDay(rows: seq<Row>, date: Option<int>) {
    if forall k :: 0 <= k < |rows| ==> rows[k].updatedAt <= 0 then date == None
    else exists k :: 0 <= k < |rows| && IsNewest(rows, k) && date == Some(rows[k].updatedAt / 86_400_000)
  }

  ghost predicate IsNewest(rows: seq<Row>, k: nat)
    requires k < |rows|
  {
    forall j :: 0 <= j < |rows| ==> rows[j].updatedAt <= rows[k].updatedAt
  }

  lemma {:induction false} LatestOfBoth(a: seq<Row>, b: seq<Row>)
    ensures LatestEdit(a + b) == if LatestEdit(a) > LatestEdit(b) then LatestEdit(a) else LatestEdit(b)
    decreases |b|
  {
    if b == [] {
      assert a + b == a;
      LatestEditIs(a);
    } else {
      assert (a + b)[..|a + b| - 1] == a + b[..|b| - 1];
      LatestOfBoth(a, b[..|b| - 1]);
    }
  }

  lemma NewestDayIs(rows: seq<Row>)
    ensures IsNewestDay(rows, DayUnlessZero(LatestEdit(rows)))
  {
    LatestEditIs(rows);
    if k: nat :| k < |rows| && rows[k].updatedAt == LatestEdit(rows) { assert IsNewest(rows, k); }
  }

  /** The news are dated by the newest edit of an article, and the home page by the newest of a game or an article. */
  lemma FrontPagesAreDated(i: Input, e: Entry)
    requires e in Document(i) && e.address in {Page(Home, 1), Page(NewsIndex, 1)}
    ensures IsNewestDay(if e.address.listing.Home? then i.games + i.news else i.news, e.lastmod)
  {
    DocumentHolds(i, e);
    LatestOfBoth(i.games, i.news);
    NewestDayIs(i.games + i.news);
    NewestDayIs(i.news);
    hide Document, LatestEdit, DayUnlessZero, IsNewestDay;
  }

  /** Ten standing pages, one of them only once something has been played, and none of them dated. */
  lemma StandingPagesAreNamed(i: Input, path: string, date: Option<int>)
    ensures Entry(Fixed(path), date) in Document(i) <==>
      && date == None
      && (path in {"/comments", "/developers", "/publishers", "/years", "/how-to-play", "/about", "/privacy-policy", "/dmca", "/game-lists"}
          || (path == "/most-played" && i.hasPlays))
  {
    DocumentHolds(i, Entry(Fixed(path), date));
    InStanding(i, Entry(Fixed(path), date));
    FixedPathsAre(path);
    hide Document, Standing, FixedPaths;
  }

  lemma FixedPathsAre(path: string)
    ensures path in FixedPaths() <==>
      path in {"/comments", "/developers", "/publishers", "/years", "/how-to-play", "/about", "/privacy-policy", "/dmca", "/game-lists"}
  {
  }

  // ---- No page twice ----

  ghost predicate Distinct(list: seq<Entry>) {
    forall i, j :: 0 <= i < j < |list| ==> list[i].address != list[j].address
  }

  /** The kinds of page, in the order the document has them. */
  function Kind(a: Address): nat {
    match a
    case Page(Home, page) => if page == 1 then 0 else 1
    case Page(NewsIndex, page) => if page == 1 then 0 else 4
    case Page(Of(key), _) => if key.Letter? || key.Genre? then 6 else 7
    case Fixed(path) => if path == "/most-played" then 2 else 3
    case List(_) => 5
    case OfGame(_) => 8
    case OfArticle(_) => 9
  }

  ghost predicate AllOf(list: seq<Entry>, from: nat, to: nat) {
    forall e :: e in list ==> from <= Kind(e.address) < to
  }

  lemma Joining(a: seq<Entry>, b: seq<Entry>, from: nat, mid: nat, to: nat)
    requires Distinct(a) && Distinct(b) && AllOf(a, from, mid) && AllOf(b, mid, to) && from <= mid <= to
    ensures Distinct(a + b) && AllOf(a + b, from, to)
  {
    forall i, j | 0 <= i < j < |a + b| ensures (a + b)[i].address != (a + b)[j].address {
      if i < |a| <= j { assert a[i] in a && b[j - |a|] in b; }
    }
    forall e | e in a + b ensures from <= Kind(e.address) < to { InEither(a, b, e); }
  }

  lemma {:induction false} PagesAreDistinct(listing: Listing, from: nat, to: nat)
    ensures Distinct(Pages(listing, from, to))
    decreases if from <= to then to + 1 - from else 0
  {
    if from <= to {
      PagesAreDistinct(listing, from + 1, to);
      forall e | e in Pages(listing, from + 1, to) ensures e.address != Page(listing, from) {
        PagesAre(listing, from + 1, to, e);
      }
      OneMoreInFront(Entry(Page(listing, from), None), Pages(listing, from + 1, to));
    }
  }

  lemma OneMoreInFront(e: Entry, list: seq<Entry>)
    requires Distinct(list) && forall x :: x in list ==> x.address != e.address
    ensures Distinct([e] + list)
  {
  }

  lemma PagesOfAreDistinct(key: Key, groups: seq<Group>, always: bool)
    ensures Distinct(PagesOf(key, groups, always))
  {
    var last := PageCount(Lookup(groups, key), LIMIT);
    PagesAreDistinct(Of(key), 2, last);
    forall e | e in Pages(Of(key), 2, last) ensures e.address != Page(Of(key), 1) { PagesAre(Of(key), 2, last, e); }
    OneMoreInFront(Entry(Page(Of(key), 1), FirstPageDate(key, groups)), Pages(Of(key), 2, last));
  }

  lemma {:induction false} ListingPagesAreDistinct(keys: seq<Key>, groups: seq<Group>, always: bool)
    requires NoDuplicates(keys)
    ensures Distinct(ListingPages(keys, groups, always))
  {
    if keys != [] {
      var front, key := keys[..|keys| - 1], keys[|keys| - 1];
      var before, pages := ListingPages(front, groups, always), PagesOf(key, groups, always);
      ListingPagesAreDistinct(front, groups, always);
      PagesOfAreDistinct(key, groups, always);
      forall i, j | 0 <= i < |before| && 0 <= j < |pages| ensures before[i].address != pages[j].address {
        ListingPagesAre(front, groups, always, before[i]);
        PagesOfAre(key, groups, always, pages[j]);
      }
      hide ListingPages, PagesOf;
      assert Distinct(before + pages);
    }
  }

  lemma KeysAreDistinct(facets: Facets)
    requires ListedOnce(facets)
    ensures NoDuplicates(CountedKeys(facets)) && NoDuplicates(NamedKeys(facets))
  {
    BucketsAreDistinct();
  }

  lemma {:induction false} ListEntriesAreDistinct(lists: seq<Curated>, groups: seq<Group>, totalGames: nat)
    requires forall j, k :: 0 <= j < k < |lists| ==> lists[j].slug != lists[k].slug
    ensures Distinct(ListEntries(lists, groups, totalGames))
  {
    if lists != [] {
      var front, last := lists[..|lists| - 1], lists[|lists| - 1];
      var before := ListEntries(front, groups, totalGames);
      ListEntriesAreDistinct(front, groups, totalGames);
      forall k | 0 <= k < |before| ensures before[k].address != List(last.slug) {
        ListEntriesAre(front, groups, totalGames, before[k]);
      }
    }
  }

  lemma IndexesAreDistinct(i: Input)
    ensures Distinct(Indexes(i)) && AllOf(Indexes(i), 1, 5)
  {
    var home, news := Pages(Home, 2, PageCount(i.totalGames, LIMIT)), Pages(NewsIndex, 2, PageCount(i.newsCount, NEWS_LIMIT));
    PagesAreDistinct(Home, 2, PageCount(i.totalGames, LIMIT));
    PagesAreDistinct(NewsIndex, 2, PageCount(i.newsCount, NEWS_LIMIT));
    forall e | e in home ensures Kind(e.address) == 1 { PagesAre(Home, 2, PageCount(i.totalGames, LIMIT), e); }
    forall e | e in news ensures Kind(e.address) == 4 { PagesAre(NewsIndex, 2, PageCount(i.newsCount, NEWS_LIMIT), e); }
    StandingIsDistinct(i);
    hide Pages, Standing;
    Joining(home, Standing(i), 1, 2, 4);
    Joining(home + Standing(i), news, 1, 4, 5);
  }

  lemma StandingIsDistinct(i: Input)
    ensures Distinct(Standing(i)) && AllOf(Standing(i), 2, 4)
  {
    FixedPathsAreDistinct();
    assert Distinct(FixedPages());
    forall e | e in FixedPages() ensures Kind(e.address) == 3 {
      var k :| 0 <= k < 9 && FixedPages()[k] == e;
    }
    hide FixedPages, FixedPaths;
    Joining(MostPlayed(i.hasPlays), FixedPages(), 2, 3, 4);
  }

  lemma FixedPathsAreDistinct()
    ensures |FixedPaths()| == 9 && forall j, k :: 0 <= j < k < 9 ==> FixedPaths()[j] != FixedPaths()[k]
    ensures forall k :: 0 <= k < 9 ==> FixedPaths()[k] != "/most-played"
  {
    var paths := FixedPaths();
    assert paths[1][1] == 'd' && paths[2][1] == 'p' && paths[8][1] == 'g';
    assert paths[3][1] == 'y' && paths[5][1] == 'a' && paths[4][1] == 'h' && "/most-played"[1] == 'm';
  }

  lemma ListedIsDistinct(i: Input)
    requires ListedOnce(i.facets)
    ensures Distinct(Listed(i)) && AllOf(Listed(i), 6, 8)
  {
    KeysAreDistinct(i.facets);
    var counted := ListingPages(CountedKeys(i.facets), i.groups, false);
    var named := ListingPages(NamedKeys(i.facets), i.groups, true);
    ListingPagesAreDistinct(CountedKeys(i.facets), i.groups, false);
    ListingPagesAreDistinct(NamedKeys(i.facets), i.groups, true);
    forall e ensures (e in counted ==> Kind(e.address) == 6) && (e in named ==> Kind(e.address) == 7) { ListedKinds(i, e); }
    hide ListingPages, CountedKeys, NamedKeys, ListedOnce, Distinct, Kind;
    Joining(counted, named, 6, 7, 8);
  }

  lemma ListedKinds(i: Input, e: Entry)
    ensures e in ListingPages(CountedKeys(i.facets), i.groups, false) ==> Kind(e.address) == 6
    ensures e in ListingPages(NamedKeys(i.facets), i.groups, true) ==> Kind(e.address) == 7
  {
    hide ListingPages, CountedKeys, NamedKeys, IsPageOf;
    ListingPagesAre(CountedKeys(i.facets), i.groups, false, e);
    ListingPagesAre(NamedKeys(i.facets), i.groups, true, e);
    if e.address.Page? && e.address.listing.Of? { KeysAre(i.facets, e.address.listing.key); }
  }

  ghost predicate SlugsAreUnique(rows: seq<Row>) { forall j, k :: 0 <= j < k < |rows| ==> rows[j].slug != rows[k].slug }

  lemma TablesAreDistinct(i: Input)
    requires SlugsAreUnique(i.games) && SlugsAreUnique(i.news)
    ensures Distinct(Tables(i)) && AllOf(Tables(i), 8, 10)
  {
    Joining(GameEntries(i.games), ArticleEntries(i.news), 8, 9, 10);
  }

  /** The whole document names no page twice, when no facet list and no table does. */
  lemma NoPageIsNamedTwice(i: Input)
    requires ListedOnce(i.facets) && SlugsAreUnique(i.games) && SlugsAreUnique(i.news)
    ensures Distinct(Document(i))
  {
    var lists := ListEntries(LISTS(), i.groups, i.totalGames);
    IndexesAreDistinct(i);
    ListsAreDistinct();
    ListEntriesAreDistinct(LISTS(), i.groups, i.totalGames);
    forall e | e in lists ensures Kind(e.address) == 5 { ListEntriesAre(LISTS(), i.groups, i.totalGames, e); }
    ListedIsDistinct(i);
    TablesAreDistinct(i);
    assert Distinct(Front(i)) && AllOf(Front(i), 0, 1);
    hide Front, Indexes, ListEntries, Listed, Tables, LISTS, Distinct;
    Joining(Indexes(i), lists, 1, 5, 6);
    Joining(Indexes(i) + lists, Listed(i), 1, 6, 8);
    Joining(Front(i), Body(i), 0, 1, 8);
    Joining(Front(i) + Body(i), Tables(i), 0, 8, 10);
  }
}
