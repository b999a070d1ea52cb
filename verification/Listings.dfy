/** Game.find: what each listing is ordered by, and the page of it that is served; and the chain of neighbours. */
module Listings {
  import opened Basics
  import opened Ordering
  import opened Catalogue
  import opened LikePatterns

  const RATING_CONFIDENCE_WEIGHT: nat := 5

  datatype Field = ByRating | ByRelease | ByTitle | ByCreated | ByLowerTitle | ByRelevance(search: Search)
  datatype Direction = Ascending | Descending

  /** The votes pulled towards the site's mean; an unrated game scores nothing. */
  function WeightedRating(g: Game, siteMean: real): real {
    if g.ratingCount == 0 then 0.0
    else (g.ratingSum as real + RATING_CONFIDENCE_WEIGHT as real * siteMean) / (g.ratingCount + RATING_CONFIDENCE_WEIGHT) as real
  }

  function SortKey(g: Game, siteMean: real, field: Field): Option<real>
    requires !field.ByRelevance?
  {
    match field
    case ByRating => Some(WeightedRating(g, siteMean))
    case ByRelease => if g.release.None? then None else Some(g.release.value as real)
    case ByTitle => Some(g.titleRank as real)
    case ByCreated => Some(g.createdAt as real)
    case ByLowerTitle => Some(g.lowerTitleRank as real)
  }

  function Average(g: Game): real {
    if g.ratingCount == 0 then 0.0 else g.ratingSum as real / g.ratingCount as real
  }

  /** Exact titles, titles beginning with the term, titles with it anywhere, studios with it, and the rest. */
  function Tier(s: Search, g: Game): nat {
    if Lower(g.title) == Lower(Term(s)) then 4
    else if ILike(g.title, EscapeLike(Term(s)) + "%") then 3
    else if ILike(g.title, SearchPattern(s)) then 2
    else if Or(ILikeOrNull(g.developer, SearchPattern(s)), ILikeOrNull(g.publisher, SearchPattern(s))) == Yes then 1
    else 0
  }

  /** ORDER BY the tier, the similarity, the plain average and "id", all descending */
  predicate MoreRelevant(s: Search, x: Game, y: Game, a: nat, b: nat) {
    if Tier(s, x) != Tier(s, y) then Tier(s, x) > Tier(s, y)
    else if SimilarityOf(s, x).score != SimilarityOf(s, y).score then SimilarityOf(s, x).score > SimilarityOf(s, y).score
    else if Average(x) != Average(y) then Average(x) > Average(y)
    else a > b
  }

  /** ORDER BY field direction NULLS LAST, "id" direction */
  predicate Precedes(c: Games, siteMean: real, field: Field, direction: Direction, a: nat, b: nat) {
    && a in c && b in c
    && if field.ByRelevance? then MoreRelevant(field.search, c[a], c[b], a, b) else
       var x, y := SortKey(c[a], siteMean, field), SortKey(c[b], siteMean, field);
       if x.None? != y.None? then y.None?
       else if x != y then (if direction.Ascending? then x.value < y.value else x.value > y.value)
       else (if direction.Ascending? then a < b else a > b)
  }

  function OrderBy(c: Games, siteMean: real, field: Field, direction: Direction): Order {
    (a: nat, b: nat) => Precedes(c, siteMean, field, direction, a, b)
  }

  /** No ordering find builds ever ties: the id settles what the column leaves level. */
  lemma EveryOrderingIsStrict(c: Games, siteMean: real, field: Field, direction: Direction, ids: set<nat>)
    requires ids <= c.Keys
    ensures StrictTotal(OrderBy(c, siteMean, field, direction), ids)
  {
    hide SortKey, Tier, SimilarityOf, Average;
  }

  datatype FindError = InvalidOrderBy | InvalidOrderDir | PageWithoutLimit
  datatype Found = Rows(ids: seq<nat>) | Refused(error: FindError)

  datatype Query = Query(filters: Filters, orderBy: Option<string>, orderDir: Option<string>, limit: Option<nat>, page: Option<int>)

  /** What JavaScript takes for true: a letter, a studio or a year other than 0. */
  predicate NamesAListing(f: Filters) {
    Given(f.letter) || (f.year.Some? && f.year.value != 0) || Given(f.developer) || Given(f.publisher)
  }

  function DirectionOf(q: Query): Direction {
    if Given(q.orderDir) then (if q.orderDir.value == "ASC" then Ascending else Descending)
    else if NamesAListing(q.filters) then Ascending else Descending
  }

  function FieldOf(q: Query): Field {
    if q.orderBy == Some("rating") then ByRating
    else if q.orderBy == Some("release") then ByRelease
    else if q.orderBy == Some("title") then ByTitle
    else if q.orderBy == Some("createdAt") then ByCreated
    else if Searching(q.filters) then ByRelevance(q.filters.search.value)
    else if NamesAListing(q.filters) then ByTitle
    else ByRating
  }

  predicate Limited(q: Query) { q.limit.Some? && q.limit.value != 0 }

  function Refusal(q: Query): Option<FindError> {
    if Given(q.orderBy) && q.orderBy.value !in ["rating", "createdAt", "release", "title"] then Some(InvalidOrderBy)
    else if Given(q.orderDir) && q.orderDir.value !in ["ASC", "DESC"] then Some(InvalidOrderDir)
    else if q.page.Some? && q.page.value > 1 && !Limited(q) then Some(PageWithoutLimit)
    else None
  }

  ghost function Listing(c: Games, siteMean: real, q: Query): seq<nat> {
    var ids := Matching(c, q.filters);
    EveryOrderingIsStrict(c, siteMean, FieldOf(q), DirectionOf(q), ids);
    Sorted(OrderBy(c, siteMean, FieldOf(q), DirectionOf(q)), ids)
  }

  /** LIMIT when there is one, OFFSET when there is also a page, and never one below the first. */
  ghost function Find(c: Games, siteMean: real, q: Query): Found {
    if Refusal(q).Some? then Refused(Refusal(q).value)
    else if !Limited(q) then Rows(Listing(c, siteMean, q))
    else if q.page.None? || q.page.value <= 1 then Rows(PageOf(Listing(c, siteMean, q), q.limit.value, 1))
    else Rows(PageOf(Listing(c, siteMean, q), q.limit.value, q.page.value))
  }

  predicate KnowsOrder(q: Query) { q.orderBy.None? || q.orderBy.value in {"", "rating", "createdAt", "release", "title"} }

  predicate KnowsDirection(q: Query) { q.orderDir.None? || q.orderDir.value in {"", "ASC", "DESC"} }

  /** Which queries find answers, and what it says of each of the others. */
  lemma AnsweredIff(c: Games, siteMean: real, q: Query)
    ensures Find(c, siteMean, q).Rows? <==>
      KnowsOrder(q) && KnowsDirection(q) && (q.page.None? || q.page.value <= 1 || (q.limit.Some? && q.limit.value > 0))
    ensures Find(c, siteMean, q) == Refused(InvalidOrderBy) <==> !KnowsOrder(q)
    ensures Find(c, siteMean, q) == Refused(InvalidOrderDir) <==> KnowsOrder(q) && !KnowsDirection(q)
  {
    OrdersKnown(if q.orderBy.Some? then q.orderBy.value else "");
    DirectionsKnown(if q.orderDir.Some? then q.orderDir.value else "");
    hide Listing, PageOf;
    if KnowsOrder(q) && KnowsDirection(q) {
      assert Refusal(q) == if q.page.Some? && q.page.value > 1 && !Limited(q) then Some(PageWithoutLimit) else None;
    }
  }

  lemma OrdersKnown(name: string)
    ensures name in ["rating", "createdAt", "release", "title"] <==> name in {"rating", "createdAt", "release", "title"}
  {
  }

  lemma DirectionsKnown(name: string)
    ensures name in ["ASC", "DESC"] <==> name in {"ASC", "DESC"}
  {
    assert ["ASC", "DESC"][0] == "ASC" && ["ASC", "DESC"][1] == "DESC";
  }

  /** Without a limit the whole listing is answered, and without a page, or before the first, as much of it as the limit says. */
  lemma UnpagedIsTheFront(c: Games, siteMean: real, q: Query)
    requires Find(c, siteMean, q).Rows? && (q.page.None? || q.page.value <= 1)
    ensures
      var list := Listing(c, siteMean, q);
      Find(c, siteMean, q) ==
        Rows(if q.limit in {None, Some(0)} || q.limit.value > |list| then list else list[..q.limit.value])
  {
    hide Listing;
  }

  function AtPage(q: Query, page: nat): Query { q.(page := Some(page)) }

  ghost function PagesTogether(c: Games, siteMean: real, q: Query, pages: nat): seq<nat> {
    if pages == 0 then []
    else
      PagesTogether(c, siteMean, q, pages - 1) +
      match Find(c, siteMean, AtPage(q, pages)) case Rows(ids) => ids case Refused(_) => []
  }

  lemma FindAtPage(c: Games, siteMean: real, q: Query, page: nat)
    requires Refusal(q).None? && Limited(q) && page >= 1
    ensures Find(c, siteMean, AtPage(q, page)) == Rows(PageOf(Listing(c, siteMean, q), q.limit.value, page))
  {
    PageChangesNoRow(c, siteMean, q, page);
    assert AtPage(q, page).limit == q.limit && Refusal(AtPage(q, page)).None?;
    hide Listing, Refusal, FieldOf, DirectionOf, PageOf;
  }

  lemma PageChangesNoRow(c: Games, siteMean: real, q: Query, page: nat)
    ensures Listing(c, siteMean, AtPage(q, page)) == Listing(c, siteMean, q)
  {
    var u := AtPage(q, page);
    assert u.filters == q.filters && FieldOf(u) == FieldOf(q) && DirectionOf(u) == DirectionOf(q);
    hide FieldOf, DirectionOf, Matching, Sorted, OrderBy, StrictTotal;
  }

  lemma {:induction false} PagesTogetherAreJoined(c: Games, siteMean: real, q: Query, pages: nat)
    requires Refusal(q).None? && Limited(q)
    ensures PagesTogether(c, siteMean, q, pages) == Joined(Listing(c, siteMean, q), q.limit.value, pages)
  {
    hide Refusal, Listing, Find, PageOf;
    if pages > 0 {
      PagesTogetherAreJoined(c, siteMean, q, pages - 1);
      FindAtPage(c, siteMean, q, pages);
    }
  }

  /**
   * The pages of a listing, one after another, are every game the filters select, once
   * each and in order; and there is something on a page exactly up to the last one
   * count() announces.
   */
  lemma PagesAreTheListing(c: Games, siteMean: real, q: Query)
    requires Refusal(q).None? && Limited(q)
    ensures
      var pages := PageCount(Count(c, q.filters), q.limit.value);
      var all := PagesTogether(c, siteMean, q, pages);
      && InOrder(OrderBy(c, siteMean, FieldOf(q), DirectionOf(q)), all)
      && Members(all) == Matching(c, q.filters) && |all| == Count(c, q.filters)
      && forall page: nat :: page >= 1 ==> (Find(c, siteMean, AtPage(q, page)) != Rows([]) <==> page <= pages)
  {
    var listing := Listing(c, siteMean, q);
    var order, ids := OrderBy(c, siteMean, FieldOf(q), DirectionOf(q)), Matching(c, q.filters);
    EveryOrderingIsStrict(c, siteMean, FieldOf(q), DirectionOf(q), ids);
    SortedIsInOrder(order, ids);
    assert listing == Sorted(order, ids);
    hide Refusal, Listing, Find, PageOf, FieldOf, DirectionOf, Matching, OrderBy, Sorted, PageCount;
    PagesAreTheList(listing, q.limit.value);
    PagesTogetherAreJoined(c, siteMean, q, PageCount(|listing|, q.limit.value));
    forall page: nat | page >= 1
      ensures Find(c, siteMean, AtPage(q, page)) == Rows(PageOf(listing, q.limit.value, page))
    {
      FindAtPage(c, siteMean, q, page);
    }
  }

  lemma ListedInOrder(c: Games, siteMean: real, q: Query, i: nat, j: nat)
    requires i < j < |Listing(c, siteMean, q)|
    ensures var list := Listing(c, siteMean, q); Precedes(c, siteMean, FieldOf(q), DirectionOf(q), list[i], list[j])
  {
    var ids := Matching(c, q.filters);
    var order := OrderBy(c, siteMean, FieldOf(q), DirectionOf(q));
    EveryOrderingIsStrict(c, siteMean, FieldOf(q), DirectionOf(q), ids);
    SortedIsInOrder(order, ids);
    var list := Listing(c, siteMean, q);
    hide Sorted, Matching, FieldOf, DirectionOf, StrictTotal, Precedes;
    assert list == Sorted(order, ids);
    assert order(list[i], list[j]);
  }

  /** Of two rows level in no column: the one whose value, or whose id, comes first that way up. */
  predicate Goes(up: bool, x: real, a: nat, y: real, b: nat) {
    if x != y then (if up then x < y else x > y) else if up then a < b else a > b
  }

  /** The way up a query asks for: as it says, or upwards only for a letter, a year other than 0 or a studio. */
  predicate Runs(q: Query, up: bool) {
    || (q.orderDir == Some("ASC") && up)
    || (q.orderDir == Some("DESC") && !up)
    || (q.orderDir in {None, Some("")} && up == OfSomething(q.filters))
  }

  predicate OfSomething(f: Filters) {
    || f.letter !in {None, Some("")} || f.year !in {None, Some(0)} || f.developer !in {None, Some("")}
    || f.publisher !in {None, Some("")}
  }

  /** The votes count, and five more at the site's mean; unrated is nothing. */
  predicate Scores(g: Game, siteMean: real, score: real) {
    if g.ratingCount == 0 then score == 0.0
    else score * (g.ratingCount + 5) as real == g.ratingSum as real + 5.0 * siteMean
  }

  lemma WeightedScores(g: Game, siteMean: real, score: real)
    ensures Scores(g, siteMean, score) <==> score == WeightedRating(g, siteMean)
  {
    if g.ratingCount > 0 {
      var total, votes := g.ratingSum as real + 5.0 * siteMean, (g.ratingCount + 5) as real;
      assert WeightedRating(g, siteMean) == total / votes;
      DividedBack(total, votes, score);
    }
  }

  lemma DividedBack(total: real, votes: real, score: real)
    requires votes > 0.0
    ensures score * votes == total <==> score == total / votes
  {
    assert (total / votes) * votes == total;
    if score * votes == total { assert (score * votes) / votes == score; }
  }

  /** What each ordering sorts by, on two rows of the listing, and which one a query without any has. */
  lemma ListedBy(c: Games, siteMean: real, q: Query, up: bool, i: nat, j: nat)
    requires Refusal(q).None? && Runs(q, up) && i < j < |Listing(c, siteMean, q)|
    ensures var a, b := Listing(c, siteMean, q)[i], Listing(c, siteMean, q)[j];
      && a in c && b in c
      && (q.orderBy == Some("title") || (q.orderBy in {None, Some("")} && !Searching(q.filters) && OfSomething(q.filters)) ==>
        Goes(up, c[a].titleRank as real, a, c[b].titleRank as real, b))
      && (q.orderBy == Some("createdAt") ==> Goes(up, c[a].createdAt as real, a, c[b].createdAt as real, b))
      && (q.orderBy == Some("release") ==>
        if c[a].release.Some? && c[b].release.Some?
        then Goes(up, c[a].release.value as real, a, c[b].release.value as real, b)
        else c[b].release.None? && (c[a].release.None? ==> if up then a < b else a > b))
      && (q.orderBy == Some("rating") || (q.orderBy in {None, Some("")} && !Searching(q.filters) && !OfSomething(q.filters)) ==>
        forall x, y :: Scores(c[a], siteMean, x) && Scores(c[b], siteMean, y) ==> Goes(up, x, a, y, b))
  {
    ListedInOrder(c, siteMean, q, i, j);
    var a, b := Listing(c, siteMean, q)[i], Listing(c, siteMean, q)[j];
    NamesSomething(q.filters);
    assert DirectionOf(q) == if up then Ascending else Descending;
    var field := FieldOf(q);
    hide Listing, DirectionOf, Searching, Scores, Precedes, Runs, OfSomething, NamesAListing, Goes;
    if !field.ByRelevance? { PrecedesOnRows(c, siteMean, field, up, a, b); }
  }

  lemma PrecedesOnRows(c: Games, siteMean: real, field: Field, up: bool, a: nat, b: nat)
    requires !field.ByRelevance? && Precedes(c, siteMean, field, if up then Ascending else Descending, a, b)
    ensures a in c && b in c
    ensures field == ByTitle ==> Goes(up, c[a].titleRank as real, a, c[b].titleRank as real, b)
    ensures field == ByCreated ==> Goes(up, c[a].createdAt as real, a, c[b].createdAt as real, b)
    ensures field == ByRelease ==>
      if c[a].release.Some? && c[b].release.Some?
      then Goes(up, c[a].release.value as real, a, c[b].release.value as real, b)
      else c[b].release.None? && (c[a].release.None? ==> if up then a < b else a > b)
    ensures field == ByRating ==>
      forall x, y :: Scores(c[a], siteMean, x) && Scores(c[b], siteMean, y) ==> Goes(up, x, a, y, b)
  {
    hide Scores, WeightedRating;
    forall x, y | Scores(c[a], siteMean, x) && Scores(c[b], siteMean, y)
      ensures x == WeightedRating(c[a], siteMean) && y == WeightedRating(c[b], siteMean)
    {
      WeightedScores(c[a], siteMean, x);
      WeightedScores(c[b], siteMean, y);
    }
  }

  lemma NamesSomething(f: Filters)
    ensures OfSomething(f) == NamesAListing(f)
  {
  }

  /** Undated games come after the dated ones in either direction of a listing by year. */
  lemma UndatedComeLast(c: Games, siteMean: real, q: Query, i: nat, j: nat)
    requires FieldOf(q) == ByRelease && i < j < |Listing(c, siteMean, q)|
    ensures
      var list := Listing(c, siteMean, q);
      && list[i] in c && list[j] in c
      && (c[list[j]].release.Some? ==> c[list[i]].release.Some?)
      && (c[list[j]].release.Some? && DirectionOf(q) == Ascending ==> c[list[i]].release.value <= c[list[j]].release.value)
      && (c[list[j]].release.Some? && DirectionOf(q) == Descending ==> c[list[i]].release.value >= c[list[j]].release.value)
  {
    ListedInOrder(c, siteMean, q, i, j);
    hide Listing, FieldOf, DirectionOf;
  }

  /** How the tiers read: each is a closer match than the next, and every one of them is a match. */
  lemma TiersAreMatches(s: Search, g: Game)
    ensures Tier(s, g) == 4 <==> Lower(g.title) == Lower(Term(s))
    ensures Tier(s, g) >= 3 <==> Lower(Term(s)) <= Lower(g.title)
    ensures Tier(s, g) >= 2 <==> Contains(Lower(g.title), Lower(Term(s)))
    ensures Tier(s, g) >= 1 <==>
      Contains(Lower(g.title), Lower(Term(s))) || ContainedIn(g.developer, Term(s)) || ContainedIn(g.publisher, Term(s))
    ensures Tier(s, g) <= 4 && (Tier(s, g) >= 1 ==> SearchCondition(s, g) == Yes)
    ensures Tier(s, g) == 0 && SearchCondition(s, g) == Yes ==> SimilarityOf(s, g).matches
  {
    SearchIsContaining(g.title, Term(s));
    PrefixIsBeginning(g.title, Term(s));
    if g.developer.Some? { SearchIsContaining(g.developer.value, Term(s)); }
    if g.publisher.Some? { SearchIsContaining(g.publisher.value, Term(s)); }
    assert Lower(Term(s)) <= Lower(g.title) ==> Contains(Lower(g.title), Lower(Term(s)));
    hide Contains, ILike, Term, SimilarityOf, EscapeLike;
  }

  /** Results nobody asked to have sorted come closest match first, then better rated, then newer. */
  lemma CloserMatchesComeFirst(c: Games, siteMean: real, q: Query, i: nat, j: nat)
    requires Searching(q.filters) && !Given(q.orderBy) && i < j < |Listing(c, siteMean, q)|
    ensures
      var list, s := Listing(c, siteMean, q), q.filters.search.value;
      && list[i] in c && list[j] in c
      && Tier(s, c[list[i]]) >= Tier(s, c[list[j]])
      && (Tier(s, c[list[i]]) == Tier(s, c[list[j]]) ==>
            SimilarityOf(s, c[list[i]]).score >= SimilarityOf(s, c[list[j]]).score)
      && (Tier(s, c[list[i]]) == Tier(s, c[list[j]]) && SimilarityOf(s, c[list[i]]).score == SimilarityOf(s, c[list[j]]).score ==>
            forall x, y :: Averages(c[list[i]], x) && Averages(c[list[j]], y) ==> Goes(false, x, list[i], y, list[j]))
  {
    assert FieldOf(q) == ByRelevance(q.filters.search.value);
    ListedInOrder(c, siteMean, q, i, j);
    var a, b := Listing(c, siteMean, q)[i], Listing(c, siteMean, q)[j];
    hide Listing, FieldOf, DirectionOf, Searching, Tier, SimilarityOf, Average, Averages;
    forall x, y | Averages(c[a], x) && Averages(c[b], y) ensures x == Average(c[a]) && y == Average(c[b]) {
      AveragesIff(c[a], x);
      AveragesIff(c[b], y);
    }
  }

  /** The plain average of the votes; unrated is nothing. */
  predicate Averages(g: Game, average: real) {
    if g.ratingCount == 0 then average == 0.0 else average * g.ratingCount as real == g.ratingSum as real
  }

  lemma AveragesIff(g: Game, average: real)
    ensures Averages(g, average) <==> average == Average(g)
  {
    if g.ratingCount > 0 { DividedBack(g.ratingSum as real, g.ratingCount as real, average); }
  }

  /** A few votes move a game only part of the way: its score lies between its own average and the site's. */
  lemma ScoresArePulledToTheMean(g: Game, siteMean: real)
    requires g.ratingCount > 0
    ensures
      var average, score := g.ratingSum as real / g.ratingCount as real, WeightedRating(g, siteMean);
      && (average <= siteMean ==> average <= score <= siteMean)
      && (average >= siteMean ==> siteMean <= score <= average)
  {
    var n, k := g.ratingCount as real, RATING_CONFIDENCE_WEIGHT as real;
    var average, score := g.ratingSum as real / n, WeightedRating(g, siteMean);
    assert average * n == g.ratingSum as real;
    assert score * (n + k) == average * n + k * siteMean;
    assert (score - siteMean) * (n + k) == (average - siteMean) * n;
    assert (score - average) * (n + k) == (siteMean - average) * k;
    ProductSign(score - siteMean, n + k);
    ProductSign(average - siteMean, n);
    ProductSign(score - average, n + k);
    ProductSign(siteMean - average, k);
  }

  lemma ProductSign(a: real, p: real)
    requires p > 0.0
    ensures a * p >= 0.0 <==> a >= 0.0
    ensures a * p <= 0.0 <==> a <= 0.0
  {
  }

  // ---- Neighbours ----

  function ByTitleAndId(c: Games): Order { OrderBy(c, 0.0, ByLowerTitle, Ascending) }

  function Backwards(c: Games): Order { OrderBy(c, 0.0, ByLowerTitle, Descending) }

  /** (LOWER("title"), "id") > (LOWER($1), $2), nearest first. */
  ghost function NextGame(c: Games, id: nat): Option<nat>
    requires id in c
  {
    var after := set x | x in c && ByTitleAndId(c)(id, x);
    EveryOrderingIsStrict(c, 0.0, ByLowerTitle, Ascending, after);
    if after == {} then None else Some(First(ByTitleAndId(c), after))
  }

  ghost function PrevGame(c: Games, id: nat): Option<nat>
    requires id in c
  {
    var ahead := set x | x in c && ByTitleAndId(c)(x, id);
    EveryOrderingIsStrict(c, 0.0, ByLowerTitle, Descending, ahead);
    if ahead == {} then None else Some(First(Backwards(c), ahead))
  }

  ghost predicate Adjacent(c: Games, a: nat, b: nat) {
    ByTitleAndId(c)(a, b) && forall x :: x in c ==> !(ByTitleAndId(c)(a, x) && ByTitleAndId(c)(x, b))
  }

  /** The next game, by what lies between: nothing. */
  lemma NextIsAdjacent(c: Games, a: nat, b: nat)
    requires a in c && b in c
    ensures NextGame(c, a) == Some(b) <==> Adjacent(c, a, b)
  {
    EveryOrderingIsStrict(c, 0.0, ByLowerTitle, Ascending, c.Keys);
    var after := set x | x in c && ByTitleAndId(c)(a, x);
    EveryOrderingIsStrict(c, 0.0, ByLowerTitle, Ascending, after);
    var order := ByTitleAndId(c);
    assert NextGame(c, a) == if after == {} then None else Some(First(order, after));
    hide NextGame, ByTitleAndId, OrderBy;
    if Adjacent(c, a, b) {
      assert b in after;
    }
  }

  lemma PrevIsAdjacent(c: Games, a: nat, b: nat)
    requires a in c && b in c
    ensures PrevGame(c, b) == Some(a) <==> Adjacent(c, a, b)
  {
    EveryOrderingIsStrict(c, 0.0, ByLowerTitle, Ascending, c.Keys);
    BackwardsIsTheOtherWay(c);
    var ahead := set x | x in c && ByTitleAndId(c)(x, b);
    EveryOrderingIsStrict(c, 0.0, ByLowerTitle, Descending, ahead);
    var order := Backwards(c);
    assert PrevGame(c, b) == if ahead == {} then None else Some(First(order, ahead));
    hide PrevGame, ByTitleAndId, OrderBy, Backwards;
    if Adjacent(c, a, b) {
      assert a in ahead;
    }
  }

  /** On the rows: x comes behind a in the order of lower-cased titles, and of ids where those are the same. */
  predicate Behind(c: Games, a: nat, x: nat)
    requires a in c && x in c
  {
    c[x].lowerTitleRank > c[a].lowerTitleRank || (c[x].lowerTitleRank == c[a].lowerTitleRank && x > a)
  }

  lemma BehindIff(c: Games, a: nat, x: nat)
    requires a in c && x in c
    ensures ByTitleAndId(c)(a, x) <==> Behind(c, a, x)
  {
  }

  /** The next game has the least larger title and id, the previous one the greatest smaller; there is none only at an end. */
  lemma NextIsTheLeastLarger(c: Games, a: nat, b: nat)
    requires a in c && b in c
    ensures NextGame(c, a) == Some(b) <==> Behind(c, a, b) && forall x :: x in c && Behind(c, a, x) ==> x == b || Behind(c, b, x)
    ensures PrevGame(c, b) == Some(a) <==> Behind(c, a, b) && forall x :: x in c && Behind(c, x, b) ==> x == a || Behind(c, x, a)
  {
    NextIsAdjacent(c, a, b);
    PrevIsAdjacent(c, a, b);
    forall x, y | x in c && y in c ensures ByTitleAndId(c)(x, y) <==> Behind(c, x, y) { BehindIff(c, x, y); }
    hide NextGame, PrevGame, ByTitleAndId;
  }

  /** There is a next game unless nothing is behind this one, and a previous one unless this is behind nothing. */
  lemma NeighboursUnlessAtTheEnd(c: Games, a: nat)
    requires a in c
    ensures NextGame(c, a).None? <==> forall x :: x in c ==> !Behind(c, a, x)
    ensures PrevGame(c, a).None? <==> forall x :: x in c ==> !Behind(c, x, a)
  {
    var after, ahead := set x | x in c && ByTitleAndId(c)(a, x), set x | x in c && ByTitleAndId(c)(x, a);
    EveryOrderingIsStrict(c, 0.0, ByLowerTitle, Ascending, after);
    EveryOrderingIsStrict(c, 0.0, ByLowerTitle, Descending, ahead);
    assert NextGame(c, a).None? == (after == {}) && PrevGame(c, a).None? == (ahead == {});
    hide NextGame, PrevGame;
    forall x | x in c ensures x in after <==> Behind(c, a, x) { BehindIff(c, a, x); }
    forall x | x in c ensures x in ahead <==> Behind(c, x, a) { BehindIff(c, x, a); }
    hide ByTitleAndId, Behind;
    assert forall x :: x in after ==> x in c;
    assert forall x :: x in ahead ==> x in c;
  }

  lemma BackwardsIsTheOtherWay(c: Games)
    ensures forall a, b :: a in c && b in c ==> Backwards(c)(a, b) == ByTitleAndId(c)(b, a)
  {
  }

  /** Following "next" and then "previous" leads back. */
  lemma NextAndPrevAreInverse(c: Games, a: nat, b: nat)
    requires a in c && b in c
    ensures NextGame(c, a) == Some(b) <==> PrevGame(c, b) == Some(a)
  {
    NextIsAdjacent(c, a, b);
    PrevIsAdjacent(c, a, b);
  }

  /** The games met by following "next". */
  ghost function Chain(c: Games, id: nat): seq<nat>
    requires id in c
    decreases set x | x in c && ByTitleAndId(c)(id, x)
  {
    var next := NextGame(c, id);
    if next.None? then [id]
    else
      FewerAfter(c, id);
      [id] + Chain(c, next.value)
  }

  lemma FewerAfter(c: Games, id: nat)
    requires id in c && NextGame(c, id).Some?
    ensures NextGame(c, id).value in c
    ensures (set x | x in c && ByTitleAndId(c)(NextGame(c, id).value, x)) < (set x | x in c && ByTitleAndId(c)(id, x))
  {
    EveryOrderingIsStrict(c, 0.0, ByLowerTitle, Ascending, c.Keys);
    var next := NextGame(c, id).value;
    assert ByTitleAndId(c)(id, next) && !ByTitleAndId(c)(next, next);
  }

  /** From any game, "next" visits it and every game after it, once each and in order. */
  lemma {:induction false} ChainVisitsTheRest(c: Games, id: nat)
    requires id in c
    ensures InOrder(ByTitleAndId(c), Chain(c, id))
    ensures Members(Chain(c, id)) == {id} + (set x | x in c && ByTitleAndId(c)(id, x))
    decreases set x | x in c && ByTitleAndId(c)(id, x)
  {
    EveryOrderingIsStrict(c, 0.0, ByLowerTitle, Ascending, c.Keys);
    var next := NextGame(c, id);
    if next.Some? {
      FewerAfter(c, id);
      ChainVisitsTheRest(c, next.value);
      NextIsAdjacent(c, id, next.value);
      ChainGrows(c, id, next.value, Chain(c, next.value));
    }
  }

  lemma ChainGrows(c: Games, id: nat, next: nat, rest: seq<nat>)
    requires id in c && next in c && NextGame(c, id) == Some(next)
    requires InOrder(ByTitleAndId(c), rest) && Members(rest) == {next} + (set x | x in c && ByTitleAndId(c)(next, x))
    ensures InOrder(ByTitleAndId(c), [id] + rest)
    ensures Members([id] + rest) == {id} + (set x | x in c && ByTitleAndId(c)(id, x))
  {
    EveryOrderingIsStrict(c, 0.0, ByLowerTitle, Ascending, c.Keys);
    NextIsAdjacent(c, id, next);
    assert Members([id] + rest) == {id} + Members(rest);
    forall j | 0 <= j < |rest| ensures ByTitleAndId(c)(id, rest[j]) {
      assert rest[j] in Members(rest);
    }
  }

  /** The chain from the first game is the whole catalogue, titles that are the same included. */
  lemma ChainVisitsEveryGame(c: Games)
    requires c != map[]
    ensures
      (EveryOrderingIsStrict(c, 0.0, ByLowerTitle, Ascending, c.Keys);
       var first := First(ByTitleAndId(c), c.Keys);
       PrevGame(c, first).None? && Members(Chain(c, first)) == c.Keys && InOrder(ByTitleAndId(c), Chain(c, first)))
  {
    EveryOrderingIsStrict(c, 0.0, ByLowerTitle, Ascending, c.Keys);
    var first := First(ByTitleAndId(c), c.Keys);
    ChainVisitsTheRest(c, first);
  }
}
