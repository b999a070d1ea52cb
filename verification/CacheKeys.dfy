/**
 * What the site's caches hold, which writes invalidate what, and what a machine
 * drops when it hears about another machine's write.
 */
module CacheKeys {

  /** Every entry some TtlCache of the process holds, by the key it is filed under. */
  datatype Key =
    | Sitemap | GameFeed | NewsFeed | MostPlayedPage
    | FeaturedPool | RecentlyAdded | MostPlayed | TopRated | GameOfTheWeek
    | LatestComments | MostDiscussed
    | Developers | Publishers | Years | NonEmptyListings
    | GameGenres | Health

  datatype Scope = All | Comments

  datatype WriteKind = GameWrite | NewsWrite | CommentWrite

  /** The scope whose counter a write bumps. */
  function ScopeOf(kind: WriteKind): Scope {
    match kind
    case GameWrite => All
    case NewsWrite => All
    case CommentWrite => Comments
  }

  // ---- What entries are loaded from, and what writes change ----

  datatype Relation = Games | GameSlugs | Plays | Picks | CommentRows | News | NewsSlugs

  /** The tables whose rows the entry's load reads; the genres are those of the column's type, whatever the rows. */
  function Reads(key: Key): set<Relation> {
    match key
    case Sitemap => {Games, Plays, News}
    case GameFeed => {Games, GameSlugs}
    case NewsFeed => {News, NewsSlugs}
    case MostPlayedPage => {Games, Plays}
    case MostPlayed => {Games, Plays}
    case GameOfTheWeek => {Games, Picks}
    case LatestComments => {CommentRows, Games}
    case MostDiscussed => {CommentRows, Games}
    case GameGenres => {}
    case Health => {}
    case _ => {Games}
  }

  /** A game's write may rewrite its history, and a deletion takes its plays, picks and comments along. */
  function Touches(kind: WriteKind): set<Relation> {
    match kind
    case GameWrite => {Games, GameSlugs, Plays, Picks, CommentRows}
    case NewsWrite => {News, NewsSlugs}
    case CommentWrite => {CommentRows}
  }

  /** The write changes rows the entry was loaded from. */
  predicate DependsOn(key: Key, kind: WriteKind) { Reads(key) * Touches(kind) != {} }

  // ---- What is dropped ----

  /** What the writing machine drops by hand. */
  predicate Clears(kind: WriteKind, key: Key) {
    match kind
    case GameWrite =>
      || key.Sitemap? || key.GameFeed? || key.NewsFeed? || key.MostPlayedPage? || key.FeaturedPool?
      || key.RecentlyAdded? || key.MostPlayed? || key.TopRated? || key.GameOfTheWeek?
      || key.LatestComments? || key.MostDiscussed? || key.Developers? || key.Publishers?
      || key.Years? || key.NonEmptyListings?
    case NewsWrite => key.Sitemap? || key.GameFeed? || key.NewsFeed?
    case CommentWrite => key.LatestComments? || key.MostDiscussed?
  }

  /** What a machine drops when a scope's counter turns out to have moved. */
  predicate InEffect(scope: Scope, key: Key) {
    match scope
    case All => true
    case Comments => key.LatestComments? || key.MostDiscussed?
  }

  /**
   * The cached lists a load reads through the cache rather than from the
   * database: building the sitemap asks for the three facet lists.
   */
  function BuiltFrom(key: Key): set<Key> {
    if key == Sitemap then {Developers, Publishers, Years} else {}
  }

  /**
   * Every kind of write drops every entry loaded from what it changes, and besides those only the other feed: the two
   * feeds are one cache, and it is emptied.
   */
  lemma WritesDropWhatTheyChange(kind: WriteKind, key: Key)
    ensures Clears(kind, key) <==>
      DependsOn(key, kind) || (kind.GameWrite? && key == NewsFeed) || (kind.NewsWrite? && key == GameFeed)
  {
    forall t | t in Reads(key) && t in Touches(kind) ensures DependsOn(key, kind) {
      assert t in Reads(key) * Touches(kind);
    }
    assert key.MostPlayedPage? || key.MostPlayed? || key.Sitemap? ==> Games in Reads(key);
  }

  lemma DependentsAreDropped(kind: WriteKind)
    ensures forall key :: DependsOn(key, kind) ==> Clears(kind, key)
  {
    forall key ensures DependsOn(key, kind) ==> Clears(kind, key) { WritesDropWhatTheyChange(kind, key); }
  }

  /** Whoever drops a facet list for a write drops what was built from it too. */
  lemma ClearsReachWhatWasBuiltFromThem(key: Key, part: Key, kind: WriteKind)
    requires part in BuiltFrom(key) && Clears(kind, part)
    ensures Clears(kind, key)
  {
  }

  /**
   * A remote machine drops everything the writing machine dropped locally. It drops
   * exactly that only for a comment: a game write leaves the writer its genre counts
   * and its health answer, and a news write leaves it most of what it holds.
   */
  lemma RemoteDropsWhatTheWriterDropped(kind: WriteKind)
    ensures forall key :: Clears(kind, key) ==> InEffect(ScopeOf(kind), key)
    ensures (forall key :: Clears(kind, key) <==> InEffect(ScopeOf(kind), key)) <==> kind.CommentWrite?
    ensures forall key :: InEffect(ScopeOf(kind), key) && !Clears(kind, key) ==>
      (kind.GameWrite? ==> key in {GameGenres, Health})
  {
    assert InEffect(All, Health) && !Clears(GameWrite, Health) && !Clears(NewsWrite, Health);
  }
}
