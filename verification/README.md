# OldSchoolGames, modelled and proved

This project models the parts of the OldSchoolGames site whose correctness is spread over
several functions, several machines or several requests, and proves what those parts are for.
`dafny verify dfyconfig.toml` checks all of it.

How it is built:

- A protocol (the cache epochs, the check pacing, the game-of-the-week lock, the addresses, the
  CSRF cookie, the log rollover) is a state, the steps that can happen to it, and `Exec`, which
  takes a state through any sequence of steps. A step that cannot happen where it stands changes
  nothing, so "in every run" means: after any sequence of steps. Nothing orders the steps but the
  rules of the system itself: answers arrive late, overtake each other or get lost.
- The mutable objects behind them (`EpochClient`, `RetryQueue`, `TtlCache`, `EpochChecks`,
  `CommentTable`, `RootView`, `LogFile`) are classes whose methods follow the source statement by
  statement; each method is proved against the specification the results speak of.
- SQL is modelled by what a statement reads and writes. A table is a map from ids to rows, one
  statement is atomic, and a recursive query is its rounds. Triggers and cascades are part of the
  statement that fires them.
- Where the code does not do what it is meant to do in every case, the model keeps the code, a
  lemma gives the case, and another says exactly when it does.

What was found on the way:

- A slug is chosen first and committed later, and the history row is written with
  `ON CONFLICT ("slug") DO NOTHING`. A save that is accepted although another game came to hold its
  slug in between takes that game's address over (`AddressRuns.ARaceTakesAnAddress`);
  `AddressRuns.SavesAreSafeIffFresh` says when a save is safe. The note in
  migrations/0054_slug_history_triggers.sql that no model can bring this about overlooks it. Numeric slugs cannot be lost that
  way, because the registry refuses the save (`AddressRuns.NumbersAreNeverTakenOver`).
- utils/cache-epoch.ts:175-176 holds that counters that only go up make a bump and a concurrent
  read equivalent in either order. The counters do come out the same; the caches need not
  (`CacheEpoch.OrderCanMatter`). `CacheEpoch.AnswersInEitherOrder` says exactly when they differ, and
  that it is always the read overtaking the bump that drops more: nothing stale is kept either way.
- utils/logger.ts:161-164 says that after a failed sizing the next line reads the size from disk.
  That holds only while there is no counter. `LogRotation.TheCounterIsRightIff` says for every run
  exactly which appends leave a counter behind, and `LogRotation.AFailedAppendDropsAGeneration` is
  the sequence of calls in which one of them costs the kept generation.
- The lock lets one caller select at a time, but a stream that is restored while a pick of its game
  is still running can make that pick a second current one. `GameOfTheWeek.SaveIsHarmlessIff` and
  `GameOfTheWeek.OnlyOneThroughoutIff` say when it does: when another pick is current by then, or a
  caller already past its re-check can still commit one.
- `countListGames` ignores the years of a list that names a genre as well. No list does;
  `Catalogue.ListsAgreeUnlessBoth` proves that this is the only case in which it is not the count.
- utils/cache-epoch.ts:155-161 holds that a machine told of a write drops exactly what the writer
  dropped. It never drops less, and `CacheKeys.RemoteDropsWhatTheWriterDropped` proves that it drops
  exactly that only after comments: game writes differ in two keys, and a news write drops three
  keys on its own machine and everything on the others. What an entry
  depends on is told by the tables it is read from, and `CacheKeys.WritesDropWhatTheyChange` proves
  that the local clears cover that and go beyond it only in the other feed.
- Nothing that is lost stays unheard: any later number of the scope makes a process drop what the
  write invalidated, whoever's number it is (`CacheSettling.ALaterNumberTellsEverybody`), so from
  every state everybody can still be told (`CacheSettling.CanAlwaysSettle`). The exception is a
  process that hears of no number but its own: its own game writes and comments drop enough
  (`CacheSettling.AnOwnClearTellsItsProcess`), its own news does not
  (`CacheSettling.OnlyItsOwnNumbersTellNothing`). So a bump that lands after a write is
  enough for every machine but the one that bumped, as utils/cache-epoch.ts:198-201 says.

The files, by part of the site:

- Caches: `CacheKeys`, `CacheEpoch`, `CacheProtocol`, `CacheSettling`, `CacheRetrying`,
  `TtlCaches`, `CheckPacing`.
- Game of the week: `GameOfTheWeek`.
- Comments: `IdPages`, `CommentForest`, `CommentViews`, `CommentModeration`.
- Addresses: `Numerals`, `Addresses`, `AddressRuns`, `SlugChoice`.
- Catalogue: `LikePatterns`, `Ordering`, `Catalogue`, `Listings`, `Sitemap`, `FeaturedDraw`.
- Text: `HtmlEntities`, `PlainText`, `TextCuts`.
- Requests and logs: `CsrfTokens`, `CsrfCookie`, `Redirects`, `CspReports`, `LogRotation`.
- `Basics` holds what they share.

## Model

| member | source | states |
|---|---|---|
| CacheKeys.RemoteDropsWhatTheWriterDropped | utils/cache-epoch.ts:155-161 | every other machine drops at least what the writer dropped on its own, and exactly that if and only if the write was a comment; after a game write what it drops besides is the genre counts and the health answer |
| CacheKeys.WritesDropWhatTheyChange | models/game.ts:473-512 | a write drops on its own machine exactly the entries whose loads read a table the write changes (models/news.ts:58-62 and models/comment.ts:824-830 likewise), and besides them only the other feed, which shares a cache |
| CacheKeys.ClearsReachWhatWasBuiltFromThem | models/game.ts:473-512 | whoever drops a facet list for a write also drops the sitemap that was built from it |
| CacheEpoch.AnswersInEitherOrder | utils/cache-epoch.ts:167-182 | a bump answered n and a read that found e may arrive either way round: the counters end the same, a read that overtakes the bump never keeps an entry the other order drops, and the caches end the same unless the read found the bump's own number, one above the one held, and something held is in the scope: exactly then they differ |
| CacheEpoch.OrderCanMatter | utils/cache-epoch.ts:167-182 | two such orders of one bump and one read, of which one keeps the list of comments and one drops it |
| CacheEpoch.EffectsOfARead | utils/cache-epoch.ts:496-509 | dropping for "all" alone when it moved, or for each moved and each newly met scope, is dropping for every scope acted on |
| CacheEpoch.OneRowMore | utils/cache-epoch.ts:464-494 | a row more in the answer is adopted, and acted on exactly when its number is news |
| CacheEpoch.EpochClient.BumpAnswered | utils/cache-epoch.ts:288-306 | the update in place leaves exactly AfterBump of the state before |
| CacheEpoch.EpochClient.ReadAnswered | utils/cache-epoch.ts:448-509 | the loop over the rows and the two rounds of effects leave exactly AfterRead of the state before |
| CacheEpoch.EpochClient.AdoptEpoch | utils/cache-epoch.ts:220-224 | no counter held falls, the scope's is at least the number heard, and it is changed to that number only when the number is news; no other scope's is touched |
| CacheEpoch.RetriesStayOnSchedule | utils/cache-epoch.ts:369-424 | in every transition the attempt stays an index of the delays, and only a retry that is out is marked to go again |
| CacheEpoch.RetryQueue.BumpFailed | utils/cache-epoch.ts:343-357 | a failed first attempt files the scope's one retry, marks the one that is out, or relies on the one that waits; other scopes are untouched |
| CacheEpoch.RetryQueue.TimerFired | utils/cache-epoch.ts:369-384 | the retry goes out, or is given up when the pool is ending |
| CacheEpoch.RetryQueue.RetryAnswered | utils/cache-epoch.ts:386-424 | a failed retry with attempt below 5 waits again as attempt + 1 with the delay of that index, and only attempt 5 is given up; a landed one goes unless a write failed meanwhile, and then starts over; every other scope is untouched |
| CacheEpoch.EveryEventUsesUpWork | utils/cache-epoch.ts:343-424 | a measure that every answer and every timer lowers, and that only a new bump raises |
| CacheEpoch.RetriesStop | utils/cache-epoch.ts:343-424 | a run with finitely many bumps is finite: its length is bounded by the work it starts with and 16 for each bump |
| CacheProtocol.HeldEntriesAreFresh | utils/cache-epoch.ts:236-332 | in every run of the whole system, an entry a process holds was loaded after every write that changes a table it is read from and stands behind a number the process has taken on; lost answers, overtaking reads, foreign bumps in the gap, first reads and loads in flight included |
| CacheProtocol.WritersAreFreshAtOnce | models/game.ts:473-512 | a process never holds anything older than its own cleared-up writes, whatever becomes of their bumps |
| CacheProtocol.NoWriteIsForgotten | utils/cache-epoch.ts:195-218 | in every reachable state a cleared-up write is announced, on its way, due to be retried, or given up by a terminal outcome; attempts stay within the schedule |
| CacheProtocol.InvKept | utils/cache-epoch.ts:236-525 | every step of the protocol keeps the invariant behind the four results above |
| CacheProtocol.InvAlways | utils/cache-epoch.ts:236-525 | so every run does |
| CacheProtocol.BumpAnswerKeepsCache | utils/cache-epoch.ts:266-304 | adopting a bump's number leaves no entry older than a write behind it: a gap of one is the bump itself, a wider one is acted on |
| CacheProtocol.ReadAnswerKeepsCache | utils/cache-epoch.ts:464-509 | so does adopting what a read found, first reads included |
| CacheProtocol.LoadKeepsCache | utils/cache.ts:52-113 | a load is as fresh as the database it asks and the held lists it is built from, and is shared while it is in flight |
| CacheProtocol.FiringKeepsInv | utils/cache-epoch.ts:369-386 | a retry goes out for every write of its scope cleared up by then, or the drain gives them up |
| CacheProtocol.FailingKeepsInv | utils/cache-epoch.ts:386-424 | a failed attempt leaves its writes covered by the retry, or given up |
| CacheSettling.SettledProcessesAgree | utils/cache-epoch.ts:435-525 | once no bump of a scope is out or due, a process whose number is the scope's holds nothing older than any write of that scope that was ever cleared up after, by a process still running or long gone; only a write that was given up on, has not been announced since, and has had no number of anybody else's come after it is excepted |
| CacheSettling.ALaterNumberTellsEverybody | utils/cache-epoch.ts:195-201 | in every run, whatever becomes of a committed write's own bump and of its process: once a process has taken on any later number of the scope that is not one of its own, it holds nothing older than the write; lost, given-up and never cleared-up writes included |
| CacheSettling.AnOwnClearTellsItsProcess | models/game.ts:473-512 | a process that clears up after a game write, or after a comment, holds from then on nothing older than any write of that scope committed by then |
| CacheSettling.OnlyItsOwnNumbersTellNothing | utils/cache-epoch.ts:288-306 | the exception is real: a run in which a process posts news, takes on its own number above the one from before a lost deletion, and keeps the old most-played list |
| CacheSettling.CanAlwaysSettle | utils/cache-epoch.ts:236-525 | from every reachable state, with no crash, loss, load or eviction, some run leaves the scope quiet and any one process caught up, holding nothing older than any write of the scope |
| CacheSettling.NextBumpAnnounces | utils/cache-epoch.ts:195-201 | a process's next bump of a scope, once carried out, announces every write of the scope it ever cleared up after, those it had given up on included |
| CacheSettling.CanQuieten | utils/cache-epoch.ts:343-424 | answers and timers bring any reachable state to one with no bump of the scope out or due, with nobody gone; nothing is given up on the way unless a bump that is out was lost |
| CacheSettling.OnceClearedAccountedFor | utils/cache-epoch.ts:195-218 | a cleared-up write is remembered by its process, announced, or on record as given up through any run, crashes included |
| CacheRetrying.AttemptIsAnEvent | utils/cache-epoch.ts:343-424 | a bump answered or a timer fired anywhere in the protocol is one event of its process's retrying in that scope, first attempts and the one retry told apart |
| CacheRetrying.AttemptsAreBounded | utils/cache-epoch.ts:343-424 | in every run of the whole system the answers and timers of one process and scope are at most sixteen for each write it cleared up after: retrying stops |
| CacheRetrying.AttemptIsTheStreak | utils/cache-epoch.ts:386-424 | through any run the attempt a retry stands at is the number of its failures in a row, counted off the run's steps |
| CacheRetrying.OnlyTheSixthFailureGivesUp | utils/cache-epoch.ts:386-424 | in every run: writes are given up only by a crash, a drain, a broken database, or a retry's failure that is its scope's sixth in a row |
| CacheRetrying.OnlyTheUncoveredAreGivenUp | utils/cache-epoch.ts:386-424 | a write goes on record as given up only when its process had cleared up after it and no number, no bump out and no retry covers it any longer |
| TtlCaches.TimersAreTheHeldSettledLoads | utils/cache.ts:52-150 | in every run at most one load is held per key, and the live timers are exactly the held settled loads that have a lifetime |
| TtlCaches.OldLoadsTouchNothingNewer | utils/cache.ts:69-128 | a load that settles or expires late leaves the entry that replaced it, and its timer, alone |
| TtlCaches.DroppedLoadsStayDropped | utils/cache.ts:78-85 | a load dropped by hand is never held again and never gets a timer |
| TtlCaches.HeldNoLongerThanItsLifetime | utils/cache.ts:69-110 | a settled load is gone by the end of its lifetime, counted from when it resolved, through any run; and whenever one is held, its timer and the clock alone lead past that moment with the load gone |
| TtlCaches.SettledIsKeptFor | utils/cache.ts:69-110 | a value is kept for its lifetime from when it resolved, a negative one counting as none; a failure for its own if that is positive, and not at all otherwise |
| TtlCaches.HeldUntilItsTimer | utils/cache.ts:69-128 | and it is held up to that moment through any run that neither deletes its key nor clears the cache |
| TtlCaches.PickIsNotHeldPastItsEnd | middlewares/sidebar-data.ts:33-45 | a game-of-the-week pick is never held past its own end date, nor past the moment it resolved if that was later, and expiries and the clock alone see it go |
| TtlCaches.PickIsHeldThatLong | middlewares/sidebar-data.ts:33-45 | nor for less than the hour, or the time to its end date if that is shorter |
| TtlCaches.TimeCanPass | utils/cache.ts:96-128 | in every state reached the due timers can fire, and after them the clock goes on: nothing but expiries is needed for time to pass |
| TtlCaches.TtlCache.Fetch | utils/cache.ts:52-113 | answers with the held load or starts one, and keeps the discipline |
| TtlCaches.TtlCache.LoadSettled | utils/cache.ts:69-110 | both handlers of a load's promise leave exactly the state the rules give |
| TtlCaches.TtlCache.TimerFired | utils/cache.ts:96-128 | an expiry evicts only the load it was armed for |
| TtlCaches.TtlCache.ClearAll | utils/cache.ts:144-150 | the loop stops every timer before the entries go |
| CheckPacing.ReadsAreSpaced | utils/cache-epoch.ts:435-519 | in every run a read starts exactly when a new request comes, none is in flight, and 10 s have passed since the start of the last success or 1 s since the last failure arrived |
| CheckPacing.NobodyWaitsPastTheBudget | utils/cache-epoch.ts:563-588 | no request has waited longer than SYNC_TIMEOUT_MS in any run; and from every state with one waiting there is a run of timers, continuations and the clock alone, the database never answering, that passes its budget with the request gone on |
| CheckPacing.WhoWaits | utils/cache-epoch.ts:555-580 | a request waits exactly when the process is answering and a check is out or starts, and for that check |
| CheckPacing.NobodyGoesOnEarly | utils/cache-epoch.ts:563-588 | in every run a request that waits goes on only when its check is no longer out or its whole budget is up |
| CheckPacing.TimeCanPass | utils/cache-epoch.ts:563-588 | with no answer from the database, the timeouts and the continuations of those who wait always let the clock go on |
| CheckPacing.OneFailureSparesTheRest | utils/cache-epoch.ts:540-562 | once a check failed, or a request gave up on one still out, nobody waits but those left waiting then, until a check succeeds |
| CheckPacing.LateSuccessStands | utils/cache-epoch.ts:583-588 | a success between a request's timer and its continuation is not overwritten |
| CheckPacing.EpochChecks.Sync | utils/cache-epoch.ts:435-445 | a check that is out is the one returned; with none out, none is returned exactly inside the interval since the last, and a new one starts now otherwise |
| CheckPacing.EpochChecks.WaitOver | utils/cache-epoch.ts:583-588 | the process is called unresponsive only if the wait timed out and that same check is still out; otherwise it is left as it was, and never called answering again by a wait |
| GameOfTheWeek.AtMostOnePickIsCurrent | models/game-of-the-week.ts:167-240 | under every interleaving of any number of callers, edits and deletions whose revivals are harmless, from the first insertion on at most one pick is playable and current at any moment |
| GameOfTheWeek.OnlyOneFromNowOnIffCalm | models/game-of-the-week.ts:167-240 | in any reachable state, at most one pick is current now and through every later run without a further revival, if and only if at most one is current and no caller past its re-check can still commit one beside it: one whose week overlaps and whose game can be played, or made so once its other picks are over |
| GameOfTheWeek.SaveIsHarmlessIff | models/game-of-the-week.ts:207-235 | the same of the state a save leaves, which says when restoring a stream is harmless |
| GameOfTheWeek.OnlyOneThroughoutIff | models/game-of-the-week.ts:167-240 | over a whole run from at most one current pick: uniqueness is safe at every step if and only if every restored stream of a running pick left the site calm |
| GameOfTheWeek.AChanceDoubles | models/game-of-the-week.ts:108-165 | a caller past its re-check who can still commit a current pick has a run, reviving nothing, in which two are current |
| GameOfTheWeek.InsertedOnlyWhenNoneIsCurrent | models/game-of-the-week.ts:196-219 | with nothing revived, when a caller has inserted, every committed pick is over or unplayable from that moment on, although the new one is stamped with its transaction's beginning |
| GameOfTheWeek.OneCallerPastTheLock | models/game-of-the-week.ts:190-235 | in every run, revivals or not, a caller between the lock and COMMIT or ROLLBACK is alone, and a lock has a caller that will release it |
| GameOfTheWeek.AsksIffNoneIsCurrent | models/game-of-the-week.ts:167-190 | a selection is started only while no pick of a playable game holds the moment |
| GameOfTheWeek.ChoosesWhatSuits | models/game-of-the-week.ts:126-155 | off the tables alone: the first query chooses exactly a playable game with no pick in the sixty days before the transaction began that is unrated or averages four; it is empty exactly when there is none; the second chooses exactly a playable one |
| GameOfTheWeek.SomethingIsChosenIffPlayable | models/game-of-the-week.ts:126-155 | a selection goes on while some game can be played, and ends without a pick exactly when none can |
| GameOfTheWeek.ChosenWell | models/game-of-the-week.ts:126-155 | over any run: a game that stands chosen was well suited when the first query answered, or was playable when the second did, after the first found no game well suited |
| GameOfTheWeek.InsertsTheChoice | models/game-of-the-week.ts:155-165 | the pick inserted is of the game that was chosen, for seven days from when the transaction began |
| GameOfTheWeek.RecheckGoesOnIff | models/game-of-the-week.ts:209-219 | the re-check goes on to a selection exactly when no pick of a playable game holds the moment |
| GameOfTheWeek.TheLockIsGivenUp | models/game-of-the-week.ts:190-235 | whoever holds the lock comes to the end by at most five statements of its own, with one pick committed if there was one to make, and no other change |
| GameOfTheWeek.ARevivedPickIsASecondOne | models/game-of-the-week.ts:207-215 | a harmful one spelled out: a stream restored within its pick's week, after that pick was replaced, makes a second current pick |
| IdPages.NewestIsAWindow | models/comment.ts:266-273 | ORDER BY id DESC LIMIT n, read back: ascending, as full as it can be, nothing newer left out |
| IdPages.WalkIsExact | routes/comments.ts:442-508 | paging by the oldest id of each page shows nothing twice and nothing that never was there, and by its empty page everything that was there throughout, whatever is posted or deleted meanwhile |
| IdPages.ShownIsThere | routes/comments.ts:442-508 | what a page shows was in the table that page was read from, and below the cursor it was asked for with |
| IdPages.WalkEnds | routes/comments.ts:442-508 | the walk ends, from a cursor or from none: every page moves the cursor below what it showed |
| IdPages.LeftOverIsBelow | models/comment.ts:400-403 | what a page leaves over is exactly what lies below its oldest id |
| CommentForest.DescendIsEverythingBelow | models/comment.ts:378-384 | the rounds produce exactly the working table and every comment below it |
| CommentForest.GameFilterIsIdle | models/comment.ts:378-384 | naming the game in the recursion changes nothing: findReplies and findByGameId walk the same thread |
| CommentForest.EveryReplyIsCountedOnce | models/comment.ts:319-334 | UNION ALL meets no comment twice, so COUNT(*) OVER () is the number of replies |
| CommentForest.DescentMeetsAscent | models/comment.ts:372-426 | a comment is in a root's thread exactly when the ascent from it ends at that root |
| CommentForest.LinkedCommentIsShownInItsThread | models/comment.ts:411-445 | null exactly for a comment not on the game; else the one root whose thread holds it, the ordinary page with the linked reply in its place, and the ordinary cursor and count |
| CommentForest.RemainingIsWhatLiesBelow | models/comment.ts:396-403 | remaining is exactly the number of matching replies below the cursor returned, and an empty page means there are none |
| CommentForest.ThreadAfterIsReplies | models/comment.ts:372-403 | said on the rows: a page of replies, with before and after, chooses among exactly the comments below the root on its game inside the two bounds |
| CommentForest.ReplyPagingIsExact | routes/comments.ts:367-404 | reply paging, with before and after, over a table that changes between the pages: ascending, nothing twice, each one shown was a reply below that root on that game when its own page was read, every one that was so throughout is shown, and it ends, with or without a first cursor |
| CommentForest.RootPagingIsExact | routes/comments.ts:442-508 | the same for the comments of a game that have no parent |
| CommentForest.LinkedThreadCanBeReadWhole | models/comment.ts:434-442 | opening a thread by a link and paging on from the cursor it kept shows every reply of the thread |
| CommentViews.FiledIsThePage | models/comment.ts:344-362 | the rows of one query over all roots, filed by root, are for each root the page its own thread would be asked for, total and all |
| CommentViews.FileReplies | models/comment.ts:337-364 | the two loops leave every root with the replies, the hidden count and the cursor of its own findReplies page |
| CommentViews.CountOlderIsTheRest | models/comment.ts:468-476 | a batch of roots and countOlderThan its oldest add up to what there was to read |
| CommentModeration.DoomedIsEverythingUnder | models/comment.ts:685-693 | the preview's UNION recursion finds exactly the source's comments and everything below them |
| CommentModeration.CascadeTakesEverythingUnder | models/comment.ts:635-638 | removing rows and then orphans until there are none removes exactly the rows and everything below, and changes no other |
| CommentModeration.WhatIsLeftIsAForest | models/comment.ts:635-638 | no survivor has a dangling parent |
| CommentModeration.PreviewPredictsTheDelete | models/comment.ts:671-754 | the rows that go are total + otherReplies of the preview, the count returned is total, nothing else changes; no preview, no change |
| CommentModeration.WhatASourceTakes | models/comment.ts:737-754 | on the rows: a comment survives the delete exactly when neither it nor any comment above it has the source of the one named, and the count returned is the number of rows with that source |
| CommentModeration.WhatThePreviewCounts | models/comment.ts:671-708 | total is the number of rows with the source of the one named, otherReplies the number of the rest below them; nothing exactly for a comment that is gone or has no source |
| CommentModeration.CommentTable.Post | models/comment.ts:606-633 | a reply is taken exactly when its parent is on the same game (routes/comments.ts:606-615), and the two widgets are dropped and the scope bumped exactly then |
| CommentModeration.CommentTable.Delete | models/comment.ts:646-657 | a comment goes with everything below it, and the caches are dropped only when there was one |
| CommentModeration.CommentTable.DeleteSameSource | models/comment.ts:737-754 | the rows left are those of which neither they nor anything above them has the source of the row named; the count is the rows with that source; caches are dropped only when something went |
| CommentModeration.CommentTable.PruneSources | models/comment.ts:773-812 | for any batch size above 0 the sweep ends; it clears every source past the window when it began, none within it when it ended, changes nothing else, and reports how many |
| Numerals.OneSpellingPerId | utils/ids.ts:18-36 | parseId and game_numeric_address accept exactly one spelling of each id |
| Addresses.RouterServes | routes/home.ts:1161-1220 | in a healthy site the router opens an entry at an address exactly when the history, or failing that the id, says so, and one redirect always suffices |
| Addresses.CurrentSlugOpens | routes/home.ts:1181-1182 | the current slug opens its entry with no redirect |
| Addresses.CreateKeeps | models/game.ts:1610-1654 | an accepted create keeps the site healthy and every address with its holder; the new game answers at its slug and at its number |
| Addresses.UpdateKeeps | models/game.ts:1656-1724 | so does an accepted save of an existing entry |
| Addresses.DeleteKeeps | models/game.ts:1734-1750 | so does a deletion, hard or soft, after which no address serves the entry |
| Addresses.CandidateIsServed | migrations/0062_game_numeric_address_legacy_refresh.sql:5-42 | a released number goes to whom the router would find there |
| AddressRuns.AddressesNeverChangeHands | routes/home.ts:1184-1216 | through any run of creates, renames and deletes with fresh slugs, whatever an address opens it goes on opening, in at most one redirect, while the entry is there; numeric ids included |
| AddressRuns.SlugsOnceHeldStillOpen | models/game.ts:919-928 | every slug an entry was ever live at still opens it |
| AddressRuns.NewEntriesOpen | migrations/0060_games_numeric_addresses.sql:1-20 | a new game's number opens it, because no slug past or present spells it |
| AddressRuns.HistoricalNumbersWin | routes/home.ts:1184-1192 | a historical slug that is also an id opens the game that held it |
| AddressRuns.SavesAreSafeIffFresh | models/game.ts:1616-1646 | a save that is accepted keeps the site healthy if and only if nobody else has ever held its slug at the moment it commits, and every address with its holder if and only if that, or the slug's holder is a hidden article, which it opens no longer; "ON CONFLICT DO NOTHING" does not refuse the others |
| AddressRuns.TakenOver | models/game.ts:1637-1646 | what happens otherwise: the slug's holder loses it to the save |
| AddressRuns.NumbersAreNeverTakenOver | migrations/0065_game_numeric_address_recreated_claim.sql:6-50 | a numeric slug cannot be lost that way: the registry refuses the save |
| AddressRuns.ARaceTakesAnAddress | models/game.ts:1616-1646 | the race spelled out: a new "doom" saved while another game takes the slug and is renamed away |
| AddressRuns.FirstSlugIsForGood | utils/slug.ts:275-310 | the slug an entry had first stays its first through any run, and goes on opening it |
| AddressRuns.DeletedAnswersNowhere | models/news.ts:329-348 | after a deletion no address opens the entry |
| AddressRuns.RetiredSlugsStayRetired | models/news.ts:118-127 | the slugs of a soft-deleted article answer nothing ever after and go to no other |
| SlugChoice.ResolveSlug | utils/slug.ts:220-273 | the loop ends, with the base when it is free and else the lowest free suffix; free means no other entry ever held it, it is nobody's id and, for the base, no fixed page |
| SlugChoice.ResolveSlugForUpdate | utils/slug.ts:343-390 | the slug is kept exactly for a live row whose title is unchanged, or whose old and new title come to one base that its slug is, suffixed or not; it is free otherwise |
| SlugChoice.NextAvailableId | migrations/0060_games_numeric_addresses.sql:197-214 | the sequence stops at the first number that names neither a game nor a claimed address |
| SlugChoice.CreatesSucceed | models/game.ts:1610-1654 | a slug chosen and committed with nothing in between is accepted, opens the entry, and moves nobody else's address |
| SlugChoice.UpdatesSucceed | models/game.ts:1656-1724 | the same for a rename, after which the old slug opens the entry too |
| Catalogue.GroupIsFilter | models/game.ts:1555-1583 | for every row and listing, NULLs and empty strings included, a branch of the grouped query counts the row exactly when buildGameFilters selects it |
| Catalogue.SelectedIff | models/game.ts:621-735 | for every combination of filters a game is selected exactly when it meets each one given: genre, letter page, year, both bounds, the trimmed term in title or studio or a close title, developer, and publisher with the developer in its stead when there is none |
| Catalogue.GroupedCountsAgree | models/game.ts:1504-1608 | getSitemapCounts equals count() with the listing's filter for every letter bucket, genre, developer, publisher and year |
| Catalogue.FacetsNameTheGroups | models/game.ts:1886-1950 | the developers, publishers and years the three DISTINCT queries list are exactly those the grouped query has a game for, getPublishers' UNION against its COALESCE(NULLIF(...)) included |
| Catalogue.NamesAreGroups | models/game.ts:1907-1924 | row by row, NULLs and empty strings included: an arm of the UNION names a game under what the grouping credits it to |
| Catalogue.LatestIsTheNewest | models/game.ts:1538-1544 | the date of a group is that of the newest edit among exactly its games, and there is one exactly when there are games |
| Catalogue.DigitsAreARange | models/game.ts:658-666 | from "0" to below ":" in byte order is beginning with a digit |
| Catalogue.BucketsPartition | utils/letter-buckets.ts:38-61 | the 27 buckets list every game whose slug begins with a letter or digit on exactly one page, and their counts add up to the catalogue |
| Catalogue.SearchFinds | models/game.ts:535-565 | a search selects exactly the games with the term, as typed and in any capitals, in the title, the developer or the publisher, and those pg_trgm finds close |
| Catalogue.CountListGames | routes/lists.ts:386-421 | the loop over the grouped counts of a catalogue answers a genre's count, the count of the years in range, or the whole catalogue's |
| Catalogue.ListsAgreeUnlessBoth | routes/lists.ts:386-421 | countListGames equals count(countParams) on every catalogue if and only if the list does not name both a genre and years; a catalogue where it fails otherwise |
| LikePatterns.BeginsWith | models/game.ts:667-676 | an escaped term with "%" behind it matches exactly the texts that begin with the term |
| LikePatterns.HasSomewhere | models/game.ts:522-530 | an escaped term between "%" matches exactly the texts that hold the term |
| LikePatterns.EscapingIsNeededIff | models/game.ts:522-530 | unescaped, a term finds just those texts if and only if it holds no backslash, "%" or "_" |
| Ordering.SortedIsInOrder | models/game.ts:1070-1090 | sorting by a strict total order keeps every row, once, in order |
| Ordering.PagesAreTheList | models/game.ts:1054-1064 | LIMIT and OFFSET cut a listing into pages that put together are the listing, with rows on a page exactly up to the last |
| Listings.EveryOrderingIsStrict | models/game.ts:1014-1046 | no ordering find builds ever ties, in either direction, NULLS LAST and the relevance of a search included |
| Listings.ListedBy | models/game.ts:1012-1058 | what each orderBy sorts by, read off two rows of a listing: title, date added, year with the undated last, or the weighted score; and what a query without one is sorted by; the id settles ties the same way round |
| Listings.AnsweredIff | models/game.ts:957-985 | find answers exactly the queries whose orderBy and orderDir it knows and whose page past the first has a limit, and says which of the two it does not know |
| Listings.UnpagedIsTheFront | models/game.ts:1064-1075 | without a page, or below the first, the answer is the front of the listing, or all of it without a limit |
| Listings.PagesAreTheListing | models/game.ts:930-1155 | the pages of any query find accepts, searches included, are the filtered games, once each, sorted; a page has rows exactly up to the last one count() announces |
| Listings.UndatedComeLast | models/game.ts:1017-1042 | in a listing by year, either way round, undated games come after the dated ones, which are in order |
| Listings.CloserMatchesComeFirst | models/game.ts:567-593 | results nobody asked to have sorted come by tier, then similarity, then plain average, then newest |
| Listings.TiersAreMatches | models/game.ts:578-593 | the tiers mean what they say: the title is the term, begins with it, holds it, or a studio does; only fuzzy matches have no tier |
| Listings.ScoresArePulledToTheMean | models/game.ts:283-315 | a rated game's score lies between its own average and the site's mean |
| Listings.NextAndPrevAreInverse | models/game.ts:1992-2048 | b follows a exactly when a precedes b |
| Listings.NextIsTheLeastLarger | models/game.ts:1992-2048 | on the rows: the next game has the least larger pair of lower-cased title and id, the previous one the greatest smaller |
| Listings.NeighboursUnlessAtTheEnd | models/game.ts:1992-2048 | and there is none exactly at the two ends |
| Listings.NextIsAdjacent | models/game.ts:2022-2028 | the next game is the one with nothing between |
| Listings.ChainVisitsEveryGame | models/game.ts:1992-2048 | following "next" from the first game visits the whole catalogue, once each and in order, equal titles included |
| Sitemap.NamedPagesAreServedPages | routes/sitemap.ts:279-391 | over one catalogue the document names a page of a letter, genre, developer, publisher or year exactly when find() has games for that page |
| Sitemap.BuildEntries | routes/sitemap.ts:86-443 | the nested loops, the two entries put in front and the two tables behind leave exactly the document the specification describes, in its order |
| Sitemap.StaleFacetsNameTheFirstPage | routes/sitemap.ts:325-391 | with facet lists of another age: letters and genres as before; a studio or year is named if its list has it, with the pages find() has games for and the first page if there are none |
| Sitemap.FrontPagesAreNamed | routes/sitemap.ts:218-275 | the home page and the news are always named, with exactly the deeper pages that have something on them |
| Sitemap.FrontPagesAreDated | routes/sitemap.ts:137-162 | the news are dated by the newest edit of an article, the home page by the newest of a game or an article, and neither without one |
| Sitemap.StandingPagesAreNamed | routes/sitemap.ts:229-262 | exactly the nine standing pages are named, and the ranking by plays once something has been played, none of them dated |
| Sitemap.NamedListsHaveGames | routes/sitemap.ts:273-290 | each of the fifteen curated lists is named exactly when find() has games for its page |
| Sitemap.EveryRowIsNamed | routes/sitemap.ts:401-440 | every game and live article has its page named, dated by its own last edit, and nothing else is |
| Sitemap.DatesAreTrue | routes/sitemap.ts:163-218 | of the listings only the first page of a letter, studio or year is dated, by the newest edit among its games; rankings, standing pages and deeper pages claim no date |
| Sitemap.NoPageIsNamedTwice | routes/sitemap.ts:86-443 | the whole document names no page twice |
| HtmlEntities.EscapeIsOneMap | utils/html-text.ts:78-85 | five replaces, "&" first, are one map over the characters |
| HtmlEntities.DecodingUndoesEscaping | utils/html-text.ts:35-85 | decodeEntities(escapeHtml(s)) = s for every sequence of code units |
| HtmlEntities.OnePieceBack | utils/html-text.ts:42-62 | the one-pass decoder reads one escaped character off the front whatever follows: it never matches across pieces |
| HtmlEntities.NamedAreDecoded | utils/html-text.ts:25-62 | the six names decode to their characters, whatever follows |
| HtmlEntities.DecimalIsDecoded | utils/html-text.ts:42-62 | a decimal reference decodes to the code units of its number, or stays as written if it is past Unicode or half of a pair |
| HtmlEntities.HexIsDecoded | utils/html-text.ts:42-62 | so does a hexadecimal one, with either x |
| HtmlEntities.NothingElseIsDecoded | utils/html-text.ts:34-62 | where no reference begins, the character stays |
| HtmlEntities.EscapedIsInert | utils/html-text.ts:78-85 | escaped text holds no angle bracket and no quote |
| PlainText.NormalisedIsTidy | utils/html-text.ts:185-190 | the four spacing steps leave no doubled or odd space, none before punctuation or after "(", none at the ends |
| PlainText.NormalisedIsRespaced | utils/html-text.ts:185-190 | the four replacements are one pass over any text: everything but spaces is kept, in order, and between two characters one space stays if there was any, unless behind "(" or before punctuation |
| PlainText.NormalisedOnce | utils/html-text.ts:185-190 | tidy text is left alone; normalising is idempotent |
| PlainText.EscapedReadsBackIffTidy | utils/html-text.ts:178-192 | htmlToPlainText(escapeHtml(t)) = t if and only if t is tidy |
| PlainText.PlainTextReadsBack | utils/html-text.ts:158-192 | htmlToPlainText(escapeHtml(htmlToPlainText(h))) = htmlToPlainText(h) for every h |
| PlainText.TagEndIff | utils/html-text.ts:87-97 | the scanner ends a tag exactly where its quoted values, read whole, leave a ">" |
| PlainText.TagsAreOneSpace | utils/html-text.ts:158-184 | a whole tag becomes one space whatever its quoted values hold |
| PlainText.NonTextElements | utils/html-text.ts:119-132 | a tag is one of the twelve non-text elements exactly when it spells the name in any case with no word character behind it |
| PlainText.EndTagsName | utils/html-text.ts:161 | an end tag is "</", the name in any case, and then ">", or a space or slash and all up to the first ">" |
| PlainText.CommentsAreNothing | utils/html-text.ts:158-184 | a comment leaves nothing, from "<!--" to the first "-->" or "--!>", or to the end, whatever markup is in it |
| PlainText.EmptyCommentsAreNothing | utils/html-text.ts:160 | "<!-->" and "<!--->" are whole comments |
| PlainText.TheRestStays | utils/html-text.ts:158-184 | a character that begins no comment and no whole tag stays, an unclosed "<" included |
| PlainText.NonTextGoesWhole | utils/html-text.ts:128-165 | an element that is not text goes with its content, to its first end tag or to the end |
| TextCuts.CutsAreFronts | utils/html-text.ts:234-252 | a cut text is a front of the original, ends in no space, takes one ellipsis, and stays within the budget |
| TextCuts.CutsKeepWholeWords | utils/html-text.ts:234-252 | every word that ends in a space within the budget is kept, and the cut is at the end of a word unless the budget ends within the first |
| TextCuts.WholeIsTheBudget | utils/html-text.ts:237-245 | what is cut from is as much as the budget holds, less the first half of a pair at its end |
| TextCuts.CutsSplitNoCharacter | utils/html-text.ts:234-252 | well-formed UTF-16 stays well formed: no surrogate pair is split |
| TextCuts.FitTitle | utils/html-text.ts:303-315 | the first suffix the whole name fits with, else the cut name with the last one; never longer than TITLE_MAX |
| CsrfTokens.XorBytes | middlewares/csrf.ts:128-136 | the byte loop is the exclusive or of the two buffers |
| CsrfTokens.UnmaskingUndoesMasking | middlewares/csrf.ts:155-170 | unmaskToken(maskToken(s)) = s for every 64-hex secret and every pad |
| CsrfTokens.EveryTokenIsAMasking | middlewares/csrf.ts:163-170 | a token that unmasks to a secret is that secret under some pad |
| CsrfTokens.UnhexHex | middlewares/csrf.ts:155-170 | hex is undone by reading it back |
| CsrfCookie.CookieIsSafeIffNothingOldIsOut | middlewares/csrf.ts:216-286 | a secret a browser holds survives every answer, in any order, until a login mints the next one or the cookie expires, if and only if no safe request it sent without a cookie is still out |
| CsrfCookie.FormsGoThroughIff | middlewares/csrf.ts:304-357 | a form goes through exactly when its page's secret is the cookie's and the origin is not foreign |
| CsrfCookie.ValidatesIff | middlewares/csrf.ts:304-359 | every submission and cookie: it goes through exactly when the verb is GET, HEAD or OPTIONS, or the origin is absent or the site's (or it is not production) and the token is a masking of the cookie's secret, or it is production's own POST /logout |
| CsrfCookie.FormsWorkUntilTheNextLogin | middlewares/csrf.ts:216-357 | a form answered for a request that carried the secret works until the next login (routes/auth.ts:456-525) or expiry |
| CsrfCookie.PlausibleAlways | middlewares/csrf.ts:227-286 | what is in flight was answered as the middleware answers, in every run |
| CsrfCookie.WhoWritesTheCookie | middlewares/csrf.ts:227-286 | the cookie is written for a safe request that carried none and for a login that carried one, with a new secret that the page in the answer masks; nothing else writes it |
| LogRotation.OneAppendAtATime | utils/logger.ts:157-230 | at most one append per file is out, and no write begins, so nothing is renamed, under one |
| LogRotation.ChainedAlways | utils/logger.ts:215-230 | the promise chain keeps the writes in the order of the calls in every run |
| LogRotation.LinesAreConserved | utils/logger.ts:157-230 | whatever fails and however often it rolls over, the generations, the ".1" and the file hold what was there and then every appended line, in call order |
| LogRotation.SomethingCanMove | utils/logger.ts:215-220 | while a line has not been dealt with, some write can go on, whatever failed |
| LogRotation.MovesUseUpWork | utils/logger.ts:215-220 | and each such move brings the queue nearer its end |
| LogRotation.EveryLineIsDealtWith | utils/logger.ts:213-230 | the writes already called can go on for exactly as many moves as there is work, whatever fails, and stop only with every line dealt with |
| LogRotation.TheCapHolds | utils/logger.ts:160-200 | while nothing fails and every line fits, the file stays within MAX_LOG_BYTES and the counter is its size |
| LogRotation.RolledOverIff | utils/logger.ts:160-186 | the older generations change exactly when a write begins whose known size and line are over 5 MiB together and the rename goes through; a step otherwise only appends |
| LogRotation.WhatFitsStays | utils/logger.ts:160-186 | in any run in which nothing fails, a file is rolled over exactly when its own size and the line are over the cap: a line that fits is not |
| LogRotation.TheCounterIsRightIff | utils/logger.ts:157-210 | through any run from a freshly opened file, whatever fails and rolls over, the counter is the file's size whenever nothing is being appended, if and only if no append failed behind a rename or landed after its write had lost the size |
| LogRotation.OneWriteCountsRightIff | utils/logger.ts:160-201 | one write leaves a right counter right, unless its line did not fit and just one of its rename and its append went through |
| LogRotation.AFailedAppendDropsAGeneration | utils/logger.ts:161-201 | such an append, and what it costs: the counter stays at the cap and the next rollover puts a single line over the kept generation |
| LogRotation.LogFile.AppendRotating | utils/logger.ts:213-218 | a line starts at once on an idle file and waits for the last write otherwise |
| LogRotation.LogFile.Write | utils/logger.ts:160-186 | sizing and rollover up to the append |
| LogRotation.LogFile.AppendAnswered | utils/logger.ts:188-210 | the generations and the file hold the line more if it landed and what they held if not; the counter changes only for a line that landed on a known size, and is then the file's size if that was right; no other write is touched |
| CspReports.SummarizeCspReports | utils/csp-report.ts:223-284 | null exactly for a body of the wrong shape; else the lines of its reports, each reduced field by field, with the counts and omitted adding up to the reports in the body |
| CspReports.WhatABodyHolds | utils/csp-report.ts:223-246 | which bodies are of the right shape, and that a report-uri body holds its one report |
| CspReports.WhatABatchHolds | utils/csp-report.ts:231-246 | a batch holds, in order, the body of each entry that is a violation, with the page's address from the entry when the body has none, and nothing of the others |
| CspReports.WhatALineShows | utils/csp-report.ts:122-221 | which field, under which of its two names, feeds which column: the origin, scheme or keyword of what was blocked and of the source, the path of the page, and the disposition |
| CspReports.WhichRuleALineNames | utils/csp-report.ts:187-201 | the directive is what the report calls effective, or else the first word of what was violated, if it is one |
| CspReports.NothingElseIsKept | utils/csp-report.ts:122-221 | reports that agree on the rule, on the origins or schemes and on the page's path leave the same line, whatever else they hold: queries, fragments, hosts of pages, ids of extensions and every other field |
| CspReports.FieldsArePlain | utils/csp-report.ts:104-221 | no field is longer than MAX_FIELD_LENGTH or holds a query or a fragment, and directive and disposition come from fixed shapes, whoever wrote the report |
| CspReports.Fold | utils/csp-report.ts:262-283 | the loop leaves the lines the batch determines, and loses no report |
| CspReports.LinesCountEverything | utils/csp-report.ts:262-283 | at most ten different violations in the order they were first met, each with every report of it in the batch |
| CspReports.OmittedCameLater | utils/csp-report.ts:262-283 | a violation without a line was met after each of ten others |
| Redirects.TwoHopsAtMost | app.ts:728-777 | from every path at most one slash redirect and one case redirect (app.ts:1347-1378), and then none |
| Redirects.RedirectsIff | app.ts:728-777 | a redirect comes exactly for a trailing slash that can go, a capital in a dotted address, or a capital in the first segment (app.ts:1347-1378) |
| Redirects.FinalIsOneSpelling | app.ts:728-777 | where the redirects end there is no slash to lose and no capital in the first segment, or anywhere in a dotted address |
| Redirects.FinalIsTheSamePage | app.ts:1347-1378 | all that is lost is trailing slashes and all that is changed is capitals lowered, none of them behind the first segment unless the address is dotted |
| Redirects.DottedIff | app.ts:1361 | the dotted addresses are six names and the sitemaps numbered from 1 |
| Redirects.RedirectsDecrease | app.ts:1347-1378 | every redirect shortens the path or leaves fewer capitals |
| Redirects.LocationsStayHere | app.ts:742-762 | every Location begins with one "/" followed by neither "/" nor "\" |
| Redirects.TrimSlashes | app.ts:764-776 | the loop drops every trailing slash but the first character |
| FeaturedDraw.FindFeatured | models/game.ts:1425-1434 | the shared pool is left alone; the draw is the front of the shuffle |
| FeaturedDraw.ShuffleKeepsElements | models/game.ts:1427-1432 | the shuffle is a permutation |
| FeaturedDraw.EveryOrderIsDrawn | models/game.ts:1429-1432 | every order of the pool comes from some choices |
| FeaturedDraw.OneDrawPerOrder | models/game.ts:1429-1432 | and from one sequence of choices only, so even choices make every order equally likely |

## Left out

Stated with a proviso, or on a narrower ground than the source:

- CacheProtocol.HeldEntriesAreFresh: assumes that a row of "cache_epochs" is never deleted and recreated, as the source does; the reset for the suite is not a step.
- CacheKeys.WritesDropWhatTheyChange: votes and plays change "games" and "plays" too and drop nothing, which utils/sidebar-cache.ts:43-47 leaves to the lifetimes; they are no kind of write here.
- CacheProtocol.NoWriteIsForgotten: a bump that fails during the last retry gets no schedule of its own, as in the source; its write is then among those a terminal outcome gave up.
- CheckPacing.NobodyWaitsPastTheBudget: timers are punctual and what they resolve continues before the clock moves on; the time a busy event loop adds is not modelled.
- TtlCaches.HeldNoLongerThanItsLifetime: the same, for expiry timers.
- GameOfTheWeek.AtMostOnePickIsCurrent: from the first insertion on, since a run may start from picks that overlap already; with at most one current at the start, OnlyOneThroughoutIff covers the whole run.
- GameOfTheWeek.InsertedOnlyWhenNoneIsCurrent: the connection that a failed ROLLBACK leaves behind ends with its session, so its lock is released; the pool's own behaviour is not modelled.
- CommentModeration.CommentTable.PruneSources: needs a batch size above 0, without which the loop never ends, and no other writer in between; the same loop over plays and rating addresses (models/game.ts:385-402) is not repeated.
- CommentForest.LinkedThreadCanBeReadWhole: on a table that stands still; on one that changes, CommentForest.ReplyPagingIsExact says what the walk shows.
- AddressRuns.AddressesNeverChangeHands: for saves whose slug nobody else has held when they commit, which is what resolveSlug promises and SavesAreSafeIffFresh shows to be needed; TRUNCATE of the history and REPEATABLE READ snapshots, which migrations 0061 to 0065 guard against, are not steps.
- SlugChoice.CreatesSucceed: the five attempts of withResolvedSlug are not modelled; a refused save changes nothing, and a new attempt is a new step.
- SlugChoice.ResolveSlug: starts from the title's slugified base; the folding of a title to it is Unicode's business.
- Addresses.UpdateKeeps: the tables are values and a statement with its triggers is one transition, so locks between statements are not modelled.
- Catalogue.BucketsPartition: for slugs that begin with a letter or digit, which slugify and its fallback guarantee; a slug that begins otherwise is on no letter page.
- Listings.PagesAreTheListing: a title's place in the collation is a number, ties included, and a rating is a real rather than a rounded numeric; what pg_trgm says of a title is given with the search, and ILIKE and LOWER fold ASCII letters only.
- LikePatterns.BeginsWith: a pattern that ends in its escape character, which Postgres refuses, matches nothing here; an escaped term never ends in one.
- Sitemap.NamedPagesAreServedPages: for facets, groups and pages of one catalogue; StaleFacetsNameTheFirstPage takes the facet lists from any other.
- Sitemap.NoPageIsNamedTwice: addresses are kept apart by what they are pages of; that a game's slug is none of the fixed paths is SlugChoice.ResolveSlug's.
- Sitemap.EveryRowIsNamed: every row has the "updatedAt" the column requires; the images of a game and the cutting of the document into chunks are not modelled.
- CacheSettling.CanAlwaysSettle: what can still come about, not what will; nothing makes a process write again.
- IdPages.WalkEnds: after as many pages as the cursor, or the first page's oldest id, has ids below it.
- PlainText.TagEndIff: case is folded for ASCII letters, which is all the element names hold.
- TextCuts.CutsKeepWholeWords: a word that ends exactly where the budget does goes as well when a space stands before it, as in the source, which looks for a space inside the cut only.
- TextCuts.FitTitle: needs a last suffix shorter than TITLE_MAX; a longer one would make the source cut from the wrong end.
- CsrfCookie.CookieIsSafeIffNothingOldIsOut: one browser and one cookie; two cookies of the same name and the splitting of the Cookie header are not modelled.
- CsrfCookie.FormsGoThroughIff: the masked token itself; the comparison's timing is not modelled.
- LogRotation.TheCapHolds: while no file operation fails and no line is larger than the cap; one file, since files share nothing.
- CspReports.SummarizeCspReports: new URL() is a parameter; FieldsArePlain assumes of it only that schemes, origins and paths hold no "?" and no "#".
- LogRotation.TheCounterIsRightIff: for lines that are not empty, as every line ends in a newline.
- Redirects.LocationsStayHere: for paths that begin with "/", which is what the HTTP parser hands on; the query string, which is carried over unchanged, is not modelled.

Not modelled:

- routes/home.ts: the canonical redirects of "/:genre" and "/letter/:letter" and the loop that packs titles into a description; small and local.
- routes/sitemap.ts: the images of a game's entry, the XML, the index and the cutting into chunks.
- models/game.ts: ratings and plays, title suggestions, hydration and sanitising.
- middlewares/csrf.ts: where on the response the cookie and the token are written; the cookie protocol is modelled on values.
- utils/logger.ts: levels and formatting.
- Express wiring, views, sessions, password hashing, rate limits and the PostgreSQL pool.
- Randomness (pads, ids, shuffles, ORDER BY RANDOM()) is a parameter or any choice the step allows.
