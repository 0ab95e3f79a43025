# A verified model of the online judge's scoring, caching and judging core

The project models the parts of the judge whose correctness is a matter of whole runs rather than
of single functions, and proves what they promise.

* **Scoreboard.** `Cell` is one (user, problem) cell of an ICPC board: results fold into a
  `ScoreEntry`, results from the freeze on are hidden, and a reveal replays them. Every stored entry
  is shown to have a closed form given by the public ICPC rule (whole minutes of the first AC plus a
  penalty per earlier penalised rejection; ICPC Contest Control System Requirements, section
  "Scoring Data Generation"). `Freeze` compares freezing and revealing with never having frozen,
  `Oi` scores OI and IOI cells, `Ranking` aggregates, sorts and assigns shared ranks, `RevealEffect`
  says what one reveal does to everybody's rank, `FirstBlood` awards first blood, and `Board` is the
  service object that rebuilds the whole board after every result and every reveal. `BoardRuns` and
  `HiddenBoard` are about whole runs of it. `Resolver` is the event-feed export, a second encoding of
  the same rule, and `ExportCompare` compares the two.
* **Testcase cache.** `CacheModel` is a concurrent transition system in which every critical section,
  file-system step and pending deletion is a step of its own, may fail, and may interleave with any
  other; a crash followed by a restart is one more step. `CacheLru`, `CacheFlight`, `CacheDisk`,
  `CacheSound` and `CacheRuns` prove its invariants over every run; `CacheSchedule` says under which
  schedules background deletions are harmless and what they do under the others, `CacheUse` what becomes
  of a directory while its caller works in it, `CacheUsage` which calls take the fast path and which
  problem is evicted, read off the steps of the run, `CacheCopies` what a refresh does to the copy it found, and `CacheRace` holds concrete runs from a cold start that break
  documented promises; `CacheLists` is the list and index as an object updated in place.
* **Deferred OI evaluation.** `Sweep` is the after-contest sweep that voids all but the last
  submission of a cell before it enqueues that one, with any number of sweeps overlapping.
* **Judge pipeline.** `Verdict` aggregates test-case results, `Orchestrators` judges one case with a
  checker, an interactor or a group of processes, `ScoreSplit` parses an archive and splits
  the problem's score, `Scheduler` handles one delivered task with every external call succeeding,
  failing or panicking, `Hub` is the WebSocket fan-out, and `Wiring` assigns pipe ends to file
  descriptors for communication problems.

Times are integers (nanoseconds) with one distinguished zero value, map iteration is an arbitrary
order, and contest settings are a record.

## Where the code and its documentation disagree

The model follows the code.

* `RevealNext` counts every revealed rejection, exempt compile errors included, so freezing and
  revealing differs from not freezing by exactly one wrong attempt per exempt compile error replayed
  (`Freeze.FreezeThenReveal`, `Freeze.FreezeThenRevealCounterexample`).
* The export skips SystemError results while the live board counts them as wrong attempts; the live
  board scores results in the order they arrive while the export scores them in the order of
  submission; and the export drops submissions after the end and moves those before the start to it. So
  the two do disagree, although `resolver.go` and `strategy_icpc.go` say they never do:
  `ExportCompare.ExportAgrees` gives the exact difference for all submissions and every arrival order,
  `ExportCompare.InOrderExportAgrees` the exact condition for results that arrive in order, and
  `ExportCompare.SystemErrorDisagrees` and `ExportCompare.OutOfOrderDisagrees` inputs.
* "At most maxEntries problem dirs exist on disk" (`testcase_cache.go`): a cache of one can hold two
  (`CacheRace.ExceedsCapacity`). The bound holds if and only if the directories that are landing,
  pending deletion or left by a failed deletion fit in the room the list leaves
  (`CacheDisk.CapacityIff`).
* "If any step fails … localDir is left untouched" (`testcase_cache.go`): a failing rename comes after
  the old directory was removed (`CacheRace.FailedRenameLosesCopy`); a failed refresh leaves what it
  found if and only if it had not come that far (`CacheCopies.FailedRefreshKeepsCopyIff`).
* Eviction deletes in the background without regard to anybody who counts on the directory. It is not
  enough that a deletion finishes before the problem is requested again: a refresh already running may
  revalidate the directory that is about to go (`CacheRace.EvictedWhileInFlight`). Nor is it enough
  that, besides, no problem is evicted while it is being refreshed: a call that joined the download may
  not have returned yet (`CacheRace.EvictedBeforeWaiterReturns`), and a refresh that finds a new archive
  removes the directory just as well (`CacheRace.ReplacedBeforeWaiterReturns`). It is enough if no
  problem is evicted or replaced while it is being refreshed or promised to a call that has not returned
  (`CacheSchedule.TimelyReturnsCurrentContent`); for a single deletion the exact condition is
  `CacheSchedule.DeleteSafeIff`. After the return nothing protects the directory its caller reads
  (`CacheRace.TakenFromUser`); `CacheUse.DisturbedIff` is the exact condition for a step, and
  `CacheUse.UserSeesValidatedContent` a sufficient one for a schedule.
* `Prune` indexes directories "7" and "07" as one problem (`CacheLists.PruneNeedsCanonicalNames`); the
  exact condition is `CacheLists.PruneListsIff`.
* The even/odd convention documented for extra descriptors in `group.go` does not hold
  (`Wiring.ParityCounterexample`); `Wiring.ParityIff` says for which channel lists it does.
* `group.go` puts the process index in argv[1] and the extra descriptors from argv[2] on, but the
  communication orchestrator has already appended the index, so a process finds it twice and the
  descriptors one place later (`Wiring.ArgvLayout`); the documented layout holds exactly for requests
  without arguments of their own (`Wiring.ArgvIff`).
* A panic while the session is released or the work directory removed, after the verdict went out,
  publishes a second result (`Scheduler.OneResult`, `Scheduler.TwoResultsPossible`).
* The interactor's "AC" is documented as earning the case's score, and a checker's "ok" is meant to be
  scaled later; both earn one point and nothing scales it, so a special, interactive or communication
  problem earns its full score exactly when that is the number of its cases (`Scheduler.CheckerScore`,
  `Scheduler.InteractorScore`).
* `ServeWS` forwards the initial snapshot from its own goroutine and panics exactly when the client
  has left its room before (`Hub.PanicsIff`, `Hub.LateSnapshotPanics`); the hub itself is not
  affected (`Hub.RunInv`).

A remark on `aggregate` alone: it treats a status outside its priority order as if it were Accepted
(`Verdict.AcceptedSoundIff`, `Verdict.UnrankedCounterexample`). No orchestrator returns one
(`Orchestrators.OrchestratedRanked`), so Accepted is sound all the same (`Scheduler.AcceptedIsSound`).

## Model

| member | source | states |
|---|---|---|
| `Cell.FoldIsClosed` | internal/core/contest/strategy_icpc.go:44-90 | for every arrival order, folding `Apply` gives the closed form: visible results scored by the public rule, hidden ones kept verbatim and in order, nothing hidden once solved |
| `Cell.Reveal` | internal/core/ranking/service.go:249-256 | the reveal loop ends with nothing frozen and computes the iterated reveal |
| `Cell.RevealAllClosed` | internal/core/contest/strategy_icpc.go:154-196 | revealing replays hidden results up to the first AC, counting every rejection before it, and then pays minutes plus penalties |
| `Cell.FoldKeepsCellInv` | internal/core/contest/strategy_icpc.go:54-77 | every stored entry: pending count equals the hidden list, pending iff non-empty, an accepted cell hides nothing |
| `Cell.AcceptedCost` | internal/core/contest/strategy_icpc.go:68-79 | an AC before the freeze solves the cell at its own instant; less the penalties of the wrong attempts, its cost is the number of whole 60-second minutes since the start, counted toward zero |
| `Cell.RevealedCost` | internal/core/contest/strategy_icpc.go:174-188 | so does the reveal of a hidden AC, from the instant it was submitted |
| `Cell.RuleCost` | internal/core/contest/strategy_icpc.go:65-90 | the rule: whole minutes of the first AC and a penalty for each run before it that is not an exempt compile error |
| `Cell.HiddenIff` | internal/core/contest/strategy_icpc.go:54-63 | a result submitted at or after the freeze instant is hidden and counts for nothing; an earlier one is not hidden |
| `Cell.WrongIff` | internal/core/contest/strategy_icpc.go:80-87 | a rejection before the freeze costs an attempt unless it is a compile error and those are exempt |
| `Freeze.UnfrozenFollowsRule` | internal/core/contest/strategy_icpc.go:65-90 | without a freeze the entry is the public ICPC rule on the cell's results |
| `Freeze.RevealedFollowsRule` | internal/core/contest/strategy_icpc.go:148-196 | a fully revealed cell follows the rule on visible then hidden results, up to exactly the replayed exempt compile errors |
| `Freeze.FreezeThenReveal` | internal/core/contest/strategy_icpc.go:44-90 | freeze then reveal against no freeze over the stable partition: verdict, score and instant always agree; wrong attempts and penalty exceed by the replayed exempt compile errors; the displays agree if and only if there is none |
| `Freeze.FreezeThenRevealCounterexample` | internal/core/contest/strategy_icpc.go:191-195 | a frozen exempt compile error before a frozen AC costs 20 minutes after the reveal and nothing without a freeze |
| `Freeze.HiddenVerdictsStayHidden` | internal/core/contest/strategy_icpc.go:54-63 | two histories differing only in hidden verdicts give entries differing only in the frozen list |
| `Oi.FoldScores` | internal/core/contest/strategy.go:157-171 | an OI cell shows the first of the best positive scores, or the last score in strict mode, with its instant; solved iff some score was positive |
| `Oi.EarnsUnique` | internal/core/contest/strategy.go:157-171 | the result that earned the shown score is unique |
| `Ranking.AggregateUsers` | internal/core/contest/strategy.go:227-243 | one row per user, with that user's totals and cells, in arbitrary order |
| `Ranking.TotalsMean` | internal/core/contest/strategy_icpc.go:100-111 | ICPC totals are the number of problems solved, the sum of their penalties and the latest AC; OI and IOI totals sum the displayed scores |
| `Ranking.SortRows` | internal/core/contest/strategy_icpc.go:113-127 | sorted by the comparator, and a permutation |
| `Ranking.AssignRanks` | internal/core/contest/strategy.go:247-256 | on sorted rows, the rank is one plus the number of users strictly better; nothing else changes |
| `Ranking.Rank` | internal/core/contest/strategy_icpc.go:98-135 | a correct ranked board, for ICPC and for score-descending contests |
| `Ranking.TotalsPermute` | internal/core/contest/strategy_icpc.go:100-111 | totals do not depend on the order of the entries |
| `Ranking.RowDetermined` | internal/core/contest/strategy.go:209-224 | in every mode a user's rank, totals and cells are the same for every input and map order |
| `Ranking.BoardDetermined` | internal/core/contest/strategy_icpc.go:98-135 | the whole ICPC row sequence is the same for every input and map order |
| `Ranking.RanksAscend` | internal/core/ranking/service.go:326-329 | ranks never decrease down the board, so the final stable sort moves nothing |
| `Ranking.RowOrder` | internal/core/contest/strategy_icpc.go:114-127 | a row stands above another exactly by more solved, less penalty, earlier last AC, smaller user id, in this order |
| `Ranking.ScoreOrder` | internal/core/contest/strategy.go:218-220 | in score-descending contests scores never ascend |
| `Ranking.RankCounts` | internal/core/contest/strategy.go:245-256 | a rank is one more than the number of rows with a strictly better combination of the fields that count |
| `RevealEffect.TotalsAfterReveal` | internal/core/contest/strategy_icpc.go:154-196 | one reveal changes only its owner's totals, and only by one more solved problem |
| `RevealEffect.RevealHelpsOwner` | internal/core/contest/strategy_icpc.go:154-196 | one reveal never worsens its owner's rank |
| `RevealEffect.RevealShiftsOthers` | internal/core/contest/strategy_icpc.go:98-135 | anyone else keeps their totals and drops exactly one place if overtaken, none otherwise |
| `FirstBlood.AssignFirstBlood` | internal/core/ranking/service.go:354-371 | in place, whatever the earlier flags; with distinct cells an entry ends up flagged exactly if it is accepted and nobody solved its problem at an earlier instant, nor at the same one with a smaller user id |
| `FirstBlood.FlaggedIff` | internal/core/ranking/service.go:361-366 | the same of the specification, in terms of the entries' fields |
| `FirstBlood.HolderExists` | internal/core/ranking/service.go:361-366 | a problem with an eligible entry has a holder |
| `FirstBlood.HolderUnique` | internal/core/ranking/service.go:361-366 | at most one holder per problem |
| `FirstBlood.HolderIsLeast` | internal/core/ranking/service.go:361-366 | with distinct cells, the holder is the least by (instant, user) |
| `FirstBlood.FlagsDetermined` | internal/core/ranking/service.go:347-371 | flags depend neither on entry order nor on earlier flags |
| `FirstBlood.FlagsIdempotent` | internal/core/ranking/service.go:347-371 | a second pass changes nothing |
| `Board.StoreAgrees` | internal/core/ranking/service.go:143-170 | one read-modify-write keeps every entry equal to the recomputation from its own cell's history |
| `Board.RankingService.ProcessResult` | internal/core/ranking/service.go:109-181 | the history grows by the result at its submission instant, entries stay the recomputation, and the stored snapshot is a correct board of them; results without user or problem change nothing |
| `Board.RankingService.RevealContest` | internal/core/ranking/service.go:201-218 | the flag is set, entries are untouched, the snapshot is a correct board with everything revealed |
| `Board.RankingService.RebuildSnapshot` | internal/core/ranking/service.go:223-345 | the snapshot is a correct board of the displayed entries; it is marked frozen exactly from the freeze instant until the reveal |
| `Board.RankingService.LoadEntries` | internal/core/ranking/service.go:242-259 | each stored entry once, revealed if and only if an ICPC contest is revealed |
| `Board.RankingService.RenderRow` | internal/core/ranking/service.go:291-325 | cells of problems still in the contest under their labels, and the number solved among them |
| `Board.CellShows` | internal/core/ranking/service.go:303-312 | the cell under an unshared label shows the entry's verdict, rejected and pending attempts, penalty, score and first blood |
| `BoardRuns.ExecRecomputes` | internal/core/ranking/service.go:125-218 | after any interleaving of results and reveals each entry is the fold over its own cell, and the flag says whether a reveal happened |
| `BoardRuns.DisplayDetermined` | internal/core/ranking/service.go:125-259 | the display depends only on each cell's results and on whether a reveal happened |
| `BoardRuns.BoardUnique` | internal/core/ranking/service.go:223-345 | the ICPC board is one function of the displayed entries: rows, order, ranks, totals and every cell whose label is not shared; with distinct labels all of it |
| `BoardRuns.RowUnique` | internal/core/ranking/service.go:223-345 | in every mode each contestant's row is determined, up to cells whose label is shared |
| `BoardRuns.SharedLabelCell` | internal/core/ranking/service.go:295-313 | when two problems share a label, the cell under it may show any of those the contestant tried, and nothing else |
| `BoardRuns.RevealIdempotent` | internal/core/ranking/service.go:198-204 | revealing twice changes nothing |
| `BoardRuns.LatencyIrrelevant` | internal/core/ranking/service.go:183-196 | streams of results that differ only in when judging finished leave the same entries and display |
| `BoardRuns.OpsOfStep` | internal/core/ranking/service.go:116-121 | each message adds its result to the history, practice runs add nothing |
| `BoardRuns.FreezeSideIff` | internal/core/ranking/service.go:183-196 | which side of the freeze a result falls on is independent of the judging instant if and only if the message carries its submission instant |
| `BoardRuns.RevealedShowsAll` | internal/core/ranking/service.go:248-256 | once revealed, results arriving after the reveal are shown too, scored by the rule |
| `HiddenBoard.MaskedBoard` | internal/core/ranking/service.go:261-325 | a board of some entries is also a board of the same entries with hidden verdicts erased |
| `HiddenBoard.UnmaskedBoard` | internal/core/ranking/service.go:261-325 | and conversely |
| `HiddenBoard.FrozenBoardHidesVerdicts` | internal/core/ranking/service.go:223-345 | two runs differing only in verdicts from the freeze on admit exactly the same unrevealed ICPC boards, and any two boards they show agree: cells, totals, ranks, first blood and row order |
| `Resolver.AcronymsResolve` | internal/api/handler/resolver.go:130-139 | every exported acronym resolves to exactly one judgement type with the run's flags |
| `Resolver.MapResult` | internal/api/handler/resolver.go:260-280 | which verdict has which acronym, which are judged, and that all but AC and exempt compile errors are penalised |
| `Resolver.ExportedRun` | internal/api/handler/resolver.go:228-251 | a submission is exported exactly if it is judged and not after the end, with its id, team, problem, acronym, flags and its time since the start, early ones at zero |
| `Resolver.BuildRuns` | internal/api/handler/resolver.go:227-252 | the loop exports exactly the judged submissions not after the end, in order |
| `Resolver.ExportTally` | internal/api/handler/resolver.go:227-252 | for any submissions, a reader of a team's exported runs finds the first AC and the penalised runs among those not after the end, early ones moved to the start |
| `ExportCompare.ExportAgrees` | internal/api/handler/resolver.go:176-280 | for any submissions and every arrival order: the live board is solved iff there is an AC, the feed iff there is one not after the end; when both are, the penalties differ by the delay of the AC that counts and by one penalty per penalised run only one side counts, per unjudged result and per replayed exempt compile error |
| `ExportCompare.InOrderExportAgrees` | internal/api/handler/resolver.go:176-280 | in submission order the solving run decides: unsolved on both, late (live only), or solved on both with the exact difference; during the contest equal if and only if no unjudged result and no replayed exempt compile error precedes it, or nothing is to be paid |
| `ExportCompare.OutOfOrderDisagrees` | internal/core/contest/strategy_icpc.go:47-52 | an AC judged before an earlier WA: 9 minutes live, 29 in the feed |
| `ExportCompare.SystemErrorDisagrees` | internal/api/handler/resolver.go:228-231 | a SystemError before the AC: 29 minutes live, 9 in the feed |
| `CacheLru.LruKept` | internal/judger/testcase_cache.go:126-137 | every step keeps list and index in bijection, without duplicates, within capacity and in order of last use |
| `CacheLru.PublishedIsFirst` | internal/judger/testcase_cache.go:276-293 | publishing leaves its problem at the front and never evicts it |
| `CacheUsage.RunUseOrder` | internal/judger/testcase_cache.go:126-137 | over every run the list holds the problems used since the last restart in decreasing order of their last use (fast-path hit, ETag match while listed, successful publication), then those only found by pruning |
| `CacheUsage.EvictsLeastRecentlyUsed` | internal/judger/testcase_cache.go:285-304 | a publication drops only problems used less recently than every other one that stays |
| `CacheUsage.FastPathIff` | internal/judger/testcase_cache.go:129-137 | a call takes the fast path if and only if the problem is listed and was confirmed, since the last restart, less than five minutes ago |
| `CacheUsage.DownloadsIff` | internal/judger/testcase_cache.go:184-208 | a refresh goes on to download exactly if the directory does not hold what the store held when it was asked |
| `CacheFlight.FlightKept` | internal/judger/testcase_cache.go:139-166 | every step keeps `inProgress` equal to the active downloaders, and every slot owned by a call refreshing, closing or done |
| `CacheFlight.SingleFlight` | internal/judger/testcase_cache.go:139-150 | at most one refresh per problem is active |
| `CacheFlight.NoLostWaiter` | internal/judger/testcase_cache.go:141-145 | a waiter's slot is being refreshed, about to close, or closed and then the waiter can return |
| `CacheFlight.ResultsStable` | internal/judger/testcase_cache.go:155-165 | a published (dir, err) never changes, so every waiter returns its downloader's |
| `CacheDisk.DiskKept` | internal/judger/testcase_cache.go:223-271 | at every step boundary a problem directory is absent or a complete extraction carrying its `.etag` |
| `CacheCopies.FailedRefreshKeepsCopyIff` | internal/judger/testcase_cache.go:211-263 | over every run, a refresh that found an extraction and fails leaves it unchanged if and only if it had not removed it yet, and otherwise leaves none |
| `CacheRace.FailedRenameLosesCopy` | internal/judger/testcase_cache.go:258-263 | a run from a cold start in which a refresh finds an extraction, fails at the rename and leaves none |
| `CacheDisk.AccountKept` | internal/judger/testcase_cache.go:276-316 | every problem directory is indexed, landing, pending deletion, or left by a failed deletion |
| `CacheDisk.DirectoriesBounded` | internal/judger/testcase_cache.go:295-316 | directories number at most capacity + in flight + pending + failed deletions |
| `CacheDisk.CapacityIff` | internal/judger/testcase_cache.go:55-71 | directories outside the index are landing, pending or left over; at most maxEntries exist if and only if those fit in the room the list leaves, and with a full list if and only if there is none |
| `CacheRace.ExceedsCapacity` | internal/judger/testcase_cache.go:55-71 | a run from a cold start after which a cache of one holds two directories |
| `CacheSound.MoveSound` | internal/judger/testcase_cache.go:170-271 | each refresh step keeps the cache in agreement with the store |
| `CacheRuns.RunStructure` | internal/judger/testcase_cache.go:126-390 | all structural invariants in every state of every run, failures and restarts included |
| `CacheRuns.RunSingleFlight` | internal/judger/testcase_cache.go:139-158 | in every state of every run at most one refresh per problem is active, and it is the registered one |
| `CacheRuns.WaiterGetsItsDownload` | internal/judger/testcase_cache.go:139-166 | over every run, a call that joined a downloader returns (unless the process crashes first) exactly the outcome that downloader published and returns itself |
| `CacheRuns.RunDirectories` | internal/judger/testcase_cache.go:55-71 | the bound on directories holds in every state of every run |
| `CacheRuns.RunSound` | internal/judger/testcase_cache.go:126-209 | soundness in every state of every run whose uploads, deletions and replacements do not interfere: fresh entries, refreshes and calls about to return all have validated content on disk |
| `CacheSchedule.QuietKept` | internal/judger/testcase_cache.go:276-316 | if no problem is requested while its deletion is pending and none is evicted while being refreshed or promised to a call, pending deletions stay disjoint from the index, the refreshes in flight and the promises |
| `CacheSchedule.TimelyReturnsCurrentContent` | internal/judger/testcase_cache.go:126-166 | on every such schedule, what is in the directory at the moment a call returns it was the store's content at a moment of the refresh that validated it |
| `CacheRuns.ReturnsCurrentContent` | internal/judger/testcase_cache.go:126-166 | what is in the directory at the moment a call returns it was the store's content at a moment of the refresh that validated it |
| `CacheRuns.FastPathIsRecent` | internal/judger/testcase_cache.go:127-137 | a fast-path hit comes less than the TTL after that validation |
| `CacheSchedule.DeleteSafeIff` | internal/judger/testcase_cache.go:306-314 | no fresh entry, refresh or unreturned call relies on a directory pending deletion if and only if, after the deletion, no undisturbed continuation ever hands out a missing directory |
| `CacheSchedule.RacyDeleteServesNothing` | internal/judger/testcase_cache.go:306-314 | a deletion under a fresh entry: the next fast-path call is handed a missing directory |
| `CacheSchedule.RacyDeletePublishesNothing` | internal/judger/testcase_cache.go:155-166 | a refresh whose directory was deleted after it landed or was validated returns the missing directory itself |
| `CacheSchedule.RacyDeleteReturnsNothing` | internal/judger/testcase_cache.go:141-165 | a call promised the directory, or the owner of the slot it waits on, returns the missing directory at once |
| `CacheRace.EvictedWhileInFlight` | internal/judger/testcase_cache.go:184-196 | a run from a cold start, in which no problem is requested while its deletion is pending and the store never changes, where publishing 2 evicts 1 during its revalidation and a later call is handed a missing directory |
| `CacheRace.EvictedBeforeWaiterReturns` | internal/judger/testcase_cache.go:141-145 | another such run, where 1 is evicted when nobody refreshes it, but before a call that joined its download returns; that call is handed a missing directory |
| `CacheRace.ReplacedBeforeWaiterReturns` | internal/judger/testcase_cache.go:258-263 | a run without any eviction in which a refresh removes the directory before a waiter returns it |
| `CacheRace.TakenFromUser` | internal/judger/testcase_cache.go:306-314 | the directory of a call that has returned goes while its caller works in it |
| `CacheUse.DisturbedIff` | internal/judger/testcase_cache.go:258-316 | a step takes a directory away from a caller working in it if and only if it deletes or replaces a directory in use |
| `CacheUse.OpenUntilFinish` | internal/judger/testcase_cache.go:119-126 | short of a crash, a caller works in the directory from the return until it finishes |
| `CacheUse.UserSeesValidatedContent` | internal/judger/testcase_cache.go:119-126 | if besides no problem in use is evicted or replaced, then from return to finish the caller finds what was current at a moment of the refresh that validated it |
| `CacheLists.LruLists.EvictIfNeeded` | internal/judger/testcase_cache.go:297-316 | keeps the front up to capacity, drops the rest from the index, hands each dropped id to deletion |
| `CacheLists.LruLists.PromoteEntry` | internal/judger/testcase_cache.go:276-293 | in place, list and index become those of the transition system's promotion |
| `CacheLists.LruLists.Prune` | internal/judger/testcase_cache.go:325-390 | the problem directories, newest first, up to capacity |
| `CacheLists.DecimalParses` | internal/judger/testcase_cache.go:347-350 | parsing the name the cache gives a problem's directory gives the problem back |
| `CacheLists.ParsedSpelling` | internal/judger/testcase_cache.go:347-350 | a name that parses to an id is its decimal up to an optional sign and leading zeros |
| `CacheLists.HiddenNeverParses` | internal/judger/testcase_cache.go:342-346 | hidden entries would be skipped anyway |
| `CacheLists.PruneListsIff` | internal/judger/testcase_cache.go:362-383 | the list invariant holds after pruning if and only if no directory kept spells the same id as a later one |
| `CacheLists.PruneEstablishesLists` | internal/judger/testcase_cache.go:325-390 | directories the cache made itself are read back as their problems and satisfy the list invariant |
| `CacheLists.PruneNeedsCanonicalNames` | internal/judger/testcase_cache.go:347-380 | "7" and "07" break it |
| `Sweep.SplitLatestPerProblem` | internal/api/handler/submission.go:341-358 | the highest id of each cell, and all the others, each in input order |
| `Sweep.SplitMembers` | internal/api/handler/submission.go:336-358 | the two lists partition the input; a submission is latest iff no other of its cell has a higher id |
| `Sweep.VoidLeavesLastAlone` | internal/api/handler/submission.go:269-284 | after voiding, each submission left to enqueue is the last of its cell and all its rivals are Superseded |
| `Sweep.InvKept` | internal/api/handler/submission.go:258-321 | every step of any sweep, and every persisted result, keeps the invariant and never un-voids a submission |
| `Sweep.OnlyLastEnqueued` | internal/api/handler/submission.go:265-321 | in every run only the last submission of a cell is enqueued, all others being voided by then |
| `Sweep.EnqueuedIff` | internal/api/handler/submission.go:296-321 | over every run, a submission is enqueued if and only if some step successfully published it |
| `Sweep.CompleteSweep` | internal/api/handler/submission.go:258-321 | a sweep that voided, whose publications all succeeded and that has nothing left has enqueued every last submission it listed |
| `Sweep.StatusIs` | internal/infra/postgres/submission_repo.go:291-313 | every row's status is the verdict last persisted for it, else Superseded exactly if a sweep that listed it as pending with a later rival voided it, else Pending; no voided row gets a verdict |
| `Sweep.VoidedForever` | internal/infra/postgres/submission_repo.go:291-313 | a Superseded submission stays so and is never enqueued |
| `Sweep.LastNeverVoided` | internal/api/handler/submission.go:336-358 | a last submission is never voided |
| `Hub.HubServer.HandleRegister` | internal/core/ranking/websocket.go:152-158 | the client joins its contest's room, others unchanged |
| `Hub.HubServer.HandleUnregister` | internal/core/ranking/websocket.go:187-200 | a member leaves, its channel is closed, an empty room disappears; a non-member changes nothing |
| `Hub.HubServer.HandleBroadcast` | internal/core/ranking/websocket.go:211-227 | each member gets the payload or, with a full buffer, is evicted and closed |
| `Hub.HubServer.ShutdownAllClients` | internal/core/ranking/websocket.go:229-236 | every member's channel is closed and no room remains |
| `Hub.InvKept` | internal/core/ranking/websocket.go:152-236 | every step keeps the protocol invariant |
| `Hub.RunInv` | internal/core/ranking/websocket.go:152-236 | over every run, late snapshots included: closed at most once and exactly on leaving, never sent to after by the hub, and a client in a room was handed every payload since registration in order without gaps, with at most one snapshot between |
| `Hub.PanicsIff` | internal/core/ranking/websocket.go:141-143 | no step makes the hub panic; forwarding the snapshot does if and only if the client has left its room |
| `Hub.LeavesIff` | internal/core/ranking/websocket.go:187-236 | a client leaves its room exactly by unregistering, by a broadcast that finds its buffer full, or by shutdown |
| `Hub.RunDelivers` | internal/core/ranking/websocket.go:211-227 | over every run, a client in its room was handed exactly the payloads broadcast to its contest since it registered, read off the steps; one that left, the first of them |
| `Hub.InRoomIff` | internal/core/ranking/websocket.go:152-236 | a client is in its room from its registration until it unregisters, the hub shuts down, or a broadcast to its contest finds 64 items waiting |
| `Hub.ChannelIs` | internal/core/ranking/websocket.go:140-143 | its channel holds the snapshot exactly if it was forwarded in time, and the write pump took as many items as it asked for |
| `Hub.LateSnapshotPanics` | internal/core/ranking/websocket.go:141-143 | registering just before a shutdown leads to that panic |
| `Verdict.Priority` | internal/judger/verdict.go:34-65 | the documented severity order, with every other status below it |
| `Verdict.Aggregate` | internal/judger/verdict.go:35-79 | no results: System Error; otherwise the worst status by priority and the sum of the scores |
| `Verdict.AggregateOrderFree` | internal/judger/verdict.go:67-78 | the pair is the same for every order of the results |
| `Verdict.AcceptedIff` | internal/judger/verdict.go:46-78 | Accepted iff non-empty and every result is Accepted or of unknown priority |
| `Verdict.AcceptedSoundIff` | internal/judger/verdict.go:48-65 | an Accepted aggregate means all Accepted if and only if every status is in the priority order |
| `Verdict.UnrankedCounterexample` | internal/judger/verdict.go:62-63 | a lone Compile Error result aggregates to Accepted |
| `Verdict.ExecStatusToSubmission` | internal/judger/verdict.go:14-28 | a failed execution is never Accepted or Wrong Answer, and always in the priority order |
| `Verdict.RunStandard` | internal/judger/runner_standard.go:40-93 | the full case score exactly for an Accepted verdict, which needs a clean exit and equal tokens; an error exactly when a file or the sandbox fails |
| `Orchestrators.ParseChecker` | internal/judger/runner_special.go:120-145 | Accepted exactly for "ok" (one point) and "points n" (n points), System Error exactly for "fail", Wrong Answer otherwise, with the execution's time and memory |
| `Orchestrators.RunSpecial` | internal/judger/runner_special.go:36-110 | an execution that is not OK keeps its mapped status whatever the checker says; otherwise the checker decides; errors exactly when the configuration, a file or the sandbox fails |
| `Orchestrators.ParseInteractor` | internal/judger/interactive/orchestrator.go:159-194 | a violation of the contestant decides the status; without one Accepted exactly for "AC" (one point) and "PC n" (n points), Wrong Answer otherwise |
| `Orchestrators.RunInteractive` | internal/judger/interactive/orchestrator.go:34-80 | likewise, with an error exactly when the configuration, the input or the sandbox fails |
| `Orchestrators.Severity` | internal/judger/interactive/orchestrator.go:200-209 | the order of severity, the two time limits being equal |
| `Orchestrators.WorstProcess` | internal/judger/interactive/orchestrator.go:200-217 | the first of the most severe results |
| `Orchestrators.GroupAcceptedNeedsAll` | internal/judger/interactive/orchestrator.go:143-144 | a communication case is Accepted only if no process of the group was stopped or failed |
| `Orchestrators.OrchestratedRanked` | internal/judger/orchestrator.go:40-53 | whatever any registered orchestrator answers is in the priority order, and worth nothing unless Accepted |
| `ScoreSplit.ParseTestcaseEntries` | internal/api/handler/admin.go:209-266 | fails iff no "N.in"; rows are the inputs in ascending order paired with the last matching output; scores split the total exactly; warnings are exactly the ignored, missing and orphaned entries |
| `ScoreSplit.SplitExact` | internal/api/handler/admin.go:241-251 | the shares sum to the total for every total |
| `ScoreSplit.ScoreConserved` | internal/judger/runner_standard.go:63-92 | the aggregated score lies in [0, total], is the total when Accepted with every case run, and with positive shares full score means Accepted |
| `Scheduler.RunCases` | internal/judger/scheduler.go:266-319 | the results of a prefix of the cases with their time and memory peaks, the whole list unless the deadline passed or a case panicked |
| `Scheduler.RunStateMachine` | internal/judger/scheduler.go:166-346 | appends exactly the verdict the task deserves, when every stage succeeds in time; clean-up runs on every path |
| `Scheduler.HandleMessage` | internal/judger/scheduler.go:115-158 | the verdict exactly when the pipeline publishes, a System Error exactly when the publication its error or panic leads to succeeds, acknowledged exactly unless the recovery's own publish panics; malformed payloads are discarded |
| `Scheduler.MessageNames` | internal/judger/scheduler.go:303-345 | every message names its task, submission, user and problem; the verdict has one row per case with the case's id and group and its own run's status, score, time and memory, and the largest time and memory |
| `Scheduler.OneResult` | internal/judger/scheduler.go:106-158 | none exactly when neither verdict nor System Error could be published, two exactly when clean-up panics after the verdict, otherwise one |
| `Scheduler.TwoResultsPossible` | internal/judger/scheduler.go:188-192 | for every task some environment yields two results |
| `Scheduler.AcceptedIsSound` | internal/judger/scheduler.go:266-346 | Accepted only for a non-empty task all of whose cases ran in time and were themselves Accepted, whichever orchestrator judged them |
| `Scheduler.AllAcceptedIsAccepted` | internal/judger/scheduler.go:321-346 | and every published verdict of a task whose cases were all Accepted is Accepted |
| `Scheduler.JudgedIfKnown` | internal/judger/scheduler.go:261-346 | every known kind of judging gets its verdict out when nothing fails and the deadline holds; an unknown kind only a System Error |
| `Scheduler.DeadlineMeansSystemError` | internal/judger/scheduler.go:269-275 | a deadline passing during judging publishes nothing but a System Error |
| `Scheduler.PublishedScore` | internal/judger/scheduler.go:321-346 | for standard judging of a split archive, the published score lies in [0, total] and equals it when Accepted |
| `Scheduler.CheckerScore` | internal/judger/runner_special.go:129-132 | a special-judged task with every case "ok" earns as many points as it has cases, its full score exactly when that is the number |
| `Scheduler.InteractorScore` | internal/judger/interactive/orchestrator.go:182-186 | likewise an interactive or communication task with every case "AC" |
| `Wiring.AssignFDs` | internal/judger/sandbox/nsjail/group.go:46-118 | fails on the first endpoint out of range, recipient first; otherwise every process holds its share of all pipe ends |
| `Wiring.EndPlaced` | internal/judger/sandbox/nsjail/group.go:87-118 | every end has a descriptor in its process: stdin or stdout for the first of its direction, an extra one named in argv otherwise |
| `Wiring.EndPlacedOnce` | internal/judger/sandbox/nsjail/group.go:87-118 | no end is installed twice, self-loops included |
| `Wiring.InstalledIs` | internal/judger/sandbox/nsjail/group.go:78-118 | whatever is installed belongs to the process and its descriptor tells whether it was the first |
| `Wiring.ArgvNamesTheExtras` | internal/judger/sandbox/nsjail/group.go:142-160 | the numbers in argv are distinct, in channel order, and exactly where the extra ends are installed behind the log pipe |
| `Wiring.ArgvIff` | internal/judger/sandbox/nsjail/group.go:28-30 | the documented argv holds if and only if the request brings no arguments of its own |
| `Wiring.ArgvLayout` | internal/judger/interactive/orchestrator.go:107-115 | a contestant's argv: the run command, its index twice, then the extra descriptors, each installed where its number says; never as documented |
| `Wiring.ParityIff` | internal/judger/sandbox/nsjail/group.go:24-26 | the documented even/odd convention holds for a process if and only if each further channel to it comes after an even number of its surplus ends and each further channel from it after an odd number, counted over the channel list |
| `Wiring.ParityCounterexample` | internal/judger/sandbox/nsjail/group.go:24-26 | two channels from 0 to 1 break it |

## Left out

- Redis, PostgreSQL, MinIO and SMTP clients, JSON, XML and zip encoding, authentication, CRUD handlers, masking of results shown to users, and the frontend.
- Board.RankingService.ProcessResult: a rebuild is one atomic step in which every store operation succeeds; two unsynchronised rebuilds writing the snapshot are not modelled. Usernames, organisations, the update time and the list of labels are not part of the snapshot, and the contest's type is known.
- Freeze.FreezeThenReveal: says nothing of the attempt counter, which a revealed AC does not increase and which is not displayed.
- Parsing of contest settings and the contest's effective status: settings are a record of a penalty, the compile-error policy and the strict-last flag.
- Minutes as floating point: `int(d.Minutes())` is integer division truncated toward zero. Seconds and time formats of the feed are left out; run times stay in nanoseconds.
- CacheRuns.RunSound: assumes that an ETag identifies content and that the object does not change between Stat and download of one refresh.
- The cached `etag` and `localDir` fields of a list element, which nothing reads except to name the directory, and zip extraction itself, which is one step that completes or fails. Directory names in the transition system are canonical, as `CacheLists.PruneEstablishesLists` justifies.
- CacheUse.UserSeesValidatedContent: what callers do with the files is left out; a caller is just some time between return and finish.
- CacheLists.LruLists.Prune: a directory whose mtime cannot be read is simply not among those found.
- Sweep.InvKept: sweeps of a blind-judged contest only; no submission is added and none was enqueued before the first sweep; a problem without test data is a failed publication.
- Hub.RunInv: the write pump only removes items, and `ServeWS` only forwards one snapshot; pumps, reconnection and the rest of `ServeWS` are not modelled.
- Scheduler.HandleMessage: a failed publication appends nothing and publishing on an expired context fails; path rewriting, the language's time multiplier, logging, the truncation of checker output, and the contest, node and time stamps of a message are left out.
- Verdict.RunStandard: takes the token lists as given; tokenisation and the difference hint are left out. In `Orchestrators` the first line of stderr comes trimmed and case-normalised, with the number behind its keyword already read; starting checkers, interactors and graders is left out.
- ScoreSplit.ParseTestcaseEntries: entries come classified by name, with the number already parsed; the error text and the wording of warnings are left out.
- Wiring.AssignFDs: creating the pipes and starting, waiting for and killing processes are left out, as is closing the parent's ends.
