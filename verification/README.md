# Verified model of the dashboard's stateful code and of Raft

The dashboard (`apps/dashboard`) keeps its hard logic in small pieces of mutable state that asynchronous
code shares. This project models six of them in Dafny, and the elections, replication, commits and recovery of the
PostgreSQL extension's Raft implementation, and proves what they keep over all runs.

* **The authenticated session** (`lib/auth.ts`, `lib/api.ts`). API calls, the shared token refresh,
  sign-in, logout, `getMe`, expiry and the clock interleave over one store. Each piece of code between two
  awaits is one atomic step; the network answers anything, in any order. `SessionModel` defines the steps,
  `SessionClient` holds the code as methods of a class, one method per step, each proved equal to its step.
  `SessionSteps`, `SessionStore`, `SessionCalls`, `SessionProgress` and `SessionOwnership` prove what runs keep,
  `SessionPromises` what callers and the store get, told from the answers alone.
* **The static asset cache** (`server/index.node.ts`): the recursive scan that fills a flat map, against
  walking the directory tree, with any set of failing directories and file reads (`AssetPaths`, `AssetTree`,
  `AssetServer`, over `Maps`).
* **The toast store** (`hooks/use-toast.ts`): reducer, id counter, removal timers and listening components as
  one timed machine (`ToastModel`, `ToastStore`); what every run keeps (`ToastProperties`) and what becomes of each toast
  (`ToastPromises`).
* **throttle and debounce** (`lib/utils.ts`): whole traces of calls and timer callbacks (`Throttle`, `Debounce`).
* **The table explorer's grouping** (`components/data-browser/table-explorer.tsx`): group, order the groups, sort
  each in place, against one stable sort (`Sorting`, `TableExplorer`).
* **Raft** (`extensions/postgres/src/consensus/raft.c`, `raft_log.c`): a cluster whose nodes time out, poll, vote, win,
  take commands, replicate, commit, stop and start again, while calls and answers get lost and calls are handled late
  (`RaftModel`; `RaftServer` and `RaftWal` hold the code as methods). Elections: one leader per term (`RaftElections`,
  over `RaftSteps`) and who votes twice (`RaftVotes`). Logs: what AppendEntries makes of one (`RaftLog`), log matching
  (`RaftMatching`), what the write-ahead log gives back (`RaftRecovery`). Commits: when match indices are true
  (`RaftAcks`), leader completeness (`RaftCompleteness`), when commit indices are true and what is committed stays
  (`RaftCommit`), and runs of the code in which they are not (`RaftDivergence`). Progress: what one call does to both
  its ends (`RaftExchanges`), peers caught up and all committed that may be (`RaftProgress`), elections won and commands
  committed wherever a majority can be reached (`RaftAvailability`).
* **Paging of pooler clients** (`components/clusters/pooler-clients-table.tsx`, `Pagination`).

A run (`Runs`) is a list of events with the list of states it leads through, one step from each state to the
next; every list of events has one (`EveryListRuns`). An event that the environment cannot deliver in a state (an
answer nobody awaits, a timer before its deadline) leaves that state alone, so a statement over all event lists
covers every run. `Always(P, ss)` and
`SomeStep(Q, ss, es, n)` speak of all states, and of some one of the first n steps, of a run. For throttle and
debounce a trace is a list of timed events, and `At(d, es, k)` is the state after its first k.

Some natural claims are false of the code. For each there is a lemma with an input that shows it, and one with the
exact condition under which it holds:

* Tokens and user are not always stored together: `setStoredUser` on an empty store leaves a user alone
  (`UserWithoutTokens`, `PairedThroughout`). After that, a late refresh answer can even bring tokens back
  (`OrphanUserLetsRefreshRevive`); nothing but a sign-in and `setStoredUser` can end emptiness (`EmptyThroughout`).
* One session can cost several refreshes, one for each 401 that finds no refresh under way (`RefreshCount`,
  `LateAnswerStartsSecondRefresh`).
* A sign-in while a refresh of another account is pending can leave one account's tokens beside another's user
  (`LoginDuringRefreshMixesAccounts`). `OwnedThroughout` says at which steps that happens, `AlignedThroughout` which
  runs keep everything stored and in flight to one account.
* A file whose name has a backslash is not found under its own path where the path separator is a slash
  (`BackslashFileIsNotFound`, `FaithfulIffNoBackslash`).
* A closed toast need not be on its way out if an update closed it (`ClosedButNotRemoved`,
  `ClosedArmedThroughout`).
* A new toast need not remain listed though nothing is done to it: a dismissal in advance of its id has armed its
  removal (`DismissedInAdvance`, `RemainsIff`).
* A component whose effect runs after the list of toasts changed shows a stale list until the next change
  (`MountedLate`, `UpToDateThroughout`).
* Toast ids stop falling when the counter wraps (`IdsStartOver`, `OrderedUntilTheWrap`).
* When the number of clients shrinks, the current page may lie beyond the last, and stepping back one page may
  not bring it back (`StrandedBeyondTheLast`, `InRangeUnlessLost`, `BeyondAfter`).
* A Raft node can vote for two candidates in one term, for a candidate that hears from the leader of its own term
  forgets its vote (`NodeVotesTwice`). `SingleVoteThroughout` has the exact condition; `VotesRecordedThroughout` is the
  step to it, on what `voted_for` records. There still is at most one leader per term (`ElectionSafety`): such a vote
  comes only once a majority that forgets nothing has elected the leader (`DoubleVotesComeTooLate`).
* A Raft node that starts again may not have the log it had. Writing the log only adds records, recovery takes the first
  one of each index, and cutting a log off leaves none; so entries that were replaced come back. Two logs may then share
  an entry and differ before it (`RestartMixesLogs`). `DurableThroughout` says when every log would be given back;
  log matching holds as long as no restart loses a log (`LogMatching`).
* A follower acknowledges its own last index, which may lie beyond what it was passed and hold an entry of another
  leader (`OverstatedAnswer`, `MatchTrueThroughout`). It may be made to commit such an entry, too
  (`IndicesTrueThroughout`). As the SQL wrapper of AppendEntries drops all entries, a leader then commits what only it
  has (`CommitsAlone`), and two nodes commit different entries at one index (`CommitsDiverge`), with every call answered
  and no restart. Where neither happens and no log is lost, what is committed is on a majority for good
  (`CommittedOnMajority`) and the same for all nodes (`CommittedAgree`).
* For the same reason no peer ever catches up behind that wrapper (`NobodyCatchesUp`). Where the handlers of raft.c are
  passed the entries, every peer does, within a budget of calls (`PeersCatchUp`).

## Model

| member | source | states |
|---|---|---|
| `SessionClient.Session.GetStoredTokens` | apps/dashboard/lib/auth.ts:6-23 | returns stored tokens that have not expired; finding them expired it empties the whole store |
| `SessionClient.Session.SetStoredUser` | apps/dashboard/lib/auth.ts:38-41 | replaces the stored user and touches nothing else |
| `SessionClient.Session.IsAuthenticated` | apps/dashboard/lib/auth.ts:57-60 | true exactly while the expiry lies strictly ahead; at the very instant of expiry the tokens are kept though they no longer count |
| `SessionClient.Session.GetAuthHeader` | apps/dashboard/lib/auth.ts:79-83 | the header is built from the stored tokens after the expiry check |
| `SessionClient.Session.BeginRefreshTokens` | apps/dashboard/lib/auth.ts:183-192 | first segment of a refresh: no request without a stored refresh token; otherwise one with it; takes the lock |
| `SessionClient.Session.RefreshResponse` | apps/dashboard/lib/auth.ts:194-197 | a failed or rejected refresh request empties the store and yields no tokens |
| `SessionClient.Session.RefreshBody` | apps/dashboard/lib/auth.ts:199-219 | new tokens are stored only beside a user that is still stored, and handed to the waiters either way (`SessionPromises.RefreshHandsOut`) |
| `SessionClient.Session.Finally` | apps/dashboard/lib/api.ts:45-48 | the finally callback frees the lock and makes the result available to the waiters |
| `SessionClient.Session.RefreshTokensWithLock` | apps/dashboard/lib/api.ts:38-51 | joins the refresh under way, or starts one and joins that |
| `SessionClient.Session.CallResponse` | apps/dashboard/lib/api.ts:75-79 | only a 401 to the first attempt joins a refresh; every other response is read as the last |
| `SessionClient.Session.ResumeCall` | apps/dashboard/lib/api.ts:79-87 | with new tokens one retry carrying them; without, the store is emptied and the call ends unauthorized |
| `SessionClient.Session.CallBody` | apps/dashboard/lib/api.ts:89-105 | how a call ends on the body of its last response, including where an upload differs on an empty body |
| `SessionClient.Session.BeginCall` | apps/dashboard/lib/api.ts:68-75 | the first attempt carries the header built at this step; an upload starts the same way |
| `SessionClient.Session.BeginLogout` | apps/dashboard/lib/auth.ts:163-181 | first segment of logout: a request if there are tokens, an empty store at once if there are none |
| `SessionClient.Session.LogoutResponse` | apps/dashboard/lib/auth.ts:166-181 | logout empties the store whatever the server answered |
| `SessionClient.Session.BeginSignIn` | apps/dashboard/lib/auth.ts:88-93 | a sign-in starts without touching the store |
| `SessionClient.Session.SignInResponse` | apps/dashboard/lib/auth.ts:95-100 | a failed or rejected sign-in leaves the store alone |
| `SessionClient.Session.SignInBody` | apps/dashboard/lib/auth.ts:103-115 | a successful sign-in stores its tokens and user together; register and the OAuth callback end the same way |
| `SessionClient.Session.BeginGetMe` | apps/dashboard/lib/auth.ts:221-227 | getMe sends the header built at this step |
| `SessionClient.Session.GetMeResponse` | apps/dashboard/lib/auth.ts:229-231 | a failed getMe leaves the store alone |
| `SessionClient.Session.GetMeBody` | apps/dashboard/lib/auth.ts:233-241 | getMe stores its user only beside tokens still stored and not expired |
| `SessionStore.PairedThroughout` | apps/dashboard/lib/auth.ts:38-55 | in every run tokens and user are present together throughout exactly when setStoredUser is never called on an empty store |
| `SessionStore.UserWithoutTokens` | apps/dashboard/lib/auth.ts:38-41 | a run from a loaded page that stores a user without tokens |
| `SessionStore.EmptyThroughout` | apps/dashboard/lib/auth.ts:163-242 | once empty, the store stays empty exactly until a sign-in completes or setStoredUser is called; no late refresh or getMe answer revives it |
| `SessionStore.OrphanUserLetsRefreshRevive` | apps/dashboard/src/routes/settings.tsx:226 | a run from a loaded page, without any sign-in, in which a logout empties the store, setStoredUser follows, and a late refresh stores tokens again |
| `SessionStore.WhatEmpties` | apps/dashboard/lib/auth.ts:15-18 | a step ends a session exactly when it reads expired tokens, completes a logout, fails a refresh or resumes a call without tokens |
| `SessionStore.RefreshKeepsUser` | apps/dashboard/lib/auth.ts:199-219 | a refresh step keeps the stored user or empties the store, and stores the very tokens it hands out |
| `SessionStore.UserOutlastsRefreshes` | apps/dashboard/lib/auth.ts:183-242 | over any run without sign-in, getMe answer or setStoredUser the stored user is the first one or none |
| `SessionStore.SessionLasts` | apps/dashboard/lib/auth.ts:103-107 | stored tokens are good for exactly the seconds granted (or, for OAuth, up to the time named), and the first read after that empties the store |
| `SessionPromises.RefreshHandsOut` | apps/dashboard/lib/auth.ts:199-214 | a refresh that is granted tokens settles with exactly those, good for the seconds granted from now on, whatever the store holds, and stores them beside a user only |
| `SessionPromises.RefreshFails` | apps/dashboard/lib/auth.ts:194-219 | a refresh goes on to read its tokens exactly after an answer from 200 to 299; otherwise it hands out nothing and the store is empty |
| `SessionPromises.RefreshSends` | apps/dashboard/lib/auth.ts:183-192 | a refresh sends the stored tokens if they have not expired and can be refreshed, and is otherwise over at once with nothing |
| `SessionPromises.StartsWith` | apps/dashboard/lib/auth.ts:79-83 | what a call, a sign-in, a logout and a getMe send first: the stored tokens unless expired; a logout without any is over at once |
| `SessionPromises.SignInStores` | apps/dashboard/lib/auth.ts:95-115 | in every run a sign-in stores tokens and user just as granted, on each route, exactly if its answer was a success and could be read, and otherwise leaves the store alone |
| `SessionPromises.GetMeStores` | apps/dashboard/lib/auth.ts:229-241 | in every run getMe reads only after a success, and stores its user exactly beside tokens that have not expired |
| `SessionPromises.OtherwiseStored` | apps/dashboard/lib/auth.ts:6-55 | what every other step makes of the store: empty after a logout, a call resumed without tokens or a look at expired tokens, and else as it was, but for a user set |
| `SessionStore.HeadersFreshThroughout` | apps/dashboard/lib/auth.ts:6-23 | in every run, first attempts, logout, getMe and refresh requests carry tokens not expired on the clock of the step that built them |
| `SessionSteps.TaskMovesOn` | apps/dashboard/lib/api.ts:64-105 | a step only adds to what a call sent, saw and joined, touches no other task, and leaves finished tasks alone |
| `SessionCalls.ProtocolThroughout` | apps/dashboard/lib/api.ts:36-105 | in every state of every run refreshPromise is set exactly while one refresh has started and its finally has not run, so at most one is in flight, and every call is where its protocol allows |
| `SessionCalls.EveryCall` | apps/dashboard/lib/api.ts:64-105 | in every run: at most two requests and one joined refresh per call; a retry carries exactly that refresh's tokens; no tokens means unauthorized without retry; a waiting call has a live or completed refresh behind it; the outcome is that of the sequential reading; success exactly on an ok last response with a readable body |
| `SessionPromises.RetryCarriesGrant` | apps/dashboard/lib/api.ts:79-83 | in every run the retry of a call carries the strings and the expiry of the grant that answered the refresh it joined |
| `SessionPromises.RetriedIffGranted` | apps/dashboard/lib/api.ts:79-87 | in every run a finished call that joined a refresh was retried exactly if that refresh was granted tokens |
| `SessionPromises.EveryOutcome` | apps/dashboard/lib/api.ts:75-105 | in every run a call ends with the code of its last answer if that was no success, by its body if it was, as a network error if it was rejected, and unauthorized exactly after a single answer of 401 |
| `SessionCalls.UnauthorizedEmpties` | apps/dashboard/lib/api.ts:79-87 | in every run the step that ends a call unauthorized empties the store and sends nothing |
| `SessionCalls.RefreshCount` | apps/dashboard/lib/api.ts:38-48 | a run starts exactly one refresh for each 401 to a first attempt that finds the lock free |
| `SessionCalls.RefreshesBoundedBy401s` | apps/dashboard/lib/api.ts:77-79 | refreshes started never exceed the calls whose first attempt was answered 401 |
| `SessionCalls.LateAnswerStartsSecondRefresh` | apps/dashboard/lib/api.ts:38-48 | a run from a loaded page, with the clock standing still, in which two calls sent with the same tokens and refused cost two refreshes |
| `SessionProgress.ContinuationsAreBounded` | apps/dashboard/lib/api.ts:64-105 | in every run, from any step on, the continuations never exceed what was in flight then and a fixed cost for each operation started since, whatever the clock and the page do meanwhile |
| `SessionProgress.StuckIffIdle` | apps/dashboard/lib/api.ts:36-105 | nothing is left to continue exactly when every operation has finished and the lock is free: no deadlock |
| `SessionProgress.EverythingFinishes` | apps/dashboard/lib/api.ts:64-105 | from any state of any run there are only so many answers left to give, and when none is left every operation has finished and the lock is free |
| `SessionOwnership.OwnedThroughout` | apps/dashboard/lib/auth.ts:199-242 | with an honest server, tokens and user belong to one account throughout exactly when no late answer meets another account's half of the store |
| `SessionOwnership.AlignedThroughout` | apps/dashboard/lib/auth.ts:88-242 | with an honest server, all that is stored and in flight belongs to one account throughout exactly when sign-ins complete only while what is in flight is their own account's and setStoredUser only updates the user signed in |
| `SessionOwnership.LoginDuringRefreshMixesAccounts` | apps/dashboard/lib/auth.ts:209-213 | a run from a loaded page, with an honest server, in which a refresh pending across a sign-in stores one account's tokens beside another's user |
| `AssetPaths.KeyIsRoute` | apps/dashboard/server/index.node.ts:68-82 | on both platforms the cache key of a path is a slash before each of its segments |
| `AssetPaths.RouteInjective` | apps/dashboard/server/index.node.ts:68-82 | joining loses nothing: different paths have different keys |
| `AssetServer.Server.ScanDirectory` | apps/dashboard/server/index.node.ts:63-91 | the recursive scan adds to the cache exactly the listing of the directory, whatever fails below it |
| `AssetServer.Server.ScanEntry` | apps/dashboard/server/index.node.ts:67-87 | one entry: a directory is scanned, a readable file stored under its key, anything else passed over |
| `AssetServer.Server.PreloadStaticAssets` | apps/dashboard/server/index.node.ts:60-100 | preloading scans the client directory, and leaves the cache alone when it is missing, no directory or cannot be read |
| `AssetServer.Server.ServeStaticAsset` | apps/dashboard/server/index.node.ts:160-185 | no answer for an uncached path; 304 exactly when the request's tag equals the asset's; else the full asset |
| `AssetServer.CacheAgreesWithTree` | apps/dashboard/server/index.node.ts:63-91 | for any failures, a lookup finds exactly the files that neither fail nor lie under a failing directory, with their content and tag |
| `AssetServer.CacheSize` | apps/dashboard/server/index.node.ts:96 | the cache never holds more assets than files that can be read, and holds as many exactly when no two of them share a key, as none do without backslashes in names |
| `AssetServer.ErrorFreePreload` | apps/dashboard/server/index.node.ts:60-100 | without failures a lookup succeeds exactly where walking the tree ends at a file, with its content |
| `AssetServer.FoundIff` | apps/dashboard/server/index.node.ts:63-91 | a lookup finds a path exactly if it leads to a file and nothing on the way there fails, the file included |
| `AssetServer.TagStaysIff` | apps/dashboard/server/index.node.ts:160-185 | a tag made from earlier content is still the file's exactly if both contents hash alike, so that changed content is sent in full |
| `AssetServer.FaithfulIffNoBackslash` | apps/dashboard/server/index.node.ts:81 | lookups agree with the tree for all paths exactly when no readable file's path has a backslash in a name |
| `AssetServer.BackslashFileIsNotFound` | apps/dashboard/server/index.node.ts:81 | a readable file with a backslash in its name is not found where the separator is a slash |
| `AssetServer.BackslashSeparates` | apps/dashboard/server/index.node.ts:81 | where the backslash is the separator no name has one, so lookups always agree |
| `ToastStore.Store.AddToRemoveQueue` | apps/dashboard/hooks/use-toast.ts:57-71 | the first call for an id arms one timer for 5000 ms; later ones do nothing |
| `ToastStore.Store.Reduce` | apps/dashboard/hooks/use-toast.ts:73-124 | the reducer's list for every action, and the timers a dismissal arms, where the empty id arms all and closes none |
| `ToastStore.Store.Dispatch` | apps/dashboard/hooks/use-toast.ts:130-135 | the list is reduced and every listener is handed the result |
| `ToastStore.Store.GenId` | apps/dashboard/hooks/use-toast.ts:26-29 | the next id, counting modulo the largest safe integer |
| `ToastStore.Store.ShowToast` | apps/dashboard/hooks/use-toast.ts:139-170 | a new toast gets a fresh id and is added open |
| `ToastStore.Store.UpdateShown` | apps/dashboard/hooks/use-toast.ts:146-150 | an update changes the toast of its own id only, and never its id |
| `ToastStore.Store.DismissShown` | apps/dashboard/hooks/use-toast.ts:151-161 | a dismissal by id, by the empty id, or of all; `ToastPromises.DismissCloses` says what it closes |
| `ToastStore.Store.FirstRender` | apps/dashboard/hooks/use-toast.ts:177 | a component first shows the list as it is when it renders |
| `ToastStore.Store.EffectRuns` | apps/dashboard/hooks/use-toast.ts:179-180 | its effect registers it as a listener, without a fresh look at the list |
| `ToastStore.Store.CleanupRuns` | apps/dashboard/hooks/use-toast.ts:181-186 | unmounting removes its registration |
| `ToastStore.Store.TimerFires` | apps/dashboard/hooks/use-toast.ts:62-68 | the timer callback forgets the timeout and removes the toast |
| `ToastProperties.OrderedThroughout` | apps/dashboard/hooks/use-toast.ts:73-124 | until the counter wraps: at most 5 toasts, ids strictly falling from newest to oldest, in every run |
| `ToastProperties.OrderedUntilTheWrap` | apps/dashboard/hooks/use-toast.ts:26-29 | in a run the list is bounded with falling ids throughout exactly when fewer ids are generated than the counter counts |
| `ToastProperties.IdsStartOver` | apps/dashboard/hooks/use-toast.ts:26-29 | a run in which the newest toast has the smallest id |
| `ToastProperties.OrderEndsWithTheCounter` | apps/dashboard/hooks/use-toast.ts:26-29 | the next toast keeps the falling order exactly while the counter has not reached the wrap |
| `ToastProperties.OnlyTheOldestIsEvicted` | apps/dashboard/hooks/use-toast.ts:75-79 | a new toast goes on top, open, and evicts the oldest one only, and only from a full list |
| `ToastPromises.DismissCloses` | apps/dashboard/hooks/use-toast.ts:89-110 | a dismissal closes exactly the listed toasts it is for, all or those of its id, and changes nothing else in the list |
| `ToastPromises.ClosedAfter` | apps/dashboard/hooks/use-toast.ts:81-110 | a closed toast is open again exactly after an update that opens it |
| `ToastPromises.StaysClosed` | apps/dashboard/hooks/use-toast.ts:89-110 | in every run a dismissed toast is closed at once and stays closed until it is gone or an update opens it |
| `ToastPromises.UpdateMerges` | apps/dashboard/hooks/use-toast.ts:81-87 | an update puts in the open state and the text it gives, in the toast of its id, and nothing else |
| `ToastPromises.FireRemoves` | apps/dashboard/hooks/use-toast.ts:112-122 | a timer that fires takes its toast out of the list and keeps the others in order |
| `ToastPromises.LeavesInTwoWays` | apps/dashboard/hooks/use-toast.ts:73-124 | a toast leaves the list only pushed out of a full list of five, or by its timer once that is due |
| `ToastPromises.ShownStays` | apps/dashboard/hooks/use-toast.ts:139-170 | in every run a toast shown, and not dismissed in advance, stays listed as it was shown until it is dismissed or updated or five more have been shown |
| `ToastPromises.RemainsIff` | apps/dashboard/hooks/use-toast.ts:57-71 | a new toast remains listed however long nothing is done to it exactly if its id was not dismissed in advance |
| `ToastPromises.DismissedInAdvance` | apps/dashboard/hooks/use-toast.ts:57-71 | a run in which a toast is removed though nothing was done to it since it was shown |
| `ToastProperties.TimersMatchThroughout` | apps/dashboard/hooks/use-toast.ts:55-71 | in every run toastTimeouts has an id exactly when one removal callback for it is pending |
| `ToastProperties.ClosedArmedThroughout` | apps/dashboard/hooks/use-toast.ts:81-110 | in a run closed toasts always have a pending removal exactly when no update closes one that nobody dismissed |
| `ToastProperties.ClosedButNotRemoved` | apps/dashboard/hooks/use-toast.ts:81-87 | a run in which an update closes a toast and no removal is pending |
| `ToastProperties.FirstDismissalDooms` | apps/dashboard/hooks/use-toast.ts:57-71 | from its first dismissal on a toast's removal is due exactly 5000 ms after it until the toast is gone for good; nothing extends it |
| `ToastProperties.BlankDismissalClosesNothing` | apps/dashboard/hooks/use-toast.ts:92-109 | dismissing the empty id starts every removal and leaves the list as it is |
| `ToastProperties.FiringRemoves` | apps/dashboard/hooks/use-toast.ts:62-68 | when its timer fires, a toast leaves the list |
| `ToastProperties.DismissedIsGoneInTime` | apps/dashboard/hooks/use-toast.ts:57-71 | with punctual timers a dismissed toast is gone once 5000 ms have passed |
| `ToastProperties.GoneForGood` | apps/dashboard/hooks/use-toast.ts:26-29 | a removed or evicted id never reappears before the counter wraps |
| `ToastProperties.UpToDateThroughout` | apps/dashboard/hooks/use-toast.ts:126-187 | in a run every listener always shows the current list exactly when none mounts after the list has moved on from its first render |
| `ToastPromises.WhatIsSeen` | apps/dashboard/hooks/use-toast.ts:126-135 | a component shows the list as it was on its first render, and then each list handed out while it listens |
| `ToastPromises.ListensThroughout` | apps/dashboard/hooks/use-toast.ts:179-187 | in every run a component listens from its mount until it unmounts, whoever else comes and goes |
| `ToastProperties.MountedLate` | apps/dashboard/hooks/use-toast.ts:176-187 | a run in which a component listens and shows no toast while there is one |
| `Throttle.Throttled.Invoke` | apps/dashboard/lib/utils.ts:119-127 | a call runs the function exactly when the flag is down, and then raises it and arms a timer |
| `Throttle.Throttled.TimerFires` | apps/dashboard/lib/utils.ts:123-125 | the callback lowers the flag |
| `Throttle.FlagAndTimer` | apps/dashboard/lib/utils.ts:117-127 | the flag is up exactly while one timer is pending, due `limit` after the last execution |
| `Throttle.ExecutionsAreSpaced` | apps/dashboard/lib/utils.ts:113-128 | executions are pairwise at least `limit` apart, however late timers fire |
| `Throttle.ExecutionRate` | apps/dashboard/lib/utils.ts:113-128 | any window of length L holds at most floor(L / limit) + 1 executions |
| `Throttle.ThrottleIsOptimal` | apps/dashboard/lib/utils.ts:113-128 | with prompt timers no set of calls pairwise at least `limit` apart is larger than the set executed |
| `Debounce.Debounced.Invoke` | apps/dashboard/lib/utils.ts:105-110 | a call cancels the timer of the previous one and arms its own |
| `Debounce.Debounced.TimerFires` | apps/dashboard/lib/utils.ts:109 | the callback runs the function with the arguments its timer was armed with |
| `Debounce.OneTimerThroughout` | apps/dashboard/lib/utils.ts:103-110 | in every run at most one timer is live; it carries the most recent call and is due `wait` after it |
| `Debounce.ExecutionsAreRecent` | apps/dashboard/lib/utils.ts:99-111 | an execution uses the most recent call's arguments, at least `wait` after it, however late timers fire |
| `Debounce.DebounceIsFilter` | apps/dashboard/lib/utils.ts:99-111 | with prompt timers what runs is, in order, a filter of the calls that knows no timers |
| `Debounce.SettledIff` | apps/dashboard/lib/utils.ts:99-111 | the filter keeps a call exactly when its next call comes at least `wait` later |
| `Debounce.CallRunsIff` | apps/dashboard/lib/utils.ts:99-111 | a call with a successor runs exactly when the successor comes at least `wait` later |
| `Sorting.StableSortUnique` | apps/dashboard/components/data-browser/table-explorer.tsx:211 | a stable sort has one possible result, so no particular sorting algorithm is assumed |
| `TableExplorer.Explorer.GroupTables` | apps/dashboard/components/data-browser/table-explorer.tsx:70-88 | the groups hold, under each schema that occurs among the tables found, exactly its tables in order, each schema once |
| `TableExplorer.Explorer.Push` | apps/dashboard/components/data-browser/table-explorer.tsx:79-84 | one table more goes to the end of its schema's group, created if there is none |
| `TableExplorer.Explorer.Schemas` | apps/dashboard/components/data-browser/table-explorer.tsx:90-95 | the groups are shown in schema order: each once, public first, the others in order |
| `TableExplorer.Explorer.ShowGroup` | apps/dashboard/components/data-browser/table-explorer.tsx:208-212 | showing a group sorts it by name in place, with the same tables, and leaves the others alone |
| `TableExplorer.ShownAgain` | apps/dashboard/components/data-browser/table-explorer.tsx:210-211 | rendering a group again, now sorted in place, shows the same |
| `TableExplorer.Explorer.ShowAll` | apps/dashboard/components/data-browser/table-explorer.tsx:155-166 | all groups from top to bottom, and the groups left behind |
| `TableExplorer.Explorer.Explore` | apps/dashboard/components/data-browser/table-explorer.tsx:70-95 | what a search shows with all groups open: the tables found and no others, public first, schemas and names in order, and the stable sort by both |
| `TableExplorer.WhatIsShown` | apps/dashboard/components/data-browser/table-explorer.tsx:70-95 | what a search shows: the tables whose name or schema contains it in any case of letters, each as often as there is one and no others; public before all other schemas, those in order, and names in order within each |
| `TableExplorer.DisplayIsOneSort` | apps/dashboard/components/data-browser/table-explorer.tsx:90-212 | grouping and sorting each group equals one stable sort by the composite key, with the same multiset of tables |
| `TableExplorer.NoEmptyGroup` | apps/dashboard/components/data-browser/table-explorer.tsx:77-87 | no group is empty, and each table is in its schema's group |
| `RaftServer.RaftNode.StepDown` | extensions/postgres/src/consensus/raft.c:284-295 | a node that steps down takes the term, becomes follower and forgets its vote |
| `RaftServer.RaftNode.StartElection` | extensions/postgres/src/consensus/raft.c:300-320 | a candidate enters a new term, votes for itself and starts polling |
| `RaftServer.RaftNode.TakeAnswer` | extensions/postgres/src/consensus/raft.c:405-425 | a later term in an answer ends the poll; a granted vote counts once |
| `RaftServer.RaftNode.CountVotes` | extensions/postgres/src/consensus/raft.c:427-435 | the candidate leads exactly with a quorum of votes, starts its peers' indices anew and adds an entry of its term |
| `RaftServer.RaftNode.InitializeLeaderState` | extensions/postgres/src/consensus/raft.c:357-366 | every peer is to be sent what comes after the last index, and matches nothing |
| `RaftServer.RaftNode.RequestVote` | extensions/postgres/src/consensus/raft.c:441-482 | a vote goes to an up-to-date candidate of at least the voter's term, if the voter has none on record for that term or the same one |
| `RaftServer.RaftNode.SubmitCommand` | extensions/postgres/src/consensus/raft.c:1410-1434 | a leader adds the command as an entry of its term |
| `RaftServer.RaftNode.NextRequest` | extensions/postgres/src/consensus/raft.c:536-550 | a peer is sent at most 100 entries from its next index on, with the term of the entry before them and the leader's commit index |
| `RaftServer.RaftNode.TakeAppendAnswer` | extensions/postgres/src/consensus/raft.c:556-575 | a later term ends leadership; success moves both indices only if entries were sent; failure steps back by one |
| `RaftServer.RaftNode.UpdateCommitIndex` | extensions/postgres/src/consensus/raft.c:669-698 | the commit index becomes what NewCommit says, which `RaftProgress.CommitsAllItMay` shows to be the last one that a leader may commit |
| `RaftServer.RaftNode.CountReplicated` | extensions/postgres/src/consensus/raft.c:684-690 | the leader and its peers that match that far, each once |
| `RaftServer.RaftNode.AppendEntries` | extensions/postgres/src/consensus/raft.c:585-664 | the handler's terms, role, log, commit index and answer |
| `RaftServer.RaftNode.WriteEntries` | extensions/postgres/src/consensus/raft.c:629-650 | the loop over the entries skips those that fit, cuts the log off at the first that does not, and appends from there on |
| `RaftServer.RaftNode.WriteEntry` | extensions/postgres/src/consensus/raft.c:630-650 | one turn of that loop: an entry that fits is skipped, one that does not replaces what is from there on |
| `RaftServer.RaftNode.AppendEntry` | extensions/postgres/src/consensus/raft_log.c:171-222 | an entry goes to the end of the log, which is written out |
| `RaftServer.RaftNode.TruncateLog` | extensions/postgres/src/consensus/raft_log.c:276-313 | a log is cut off, its commit index lowered with it, and written out, if it is longer |
| `RaftServer.RaftNode.PersistLog` | extensions/postgres/src/consensus/raft_log.c:426-514 | after writing, recovery gives back new entries beyond its last index only, and a higher commit index |
| `RaftServer.RaftNode.Recover` | extensions/postgres/src/consensus/raft_log.c:519-634 | reading all records gives the log and commit index that recovery is said to give |
| `RaftServer.RaftNode.RestartNode` | extensions/postgres/src/consensus/raft.c:118-232 | a node starts again as a follower with its term, its vote and the log recovered |
| `RaftWal.ReadIs` | extensions/postgres/src/consensus/raft_log.c:568-605 | what recovery makes of one record: an index that is there stays, skipped ones are zeroed, and a commit index only rises, within the log |
| `RaftWal.PersistedIs` | extensions/postgres/src/consensus/raft_log.c:462-497 | whatever the file held, one more writing of the log changes what it gives back as PersistLog says |
| `RaftElections.ElectionSafety` | extensions/postgres/src/consensus/raft.c:384-482 | in every run, with calls lost or late, nodes restarted and votes forgotten, a term is won by at most one node |
| `RaftElections.OneLeaderAtATime` | extensions/postgres/src/consensus/raft.c:325-351 | no two nodes are leaders of one term at one time |
| `RaftElections.WinnerIsFirst` | extensions/postgres/src/consensus/raft.c:427-432 | a candidate that counts a quorum has that many different backers, and its term has no leader yet |
| `RaftElections.DoubleVotesComeTooLate` | extensions/postgres/src/consensus/raft.c:602-606 | a node votes for two candidates in a term only if the term has a leader |
| `RaftExchanges.VotesIff` | extensions/postgres/src/consensus/raft.c:441-499 | a vote is granted exactly by a node that is in no later term, has not voted for another in the term, and whose log is not ahead in last term and length; and what it then is |
| `RaftExchanges.AnsweredAsk` | extensions/postgres/src/consensus/raft.c:402-425 | after an answered request for a vote both nodes are in the later of their terms, a candidate of an earlier one follows, and a vote granted counts once |
| `RaftAvailability.ElectionSucceeds` | extensions/postgres/src/consensus/raft.c:384-435 | a node that is behind none of a majority, in log and term, and reaches it, is elected; what the election makes of every node |
| `RaftVotes.VotesRecordedThroughout` | extensions/postgres/src/consensus/raft.c:602-606 | in a run voted_for tells of every vote cast in the current term exactly when no candidate handles AppendEntries of its own term |
| `RaftVotes.SingleVoteThroughout` | extensions/postgres/src/consensus/raft.c:441-482 | in a run nobody votes for two candidates in one term exactly when no node that stood in a term, and has forgotten it, is asked for its vote in that term for an up-to-date log |
| `RaftVotes.NodeVotesTwice` | extensions/postgres/src/consensus/raft.c:602-606 | a run of a new cluster of five in which a node votes for two candidates in one term |
| `RaftLog.OverlaidIs` | extensions/postgres/src/consensus/raft.c:629-650 | the log after AppendEntries keeps what was before the entries, has terms as they have, and ends with them exactly if it was no longer or was cut off at a conflict |
| `RaftLog.AcknowledgesWhatItWasSent` | extensions/postgres/src/consensus/raft.c:585-664 | exactly requests of an older term or without a matching previous entry are refused, and leave the log alone; otherwise the follower has the entries and acknowledges its own last index |
| `RaftExchanges.TermsMeet` | extensions/postgres/src/consensus/raft.c:556-610 | after an answered call to append both nodes are in the later of their terms, and whoever was in an earlier one, or a candidate, follows without a vote |
| `RaftExchanges.RefusalTells` | extensions/postgres/src/consensus/raft.c:585-626 | a request is refused exactly if it is of an older term or its previous entry is missing; the answer then names 0 or the last index before the one asked for that the log has |
| `RaftExchanges.AcceptedIsTold` | extensions/postgres/src/consensus/raft.c:652-656 | a peer that accepts a call has committed at least what the leader has, as far as its log goes |
| `RaftExchanges.MayComeLate` | extensions/postgres/src/consensus/raft.c:1639-1750 | in every run a call once made, even one that was missed, may reach its peer at any later time, which then handles it |
| `RaftExchanges.Unanswered` | extensions/postgres/src/consensus/raft.c:1639-1750 | a call that gets no answer counts no vote and has a leader step back by one |
| `RaftExchanges.NobodyCatchesUp` | extensions/postgres/src/consensus/raft_integration.c:1684-1705 | in every run in which the entries of all requests are dropped, a log grows only while its node is elected or takes commands |
| `RaftProgress.OneRound` | extensions/postgres/src/consensus/raft.c:536-661 | one answered call, exactly: if it goes on from what both logs have in common, the peer has the leader's entries up to 100 more, or its own log where that has them all, commits as far as told, and the leader knows; if from further on, it is refused and the leader steps back by one |
| `RaftProgress.CatchesUp` | extensions/postgres/src/consensus/raft.c:536-576 | from any healthy state, enough answered calls bring a peer's entries and commit index to the leader's, and the leader knows it: at most one call for each step back to what both have, and one for each 100 entries on |
| `RaftAvailability.PeersCatchUp` | extensions/postgres/src/consensus/raft.c:536-576 | in every run without lost logs a leader can bring every idle peer of no later term up to date, within that many calls |
| `RaftMatching.LogMatching` | extensions/postgres/src/consensus/raft.c:612-650 | in a run, as long as no restart loses a log, an entry with one index and term is the same in two logs, command and all, and so is all before it |
| `RaftMatching.FollowsBook` | extensions/postgres/src/consensus/raft.c:612-650 | the log after AppendEntries is the one before, or the leader's up to the last entry sent |
| `RaftRecovery.DurableThroughout` | extensions/postgres/src/consensus/raft_log.c:426-514 | in a run every node's file gives back its log throughout exactly when no log is ever cut off at a conflict |
| `RaftRecovery.WithoutCutsNothingIsLost` | extensions/postgres/src/consensus/raft_log.c:519-634 | in a run in which no log is cut off no restart loses a log |
| `RaftRecovery.WrapperNeverCuts` | extensions/postgres/src/consensus/raft_integration.c:1684-1705 | with the entries of all requests dropped no log is cut off and no restart loses one |
| `RaftRecovery.RestartFollows` | extensions/postgres/src/consensus/raft.c:118-197 | a restart leaves the node a follower in its term, with its vote, and touches no other node |
| `RaftRecovery.StopKeeps` | extensions/postgres/src/consensus/raft.c:201-215 | a node that is stopped with its log on disk has its entries again and commits as far as it had, or as its file says further |
| `RaftRecovery.CrashKeepsSubmitted` | extensions/postgres/src/consensus/raft_log.c:171-222 | a command taken, and what was committed then, survive a crash right after |
| `RaftDivergence.RestartMixesLogs` | extensions/postgres/src/consensus/raft_log.c:592-600 | a run of a new cluster of three in which a restart leaves two logs with the same second entry and different first ones |
| `RaftAcks.AckTrueIff` | extensions/postgres/src/consensus/raft.c:660-661 | a follower's log after a request is the leader's as far as it goes exactly unless it keeps entries beyond those passed and the last is not the leader's |
| `RaftAcks.MatchTrueThroughout` | extensions/postgres/src/consensus/raft.c:563-568 | in a run without lost logs every leader's match indices tell what its peers have exactly when no peer acknowledges beyond what it was passed an entry that is not the leader's |
| `RaftDivergence.OverstatedAnswer` | extensions/postgres/src/consensus/raft.c:660-661 | a run of a new cluster of three in which a follower acknowledges an index it was not passed and a match index is false |
| `RaftCompleteness.UpToDateHas` | extensions/postgres/src/consensus/raft.c:488-499 | a candidate up to date for a voter has what the voter acknowledged before, unless a leader in between had not |
| `RaftCompleteness.LaterLeadersHave` | extensions/postgres/src/consensus/raft.c:488-499 | leader completeness: an entry of the leader's own term that a majority has acknowledged is in the log of every later leader |
| `RaftCompleteness.HoldersHave` | extensions/postgres/src/consensus/raft.c:669-698 | and still in the logs of all who acknowledged it |
| `RaftCompleteness.SoundThroughout` | extensions/postgres/src/consensus/raft.c:585-698 | what these rest on holds in every state of a run without lost logs and false acknowledgements |
| `RaftCommit.CommitIff` | extensions/postgres/src/consensus/raft.c:652-656 | what a follower newly commits is the leader's exactly unless it lies beyond what it was passed and its last entry differs |
| `RaftCommit.LeaderChooses` | extensions/postgres/src/consensus/raft.c:669-698 | what a leader newly commits is an entry of its own term that a majority has acknowledged |
| `RaftProgress.CommitsAllItMay` | extensions/postgres/src/consensus/raft.c:669-698 | a leader commits the last entry of its own term that it counts on more than half of all nodes, if there is one beyond its commit index, and changes nothing else |
| `RaftProgress.CommittedIsThere` | extensions/postgres/src/consensus/raft.c:652-698 | in every run, lost logs included, commit indices lie within their logs, in memory and on disk |
| `RaftProgress.LeaderCommits` | extensions/postgres/src/consensus/raft.c:519-698 | from any healthy state a leader that reaches a majority can have its whole log committed, by itself and by every peer it reaches |
| `RaftCommit.IndicesTrueThroughout` | extensions/postgres/src/consensus/raft.c:563-698 | in a run without lost logs match and commit indices are true throughout exactly when no peer acknowledges or commits beyond what it was passed an entry that is not the leader's |
| `RaftCommit.ReliableThroughout` | extensions/postgres/src/consensus/raft.c:563-698 | in every run, files give back all logs and all indices are true throughout exactly when no log is cut off at a conflict and no peer acknowledges or commits as above |
| `RaftCommit.CommittedOnMajority` | extensions/postgres/src/consensus/raft.c:669-698 | without such steps what a node has committed is in the logs of a majority, then and ever after |
| `RaftCommit.CommittedAgree` | extensions/postgres/src/consensus/raft.c:652-698 | and no two nodes ever commit different entries at an index |
| `RaftAvailability.AlwaysAvailable` | extensions/postgres/src/consensus/raft.c:384-698 | in every run without lost logs, whatever was lost or late before: an idle node that is behind none of an idle majority can be elected and have a command committed by all of that majority |
| `RaftDivergence.CommitsAlone` | extensions/postgres/src/consensus/raft.c:685-697 | a run of a new cluster of three, behind the wrapper, in which a leader commits an entry that no other log has |
| `RaftDivergence.CommitsDiverge` | extensions/postgres/src/consensus/raft.c:685-697 | a run of it, behind the wrapper, in which two nodes commit different entries at index 1 |
| `Pagination.ClientsTable.NextClicked` | apps/dashboard/components/clusters/pooler-clients-table.tsx:393-400 | the next button goes one page on, but never past the last |
| `Pagination.ClientsTable.FirstClicked` | apps/dashboard/components/clusters/pooler-clients-table.tsx:374-381 | back to page 1 |
| `Pagination.ClientsTable.PreviousClicked` | apps/dashboard/components/clusters/pooler-clients-table.tsx:382-389 | one page back, but never before the first |
| `Pagination.ClientsTable.LastClicked` | apps/dashboard/components/clusters/pooler-clients-table.tsx:401-408 | on to the last page |
| `Pagination.ClientsTable.PageSizeSelected` | apps/dashboard/components/clusters/pooler-clients-table.tsx:220-223 | a new page size starts again at page 1 |
| `Pagination.ClickLeads` | apps/dashboard/components/clusters/pooler-clients-table.tsx:374-408 | where each click leads, in numbers of clients: one page on or back, to page 1, to the page with the last client, or to page 1 of the size chosen |
| `Pagination.ClickableIff` | apps/dashboard/components/clusters/pooler-clients-table.tsx:366-408 | a button works exactly if there are more clients than fit a page and it leads elsewhere; four page sizes can be chosen once there is an answer |
| `Pagination.WhatIsKnown` | apps/dashboard/components/clusters/pooler-clients-table.tsx:84-98 | what is known of a query: the total it was answered last, until that is forgotten |
| `Pagination.InRangeAfter` | apps/dashboard/components/clusters/pooler-clients-table.tsx:374-408 | a page in range is lost exactly by an answer that leaves no clients for it, or by a click to a page of which such an answer is kept |
| `Pagination.BeyondAfter` | apps/dashboard/components/clusters/pooler-clients-table.tsx:366-408 | what brings a page beyond the last one back, in numbers of clients: nothing but a page size or an answer with more clients when one page is left; otherwise any button whose page is not known to have too few either |
| `Pagination.InRangeUnlessLost` | apps/dashboard/components/clusters/pooler-clients-table.tsx:84-98 | in a run the page stays in range exactly when no answer and no click loses it |
| `Pagination.StrandedBeyondTheLast` | apps/dashboard/components/clusters/pooler-clients-table.tsx:382-389 | a run in which clients leave while the last page is shown, and the previous button leads to another page beyond the last |
| `Pagination.InRangeThroughout` | apps/dashboard/components/clusters/pooler-clients-table.tsx:218-223 | while all answers agree on the total, no sequence of clicks and page sizes leads out of range |
| `Pagination.PagesPartitionRows` | apps/dashboard/components/clusters/pooler-clients-table.tsx:370-371 | every row from 1 to the total stands on exactly one page, and no page shows any other row |
| `Pagination.RowIsSeen` | apps/dashboard/components/clusters/pooler-clients-table.tsx:366-408 | with answers that agree on the total, the next button leads from the first page to every row |
| `Pagination.InRangeIffShowsSomething` | apps/dashboard/components/clusters/pooler-clients-table.tsx:98 | with clients to show, a page shows something exactly when it is in range |

## Left out

- Storage failures, malformed JSON in the store, changes from other tabs, and running without a window: the store is two optional values.
- Shapes of server answers beyond what decides a step, caller-supplied authorization headers, error messages, and the `owner` of tokens, which only the server knows and the client never reads.
- `linkOAuthProvider` and `unlinkOAuthProvider`: they only read the header and throw on failure.
- Reads by `requireAuth`, `useAuth` and other header builders are the one event `ReadSession`.
- The MIME table and MD5: parameters of the asset model. Percent-encoding of request paths, server-side rendering, HTTP conversion and the HTML shell.
- Symbolic links and other special entries are in the tree and are skipped, as by the scan.
- Decimal rendering of toast ids: a generated id is its number. Toast content is one string, and the callbacks of a toast are left out.
- Re-entrant or throwing wrapped functions in `throttle` and `debounce`, and the clamping of small delays by the runtime.
- `toLowerCase` is any function and `localeCompare` any total order; a schema named like a built-in object property, on which the plain-object accumulator would fail, is left out, as is which groups start expanded.
- Local search and state filters of the clients table, the disconnect action, and all formatting helpers.
- Of the Raft implementation: snapshots, compaction and InstallSnapshot, changes of membership, linearizable reads, applying entries, the capacity of a log, configuration entries, and files that fail to be written or read.
- Which node handles a call: `local_raft_node` is set only in the Raft worker (raft_integration.c:82, 201), and the SQL functions that peers call raise an error where it is null (raft_integration.c:1621, 1675), as it is in a client backend. The runs are those of the handlers of raft.c, with every call delivered to the worker's node.
- A Raft node handles no call while it polls its peers, since it is one process and its calls block; between two calls of a replication round it may.
- RaftMatching.LogMatching: holds as long as no restart loses a log, because the code does lose logs; that a lost log may leave the others matching is not stated. What is built on it, `RaftAcks.MatchTrueThroughout` and `RaftCommit.IndicesTrueThroughout`, is about the same runs, which behind the wrapper are all (`RaftRecovery.WrapperNeverCuts`); `RaftCommit.ReliableThroughout` is about every run.
- The rest of the PostgreSQL extension, such as sharding, compression, tiering and distributed execution, and the control plane, whose code here is generated.
- React rendering, routing and the query hooks.
