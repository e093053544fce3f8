# A verified model of the CDN proxy

The proxy accepts requests for a fixed set of content hosts, rewrites each to its upstream host, and sends it to the
candidate address that the *selector* currently prefers. Candidates are rated by *speed-test passes* and by failed
requests. A failed candidate is avoided for a penalty period, and a failed download is tried up to three times. Requests
and measurements leave records with a log-writer thread. That thread deletes old rows, and the dashboard shows windows
over what is left.

This project models these parts in Dafny and proves what they promise together. A *run* below is any finite sequence of
calls with any arguments; the environment (other tasks, the clock, the upstream, the order in which things complete) is
a parameter of the models, so every statement holds for all of its choices.

## How it is organized

| module | models |
|---|---|
| `Common` | optional values, addresses, machine widths, permutations, filtering |
| `HostNames` | the three host lookups over a table of groups |
| `Endpoints` | the bundled table, loading and start-up pinning |
| `Scores` | the score order, the stable sort, the last maximum |
| `Candidates` | one candidate and the history it summarizes |
| `Selectors` | the selector state, its reads and its changes, as functions |
| `Ranking` | the routed address against the dashboard's ranking |
| `SelectorRuns` | what every run of selector calls keeps |
| `SelectorService` | the selector object, its methods proved against `Selectors` |
| `Retries` | the attempt loop of one request among other tasks' calls |
| `Headers` | header forwarding in both directions |
| `Recording` | the counting body stream and the request handler's record |
| `Log` | the writer thread and retention |
| `Windows` | the dashboard's queries |
| `SpeedTest` | one pass: targets, tasks, waves, results |
| `PassProperties` | coverage, confluence and isolation of a pass |
| `Trigger` | the wake-up protocol of the speed-test loop |
| `Activity` | the live-activity counter in atomic steps |

Objects whose methods change fields are classes (`Selector`, `RecordState`, `CountingStream`, `Channel`, `Writer`,
`SpeedTestControl`, `MetricsStore`). Each of their methods is proved to carry out a transition function or to read what
it says, and the properties over runs are proved about those functions. `Selector.groups` holds the contents of all the
locks of one selector; a call is one step, except in `SelectorService.OverlappingPins`, which takes its two lock
acquisitions apart.

## What the code does where its documentation says otherwise

- README.md:22 speaks of six accepted hosts; the table in src/endpoints.rs:21-52 has fourteen, all accepted
  (`Endpoints.AllFourteenAccepted`), one of which is none of the six nor a subdomain of one
  (`Endpoints.MoreThanDocumented`), and subdomains of each are accepted too. The model follows the table.
- README.md:138-140 says a URL limits a pass to one group. If no further trigger comes, that is sure exactly when no
  wake-up (a notification still to be sent or not yet consumed) is under way as the URL is set
  (`Trigger.ServedAloneExactly`). Else the wake-up left over can lead to a second pass, over all groups: in
  `Trigger.OverlappingTriggersWidenAPass` two triggers are set before either notifies, the second replaces the first's
  URL, and both notifications precede the take, one as a signal and one as a stored permit. A further trigger before the
  take always replaces the URL.
- src/metrics.rs:46-48 promises that a request in flight, or one that finished within the grace period, counts as busy.
  For handlers in flight this holds, for all grace periods, exactly when a guard is counted or the stored stamp is not
  older than the last moment one was (`Activity.HandlersSeenExactly`). It fails in some states between a guard's decrement
  and its stamp and after some stamps stored late (`Activity.IdleInsideGap`, `Activity.IdleAfterStaleStamp`); with
  serialized stamps only in such a gap (`Activity.HandlersMissedOnlyInGap`).
- The guard is dropped when the handler returns (src/proxy.rs:327), while the reply's body may go on for long. So for whole
  requests the promise fails in a second way, and with it the promise of README.md:143-146 that active downloads are never
  starved: a body that outlasts its handler by the grace period is not seen (`Activity.IdleWhileStreaming`). While a body
  streams the promise holds exactly when another handler is in flight or the stamp is younger than the grace period
  (`Activity.RequestsSeenExactly`); outside the gaps, with serialized stamps, only bodies that outlast the last handler by
  the grace period are missed (`Activity.OnlyLongBodiesMissed`).
- A success clears the failure count but not the time of the last failure (src/selector.rs:181-195), so routing and the
  dashboard's ranking can disagree; `Ranking.HeadAgreesWithBest` says exactly when, and `SelectorRuns.ViewsCanDisagree`
  gives a run that gets there.
- A request answered after a failed attempt still records that attempt's error (src/proxy.rs:524). The code has a path on
  which a request whose method may not be retried leaves no record, when its upstream request cannot be built
  (src/proxy.rs:454-463); the model takes the builder's answer as given and does not show that any request makes it fail.
  A handler dropped while it awaits the upstream, as when the client goes away, leaves no record either.

## Model

| member | source | states |
|---|---|---|
| `HostNames.NormalizeIdentifiesSameHost` | src/selector.rs:318-320 | Two names normalize alike if and only if they differ only in ASCII case and in trailing dots |
| `HostNames.NormalizeIdempotent` | src/selector.rs:318-320 | Normalizing a normalized name changes nothing |
| `HostNames.EntryFor` | src/selector.rs:94-99 | The entry answered is the first of the group's map whose domain is the host or a parent domain of it; none means no entry accepts the host |
| `HostNames.HostForFinds` | src/selector.rs:91-117 | The group lookup and the upstream-host lookup are answered from one and the same pair, the first in table order that accepts the host, and both fail exactly when no pair does |
| `HostNames.IndexOfIsFirstClaim` | src/selector.rs:119-133 | An index is the answer if and only if that group claims the host by name or by domain and no earlier group does |
| `HostNames.LookupsAgree` | src/selector.rs:91-133 | The three near-duplicate lookups name the same group, the index lookup if and only if no earlier group bears the host as its own name; where no domain accepts the host, the index lookup fails if and only if no group bears it |
| `HostNames.ManagedHostHasIndex` | src/selector.rs:91-133 | A host that some domain accepts always has a group index |
| `HostNames.LookupsIgnoreCaseAndDots` | src/selector.rs:91-133 | All three lookups give equal answers for names that differ only in case and trailing dots |
| `HostNames.SuffixesNest` | src/selector.rs:96-98 | Any two domains that accept one host accept one another in one direction |
| `HostNames.SubdomainMatches` | src/selector.rs:96-98 | Every subdomain of a domain is accepted by it |
| `HostNames.AtMostOnePairMatches` | src/selector.rs:91-117 | On a table in which no client domain is a label suffix of another, any host string is accepted by at most one pair |
| `HostNames.RewriteIsIdempotent` | src/selector.rs:106-133 | On such a table, closed under rewriting, the upstream host of any accepted host maps to itself and stays in the group, also for the index lookup that yields the port |
| `HostNames.NameResolvesExactly` | src/selector.rs:119-133 | A group's own name leads back to it if and only if normalization keeps its trailing end (or a domain of its own accepts it) and no earlier group claims it |
| `Endpoints.BundledSuffixFree` | src/endpoints.rs:21-52 | No two of the fourteen bundled client domains are equal or suffixes of one another |
| `Endpoints.BundledRewriteClosed` | src/endpoints.rs:21-52 | Every bundled upstream host is a client domain of its own group that maps to itself |
| `Endpoints.BundledRewrite` | src/endpoints.rs:21-52 | For every host the bundled table accepts, subdomains included: exactly one pair accepts it, its upstream host rewrites to itself, and the connector's lookup of that host yields the group the selector used |
| `Endpoints.BundledNamesResolve` | src/endpoints.rs:21-52 | Both bundled group names lead back to their own group |
| `Endpoints.AllFourteenAccepted` | src/endpoints.rs:21-52 | Each of the fourteen client domains is accepted, for its own group, and rewritten to its own upstream host |
| `Endpoints.SubdomainsAccepted` | src/endpoints.rs:21-52 | And so is any subdomain of one, with the same group and upstream host |
| `Endpoints.UpstreamsAre` | src/endpoints.rs:21-52 | Which of the four upstream hosts each client domain is rewritten to |
| `Endpoints.MoreThanDocumented` | src/endpoints.rs:21-52 | A host is accepted that is neither one of the six documented ones nor a subdomain of one |
| `Endpoints.FirstOccurrences` | src/endpoints.rs:110-111 | Removing repeats keeps exactly the addresses of the list, each once |
| `Endpoints.FirstOccurrencesKeepOrder` | src/endpoints.rs:110-111 | What is kept stands in order of first occurrence |
| `Endpoints.AddressesInOrder` | src/endpoints.rs:103-109 | The addresses collected are those of the lines that have one, in line order |
| `Endpoints.LoadIps` | src/endpoints.rs:103-114 | Loading fails if and only if no line holds an address; otherwise it yields a non-empty list of distinct addresses, exactly those of the lines, in order of first occurrence |
| `Endpoints.LoadBundled` | src/endpoints.rs:99-128 | Loading succeeds if and only if both lists hold an address, and yields the bundled table with non-empty, repeat-free lists of exactly the addresses of their lines |
| `Endpoints.PinGroup` | src/endpoints.rs:93-97 | Start-up pinning replaces the addresses of the first group with exactly that name, in place, and nothing else |
| `Scores.SortDescIsStableSort` | src/selector.rs:276-280 | The sorted list is in descending order and equal scores keep their order |
| `Scores.HeadOfSortIsFirstMax` | src/selector.rs:276-280 | The head of the sorted list is the first maximum |
| `Scores.LastMaxOfIsLastMax` | src/selector.rs:153-159 | The maximum routing takes is the last one |
| `Candidates.ReplayDescribes` | src/selector.rs:168-197 | A candidate built by any sequence of outcomes is their exact summary: failures since the last success saturated at 2^32-1, times of the last failure and success or 0, last latency and speed that a success carried, and down if and only if the count is positive |
| `Ranking.ScoresCompareFields` | src/selector.rs:309-316 | One candidate scores below another exactly when the other is not down within its window and either the first is or the first has the smaller speed * 1000 - latency, absent values being 0 |
| `Ranking.HealthyInOrder` | src/selector.rs:144-147 | The healthy candidates are the subsequence of the list at exactly the positions outside their penalty window, so order and multiplicity are kept |
| `Selectors.RunFrame` | src/selector.rs:168-234 | Over every run a group that no call reaches is left exactly as it was |
| `Selectors.RunProjects` | src/selector.rs:168-234 | What a run makes of a group is what the calls that reach it, alone and in order, make of it, whatever other calls are mixed in |
| `Ranking.ShownDownExactly` | src/selector.rs:272-275 | The dashboard shows an address as down if and only if it is failing and its last failure is within the window, and shows everything else unchanged |
| `Ranking.RankedIsStableRanking` | src/selector.rs:265-281 | The ranking is a permutation of the group's candidates in descending score order, ties in list order |
| `Ranking.RankedFastestFirst` | src/selector.rs:265-281 | In the ranking every up candidate stands before every down one, and of two up ones the first has no smaller speed * 1000 - latency |
| `Ranking.BestIsLastEligible` | src/selector.rs:142-160 | In terms of the fields alone: the routed candidate stands at the one position of the group's list that holds the last best of the eligible candidates, those whose last failure is outside the penalty window, or all when none is |
| `Ranking.BestIsFastest` | src/selector.rs:142-160 | When some eligible candidate is up, so is the routed one; none of them has a greater speed * 1000 - latency, at equal speed none has a lower latency, and none leads its speed by more than a thousandth of what it leads in latency |
| `Ranking.HeadIsFirstOfAll` | src/selector.rs:265-281 | The ranking's head is the group's first candidate with the maximal score |
| `Ranking.HeadAgreesWithBest` | src/selector.rs:142-159 | At one moment the ranking's head and the routed candidate have the same score, except exactly when the healthy pool is non-empty and a candidate that has recovered within the window outscores all of it |
| `Ranking.HeadIsBestWithoutTies` | src/selector.rs:142-159 | If moreover no two candidates tie, both views name the same address |
| `SelectorRuns.UpdateFirstAt` | src/selector.rs:179-196 | A report replaces exactly the first candidate with that address and keeps the address list |
| `SelectorRuns.RunValid` | src/selector.rs:168-234 | Every run of whole calls keeps: pinned groups hold their pin alone, others the bundled list in order, every candidate is down if and only if its failure count, a u32, is positive |
| `SelectorRuns.PinInvariantOverRuns` | src/selector.rs:218-263 | From a loaded table, after every run: the pin relation holds, no list is empty, routing picks an address of the group's list, and resolving a managed host succeeds with that address and the group's port |
| `SelectorRuns.ManagedHostsResolve` | src/selector.rs:244-263 | After every run any managed host resolves, to the address routing picks from its group's current list and the group's port |
| `SelectorRuns.ResolveExtremes` | src/selector.rs:244-263 | A request that already has an address keeps it with the caller's port, whatever the host; without one an unmanaged host is refused |
| `SelectorRuns.LiveDefsFollowPins` | src/selector.rs:236-242 | After every run the live definition of a pinned group lists the pin alone, of an unpinned one the bundled list, and says nothing else than it did when loaded |
| `SelectorRuns.ViewsOverRuns` | src/selector.rs:265-295 | After every run both views of every group relate as in the two rows on the ranking's head and on the shown flag, at every moment |
| `SelectorRuns.ViewsCanDisagree` | src/selector.rs:142-195 | For every penalty and any two addresses, a run of two reports after which the ranking's head and the routed address differ |
| `SelectorRuns.CandidateIsItsHistory` | src/selector.rs:168-234 | After every run each candidate is the exact summary of the outcomes reported for its address since the group's last pin or restore, whatever was reported for others |
| `SelectorRuns.CoolDown` | src/selector.rs:135-201 | After a failure recorded at t and any further calls without a re-pin of the group, successes of the same address included, the address is not routed to up to t + penalty while the group has a candidate outside its own window |
| `SelectorRuns.PinEndsCoolDown` | src/selector.rs:218-234 | Right after a pin the pinned address is routed to at every moment |
| `SelectorService.Selector.constructor` | src/selector.rs:73-89 | A new selector has every group unpinned with fresh candidates in list order |
| `SelectorService.Selector.UpdateResult` | src/selector.rs:168-197 | The state becomes the one the report leads to; unknown hosts and addresses change nothing |
| `SelectorService.Selector.MarkFailure` | src/selector.rs:199-201 | A failure report without latency or speed |
| `SelectorService.Selector.SetPinnedIp` | src/selector.rs:218-234 | The state becomes the one the pin leads to; the call succeeds if and only if the name leads to a group and there is an address to use, and changes nothing otherwise |
| `SelectorService.Selector.PickIp` | src/selector.rs:135-160 | The filter, the choice of the pool and the scan for the maximum yield nothing if and only if no group is found or its list is empty, and else the address at the one position of the list that holds the last best of the eligible candidates |
| `SelectorService.Selector.Snapshot` | src/selector.rs:265-295 | One entry per group in order: its name, client domains, port and pin, and its candidates with flags refreshed at the clock reading taken for it, up ones first and fastest first, ties in list order |
| `SelectorService.Selector.LiveDefs` | src/selector.rs:297-305 | The definitions with the live address lists |
| `SelectorService.Selector.DefForHost` | src/selector.rs:236-242 | Nothing if and only if no group claims the host; else the definition of the first group that does, with its live addresses in place of the bundled ones |
| `SelectorService.OverlappingPins` | src/selector.rs:230-231 | For any number of overlapping pin calls on one group and any interleaving of their lock acquisitions, finished or not: the pin is that of the last pin write, the list that of the last list write, and they agree if and only if those two ask for the same list |
| `Retries.AttemptLoop` | src/proxy.rs:384-496 | Among any calls of other tasks the loop makes its picks, leaves the selector and ends as the next row says |
| `Retries.LoopOutcome` | src/proxy.rs:384-496 | It makes one attempt beyond the leading plain failures if it may. Its own selector calls are exactly one failure report, at the time of the mark, for each plain failure that picked an address; an attempt that is answered, dropped or not built adds none. Every pick is the best address in the state that the calls before it left. It ends with a reply or a drop if and only if that attempt was built; the error kept is that of the last failure, or the build error |
| `Retries.AnsweredAtOnce` | src/proxy.rs:412-432 | A first attempt that is answered leaves the selector to other tasks' calls |
| `Retries.FailureSeenLater` | src/proxy.rs:433-443 | A failure marked by an attempt is still in force when any later attempt of the request picks |
| `Retries.RetryPicksNewAddress` | src/proxy.rs:394-445 | With a monotone clock and no re-pin, an attempt that sees a healthy candidate picks an address none of this request's attempts failed on, for any number of attempts that fit in the penalty window, even if others report successes of the failed address meanwhile |
| `Retries.UnpickedStaysHealthy` | src/proxy.rs:394-445 | Without outside failures an address healthy at the first pick stays healthy until the request picks it |
| `Retries.PicksDistinct` | src/proxy.rs:394-445 | With as many healthy candidates as attempts at the start and no outside failures, the addresses tried are pairwise distinct |
| `Retries.ThreeAttemptsDistinct` | src/proxy.rs:39-51 | The same for three attempts, the 30 s header timeout and the 60 s penalty |
| `Headers.TokensAreListed` | src/proxy.rs:126-135 | A name is a connection token if and only if some readable Connection value lists it, up to case and blanks, between commas |
| `Headers.Trim` | src/proxy.rs:132 | What is left of an element is its stretch between the blanks at either end |
| `Headers.HopByHopNames` | src/proxy.rs:111-124 | The nine hop-by-hop names, in any spelling |
| `Headers.CopyResponseHeaders` | src/proxy.rs:532-538 | The reply carries exactly the upstream headers that need not be stripped |
| `Headers.KeptIsSubsequence` | src/proxy.rs:533-538 | What is copied is the subsequence at exactly the positions not stripped, so order and multiplicity survive |
| `Headers.ResponseFiltered` | src/proxy.rs:532-538 | No hop-by-hop header and none that a Connection header lists crosses, every other does, and filtering again changes nothing |
| `Headers.ForwardHeaders` | src/proxy.rs:341-359 | The request copy holds exactly the names allowed to cross, each with its last value, and then the client address under both forwarding names |
| `Recording.RecordSays` | src/proxy.rs:198-225 | Field by field: a record says who asked for what, the status, address and first-byte time of the reply, the bytes and error given, the clock's time, whole milliseconds elapsed, and kilobits per second (0 when no time has passed) |
| `Recording.RecordState.Finalize` | src/proxy.rs:198-227 | Sends one record, of what was counted and set up, the first time and none afterwards |
| `Recording.CountingStream.PollNext` | src/proxy.rs:241-261 | Passes the poll through unchanged, counts chunks, keeps an error's text, and records at an error or the end |
| `Recording.CountingStream.Drop` | src/proxy.rs:264-268 | Records if nothing has been recorded yet |
| `Recording.ConsumeBody` | src/proxy.rs:229-268 | For every sequence of polls ending in a drop, exactly one record is sent; its bytes are those of the chunks before the first error or end (a 64-bit counter), its error is that event's or else the attempt loop's last; the consumer sees the stream unchanged |
| `Recording.HandleRequest` | src/proxy.rs:300-555 | An accepted request is told its reply's status or 502 and leaves exactly one record, with that status, the reply's address and first-byte time (none and 0 without a reply), its own client, host, path and verb, and what the body gave before its first error or end; unless its handler is dropped during an attempt, or the upstream request of a method that may not be retried cannot be built: then no record. A rejected one is told 404 for an unmanaged host and 400 otherwise, leaves none and does not touch the selector |
| `Log.RecordRoundTrip` | src/db.rs:127-141 | A stored request reads back equal, whatever the top bits of its unsigned columns |
| `Log.SpeedTestRoundTrip` | src/db.rs:142-149 | A stored speed test reads back equal |
| `Log.ColumnsHold` | src/db.rs:127-141 | The columns that the queries read hold the record's values, the counters as long as they fit in 63 bits |
| `Log.Writer.WriterLoop` | src/db.rs:125-170 | The tables after the loop are the fold of the commands in the order received, of which the next three rows say what it holds |
| `Log.ReadsBackInOrder` | src/db.rs:126-149 | Without cleanups both tables grow by exactly the records inserted, in order, with consecutive ids, each reading back as inserted |
| `Log.RequestsExactly` | src/db.rs:118-164 | Over every command sequence a request row is there if and only if it was there or was inserted and no later cleanup has a cutoff above its time |
| `Log.SpeedTestsExactly` | src/db.rs:118-164 | And so it is for speed-test rows |
| `Log.IdsIncreaseOverRuns` | src/db.rs:125-170 | Over every run, deletions included, ids increase in table order |
| `Log.RetentionInvisible` | src/db.rs:150-164 | For every command sequence whose cutoffs stay behind a window, the window's rows of both tables, ids included, are those of a log that never deletes |
| `Windows.RecentAreNewest` | src/db.rs:270-312 | The rows listed are rows of the window, newest first; one is left out only when the clamped limit is reached and is then older than all listed |
| `Windows.SeriesPartitions` | src/db.rs:220-245 | Buckets are strictly increasing multiples of the bucket length, none is empty, each counts exactly its rows, and every row of the window is in one |
| `Windows.RowInsideBucket` | src/db.rs:226-228 | A row with a non-negative time lies within the bucket that counts it; one with a negative time at most a bucket length before it |
| `Windows.StatsOneMore` | src/db.rs:186-207 | One more row in the window adds a request, its bytes, its first-byte wait, and an error exactly when its status is 500 or more; one before the window changes nothing; throughput is bytes * 8 / 1024 per second |
| `Windows.BucketsAreStats` | src/db.rs:220-245 | Each bucket says what the statistics of its rows say |
| `Windows.GroupsConserve` | src/db.rs:226-228 | Whatever is added up per row, the sums over the groups add up to the sum over all rows |
| `Windows.SeriesConservesStats` | src/db.rs:186-245 | Over its buckets the series adds up to the window's statistics: requests, errors, throughput times length, mean first-byte time times requests |
| `Windows.StatusCountsExact` | src/db.rs:253-268 | A status is listed if and only if it occurs in the window, with exactly the number of its rows |
| `Windows.StatusCountsDescend` | src/db.rs:253-256 | The most frequent status comes first |
| `Windows.StatusCountsConserve` | src/db.rs:253-268 | The counts add up to the window's requests, however equal counts are ordered |
| `Windows.StatusCountsExist` | src/db.rs:253-268 | Such a list of counts exists for every table and window |
| `Windows.DashboardBlindToRetention` | src/dashboard.rs:47-58 | With cutoffs seven days back, all five windows of the summary show what a log that never deletes would show |
| `SpeedTest.TargetDefs` | src/speedtest.rs:204-223 | The live definitions of all groups, or of the one group a usable URL's host leads to, or nothing |
| `SpeedTest.BuildTasks` | src/speedtest.rs:248-272 | The task list is that of all targets with a usable URL, of which the next two rows say what it holds |
| `SpeedTest.TaskListExactly` | src/speedtest.rs:204-272 | A pass over all groups has exactly the live addresses of the groups with a usable test URL for tasks, each once, in group order and then address order; one for a URL exactly those of its host's group; any other none |
| `SpeedTest.TaskListMembers` | src/speedtest.rs:248-272 | A task is one of a pass over all groups if and only if it is a live address of a group with a usable test URL |
| `SpeedTest.ApplyWave` | src/speedtest.rs:287-299 | Each completed task of the wave is reported to the selector and recorded once, in completion order, whatever calls other tasks make in between |
| `SpeedTest.ResultsCarried` | src/speedtest.rs:287-298 | Each result reaches the selector and the log with the latency, speed and success measured, for the task it belongs to |
| `SpeedTest.NextWaveCompletes` | src/speedtest.rs:277-286 | A wave is the next tasks, non-empty and no more than the concurrency limit, and its completions are its tasks once each |
| `SpeedTest.RunWaves` | src/speedtest.rs:277-300 | What is measured is a prefix of the task list that ends at a wave boundary; no wave of an unforced pass starts after a busy answer, and only such an answer ends the pass early |
| `SpeedTest.RunPass` | src/speedtest.rs:225-301 | Amid any calls of other tasks a pass measures the first min(waves * width, total) tasks of the list of the state it starts in, all of them if forced or never busy, in no more waves than needed, applies and records every result, and does nothing for an unusable URL |
| `PassProperties.EachTaskOnce` | src/speedtest.rs:283-299 | Every task of the waves run is reported exactly once and no other is, and there are as many reports as records |
| `PassProperties.CallsAreOwnAndOthers` | src/speedtest.rs:283-299 | The selector calls made while a pass runs are its own reports and the other tasks' calls, no more and no fewer |
| `PassProperties.CallsCommute` | src/selector.rs:168-234 | Calls to different groups, pins included, and reports about different addresses commute |
| `PassProperties.CallsConfluent` | src/selector.rs:168-234 | Any permutation of pairwise independent calls leads to the same state |
| `PassProperties.TaskListApart` | src/speedtest.rs:248-272 | In every reachable state, with group names that do not capture one another, the tasks of any pass concern pairwise different candidates |
| `PassProperties.OthersFirst` | src/speedtest.rs:287-299 | A wave whose results are mixed with other tasks' calls that touch none of its candidates ends as if those calls had all come first |
| `PassProperties.PassConfluent` | src/speedtest.rs:283-299 | Whatever the order in which the tasks of each wave complete, the selector ends in the same state; other tasks' calls may come before each wave unrestricted, and between its results as long as they touch none of its candidates |
| `PassProperties.PassesAgree` | src/speedtest.rs:225-301 | Two passes from one reachable state, forced or with the same activity answers, whose waves have the same results in any order, measure the same tasks and end in the same selector state; a forced pass measures all tasks |
| `PassProperties.BundledPassesAgree` | src/speedtest.rs:225-301 | So it is for the bundled table after every run of selector calls |
| `PassProperties.WavesStartIdle` | src/speedtest.rs:277-282 | With a monotone clock and serialized stamps a wave of an unforced pass starts only if, as its check reads the counter, a guard is between its decrement and its stamp, or no handler is in flight and none was for 60 s before the check's clock reading |
| `PassProperties.LimitedPassIsolated` | src/speedtest.rs:204-223 | Amid any calls of other tasks, a pass limited to the group of a URL leaves every other group exactly as those calls alone would have, and so every pin and address list |
| `PassProperties.BundledNamesApart` | src/endpoints.rs:21-52 | The bundled table meets the name conditions of the rows above in every state |
| `Trigger.SpeedTestControl.Trigger` | src/speedtest.rs:94-97 | Sets the pending URL and leaves one wake-up |
| `Trigger.SpeedTestControl.TakeUrl` | src/speedtest.rs:99-101 | Hands out the pending URL and clears it |
| `Trigger.Perform` | src/speedtest.rs:92-174 | The control handle's fields follow the protocol's states step by step |
| `Trigger.NextKeepsInvariant` | src/speedtest.rs:92-174 | Every step of triggers and loop keeps the protocol's invariant |
| `Trigger.RunKeepsInvariant` | src/speedtest.rs:92-174 | So does every interleaving |
| `Trigger.ProtocolSafe` | src/speedtest.rs:92-174 | Under every interleaving: what was set last, with a URL or without, is taken or has a wake-up on its way to the loop; forced passes never exceed triggers; forced passes use the URLs taken, in order, each that of the set just before the take, else none; scheduled passes use none; without automatic passes every pass is forced; the running flag is set exactly during passes |
| `Trigger.NothingStranded` | src/speedtest.rs:92-174 | When all triggers are complete and the loop waits unsignalled, no trigger is left behind, with a URL or without: nothing was ever set or what was set last has been taken |
| `Trigger.WarmupsFirst` | src/speedtest.rs:116-126 | With automatic passes the loop first makes as many scheduled passes as there are warm-ups, at least one, before it waits for a trigger or lets one through |
| `Trigger.ServedAloneExactly` | src/speedtest.rs:92-174 | In every state of the protocol: a trigger for a URL, if none follows it, is sure to be the only thing the loop takes, however the protocol goes on, if and only if no wake-up is under way as it is set |
| `Trigger.OverlappingTriggersWidenAPass` | src/speedtest.rs:94-101 | A run in which two URL triggers lead to a pass for the second URL and a pass over all groups |
| `Activity.NextCounted` | src/metrics.rs:30-75 | Only beginning adds a counted guard and only a drop's decrement removes one |
| `Activity.CounterOverRuns` | src/metrics.rs:30-75 | Under every interleaving of atomic steps the counter is the number of guards that have incremented and not yet decremented, so it never underflows |
| `Activity.Perform` | src/metrics.rs:30-75 | The shared counters follow the states of the interleaving step by step |
| `Activity.IsBusy` | src/metrics.rs:49-52 | The check made in three separate reads answers from the counter, the clock and the stamp of three different moments |
| `Activity.HandlersSeenExactly` | src/metrics.rs:30-75 | With a monotone clock, under every interleaving, stamps serialized or not: "busy while a handler's guard is counted and for less than the grace period after the last moment one was" holds for every grace period if and only if a guard is counted or the stored stamp is not older than that moment |
| `Activity.HandlersMissedOnlyInGap` | src/metrics.rs:30-75 | With a monotone clock and serialized stamps it can fail only while some guard is between its decrement and its stamp |
| `Activity.BusyWhileRecentlyActive` | src/metrics.rs:30-75 | So with these, outside every gap, the proxy is busy while a guard is counted and for less than the grace period after the last moment one was |
| `Activity.CheckAnswersBusy` | src/metrics.rs:49-52 | The three-read check answers busy under the same conditions taken at its first read and its clock reading, whatever happens between the reads |
| `Activity.RequestsSeenExactly` | src/metrics.rs:46-52 | For each grace period: "busy while a request is in flight, its body included, and for less than the grace period after the last moment one was" holds if and only if a handler is in flight, or the stored stamp is younger than the grace period, or no body streams and no request was in flight for that long |
| `Activity.OnlyLongBodiesMissed` | src/metrics.rs:46-75 | With a monotone clock and serialized stamps, outside every gap: a body counts as busy for less than the grace period after its handler returned, and the promise fails only when no handler has been in flight for a grace period while a body went on after the last one |
| `Activity.IdleWhileStreaming` | src/proxy.rs:327-328 | A serialized run, in no gap and with every handler seen, that looks idle while a body streams |
| `Activity.IdleInsideGap` | src/metrics.rs:68-75 | A run that looks idle inside the gap at the very moment a request ends |
| `Activity.IdleAfterStaleStamp` | src/metrics.rs:68-75 | A run with unserialized stamps that looks idle, outside any gap, at the very moment a request ends |

## Left out

- Recording.HandleRequest: takes the results of parsing the Host header and the upstream URI, the polls of the reply's body and the clock readings as inputs, and does not tie the handler's activity guard to the request.
- SpeedTest.RunPass: other tasks' selector calls are interleaved with the pass, but not the records they send meanwhile, which the log would show between the pass's own.
- SelectorService.OverlappingPins: takes the two lock acquisitions of pin calls apart; all other results take each selector call as one step with one clock reading.
- Retries.ThreeAttemptsDistinct: bounds the time between marking a failure and the next pick by 14 s, which nothing in the source enforces but the locks and the scheduler make tiny.
- Headers.ForwardHeaders: models the request's header collection as a map, so the order in which names are sent is not captured.
- Windows.StatusCountsExact: leaves the order of equal counts open, as the query does.
- Activity.BusyWhileRecentlyActive: needs serialized stamps and says nothing inside a drop's gap, because the promise can fail there; Activity.HandlersSeenExactly says in which states it does.
- Activity.Next: the clock never runs backwards, while the source reads wall-clock time, which may be set back.
- Floating point: speeds, scores and throughputs are reals, so rounding is not modelled; a measurement only yields finite, non-negative speeds (src/speedtest.rs:410-415), so no score is ever unordered.
- TCP connections, HTTP framing, real timers and task-locals: an attempt is an outcome chosen by the environment within a time bound, and a reply carries the address it came from.
- The time limits and byte ranges of one measurement, and its own loop over the body: a measurement is an arbitrary result.
- Waiting for an idle proxy before a scheduled pass: only the checks between waves are joined to the activity counter.
- SQLite beyond rows and ids: write-ahead logging, I/O errors, overflow of integer sums.
- Parsing of address-list lines, environment variables, dashboard JSON and pages, logging, and the contents of the address lists.
- Liveness: nothing is proved about steps that must eventually happen, such as a waiting loop being scheduled.
