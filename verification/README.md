# ReconLedger: a verified model of its core

ReconLedger collects passive reconnaissance evidence about a target through third-party providers. A job selects
collectors; an in-process runner claims queued jobs, seeds the job's deny-list, dispatches the collectors under a
concurrency limit, persists what they find, and finalizes the job, while users cancel, retry and delete, event
streams follow along, and the process may crash and recover. Every outbound request goes through one gateway. The
evidence is cached, sampled, aggregated, interpreted, and compared between jobs.

This project models that core in Dafny and proves what it promises.

| file | what it holds |
|---|---|
| `Rows.dfy`, `Dispatch.dfy`, `System.dfy` | the rows and every transaction on them; one call of `run_job` as a state machine; the whole application as a step system, with the invariant that every step keeps |
| `Lifecycle.dfy`, `Cancellation.dfy`, `Evidence.dfy`, `Retrying.dfy` | theorems over every run of the step system, whatever the interleaving |
| `EventStream.dfy` | the polling loop of the server-sent event stream, and what reconnecting yields |
| `Runner.dfy`, `Undisturbed.dfy` | the class `JobRunner` and the retry endpoint, each method proved to be a sequence of steps of the system, so that the theorems hold of the object; and what a dispatch makes of its job when nothing comes between its transactions |
| `Network.dfy`, `Retries.dfy`, `Gateway.dfy`, `Outbound.dfy` | deny-list, backoff, the two nested loops of a GET against an adversarial script, and the gateway object with its log of connections |
| `RateLimiter.dfy` | the token bucket |
| `Diff.dfy`, `Technology.dfy` | the diff of two jobs, technology inference, and the two composed |
| `Cache.dfy`, `Caching.dfy` | cache keys and table, and the records collectors keep in it |
| `Sampling.dfy`, `Subdomains.dfy` | archive index aggregation, choice of documents and byte budget; subdomain rows |
| `Wrappers.dfy`, `Sums.dfy`, `Ordering.dfy`, `Enums.dfy` | options, sums, sorting by a strict total order, stored enumerations |

How the two central parts are set up:

- **Steps.** One database transaction is one step. `Exec(Init(limit), steps)` is the state after an arbitrary list
  of steps; a step that cannot happen next changes nothing, so quantifying over all lists quantifies over all
  interleavings of create, claim, dispatch, cancel, retry, delete, sweep, crash, recovery and restart. The commit of
  findings and the commit of DONE are two steps, with crashes possible between them.
- **Ghost history.** Three fields of a run (`interruptions`, `unrecorded`, `orphaned`) and the ghost fields
  `history`, `log`, `grants`, `firings` and `trace` of the classes remember the past. No program step reads them.

Where the code does not do what its documentation or interface suggests, the model follows the code:

- `JobRunner` leaves a job RUNNING when the process dies after the last collector's result and before the job is
  finalized: recovery does not resume it and a cancellation is refused (`Retrying.CrashBeforeFinalizeStrands`). A
  crash strands exactly the jobs that are RUNNING with every run terminal when it comes (`Retrying.CrashStrands`).
  A stranded job stays so until deleted exactly when no failed run of it is alone under its name
  (`Retrying.StrandedForever`).
- Retry looks a run up by collector name and raises when the job has two runs of that name. Every failed job of a
  selection of sources leaves a collector that can be retried if and only if no source is selected twice
  (`Retrying.RetryableIffDistinct`); for any selection with a repeated source there is a run that ends with none
  (`Retrying.DuplicateSourcesDefeatRetry`).
- The event stream reads events and status in two queries. When the job finishes between them, the stream ends
  without its `job_finished` event (`EventStream.SplitReadsCanMiss`); it covers that event exactly when nothing was
  logged between the two reads (`EventStream.SplitReadsCover`).
- The gateway's description says HTTPS-only, but `get` checks the scheme of redirect targets only. A plain-http URL
  is fetched like any other (`Gateway.PlainHttpIsSent`); a GET is https only, whatever resolver and providers do,
  exactly when its caller's URL is https (`Gateway.HttpsIsTheCallersUrl`). One caller passes a URL that a provider
  names: the index URLs of Common Crawl's bootstrap response (backend/app/collectors/commoncrawl.py:80-89, 182-185).
- Common Crawl samples may exceed the five-million-byte budget, by up to 1,024 bytes. For any ten candidates with
  ten extensions there are replies that reach this (`Sampling.CommonCrawlOverruns`). The budget holds exactly when
  no kept range is longer than what was left of it, hence whenever no reply is longer than its record says
  (`Sampling.CommonCrawlWithinBudget`).
- A cache key belongs to one request exactly when none of the request's parts contains the separator and its
  credential scope is present and not empty: an absent scope and an empty one share a key
  (`Cache.CacheKeyIsItsOwn`). Up to that, the separator alone decides (`Cache.CacheKeyKeepsItsParts`).

## Model

| member | source | states |
|---|---|---|
| `Dispatch.MoveKeepsJobOk` | backend/app/jobs/runner.py:167-382 | every transaction of a dispatch keeps the job's invariant: rows agree with where the dispatch stands, permits and RUNNING runs add up to the limit, deferred runs begin last, event ids ascend, the attempt and finding ledgers balance |
| `System.NextKeepsInv` | backend/app/jobs/runner.py:78-163 | so does every step of the whole application: create, claim, cancel, retry, delete, sweep, crash, recovery, resume, serve, leave |
| `System.Reachable` | backend/app/main.py:39-97 | the invariant holds after any list of steps from an empty database |
| `Lifecycle.TerminalJobs` | backend/app/jobs/runner.py:47-58 | in every reachable state a terminal job has no RUNNING or INTERRUPTED run; any but a canceled one has only terminal runs; it is COMPLETED if and only if no run FAILED, with warnings if and only if some run is DONE and some FAILED, and FAILED if and only if some run FAILED and none is DONE, unless a run was failed because the deny-list could not be seeded |
| `Lifecycle.FinalStatus` | backend/app/jobs/runner.py:372-382 | a dispatch that finalizes leaves its job CANCELED if and only if its event is set, and otherwise with warnings, FAILED or COMPLETED exactly as DONE and FAILED occur among its runs, which it does not change; it dates and logs the end |
| `Lifecycle.ExclusiveDispatch` | backend/app/jobs/runner.py:107-133 | two `run_job` calls never drive one job, and a QUEUED job is driven by none |
| `Lifecycle.StartedAtMostOnce` | backend/app/jobs/runner.py:199-225 | within one dispatch a pending run is started at most once, and a run the dispatch has not selected or is through with keeps its row: nothing becomes pending meanwhile |
| `Lifecycle.AttemptsAreLogged` | backend/app/jobs/runner.py:262-269 | per collector name the attempts equal the `collector_started` events, and started minus finished events equal the runs now RUNNING plus those turned INTERRUPTED |
| `Lifecycle.ConcurrencyBound` | backend/app/jobs/runner.py:197-225 | at most the limit of immediate runs and one deferred run are RUNNING, never both kinds at once |
| `Lifecycle.DeferredRunsLast` | backend/app/jobs/runner.py:211-225 | once a technology run has begun, every other run is terminal with its findings recorded |
| `Lifecycle.AfterRecovery` | backend/app/jobs/runner.py:78-103 | recovery leaves no run RUNNING, and a RUNNING job that is not resumable has only terminal runs |
| `Lifecycle.DoneIsFinal` | backend/app/jobs/runner.py:180-187 | a DONE run keeps its whole row for the life of the job |
| `Lifecycle.ExecGrows` | backend/app/jobs/runner.py:262-370 | while a job exists its runs keep places and names, attempts never decrease, and its events and findings only grow at the end |
| `Cancellation.CancelSetsTheEvent` | backend/app/jobs/runner.py:159-163 | cancelling a RUNNING job that is driven marks exactly the call driving it, before it is finished, and changes no row |
| `Cancellation.CancelledCollectorsNeverRun` | backend/app/jobs/runner.py:282-284 | after that, every collector that had not passed its check never runs its body in that dispatch and ends without findings |
| `Cancellation.CancelledDispatchEndsCanceled` | backend/app/jobs/runner.py:372-381 | if that dispatch finalizes, the job is CANCELED whatever its runs came to; only a failed seeding takes precedence |
| `Evidence.FindingsAreAccountedFor` | backend/app/jobs/runner.py:317-337 | a job's findings are those its runs report plus those of attempts that have not recorded them: about to, or killed between the two commits |
| `Evidence.UnrecordedMeansBetweenCommits` | backend/app/jobs/runner.py:336-337 | findings are committed but unreported only while a live attempt stands between its two commits |
| `Evidence.CrashFreeFindings` | backend/app/jobs/runner.py:350-370 | without a crash, however often collectors were retried, an idle job holds, per collector name, exactly the findings its runs report |
| `Evidence.FindingsOfALoneRun` | backend/app/jobs/runner.py:317-363 | for one run that is alone under its name: it has persisted what it reports plus the batches committed without being reported; without a crash, and idle, exactly what it reports |
| `Retrying.FailureIsRetryable` | backend/app/api/jobs.py:162-175 | a job that ended FAILED or with warnings has a failed run, and some retry is accepted if and only if a failed run is alone under its name |
| `Retrying.RetryableIffDistinct` | backend/app/api/jobs.py:162-175 | for any positive limit, every job of a selection of sources that ends FAILED or with warnings leaves a retry that is accepted, whatever happened meanwhile, if and only if no source is selected twice |
| `Retrying.DistinctSourcesRetry` | backend/app/jobs/service.py:67-68 | the one half: distinct sources leave such a retry in every run |
| `Retrying.DuplicateSourcesDefeatRetry` | backend/app/api/jobs.py:165-168 | the other half: for any selection with a repeated source and any positive limit, a run in which that source fails, the others are DONE, and no retry is accepted |
| `Retrying.IdleRunningIsStranded` | backend/app/jobs/runner.py:90-103 | while serving, a RUNNING job that nothing drives has only terminal runs |
| `Retrying.CrashBeforeFinalizeStrands` | backend/app/jobs/runner.py:226-229 | a run of the application that leaves such a job without any failed run |
| `Retrying.CrashStrands` | backend/app/main.py:76-88 | from any state, after a crash and a completed restart, a job is left so if and only if it was RUNNING with every run terminal at the crash |
| `Retrying.StrandedForever` | backend/app/jobs/runner.py:137-163 | such a job stays as it is under every continuation that does not delete it, if and only if no failed run of it is alone under its name |
| `EventStream.Yield` | backend/app/api/jobs.py:212-222 | yields a poll's rows in order and remembers the id of the last |
| `EventStream.Stream` | backend/app/api/jobs.py:200-226 | whenever the stream stands, what it has yielded is exactly the events, above the starting id and up to the one seen, of the last log it saw, once each and in id order; a poll that shows the job QUEUED or RUNNING never ends it, and the first that shows it gone, completed, completed with warnings, failed or canceled does |
| `EventStream.BetweenMembers` | backend/app/api/jobs.py:206-208 | an event is in the delivered part of a log if and only if its id lies above the start and not above what was seen |
| `EventStream.ReconnectIsSeamless` | backend/app/api/jobs.py:203-208 | reconnecting with the last delivered id and joining the two outputs gives the uninterrupted stream |
| `EventStream.LogsGrow` | backend/app/jobs/events.py:18-35 | while a job exists its log only grows, along ascending ids |
| `EventStream.PollsAreChained` | backend/app/api/jobs.py:204-210 | the polls of any stream over any run, with their two reads at any moments and the job deleted or swept at any time, are such as the stream asks for |
| `EventStream.EndCoversJobFinished` | backend/app/jobs/runner.py:378-381 | if both reads of the last poll share a state, an ending stream has covered the `job_finished` event of exactly that status |
| `EventStream.SplitReadsCover` | backend/app/api/jobs.py:205-210 | with the status read later, it covers that event if and only if nothing was logged between the reads |
| `EventStream.SplitReadsCanMiss` | backend/app/api/jobs.py:224-225 | a run of the application in which it does not |
| `Runner.JobRunner.RecoverOnStartup` | backend/app/jobs/runner.py:78-88 | turns exactly the RUNNING runs into INTERRUPTED ones, and changes no other column of any row |
| `Runner.JobRunner.Sweep` | backend/app/services/retention.py:25-38 | removes exactly the completed, failed and canceled jobs that finished before the cutoff and leaves every other row alone |
| `Runner.JobRunner.FindResumableJobIds` | backend/app/jobs/runner.py:90-103 | lists each RUNNING job that has a QUEUED or INTERRUPTED run once, and nothing else |
| `Runner.JobRunner.Startup` | backend/app/main.py:76-88 | recover, sweep, resume, serve; afterwards a job is driven exactly when it is resumable, and any other RUNNING job has only terminal runs |
| `Runner.JobRunner.CreateJob` | backend/app/jobs/service.py:30-72 | for a non-empty selection, creates a job dated now and one untouched run per source in order, all QUEUED, exactly when attested, valid, assessable and every source is registered; otherwise changes nothing |
| `Runner.JobRunner.ClaimNextQueuedJob` | backend/app/jobs/runner.py:107-126 | claims an oldest QUEUED job, making it RUNNING from now on, and registers it; answers none only when nothing is queued |
| `Runner.JobRunner.RequestCancellation` | backend/app/jobs/runner.py:137-163 | accepts exactly a QUEUED job, which it closes as CANCELED now, or a RUNNING job with an event in the map, setting it; otherwise changes nothing |
| `Runner.JobRunner.DeleteJob` | backend/app/api/jobs.py:190-198 | removes the job with all its rows, and no other; reports one that is not there |
| `Runner.JobRunner.FindRun` | backend/app/api/jobs.py:165-170 | finds the one run of a name, none, or reports several |
| `Runner.JobRunner.RetryCollector` | backend/app/api/jobs.py:147-186 | requeues run and job, clearing error and times, exactly when the job is idle and the name has one run and it is FAILED; names the reason of every refusal, and then changes nothing |
| `Runner.JobRunner.FailJobBeforeDispatch` | backend/app/jobs/runner.py:231-249 | fails every run the dispatch loaded as pending, with one error code, and closes the job FAILED now, in one transaction |
| `Runner.JobRunner.PassChecks` | backend/app/jobs/runner.py:271-284 | passes exactly for a registered collector that supports the target in a job not cancelled, and says how each refusal ends |
| `Runner.JobRunner.RunBody` | backend/app/jobs/runner.py:302-336 | commits the findings a collector returns, or only notes the status an error asks for |
| `Runner.JobRunner.RunOneCollector` | backend/app/jobs/runner.py:251-337 | undisturbed, changes only its own run, the findings and the log: one more attempt; unknown collectors and cancelled ones FAILED, unsupported ones NOT_APPLICABLE, errors with their own status and code, and DONE with the count of what was returned otherwise; one started and one finished event |
| `Runner.JobRunner.RunJob` | backend/app/jobs/runner.py:167-229 | undisturbed, seeds the deny-list of a gateway of its own; if that succeeds, runs every pending collector once, technology after all others, gains their findings and events in that order, and closes the job now: CANCELED if it was cancelled, else with warnings if and only if some run is DONE and some FAILED, FAILED if and only if some FAILED and none is DONE, COMPLETED if and only if none FAILED; if not, fails it; drops the event and changes no other job |
| `Undisturbed.UnseededStartsNothing` | backend/app/jobs/runner.py:190-195 | a failed seeding starts no collector: no attempt, no finding, no started event |
| `Runner.JobRunner.LeaveCall` | backend/app/jobs/runner.py:228-229 | removes the call's own event from the map and changes no row |
| `Network.TargetDenyList.Seed` | backend/app/security/network.py:113-115 | adds the addresses, marks the list seeded, and denies no less than before |
| `Network.TargetDenyList.SeedNetworks` | backend/app/security/network.py:117-119 | the same for address ranges |
| `Network.TargetDenyList.Contains` | backend/app/security/network.py:124-127 | finds an address listed itself or covered by a listed range, and no other |
| `Retries.BackoffBounds` | backend/app/security/rate_limit.py:30-35 | a backoff lies between zero and both the cap and the doubled base |
| `Retries.BackoffSpreads` | backend/app/security/rate_limit.py:30-35 | the waits that can come out are exactly those from zero to the smaller of the cap and base * 2**attempt |
| `Gateway.AttemptsBounds` | backend/app/security/gateway.py:257-307 | one hop issues no more requests than attempts are left and ends by start plus budget plus one request plus the cap, whatever Retry-After asks for; time and deny-list only grow |
| `Gateway.HopsBounds` | backend/app/security/gateway.py:219-241 | a whole GET issues at most (redirects allowed + 1) times the attempts, ends by the same moment, and never ends in a redirect |
| `Gateway.ClosedForm` | backend/app/security/gateway.py:257-303 | within budget, the first answer that is not a transport error, a 429 or a retryable error decides, or the last attempt's; with the number of requests, the time and the deny-list |
| `Gateway.OverBudget` | backend/app/security/gateway.py:258-259 | when the budget runs out first, the next attempt is not made, and the call reports the rate limit or a timeout |
| `Gateway.EveryHopHasAForm` | backend/app/security/gateway.py:243-307 | every hop has one of these two forms |
| `Gateway.SettledVerdict` | backend/app/security/gateway.py:243-303 | what the deciding answer comes to: the error for every refused destination, redirect, rate limit with its Retry-After, timeout and oversized or malformed response, and the response itself otherwise |
| `Gateway.RedirectsInClosedForm` | backend/app/security/gateway.py:219-241 | each redirect to an https URL of an accepted host, up to the number allowed, is followed to the URL it names; the first hop that does not end in one decides, and a redirect without validator, beyond the limit, not https or to another host is rejected; the connections are those of these hops |
| `Gateway.EveryGetHasAForm` | backend/app/security/gateway.py:219-241 | every GET has that form |
| `Gateway.RejectedExactly` | backend/app/security/gateway.py:228-241 | a GET is refused for a redirect if and only if the last answer of its last hop is one |
| `Gateway.SuccessIsAcceptable` | backend/app/security/gateway.py:283-303 | a returned response is the provider's own, no 429 and no redirect, within the byte cap, and a retryable error only after all attempts of its hop |
| `Gateway.ReturnedResponse` | backend/app/security/gateway.py:219-241 | the response of a whole GET is acceptable whatever hop it came from, and a retryable error only after all attempts of that very hop |
| `Gateway.ContactsAreExpected` | backend/app/security/gateway.py:228-241 | a GET connects for its own URL first, and afterwards only for that URL or for https URLs of validated hosts |
| `Gateway.HttpsExactly` | backend/app/security/gateway.py:195-241 | every connection of a GET is https if and only if its caller's URL is, or it connects nowhere |
| `Gateway.HttpsIsTheCallersUrl` | backend/app/security/gateway.py:195-201 | that holds for every resolver and provider if and only if the caller's URL is https, as long as there is an attempt to make and an address to contact |
| `Gateway.PlainHttpIsSent` | backend/app/security/gateway.py:3-6 | a GET of a plain-http URL that connects and succeeds |
| `Outbound.DeniedStaysOut` | backend/app/security/gateway.py:64-85 | an address once denied is never connected to again, and a forbidden one never is |
| `Outbound.OnlySeedingBeforeSeeded` | backend/app/security/gateway.py:146-167 | before the list is seeded, connections happen only inside the target's own resolution |
| `Outbound.OutboundGateway.HandleRequest` | backend/app/security/gateway.py:64-85 | connects to the first resolved address, if and only if there is one and no resolved address is forbidden, listed or in a listed range |
| `Outbound.OutboundGateway.AllClear` | backend/app/security/gateway.py:69-74 | true exactly when none of the addresses is forbidden or denied |
| `Outbound.OutboundGateway.NoteAdditionalTargetAddresses` | backend/app/security/gateway.py:169-171 | adds to the deny-list without seeding it |
| `Outbound.OutboundGateway.RequestWithRetries` | backend/app/security/gateway.py:243-307 | the attempt loop computes `Attempts`, and its connections are those of `ContactsOfAttempts`, in order |
| `Outbound.OutboundGateway.Get` | backend/app/security/gateway.py:173-241 | refused without any request while unseeded or for a host not allowed; otherwise comes to what the last hop of `RedirectsInClosedForm` comes to, and connects as those hops do: for its URL or https URLs of validated hosts, over https only if and only if its URL is https or nothing is connected |
| `Outbound.OutboundGateway.SeedDenyList` | backend/app/security/gateway.py:156-167 | succeeds, and then seeds, if and only if every lookup returns a response that parses; the list gains exactly the answers, and none of them on a failure; the exemption is closed again either way |
| `Outbound.ResolvesExactly` | backend/app/security/doh_resolve.py:23-36 | a lookup resolves if and only if its host is allowed, its body parses, and one hop, without redirects, returns a response of at most two million bytes |
| `Outbound.ResolvedIsDenied` | backend/app/security/doh_resolve.py:23-36 | after a successful resolution the deny-list holds the addresses of all answers, and otherwise only what it held before |
| `Outbound.OutboundGateway.SeedForTarget` | backend/app/jobs/deny_list.py:14-24 | an address or range target adds exactly itself without any request; a domain exactly what its lookups answer, if and only if they all succeed; an organization fails and changes nothing |
| `RateLimiting.RateLimiter.Refill` | backend/app/security/rate_limit.py:85-89 | the tokens become what they were plus what the time earned, or the burst if that is less, and every past grant stays covered |
| `RateLimiting.RateLimiter.Acquire` | backend/app/security/rate_limit.py:91-99 | takes one token at the first clock reading at which the refilled bucket holds one; tokens stay between zero and the burst; any consecutive grants number at most the burst plus what the time between them earns; with a burst of at least one it sleeps at most once when the sleep is as long as asked, and with none it is never granted |
| `RateLimiting.GrantCovers` | backend/app/security/rate_limit.py:99 | a grant taken from a full token keeps the window bound |
| `Diff.ComputeDiff` | backend/app/services/diff.py:65-102 | refuses different targets; otherwise lists each new, removed, indeterminate and changed fingerprint exactly once with its row, and counts the unchanged, as `DiffExactly` says from the rows and statuses |
| `Diff.DiffExactly` | backend/app/services/diff.py:77-102 | told from the findings and the two status maps alone, the last finding of a fingerprint counting: added, removed, indeterminate and changed are exactly the rows and pairs they should be, and the unchanged are counted |
| `Diff.DiffPartitions` | backend/app/services/diff.py:80-100 | every old fingerprint is in exactly one of removed, indeterminate, changed and unchanged, every new one in exactly one of added, changed and unchanged, and the counts agree |
| `Diff.PatchYieldsNew` | backend/app/services/diff.py:80-100 | deleting, replacing and inserting what the diff lists turns the old rows into the new ones, up to what is not the normalized value |
| `Diff.SwapMirrorsGone` | backend/app/services/diff.py:80-91 | swapping the jobs swaps added with removed and indeterminate together |
| `Diff.SwapMirrorsShared` | backend/app/services/diff.py:93-100 | and turns every changed pair around, with the same number unchanged |
| `Diff.RemovedWasLookedFor` | backend/app/services/diff.py:84-91 | removed are exactly the rows whose fingerprint is gone and whose collector has the status DONE in both maps; indeterminate exactly those that are gone while a map lacks the collector or gives it another status |
| `Diff.NothingDiffers` | backend/app/services/diff.py:94-100 | the four lists are empty if and only if fingerprints and normalized values agree |
| `Technology.TheRulesAreSound` | backend/app/collectors/technology.py:67-113 | in the rule tables, every rule is of its table's kind and no two share an id |
| `Technology.FiresExactly` | backend/app/collectors/technology.py:65-145 | a rule fires on a finding if and only if its needle stands in the lower-cased text it is for: a name server, an exchanger, the value of the last header of its name, the body, or the generator |
| `Technology.Detections.Merge` | backend/app/collectors/technology.py:54-62 | one detection per key, worded by the first firing and supported by all |
| `Technology.Detections.RulesFromNameservers` | backend/app/collectors/technology.py:65-79 | merges exactly the nameserver rules that fire, in order |
| `Technology.Detections.RulesFromMx` | backend/app/collectors/technology.py:82-94 | the same for mail exchangers |
| `Technology.Detections.RulesFromArchivedSample` | backend/app/collectors/technology.py:116-145 | the same for headers, body and generator of a sample, in that order |
| `Technology.Run` | backend/app/collectors/technology.py:148-188 | one result per rule that some finding fires, in key order, with the rule's confidence, the wording and URL of the first finding that fires it, and the sorted ids of all |
| `Technology.InferenceIsStable` | backend/app/collectors/technology.py:163-188 | two runs over the same signals, whatever their order, copies, row ids and URLs, give the same fingerprints and normalized values in the same order |
| `Technology.SupportIsOrderFree` | backend/app/collectors/technology.py:181 | over the same findings in any order or number, the supporting ids agree too |
| `Technology.RerunShowsNoDifference` | backend/app/collectors/technology.py:170-185 | so the diff of the two runs lists nothing, however the collectors fared |
| `Cache.CacheKeyKeepsItsParts` | backend/app/services/cache.py:29-31 | the joined parts of a request are those of no other list of parts if and only if none of them contains the separator |
| `Cache.KeyIsJoined` | backend/app/services/cache.py:26-32 | the key joins collector, schema version, target, variant and credential scope, in this order |
| `Cache.CacheKeyIsItsOwn` | backend/app/services/cache.py:26-32 | no other request has the same key if and only if, besides, the credential scope is present and not empty |
| `Cache.AnswersUnlessSwept` | backend/app/services/retention.py:29-38 | for any trace and clock, the table answers like the last thing stored until its time is up, if and only if no sweep has removed what would still be good |
| `Cache.CacheIsTransparent` | backend/app/services/cache.py:45-50 | asked no earlier than its last operation, the table always answers so |
| `Cache.SweepsAreInvisible` | backend/app/services/retention.py:38 | deleting every sweep from a trace changes no such answer |
| `Cache.ClockSetBackShowsSweep` | backend/app/services/retention.py:29 | a clock set back shows what a sweep removed |
| `Cache.CacheTable.Get` | backend/app/services/cache.py:45-50 | the entry under the key unless it has expired |
| `Cache.CacheTable.Set` | backend/app/services/cache.py:52-81 | replaces the entry under the key |
| `Cache.CacheTable.SweepExpired` | backend/app/services/retention.py:29-38 | removes exactly the expired entries and counts them |
| `Cache.CacheTable.PurgeAll` | backend/app/services/cache.py:113-120 | removes everything |
| `Caching.FindingReadsBack` | backend/app/collectors/caching.py:17-48 | a finding written as a record reads back as itself |
| `Caching.UnreadableExactly` | backend/app/collectors/caching.py:34-48 | a record is malformed if and only if its category or confidence is none of the stored texts, or a date of it does not parse |
| `Caching.CollectorContext.GetCachedFindings` | backend/app/collectors/caching.py:51-60 | a miss if and only if the entry is absent or expired; malformed if and only if one of its records is; otherwise every record read back in its place; and marks a cache hit exactly when there is an entry |
| `Caching.CollectorContext.StoreFindingsInCache` | backend/app/collectors/caching.py:63-78 | stores one record per finding, in order |
| `Caching.StoredFindingsComeBack` | backend/app/collectors/caching.py:51-78 | stored findings come back as they were until their time is up, whatever else is stored or swept meanwhile, and are a miss afterwards |
| `Sampling.AggregateByUrl` | backend/app/collectors/wayback.py:70-95 | one entry per canonical URL in scope that some row with a URL and a time stamp has: earliest and latest time stamp, type and status of the latest capture, and the last listed success or else the first capture |
| `Sampling.CandidatesSucceeded` | backend/app/collectors/wayback.py:101 | a URL is a candidate if and only if one of its captures succeeded |
| `Sampling.SelectRepresentative` | backend/app/collectors/wayback.py:98-112 | at most twenty URLs with a successful best capture, pages before other documents and otherwise by URL: what `Choose` takes from all such URLs in that order |
| `Sampling.SelectionIsUnique` | backend/app/collectors/wayback.py:101-112 | the index entries determine that selection, whatever order they come in |
| `Sampling.Choose` | backend/app/collectors/wayback.py:103-112 | the loop takes the first candidate of each extension until it has ten, then the next ten whatever they are |
| `Sampling.SelectionGoesOn` | backend/app/collectors/wayback.py:103-112 | with ten extensions or more: the first candidate of each extension up to the one that brings the tenth, then the next ten candidates or as many as there are |
| `Sampling.SelectionOfFew` | backend/app/collectors/wayback.py:103-112 | with fewer, exactly the first candidate of each extension |
| `Sampling.SelectionIsRepresentative` | backend/app/collectors/commoncrawl.py:135-147 | at most twenty candidates, in candidate order, the first ten of different extensions; with fewer than ten extensions exactly the first of each |
| `Sampling.SampleWayback` | backend/app/collectors/wayback.py:161-190 | keeps, in order, each document that succeeds within the cap and what is left of the budget; an exception that is no gateway error fails the whole collector |
| `Sampling.WaybackExactly` | backend/app/collectors/wayback.py:161-190 | told from the answer alone: with budget left, the document is added if and only if its GET returns status 200 and at most 500,000 bytes and at most what is left, as announced and as received; a resolver's exception or a length that is no integer fails the collector; anything else changes nothing |
| `Sampling.BudgetExactly` | backend/app/collectors/wayback.py:161-177 | greedy samples stay within the budget if and only if no kept document is longer than what was left when it was fetched |
| `Sampling.WaybackBudget` | backend/app/collectors/wayback.py:161-177 | the samples total at most 5,000,000 bytes |
| `Sampling.SampleCommonCrawl` | backend/app/collectors/commoncrawl.py:220-261 | keeps, in order, each readable range whose length fits the cap and what is left; an exception that is no gateway error, or a length of the wrong type, fails the whole collector |
| `Sampling.CommonCrawlExactly` | backend/app/collectors/commoncrawl.py:220-261 | the same for a range: within 500,000 bytes and what is left, kept if and only if the GET returns status 200 or 206 with at most 1,024 bytes more than the record says, and it unpacks |
| `Sampling.CommonCrawlBudget` | backend/app/collectors/commoncrawl.py:220-248 | the samples total at most 5,000,000 + 1,024 bytes |
| `Sampling.CommonCrawlWithinBudget` | backend/app/collectors/commoncrawl.py:230-248 | they total at most 5,000,000 bytes if and only if no kept range is longer than what was left; so whenever no reply is longer than its record says |
| `Sampling.CommonCrawlOverruns` | backend/app/collectors/commoncrawl.py:135-147 | any ten candidates of ten extensions are all selected, and there are records and replies for them that reach the larger bound |
| `Sampling.TenExtensionsExist` | backend/app/collectors/archive_urls.py:39-45 | such candidates exist |
| `Subdomains.AggregateSubdomains` | backend/app/services/subdomains.py:51-87 | one row per name in scope that a certificate finding names, strictly sorted; told from the findings: its distinct collectors and their number, the earliest and the latest of the dates present, and whether any is a wildcard |
| `Subdomains.AggregationIsOrderFree` | backend/app/services/subdomains.py:54-69 | only the set of observations matters, not order or repetition |
| `Subdomains.AggregationMerges` | backend/app/services/subdomains.py:63-69 | a name in two lists has the merged row in their concatenation |
| `Subdomains.OtherNamesKeepTheirRow` | backend/app/services/subdomains.py:63-69 | a name in only one of them keeps its row |
| `Subdomains.NamesMerge` | backend/app/services/subdomains.py:71-87 | the names of the concatenation are those of either list |

## Left out

Assumptions on which the step system rests:

- Claiming a job and registering its cancellation event are one step; so are the retry endpoint's guard and its
  commit, and a cancellation's status read and its setting of the event. The code does not make these atomic.
- Every resumable job is registered before the application serves requests.
- Commit order is event-id order, and foreign-key cascades work.
- A job is deleted only while nothing drives it: deleting an active one aborts its dispatch at an assertion.
- A database error inside a dispatch, and the cancellation of background tasks at shutdown, appear only as a crash.
- Worker liveness and the worker lock are outside the model.

Stated weaker than the code allows, or under a condition:

- Runner.JobRunner.RunJob: states the outcome of a dispatch nothing interrupts, one collector after the other; what holds under every interleaving is stated by the theorems about the step system.
- Runner.JobRunner.RunOneCollector: likewise for one collector.
- Runner.JobRunner.DeleteJob: for a job that no call drives; what becomes of a call whose job is deleted under it is not modelled.
- Gateway.HopsBounds: assumes non-negative delays and one bound on the duration of a request, and that a sleep lasts as long as asked.
- RateLimiting.RateLimiter.Acquire: the clock is read as a finite list of non-decreasing readings, so waiting for ever appears as running out of readings; the concurrency semaphore is not modelled.
- Evidence.CrashFreeFindings: counts findings per collector name, since a finding row names its collector and not its run; per run it is stated where the name tells the run.

Not modelled:

- HTTP, TLS, DNS, the database engine, sleeping and logging: scripts of outcomes and durations, explicit times.
- How often an archive answers before a sample is settled: a sample's reply is the answer its GET ends with.
- URL, address, date, WARC and JSON parsing, lower case and regular expressions: parameters; a digest is taken to be injective, and dates to read back.
- `is_forbidden_address`: an arbitrary predicate on addresses.
- Columns that no modelled code reads back: messages, cache-hit flags and start times of runs, attestation texts.
- Common Crawl's index aggregation: the same loop as Wayback's with a set of collections and the first usable record.
- Bytes fetched but not kept as samples: they are not charged to the budget, so only the number of documents and the per-request cap bound them.
- Accumulators inside the aggregation loops are values in a map rather than objects updated in place; no aliasing is involved.
- `should_retry`, which nothing in the dispatch calls; cache inventory counts, reports and exports, search, redaction, origin checks, settings, the other collectors' provider parsing, and the whole frontend.
