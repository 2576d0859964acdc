# Meridian: verified models

Meridian is a reverse proxy in front of Emby. This project models the parts of it whose correctness is an argument over
many steps, crashes or trees rather than over one function, and proves that argument. Each module names one component or
one layer of it; `dafny verify dfyconfig.toml` checks everything.

- **Progress coalescer** (`progress*.dfy`). Playback updates of one key are merged and dispatched one batch at a time,
  "stopped" messages are barriers between them, and a site drains before it closes. `progress_fifo.dfy` is the reference: a
  plain queue with the events it allows. `progress_spec.dfy` is every critical section as a function, `progress_lanes.dfy`
  proves that each of them is a move of the reference, `progress_runs.dfy` and `progress_accounting.dfy` draw the
  conclusions for all runs, `progress_debounce.dfy` when updates are sent, `progress_drain.dfy` how drains end,
  `progress_answers.dfy` what is answered at the edges, and `progress.dfy` is the program's class, method by method, over
  the same functions.
- **Capability and authority registry** (`registry*.dfy`). Rewrite sessions claim capabilities and enter new ones, publish
  them all or roll them back; authorities are reserved by callers and owned by capabilities until these are published;
  everything is counted twice, per site and per process. `registry_admission.dfy` tells what is granted and settled by
  the registry's fields; `registry.dfy` is the class.
- **Image cache** (`image_cache*.dfy`). Two least-recently-used lists share their entries, flights reserve bytes before they
  are known, and a site may close while captures run. `image_cache_spec.dfy` and `image_cache_runs.dfy` are on values,
  `image_cache_use.dfy` ties the lists to use and `image_cache_answers.dfy` the answers to what is reserved;
  `image_cache_lists.dfy` has the linked lists on the heap, and `image_cache_refinement.dfy` proves them to be those values.
- **DASH templates** (`dash_strings`, `dash_markers`, `dash_overlap`, `dash_values`, `dash_template`, `dash_sealing`,
  `dash_expansion`, `dash_roundtrip`, `dash_misread`, `dash_witness`, `dash_exchange`, `dash_numbers`, `dash_admission`,
  `dash_acceptance`, `dash_service`). A segment URL template is sealed into a claim and a public suffix, and expanded with
  the values a player put into the suffix; exactly which templates, suffixes and numbers are accepted.
- **DASH addressing** (`dash_tree`, `dash_addressing`, `dash_pushdown`, `dash_meaning`, `dash_placement`, `dash_skeleton`,
  `dash_refusals`, `dash_estimate`, `dash_demand`). Inherited segment addressing is pushed down to the Representations of a
  manifest, what each of them is given, and what is kept and refused around it.
- **Restore** (`restore*.dfy`). A staged backup replaces database and TLS files at the next start, under a marker that makes
  later starts roll it back. A crash may fall between any two file operations.
- **Emby authorization** (`text_spans`, `emby*.dfy`) and **HLS** (`hls*.dfy`). Attribute lists are parsed with offsets and
  edited by splicing the text.
- **Traffic** (`traffic*.dfy`). Bytes are counted in totals and in minutes, and stored by a flush that may fail.

Time is an integer, a lock's critical section is one step, and random tokens, network answers and the order in which Go
visits a map are parameters.

## Model

| member | source | states |
|---|---|---|
| ProgressRuns.BarrierWaitsForEarlierUpdates | cmd/meridian/legacy_progress.go:674-691 | In every run and for every key, a granted barrier comes after the end of the dispatch of every update accepted before it, whoever cancels what in between |
| ProgressRuns.BarrierHoldsLaterUpdates | cmd/meridian/legacy_progress.go:818-891 | An update accepted after a barrier is not dispatched before that barrier has been released or withdrawn |
| ProgressRuns.NoUpdateLost | cmd/meridian/legacy_progress.go:740-778 | Until the site closes, the accepted updates of a key are, in order and without loss, those of its dispatched batches followed by those of its queued ones |
| ProgressRuns.OneServiceAtATime | cmd/meridian/legacy_progress.go:674-738 | Between the beginnings of two services of a key, dispatches or barriers, the first one has ended |
| ProgressRuns.OutcomesExact | cmd/meridian/legacy_progress.go:711-816 | When a dispatch ends, exactly the clients of its batch that have not left are told, and no client is ever told twice |
| ProgressRuns.NeverStalls | cmd/meridian/legacy_progress.go:622-658 | A key with queued work and nothing active has one unready batch with an armed timer, due no later than first arrival plus the longest delay; that generation of the timer starts the dispatch and no other does anything (the time itself is ProgressDebounce's) |
| ProgressDebounce.DispatchedAfterQuiet | cmd/meridian/legacy_progress.go:622-658 | In every run, a batch that is dispatched was released before: by a timer due at the smaller of its last arrival plus the quiet period and its first arrival plus the longest delay, or because that time was not after now when it was scheduled, by a barrier accepted behind it, or by a drain |
| ProgressDebounce.ArrivalsExact | cmd/meridian/legacy_progress.go:740-778 | In every run the arrivals of a batch are the times at which its first and its last update were accepted |
| ProgressDebounce.AcceptedExactly | cmd/meridian/legacy_progress.go:585-620 | An update is accepted exactly while the site is open or quiescing and neither the key limits of site and process nor the waiter limits of key and process are reached |
| ProgressDebounce.JoinsWaiting | cmd/meridian/legacy_progress.go:740-778 | An update accepted for a key that only waits joins the batch that waits: it becomes the request that will be sent, the first arrival stays, and the batch is due a quiet period from now, no later than the longest delay after its first arrival |
| ProgressDebounce.BeginsBatch | cmd/meridian/legacy_progress.go:740-778 | An update accepted for an idle key begins a batch of its own, which waits for its quiet period unless there is none |
| ProgressAccounting.DrainedIsEmpty | cmd/meridian/legacy_progress.go:988-1005 | Drained is reached only with no admission, no queued or active work and no waiting client |
| ProgressAccounting.DrainedIsFinal | cmd/meridian/legacy_progress.go:1007-1044 | From Drained on nothing is accepted, dispatched or told, whatever happens next |
| ProgressAccounting.DrainFalls | cmd/meridian/legacy_progress.go:976-986 | While a site drains, twice the queued plus the active work is never raised and falls at every completion |
| ProgressAccounting.DrainHasActiveWork | cmd/meridian/legacy_progress.go:660-691 | A drain that is not over always has active work whose completion lowers that measure |
| ProgressDrain.DrainOutcome | cmd/meridian/legacy_progress.go:988-1005 | How a drain ends, in every run: unless its caller gives it up, the site is open again if and only if a dispatch failed since it began, and drained otherwise |
| ProgressDrain.FailedExactly | cmd/meridian/legacy_progress.go:711-738 | While a drain goes on it is marked as failed exactly if a dispatch has failed since it began |
| ProgressAccounting.CountersExactFromStart | cmd/meridian/legacy_progress.go:77-123 | From the start of the process, in every interleaving of all sites, the process-wide key and waiter counters are the sums over the sites and no limit is exceeded, as long as no site closes with waiting clients |
| ProgressAccounting.CountersExact | cmd/meridian/legacy_progress.go:564-620 | The same from any state whose counters are exact |
| ProgressAccounting.CloseAccounts | cmd/meridian/legacy_progress.go:1046-1074 | Closing gives back keys but not waiters: the counters stay exact if and only if no client of the site was waiting |
| ProgressAnswers.IngressExactly | cmd/meridian/legacy_progress.go:531-539 | A request is let in exactly while the site is open, and is counted |
| ProgressAnswers.CleanupExactly | cmd/meridian/legacy_progress.go:564-583 | Exactly the keys without work, barrier and clients for as long as configured are forgotten, each gives its place back, and nothing else changes |
| ProgressAnswers.CancelExactly | cmd/meridian/legacy_progress.go:840-873 | A client that gives its barrier up is too late exactly if it is the one being served; a queued one is withdrawn and gives its place back |
| Progress.ProgressCoalescer.EnqueueUpdate | cmd/meridian/legacy_progress.go:740-778 | The method on the class: admission, merging into the last batch and rescheduling take the state to that of the specification, whose answer and times ProgressDebounce pins |
| Progress.ProgressCoalescer.EnqueueBarrier | cmd/meridian/legacy_progress.go:818-838 | A barrier is queued, the batch before it is made ready, and idle keys advance, as specified |
| Progress.ProgressCoalescer.MarkBatchReady | cmd/meridian/legacy_progress.go:649-658 | A timer starts only the batch and generation it was armed for |
| Progress.ProgressCoalescer.FinishDispatch | cmd/meridian/legacy_progress.go:711-738 | Ending a dispatch tells the waiting clients, gives their places back and advances key and drain |
| Progress.ProgressCoalescer.LeaveWaiter | cmd/meridian/legacy_progress.go:780-802 | A client that leaves takes its place and nothing else with it |
| Progress.ProgressCoalescer.CancelBarrier | cmd/meridian/legacy_progress.go:840-873 | A withdrawn barrier leaves the queue unless it was granted already |
| Progress.ProgressCoalescer.ReleaseBarrier | cmd/meridian/legacy_progress.go:875-891 | Releasing a barrier, or ending it after a cancelled grant, lets the key advance |
| Progress.ProgressCoalescer.BeginDrain | cmd/meridian/legacy_progress.go:1007-1044 | A drain starts once, waits for admissions, and forces every queue |
| Progress.ProgressCoalescer.CleanupIdle | cmd/meridian/legacy_progress.go:564-583 | Exactly the idle keys that are old enough are removed and given back |
| Progress.ProgressCoalescer.Close | cmd/meridian/legacy_progress.go:1046-1074 | Every key is removed and given back, and the site is closed |
| RegistryNotice.RollbackUnseen | cmd/meridian/dynamic_rewrite_core.go:242-380 | For every run of all sessions, prunes and lookups in which, as far as the run itself shows, nobody else is refused for room, registers on an expired entry or looks up earlier than the last prune: once a session has given up its claims without publishing, there is a run without its claims and entries beside it whose authorities, holders, rate windows and reservations are equal, and whose valid tokens, entries, pending uses (the other sessions' claims) and index pairs to them are the same |
| RegistryIsolation.RollbackInvisible | cmd/meridian/dynamic_rewrite_core.go:242-380 | The same of every run beside which the run without the session goes on, which is the case exactly while no registration shows the session |
| RegistryIsolation.BesideKeeps | cmd/meridian/dynamic_runtime_state.go:657-852 | Every step, of the session or of anybody else, keeps the two runs in the relation from which that follows, shared and unpublished tokens included |
| RegistryIsolation.RollbackExact | cmd/meridian/dynamic_runtime_state.go:764-810 | In every reachable state a rollback leaves of each token the entry with the others' claims if it has any or is published, and nothing otherwise; index pairs stay exactly with their entries, and authorities exactly if committed or reserved |
| RegistryNotice.UnnoticedGoesOn | cmd/meridian/dynamic_rewrite_core.go:93-135 | The run without the session goes on beside the other as long as the session does not publish, nothing is looked up or used earlier than the last prune, and no registration of another session shows it; what others take over always has room |
| RegistryNotice.QuietGoesOn | cmd/meridian/dynamic_rewrite_core.go:69-135 | Beside every run that is quiet step by step, judged by that run alone, the run without the session goes on to the end |
| RegistryOthers.ShowsExactly | cmd/meridian/dynamic_runtime_state.go:729-762 | Another session's registration is answered differently because of the session if and only if its key leads to a published, expired entry that only the session keeps, or there is room in one run and not in the other; a refused one if and only if the latter |
| RegistryRoom.FitsInstead | cmd/meridian/dynamic_runtime_state.go:749-751 | Whoever enters a capability that only the session keeps has room for it in the run without the session, in all four budgets |
| RegistryNotice.CapacityShows | cmd/meridian/dynamic_runtime_state.go:729-762 | With room for one capability, a second session is refused because of a first one that is rolled back later |
| RegistryIsolation.UsableBoth | cmd/meridian/dynamic_runtime_state.go:812-852 | Whoever uses a published capability gets the same answer in both runs |
| RegistryLookup.FoundBoth | cmd/meridian/dynamic_runtime_state.go:703-727 | A cache key leads to the same valid capability in both runs, or to one that only the session has claimed |
| RegistryStale.StaleExactly | cmd/meridian/dynamic_runtime_state.go:729-762 | A registration hands out an entry that is not valid at its own reading of the clock if and only if it is well-formed and its key leads to such an entry |
| RegistryStale.StaleUnpublished | cmd/meridian/dynamic_runtime_state.go:764-810 | A session that was handed one can publish nothing any more |
| RegistryStale.MintIsValid | cmd/meridian/dynamic_capability_issuer.go:180-215 | After a lookup in vain of the same key, whatever happens in between, a registration enters or is handed an entry that is valid at its reading, unless another registration or use of that key in between has read the clock the idle time or the lifetime earlier |
| RegistryLate.ExpiredHandedOut | cmd/meridian/dynamic_runtime_state.go:739-745 | A run from the start in which two sessions look a key up in vain, the one with the older reading registers it, and the other is handed the expired entry and fails to publish |
| RegistryTransactions.RollbackRestores | cmd/meridian/dynamic_rewrite_core.go:372-380 | A session that works alone while nothing expires is rolled back to the very tables, index, authorities and totals it started from |
| RegistryTransactions.SessionLeavesNothing | cmd/meridian/dynamic_rewrite_core.go:69-135 | The same over every sequence of such steps |
| RegistryTransactions.CommitAllOrNothing | cmd/meridian/dynamic_rewrite_core.go:363-370 | A commit publishes all tokens of the session or none; it fails exactly when one has expired, and none can be missing, even when sessions share tokens |
| RegistryTransactions.AccountingExact | cmd/meridian/dynamic_authority.go:87-131 | In every reachable state the process counts and bytes are the sums over the open sites, each authority has as many in flight as there are reservations, holders are counted exactly, index pairs name live entries, every reservation has its authority, pending uses are the sessions' claims, and all limits of sites and process on bytes, entries, authorities and holders hold |
| RegistryRuns.ReachableOk | cmd/meridian/dynamic_authority.go:164-195 | Every state that any run reaches keeps accounting, claims and the ownership of reservations |
| RegistryAuthorities.FinishCase | cmd/meridian/dynamic_authority.go:164-195 | With exact counts a reservation always finds the authority it was made on, so the clamp at zero never fires |
| RegistryAdmission.HeldIsGranted | cmd/meridian/dynamic_authority.go:96-107 | An authority that the site holds is granted whatever the counts and rates: in flight once more, with a new reservation of that entry; holders and windows stay |
| RegistryAdmission.NewIsGranted | cmd/meridian/dynamic_authority.go:108-131 | An authority that the site does not hold is granted if and only if the site has room and, where nobody holds it, the process, and both windows without what is a minute old have room; otherwise which reason is given; what is counted where |
| RegistryAdmission.SettlesExactly | cmd/meridian/dynamic_runtime_state.go:764-810 | Tokens are settled if and only if each is there with as many claims as it is named, and to be published has neither expired nor idled out |
| RegistryTables.EntryDeleted | cmd/meridian/dynamic_runtime_state.go:657-677 | Deleting an entry never meets a clamp of the byte and count budgets |
| RegistryTables.PruneKeepsClaimed | cmd/meridian/dynamic_runtime_state.go:679-701 | Pruning takes no entry with claims on it, however old, and leaves nothing unclaimed that has expired |
| RegistryRate.SiteRateLimited | cmd/meridian/dynamic_authority.go:13-20 | However often a site is asked, with readings in any order: no stretch of a minute less the longest lag of a reading behind an earlier one sees more new authorities than the site's limit; with readings in order, no minute |
| RegistryRate.ProcessRateLimited | cmd/meridian/dynamic_authority.go:108-131 | However the sites are asked, the same holds of the authorities that are new to the process, and its limit |
| RegistryRate.SomeLag | cmd/meridian/dynamic_authority.go:87-107 | Any clock readings lag by no more than some time, so no sequence of attempts is left out |
| RegistryRate.RateExactly | cmd/meridian/dynamic_authority.go:13-20 | Over all sites and attempts with readings that lag by no more than a given time, stretches of a given length keep the limit if and only if they are no longer than a minute less that lag |
| RegistryRate.ClockBackwards | cmd/meridian/dynamic_authority.go:87-131 | For every lag up to a minute there are four attempts at a site that are all admitted, three of them within a minute where two are allowed |
| DynamicRegistry.DynamicRuntime.ReserveAuthority | cmd/meridian/dynamic_authority.go:87-131 | The method on the class: a known authority is counted up, a new one has to fit counts and rates, as RegistryAdmission tells field by field |
| DynamicRegistry.DynamicRuntime.ReuseCapability | cmd/meridian/dynamic_runtime_state.go:703-727 | A valid capability is claimed once more; a stale pair is dropped, with its entry if nobody claims it |
| DynamicRegistry.DynamicRuntime.RegisterCapability | cmd/meridian/dynamic_runtime_state.go:729-762 | A new capability is entered within all budgets, or the one its key leads to is claimed |
| DynamicRegistry.DynamicRuntime.SettleCapabilities | cmd/meridian/dynamic_runtime_state.go:764-810 | Claims are counted per token, checked together and settled one token after the other, in any order |
| DynamicRegistry.DynamicRuntime.UseCapability | cmd/meridian/dynamic_runtime_state.go:831-852 | A published valid capability is marked as used now; an expired one nobody claims goes |
| DynamicRegistry.DynamicRuntime.PruneSite | cmd/meridian/dynamic_runtime_state.go:679-689 | Exactly the expired entries that nobody claims are deleted |
| DynamicRegistry.DynamicRuntime.CloseSiteState | cmd/meridian/dynamic_authority.go:295-329 | A closed site takes its table, its share of the totals and its authorities with it |
| ImageCacheRuns.BytesConserved | cmd/meridian/legacy_image_cache.go:436-597 | In every reachable state the bytes of a site are its entries plus its outstanding reservations, those of the process the sum, both within their limits; each site's list is the process list restricted to it; no key has an entry and a flight; each flight has woken its waiters at most once |
| ImageCacheRuns.FinishExact | cmd/meridian/legacy_image_cache.go:579-597 | Finishing a flight stores at most its own capture and never evicts anything |
| ImageCacheRuns.LastOfRestrict | cmd/meridian/legacy_image_cache.go:463-512 | The least recently used entry of all is the least recently used one of its own site |
| ImageCacheUse.LeastRecentlyUsed | cmd/meridian/legacy_image_cache.go:420-461 | In every reachable state the process list is the stored entries, and each site's list those of the site, in the order of their last hit or store, the latest first |
| ImageCacheUse.EvictsOldest | cmd/meridian/legacy_image_cache.go:463-512 | Whatever is evicted to make room was used before everything of its site that stays, and, if it is of another site, before everything that stays |
| ImageCacheUse.GetExactly | cmd/meridian/legacy_image_cache.go:420-434 | A lookup hits exactly the entry that the key leads to while it has not expired, and moves it to the front of both lists; an expired one is gone afterwards |
| ImageCacheAnswers.ReservedExactly | cmd/meridian/legacy_image_cache.go:463-512 | Bytes are reserved for a key if and only if site and process, apart from what captures have reserved, would have more than its least need; then as much as is left up to its most, and no entry goes that did not have to |
| ImageCacheAnswers.LookedExactly | cmd/meridian/legacy_image_cache.go:542-564 | A fresh entry is handed out; else whoever is not the first waits for the flight of the key; else a flight begins if and only if its bytes can be reserved; a closed site answers nothing |
| ImageCacheAnswers.BeganExactly | cmd/meridian/legacy_image_cache.go:566-577 | A capture begins exactly while its flight is in the table of its site |
| ImageCacheAnswers.FinishedExactly | cmd/meridian/legacy_image_cache.go:579-597 | At the end of a flight its response is stored exactly if it and its key fit the reservation and it is fresh, at its own cost; the rest of the reservation is given back and the waiters are told which |
| ImageCacheRuns.CloseKeeps | cmd/meridian/legacy_image_cache.go:599-619 | Closing empties a site while running captures keep their bytes until they end |
| ImageCacheLists.Touch | cmd/meridian/legacy_image_cache.go:420-434 | On the heap: a used entry moves to the front of both doubly linked lists, and the lists of other sites stay as they are |
| ImageCacheLists.Remove | cmd/meridian/legacy_image_cache.go:402-418 | A cached entry leaves both lists and the table of its site, with all links joined around it |
| ImageCacheLists.Insert | cmd/meridian/legacy_image_cache.go:436-461 | A stored entry becomes the first of both lists |
| ImageCacheLists.ImageCacheRuntime.UnlinkGlobal | cmd/meridian/legacy_image_cache.go:352-364 | Unlinking joins the neighbours, moves head and tail where needed, and leaves the rest of the list in its order |
| ImageCacheLists.ImageCacheSite.Unlink | cmd/meridian/legacy_image_cache.go:377-389 | The same for the list of a site |
| ImageCacheRefinement.TouchEntry | cmd/meridian/legacy_image_cache.go:420-434 | A hit on the heap is the hit of the model on values, which ImageCacheUse ties to use |
| ImageCacheRefinement.RemoveEntry | cmd/meridian/legacy_image_cache.go:402-418 | A removal on the heap is the removal of the model on values |
| ImageCacheRefinement.InsertEntry | cmd/meridian/legacy_image_cache.go:436-461 | Linking a stored entry on the heap is the insertion of the model on values |
| ImageCacheRefinement.EvictProcessEntry | cmd/meridian/legacy_image_cache.go:457-459 | A round of eviction on the heap removes the entry that the model on values removes, and the eviction there goes on from the result |
| ImageCacheRefinement.EvictSiteEntry | cmd/meridian/legacy_image_cache.go:454-456 | The same for a site over its limit |
| ImageCacheLists.EvictLast | cmd/meridian/legacy_image_cache.go:457-459 | The last entry of the process list goes, which is the last one of its site's list, and nothing else changes place |
| DashRoundTrip.SealThenExpand | cmd/meridian/dash_rewrite.go:201-274 | For every accepted template, base and binding and all values of a player: expanding the sealed claim with the player's public suffix gives what resolving the template with the player's values gives, errors included, unless a text is misread while sealing, texts and values together spell a marker, or a fixed value with a colon stands in the first segment of a relative reference |
| DashRoundTrip.SealedExactly | cmd/meridian/dash_rewrite.go:112-174 | Whatever is sealed at all has every marker in its place if and only if no text right after a literal dollar reads like the inside of the next mark's sentinel |
| DashAdmission.SealedWhen | cmd/meridian/dash_rewrite.go:201-274 | A template is sealed if and only if its text is clean and written out from supported expressions, every mark can be placed in the reference, the reference resolves, the second pass succeeds and the claim has at most 4096 characters |
| DashAdmission.SanitizedExactly | cmd/meridian/dash_rewrite.go:35-71 | What becomes of a template: its texts joined by numbered sentinels, if and only if it has 1 to 4096 characters, none unsafe, no marker's head in the program's case or any, and is written out from texts without dollars, double dollars and supported expressions |
| DashAdmission.PreparedExactly | cmd/meridian/dash_rewrite.go:112-152 | Markers can be placed if and only if each sentinel stands once in the reference, a fixed value can be formatted, and all other sentinels stay out of the host |
| DashSealing.RestoreExact | cmd/meridian/dash_rewrite.go:154-174 | The second pass puts its markers in place if and only if no text before a sentinel ends like that sentinel |
| DashSealing.InPlaceIff | cmd/meridian/dash_rewrite.go:154-174 | For texts without the markers' head this is a condition on single texts: after a literal dollar, the reserved word and the number of the next mark, with at most one underscore on either side |
| DashSealing.PrepareExact | cmd/meridian/dash_rewrite.go:112-152 | The first pass puts the fixed markers in place if and only if no text before the sentinel of a fixed expression ends like it |
| DashSealing.FixedInPlaceIff | cmd/meridian/dash_rewrite.go:112-152 | The same condition on single texts for fixed expressions after marks that are not fixed |
| DashOverlap.TagFirst | cmd/meridian/dash_rewrite.go:161-172 | Where a search finds a sentinel that is counted once: at its place, unless the text before it ends like the sentinel, and then there |
| DashRoundTrip.DollarsRestored | cmd/meridian/dynamic_capability_service.go:340-345 | Putting the dollars back gives the player's text if and only if the texts between them spell no marker of a dollar |
| DashRoundTrip.FixedRestored | cmd/meridian/dynamic_capability_service.go:347-373 | The fixed values get into their places if left of none of them its marker is spelled |
| DashMisread.ClaimMisread | cmd/meridian/dash_rewrite.go:35-71 | The template $$MERIDIAN_DASH_TEMPLATE_1$Time$ is accepted and sealed, and expands to another URL than in the player's hands |
| DashWitness.RoundTripMet | cmd/meridian/dash_rewrite.go:201-274 | A template with a fixed value, a player's value and a dollar meets everything SealThenExpand asks for |
| DashExchange.FixedValueMisread | cmd/meridian/dynamic_capability_service.go:360-371 | The template $RepresentationID$/$Bandwidth$ with the valid id meridian-dash-fixed-1-x and the bandwidth 5 is sealed, and expands to the bandwidth followed by the id, where a player reads the id followed by the bandwidth |
| DashExpansion.TemplateRead | cmd/meridian/dash_rewrite.go:41-69 | An accepted template is split into texts and marks without loss, and filling the marks is what the player's own substitution does |
| DashAcceptance.ReconstructExactly | cmd/meridian/dynamic_capability_service.go:375-445 | A claim is filled in if and only if its suffix is v0-a/v1-b/... with one value for each expression, at most 64, each a number of its expression and the same for the same name, and its target is text without dollars around the expressions in order |
| DashAcceptance.ExpandExactly | cmd/meridian/dynamic_capability_service.go:347-463 | A claim and a suffix give a target if and only if the claim can be filled in, its fixed values are valid, at most 64, and their markers stand once each in the URL, and the text with its dollars back is normalised to that target, being normal already where nothing was fixed |
| DashNumbers.ExpressionExactly | cmd/meridian/dynamic_capability_service.go:276-288 | An expression is read exactly as it is written: one of five names, alone or with %0, a width from 1 to 99 and the letter of a base |
| DashNumbers.ValueExactly | cmd/meridian/dynamic_capability_service.go:290-338 | A value is accepted and read as a number if and only if it is a numeral in the base and letter case of its expression, has its width and at most twenty digits, and the number has 64 bits |
| DashNumbers.FormattedExactly | cmd/meridian/dash_rewrite.go:73-110 | A number is formatted as a numeral for itself in the base of the letter, as wide as asked, with leading zeros only for that |
| DashTemplate.SanitizeDashTemplate | cmd/meridian/dash_rewrite.go:35-71 | The scanning loop produces the template's texts joined by numbered sentinels, and fails exactly where the template has no reading |
| DashValues.FixedValueValid | cmd/meridian/dash_rewrite.go:73-110 | Every value that is fixed while sealing is one that expansion accepts |
| DashValues.FormattedNumberAccepted | cmd/meridian/dynamic_capability_service.go:290-338 | A 64-bit number in an expression's format is accepted and read back as itself, unless it is octal with more than twenty digits |
| DashValues.CheckRepresentationId | cmd/meridian/dynamic_capability_service.go:247-274 | The scanning loop accepts exactly path characters, escaped or not, other than a dot segment |
| DashService.ResolveCapabilityTarget | cmd/meridian/dynamic_capability_service.go:375-463 | The loops over segments, expressions and fixed values compute the expansion that the round trip is about |
| DashMeaning.PushedDown | cmd/meridian/dash_rewrite.go:358-488 | Whatever an accepted manifest without nested Representations inherits, every Representation of the result has exactly that addressing with its URLs rewritten against its own base, in the same order, and nothing above carries addressing any more |
| DashPlacement.PlacedExactly | cmd/meridian/dash_segments.go:174-241 | Every Representation has, in document order, its effective addressing: the four templates made from the old ones, the Representation's base and its id and bandwidth, the URLs of SegmentURL, Initialization, RepresentationIndex and BitstreamSwitching made from the old ones and its base, and every other attribute and child as it was |
| DashSkeleton.SkeletonKept | cmd/meridian/dash_rewrite.go:275-488 | Outside addressing every element, attribute and text is kept in place but for BaseURL and Location texts, fetched clocks and callback events, each rewritten with the base in force there; none of the refused elements occurs |
| DashRefusals.AddressingExactly | cmd/meridian/dash_segments.go:123-241 | The addressing of a Representation is served if and only if it is one of the three kinds, its templates stand at most once and can be sealed, and its children are allowed in that kind, hold nothing else, and have URLs that stand at most once and can be rewritten |
| DashRefusals.AddressingReaches | cmd/meridian/dash_rewrite.go:440-488 | In an accepted manifest no level has addressing that reaches no Representation |
| DashRefusals.TimingExactly | cmd/meridian/dash_rewrite.go:275-299 | A clock is served if and only if it says its time, as a timestamp, or by which of seven schemes to fetch it from a URL that can be rewritten |
| DashRefusals.CallbackExactly | cmd/meridian/dash_rewrite.go:301-356 | Which event streams are served, and which of them carry callbacks |
| DashRefusals.NodeTextExactly | cmd/meridian/dash_xml.go:164-180 | The text of a URL element: nothing but text, without white space at its ends, 1 to 1048576 characters |
| DashTree.AdmittedExactly | cmd/meridian/dash_segments.go:243-280 | An element is admitted exactly if it is one of MPD and its attributes are in no namespace, or xml:lang |
| DashAddressing.AttributesInherited | cmd/meridian/dash_segments.go:47-96 | After merging, an attribute is the local one if there is one, else the inherited one, and there are no others |
| DashAddressing.ElementsInherited | cmd/meridian/dash_segments.go:47-96 | After merging, the children of a name are the local ones if there are any, else the inherited ones, in their order |
| DashAddressing.MergeExactly | cmd/meridian/dash_segments.go:47-96 | Addressing of another kind replaces what is inherited; of the same kind, attributes and children are merged name by name |
| DashAddressing.SchemaOrder | cmd/meridian/dash_segments.go:24-45 | Merged children stand in the order of the schema |
| DashEstimate.EstimateSound | cmd/meridian/dash_rewrite.go:511-540 | If the estimate of a manifest is within its limits, so is everything that will be placed at its Representations before URLs are rewritten |
| DashDemand.EstimateExactly | cmd/meridian/dash_rewrite.go:511-540 | The estimate is the sum, over the Representations, of all addressing at their level and above, and refuses a manifest if and only if that is over one of the limits |
| DashDemand.ShapeExactly | cmd/meridian/dash_rewrite.go:490-509 | An element counts 32 bytes, an attribute 24, every character of names, values and text one |
| DashEstimate.MergeShape | cmd/meridian/dash_rewrite.go:490-509 | Merging never takes more elements or bytes than its two inputs together |
| DashTree.FindAttribute | cmd/meridian/dash_xml.go:190-208 | The one attribute of a name is found, and a name that occurs twice is refused |
| RestoreSafety.StartIsAtomic | cmd/meridian/backup_restore.go:815-945 | A start with a staged restore succeeds exactly when the stage is complete, and then every managed file is as staged and no other changed; if it is not, every live file is as it was |
| RestoreScope.StartByManifest | cmd/meridian/backup_restore.go:90-112 | The same from the manifest's own fields: unless include_tls is false, each TLS file with a path is the staged one if listed and absent otherwise; if it is false, each is as it was |
| RestoreScope.RollBackByManifest | cmd/meridian/backup_restore.go:947-981 | A start that rolls back, from the fields of the saved manifest: databases come back as saved or absent, TLS files too unless the manifest left them out |
| RestoreScope.StartWithout | cmd/meridian/backup_restore.go:815-856 | Without a stage a start succeeds, with an unreadable one it fails, and neither changes anything |
| RestoreSafety.OldOrStaged | cmd/meridian/backup_restore.go:815-999 | However many starts are cut short between any two file operations, none of them in the fatal part of a rollback, the next whole start leaves every file old or every managed file as staged |
| RestoreSafety.OneCrash | cmd/meridian/backup_restore.go:899-945 | Cut short before the marker is written, the restore happens at the next start; from the marker on, the next start returns every file to what it was |
| RestoreSafety.CrashInRollback | cmd/meridian/backup_restore.go:947-981 | A second crash, inside a rollback, loses the database if and only if it falls between the removal of the live database and the end of the move that brings it back |
| RestoreSafety.NeedsDatabase | cmd/meridian/backup_restore.go:865-874 | Every crash from the marker on can be rolled back if and only if there was a database to save |
| RestoreSafety.ErrorReturn | cmd/meridian/backup_restore.go:857-898 | An error leaves every live file as it was, except while TLS files are being saved: there, if and only if the live ones in scope had all been saved |
| RestoreSafety.UseThenRestart | cmd/meridian/main.go:94-105 | After a restore the process may change any file; until the marker is removed, a start still returns every managed file to the old installation |
| RestoreSafety.FinalizeKeeps | cmd/meridian/backup_restore.go:994-999 | Finalizing never changes a live file; cut short after the marker is gone, the restore stands |
| RestoreSteps.RollBackRun | cmd/meridian/backup_restore.go:947-981 | Rolling back puts every managed file back to what was saved, absent ones included, and succeeds exactly when a database was saved |
| BackupRestore.RestoreFiles.ApplyPendingRestore | cmd/meridian/backup_restore.go:815-945 | The method on the class of files performs exactly the operations of the specification |
| BackupRestore.RestoreFiles.RollbackRestoreFiles | cmd/meridian/backup_restore.go:947-981 | Database and sidecars are moved back, TLS files copied if in scope, in the specified order |
| BackupRestore.RestoreFiles.RollbackAppliedRestore | cmd/meridian/backup_restore.go:983-992 | The rollback that follows a restored database which cannot be opened |
| EmbySpec.ReadableExactly | cmd/meridian/proxy_authorization.go:27-87 | An attribute list is readable if and only if it is printed from valid parts, and from one list only |
| EmbyNames.ListedExactly | cmd/meridian/proxy_authorization.go:89-120 | A value is read as a scheme and a list exactly if it is written out as such, with blanks only where they may be |
| EmbyEdit.StripMeaning | cmd/meridian/proxy_authorization.go:188-249 | A value that may be forwarded reads as the same attributes in the same order, byte for byte, without Token; stripping again changes nothing; it may be forwarded exactly when it has no scheme or reads with at most one Token |
| EmbyNames.StripByLetters | cmd/meridian/proxy_authorization.go:188-249 | Letter by letter: a value is forwarded if and only if it has no scheme, or MediaBrowser or Emby in any case, alone or with a well-formed list that spells token at most once in whatever case; no attribute of what is forwarded is spelled so, and every other one is there in order |
| EmbyRewrite.RewriteMeaning | cmd/meridian/proxy_authorization.go:89-168 | With a profile the reader accepts, a rewritten value reads as the same attributes with the profile's Client and Version, added at the end if missing; every other value is left alone; rewriting again changes nothing |
| EmbyNames.RewriteByLetters | cmd/meridian/proxy_authorization.go:89-168 | Every attribute spelled client or version, in whatever case, takes the profile's content, the missing ones are added at the end, and the rest is kept |
| EmbyRewrite.InOrder | cmd/meridian/proxy_authorization.go:154-160 | Editing from right to left replaces both contents at once |
| EmbyAuthorization.ParseEmbyAuthorizationAttributes | cmd/meridian/proxy_authorization.go:27-87 | The cursor loop returns the attributes with offsets into the value, and fails exactly where the list is not readable |
| EmbyAuthorization.StripEmbyAuthorizationToken | cmd/meridian/proxy_authorization.go:188-249 | The span arithmetic of the strip cuts the token and its separator out of the text as specified |
| EmbyAuthorization.RewriteEmbyAuthorizationValue | cmd/meridian/proxy_authorization.go:89-168 | The span arithmetic of the rewrite edits the contents as specified |
| EmbyAuthorization.StripValues | cmd/meridian/proxy_authorization.go:257-277 | The values of a header that may follow a redirect, or no header |
| HlsText.AcceptedAgain | cmd/meridian/hls_rewrite.go:615-850 | A rewritten manifest is accepted again, line for line and with the same type, if the rewritten URIs are accepted, contain no quotes or spaces and no line outgrows the limit |
| HlsText.AcceptedShape | cmd/meridian/hls_rewrite.go:615-850 | An accepted manifest is of one type, each STREAM-INF is followed by its URI, and each line of the output is that of the input but for URIs, whatever these are rewritten to |
| HlsExact.RewrittenExactly | cmd/meridian/hls_rewrite.go:615-850 | A manifest is rewritten into a text if and only if its lines stand as they must (one type, single tags once, each STREAM-INF directly above a URI, in a multivariant playlist each URI directly below one) and each line becomes the line there: a variant's URI the answer for a playlist, any other URI that for a resource, the URI attributes of a tag the answers for the tag's kind, and everything else itself |
| HlsTags.TagNamed | cmd/meridian/hls_rewrite.go:727-730 | The tag of a line is what stands before its first colon, or the whole line |
| HlsTags.TagsExactly | cmd/meridian/hls_rewrite.go:597-613 | The place of every tag: in a multivariant playlist only, in a media playlist only, in either, or refused |
| HlsTags.VersionExactly | cmd/meridian/hls_rewrite.go:760-766 | A version line is accepted if and only if it has a decimal number from 1 to 13, perhaps with a plus sign and zeros in front |
| HlsTags.TextExactly | cmd/meridian/hls_rewrite.go:615-645 | A text is accepted as lines if and only if it has no control characters but tabs and line ends of one style |
| HlsText.OutputVariants | cmd/meridian/hls_rewrite.go:700-850 | In the output each STREAM-INF is followed by its URI as well |
| HlsMeaning.RunKeeps | cmd/meridian/hls_rewrite.go:640-850 | The line machine keeps its place while lines are rewritten |
| HlsAttributes.ReadableExactly | cmd/meridian/hls_rewrite.go:23-85 | An attribute list is accepted if and only if its attributes print it exactly |
| HlsAttributes.SpliceOne | cmd/meridian/hls_rewrite.go:211-251 | Splicing at an attribute's own span replaces its content and nothing else |
| HlsRewrite.SpliceAll | cmd/meridian/hls_rewrite.go:246-250 | Splicing from right to left makes all replacements at once |
| HlsRewrite.ParseHlsAttributeList | cmd/meridian/hls_rewrite.go:23-85 | The offset loop returns the attributes with their spans, or fails, as specified |
| HlsRewrite.RewriteHlsAttributeLine | cmd/meridian/hls_rewrite.go:211-251 | The values of URI attributes are rewritten and everything else in the line is kept |
| HlsRewrite.RewriteHlsResponse | cmd/meridian/hls_rewrite.go:615-850 | The loop over lines with its flags computes the specified transformation |
| TrafficRuns.BytesConserved | cmd/meridian/request_traffic_meter.go:43-106 | In every run of meters and flushes, stored or failed, stored plus pending totals are stored plus pending minutes plus what unfinished meters hold back |
| TrafficRuns.ViewsAgree | cmd/meridian/proxy_lifecycle.go:122-190 | Once every meter has finished and no flush is under way, totals and minutes agree, stored and pending alike |
| TrafficMinutes.MinutesExact | cmd/meridian/request_traffic_meter.go:43-132 | In every run each minute holds exactly the bytes that ended there, wherever its record is kept: those of a streaming meter in their own minute, those held before in the meter's first minute or in that of its finish; and at least the requests that finished in it |
| TrafficMinutes.HoldsThenStreams | cmd/meridian/request_traffic_meter.go:65-106 | In every run a meter holds bytes back until it is promoted, which is once, and streams them from then on |
| TrafficMinutes.FinishIsLast | cmd/meridian/request_traffic_meter.go:111-132 | After its finish has been given to a minute a meter does nothing in any run but count it, once |
| TrafficRuns.RequestsExact | cmd/meridian/request_traffic_meter.go:111-132 | Stored and pending requests are those counted if and only if no stored flush took the pending requests between the two steps of a finish |
| TrafficRuns.SplitFinishCountsTwice | cmd/meridian/request_traffic_meter.go:122-129 | One finish, stored between its two steps, is counted as two requests |
| Traffic.FlushProxyTrafficLocked | cmd/meridian/proxy_lifecycle.go:122-190 | The method on the classes: counters are swapped out, stored, and put back on an error |
| Traffic.FailedFlushRestores | cmd/meridian/proxy_lifecycle.go:161-175 | A flush that fails leaves totals and minutes as they were |
| Traffic.RequestTrafficMeter.Add | cmd/meridian/request_traffic_meter.go:85-106 | Bytes are held back in the first minute and given to their own minute from the first later one on |
| Traffic.RequestTrafficMeter.Finish | cmd/meridian/request_traffic_meter.go:111-132 | What is held back and one request go to a minute, once |

## Findings

Properties that the program does not have in general, each with the input that shows it or the exact condition under which
it holds.

| what fails | where | shown by |
|---|---|---|
| A template can be sealed into a claim that expands to another URL: the text between a literal dollar and the next expression, together with the dollar's own marker, reads like the sentinel of that expression | cmd/meridian/dash_rewrite.go:37, 154-174: only the head with two underscores is rejected, and the count of the sentinel is still one because the two occurrences overlap | DashMisread.ClaimMisread (the run), DashRoundTrip.SealedExactly (if and only if) |
| A representation id may spell the marker of a later fixed value, and the two values change places | cmd/meridian/dynamic_capability_service.go:360-371: markers are counted before the values are put in | DashExchange.FixedValueMisread (the run), DashRoundTrip.FixedRestored (a sufficient condition) |
| A second crash, inside a rollback, loses the database: the live file is removed before its source is looked for, and the source is moved | cmd/meridian/backup_restore.go:951-960 | RestoreSafety.CrashInRollback (if and only if) |
| A restore over an installation without a database cannot be rolled back | cmd/meridian/backup_restore.go:947-981 | RestoreSafety.NeedsDatabase (if and only if) |
| An error while TLS files are being saved rolls back from a partial backup and removes those not saved yet | cmd/meridian/backup_restore.go:880-898 | RestoreSafety.ErrorReturn (if and only if) |
| Closing a coalescer with waiting clients leaves them in the process-wide counter | cmd/meridian/legacy_progress.go:1059-1071; the caller drains first, cmd/meridian/proxy_manager.go:251-262 | ProgressAccounting.CloseAccounts (if and only if) |
| A flush between the two steps of a finish stores its request, and the next flush stores it again | cmd/meridian/request_traffic_meter.go:122-129 | TrafficRuns.SplitFinishCountsTwice (the run), TrafficRuns.RequestsExact (if and only if) |
| The rate windows may be exceeded when attempts are made in another order than their clock readings, which are taken before the lock: three within a minute where two are allowed | cmd/meridian/dynamic_authority.go:87-107 | RegistryRate.ClockBackwards (the runs), RegistryRate.RateExactly (if and only if) |
| A session that is rolled back can have shown to another one: it may have taken the last room | cmd/meridian/dynamic_runtime_state.go:749-751 | RegistryNotice.CapacityShows (the run), RegistryOthers.ShowsExactly (if and only if) |
| Registering claims the entry its cache key leads to even if that has expired by the registration's own reading of the clock, and the session can publish nothing then. Every mint looks its key up first, which drops such a pair; so it takes another registration or use of the key between the two whose reading, taken before its lock, is the idle time (half an hour or more) or the lifetime older | cmd/meridian/dynamic_runtime_state.go:739-745; the lookups are cmd/meridian/dynamic_capability_issuer.go:187 and 254 | RegistryLate.ExpiredHandedOut (the run), RegistryStale.StaleExactly (if and only if, for one call), RegistryStale.MintIsValid (no other way to it) |

## Left out

- ProgressRuns.OutcomesExact: states who is told when, not the status and body of the answer; HTTP requests, responses, bodies and credential digests are not modelled, and the result channels are the events of a log.
- ProgressAccounting.DrainedIsFinal: the blocking wait of a drain and its context are not modelled, only its critical sections; real time is an integer that operations are given.
- ProgressRuns.NeverStalls: that an armed timer fires is assumed of the clock.
- RegistryIsolation.RollbackInvisible: is about the run in which the session claims and enters nothing. Its authority reservations are still made, and those that its capabilities would own stay with the callers until it gives the capabilities up; so are its lookups in vain, which only drop what has expired. Expired entries, and index pairs to them, may differ.
- RegistryNotice.RollbackUnseen: a run is quiet by conditions on that run alone, so a refusal that would have happened without the session as well is not quiet; RegistryOthers.ShowsExactly and RegistryIsolation.RollbackInvisible cover it.
- RegistryTransactions.RollbackRestores: one session alone in a registry where nothing expires; RegistryIsolation has the general case.
- RegistryTransactions.SessionLeavesNothing: the same restriction, over runs of that session's steps.
- RegistryRate.RateExactly: is about the limit of a site; that the process limit is not kept by longer stretches either is not shown.
- RegistryRuns.ReachableOk: the removal of capabilities regardless of claims (dynamic_runtime_state.go:854-867) and operations after a site is closed are not steps of a run; pruning may happen at any time, not only once per interval; SHA-256 is injective and new tokens are fresh.
- Parse budgets, stream leases and DNS resolution of the registry (acquireParse, acquireStream, resolve) are not modelled.
- ImageCacheRuns.BytesConserved: flights, bytes and closing are on values; the lists are also on the heap, where ImageCacheRefinement ties them to the values. HTTP freshness, key derivation and the capture writer's growth are not modelled; a done channel is the number of times it was closed.
- DashRoundTrip.SealThenExpand: goes one way. The converse holds of the claim (DashRoundTrip.SealedExactly) but not of the expanded URL: normalising may give one URL for two texts, or refuse both, and what a player and a manifest put in may spell a marker by itself. It asks that net/url follow one law for all plain fills, part of which is that the base contributes no dollar sign; and that a fixed value with a colon stands behind a slash or a question mark, because in the first segment of a relative reference net/url reads a scheme or refuses it.
- DashRoundTrip.FixedRestored: goes one way, as a value that is, or is made of, its own marker may give the right text from the wrong place.
- DashRoundTrip.SealedExactly: templates whose first pass misplaces a fixed marker are left to DashSealing.PrepareExact; what the second pass makes of their text depends on how net/url resolves it.
- DashTemplate.SanitizeDashTemplate: the validation text, the configured authorities and the branch for references to the manifest's own authority, which puts a single dollar for "$$" (dash_rewrite.go:240-243), are not modelled; lengths are in characters.
- DashAdmission.SealedWhen: parsing, resolving and normalising are the parameter net, and the second pass is named, not unfolded; DashSealing.RestoreExact says what it does.
- DashMeaning.PushedDown: nodes are values, so edits in place and aliasing of cloned nodes are not captured; nested Representations and the extreme profile are excluded, and URL rewriting is an abstract function of text and base with the session's limits in it.
- DashTree.FindAttribute: XML parsing and printing (parseDASHXML, encodeDASHXMLNode) are not modelled.
- RestoreSafety.OldOrStaged: staging a restore (writeRestorePending) is not modelled, nor the temporary files of writePrivateFileAtomic, whose replacement is taken as one operation (it is two on Windows); TLS paths are assumed to be distinct.
- RestoreSafety.ErrorReturn: file operations fail by a missing source; other input and output errors inside a rollback are not modelled.
- EmbyRewrite.RewriteMeaning: strings are bytes and case is folded in ASCII, where the program folds Unicode in strings.EqualFold; the profile has to be one that the reader accepts.
- EmbyNames.StripByLetters: letter case is that of ASCII.
- HlsText.AcceptedAgain: the limit on the whole output, UTF-8 validity, the deadline of the context and the extreme profile are not part of it; net/url and the rewriting of URIs are abstract, and case is folded in ASCII.
- HlsExact.RewrittenExactly: covers the output limit; UTF-8 validity, the deadline and the extreme profile are not modelled, net/url and the session behind a URI are the parameters of the rewriter.
- TrafficRuns.BytesConserved: the database stores all buckets or none; the deletion of old minutes, billing cycles and the flush counters that are never read are not modelled; updates of a meter's own fields are merged into the adjacent shared step.
- TrafficMinutes.MinutesExact: requests of a minute are bounded from below only, as a flush adds those it misses to its own minute; their total is TrafficRuns.RequestsExact.
- HTTP handlers, the panel, SQLite, cryptography, ACME and the other caches are not modelled.
