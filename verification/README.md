# Verification of the Deltapreneur backend's self-contained core

A Dafny model of the parts of the backend whose behaviour can be stated and proved from their own code:

- **Scheduler** (`SchedulerJobs`, `SchedulerProtocol`, `SchedulerTick`): any number of API replicas share one Postgres
  session advisory lock. A transition system covers acquire, work, timeout, exception, cancellation, release, failed
  release and lost connections; one imperative iteration is proved to be a path of it.
- **Public list cache** (`CacheSpec`, `PublicListCache`): a map with expiry and wholesale eviction, histories over it,
  and the mutable store that refines it, with deep copies and ownership.
- **Exceptions and response wrapper** (`Exceptions`, `ErrorMiddleware`): the walk over a possibly cyclic cause chain and
  the ASGI exchange that uses its answer.
- **Migration graph** (`RevisionGraph`, `AlembicScripts`): heads, ancestors, the deploy gate and the merge tool.
- **Record and money repair** (`TrackRecords`, `TechnologyTables`, `TrackCorrection`, `CapturedPayment`,
  `DealValueRepair`, `CommissionSplit`, `Rounding`).
- **Numbering and dedupe migrations** (`TaxInvoiceNumbers`, `ApplicationNumbers`, `ReferralDedupe`, `Decimal`).
- **Algorithms and formats** (`Percentile`, `Base64Url`, `OAuthState`, `ShowcaseLabels`, `Urls`, `PoolerUrl`).
- `Text` and `Options` are shared vocabulary.

Check everything with `dafny verify dfyconfig.toml`.

## Where the code and its promises differ

- The track-record script says it rewrites lying records to match reality. Its log line at line 147 looks a key up in
  the wrong dictionary, so it stops with a KeyError at the first violation and never stores anything, dry run or apply
  (`TrackCorrection.Run`). With that line repaired it would still write through `record_paid_attempt`, which never
  downgrades a confirmed success to an intermediate status, so a paid row with a pending, cancelled or missing
  subscription would keep claiming success (`RepairedApplySettles`, `CorrectionTakesHold`). Its `--user-id` option
  filters subscriptions but not records (`FilterAccusesOtherUsers`).
- The captured-payment script is meant to be safe to run again, and is for subscriptions and invoices. The track record
  changes on a second apply when its confirmed success is contested (`TrackSettles`, `ContestedExample`).
- Failed lock releases are logged and forgotten. Exclusion survives them, but when the reply or the request is lost the
  lock stays with a pooled connection (`OrphanNeverHeals`); without lost replies it is always given back (`NoOrphans`).
- The merge tool overlooks heads that carry a branch label while the gate counts them (`LabelledHeadStalls`).
- Invoice numbers print two year digits, so years a century apart collide, and a later run of the migration aborts
  exactly when it selects an order of a year already numbered (`DistinctExactly`, `CenturyApartCollides`, `LaterRunCommitsExactly`).
- Application references are unique before they are renumbered one row at a time, so renumbering aborts when a later
  row still holds an earlier one's reference (`ApplicationNumbers.Applications.Upgrade`, `SwappedNumbersAbort`).
- The commission migration overwrites the prices of unpaid one-time listings without a positive seller price
  (`PricesOverwrittenExactly`).
- Parsing an OAuth state is documented to answer None for anything invalid; it raises in two cases (`RaisesExactly`,
  `AccentRaises`).
- The deal-value repair joins with ventures: a brand no venture refers to stays unrepaired.
- An extra called `exp` overrides the 600 seconds of an OAuth state; no caller in the repository passes one.
- Normalising a pooler URL is not idempotent for URLs with whitespace in front of an empty query or fragment mark, and
  moving the port back and forth keeps a URL byte for byte only when it was written canonically (`NormalizeTwice`,
  `UnsettledExample`, `MovingBack`, `MovedBackExample`).

## Model

| member | source | states |
|---|---|---|
| SchedulerProtocol.MutualExclusion | app/background_jobs.py:153-178 | in every interleaving of any number of replicas, with timeouts, exceptions, cancellations, failed releases and connections lost outside the work, at most one replica is inside the work and its own lock session owns the lock, as long as no replica loses its backend connection while inside the work |
| SchedulerProtocol.LockStep | app/background_jobs.py:24-36 | every step that takes no backend from a replica inside the work keeps the lock invariant: connections are checked out once, and a replica inside the work owns the lock on its own connection |
| SchedulerProtocol.LockAlways | app/background_jobs.py:153-178 | the lock invariant holds in every state of every run |
| SchedulerProtocol.LostBackendBreaksExclusion | app/background_jobs.py:156-163 | that hypothesis cannot be dropped: from any reachable state with a worker, losing its backend lets a second replica in beside it |
| SchedulerProtocol.OrphanNeverHeals | app/background_jobs.py:174-178 | a lock left behind stays with its connection until that very backend goes, whatever other connections are lost and through every re-entrant reuse of it; nobody starts to work on another connection |
| SchedulerProtocol.LostRepliesOrphan | app/background_jobs.py:157-178 | a release that does not reach the server leaves such an orphan if and only if the connection still owned the lock, and an acquire that takes the lock and then raises always does |
| SchedulerProtocol.NoOrphans | app/background_jobs.py:157-178 | and nothing else does: in a run without such lost replies, lost connections or not, whenever the lock is held it is held once, by a replica between its acquire and its release |
| SchedulerProtocol.AtLeastOnce | app/background_jobs.py:39-150 | in every run, for every number up to a replica's counter, each job due at that number returned in an attempt made for exactly that number, or is one whose failures are dropped |
| SchedulerProtocol.DueJobsNeverSkipped | app/background_jobs.py:41-150 | in every run a counter passes a number only if each of the jobs due at it returned, the three droppable ones aside: a multiple of 4 only after all three reconcile calls, a multiple of 20 only after the winner-payment lifecycle, any number only after transfers, auctions and expiry notices |
| SchedulerProtocol.EveryTickIsOneAttempt | app/background_jobs.py:153-198 | for every number up to a counter there is one attempt at that number which took the lock, stayed inside the work, passed every position of the plan within it, by a return or a dropped failure, and ended; unless a worker loses its backend it owned the lock throughout |
| SchedulerProtocol.WorkingSince | app/background_jobs.py:157-170 | a replica inside the work has been there since it took the lock, and passed exactly the positions behind it since then |
| SchedulerProtocol.CounterCountsCompletedAttempts | app/background_jobs.py:165-198 | a counter moves by exactly the number of lock sessions closed normally after work that ended and nothing but a release since: timed-out, failed, cancelled and skipped attempts are retried under the same number |
| SchedulerTick.RunLockedWork | app/background_jobs.py:39-150 | the locked work finishes exactly when every due job returns or is one of the three named droppable ones; then the jobs that ran are exactly the due ones that return, in their order, and the counter advances by one. Otherwise the first other failure ends it after the due jobs before it |
| SchedulerJobs.PlanListsDueJobs | app/background_jobs.py:41-150 | which jobs are due, written out for each of the fourteen: always, every 4th, 20th or 120th number, or when retries are enabled; the plan lists exactly those, in the order of the statements, each once |
| SchedulerTick.WorkRun | app/background_jobs.py:165-170 | running the rest of a plan, whatever the services reply, is a sequence of protocol steps of that replica |
| SchedulerTick.IterationIsRun | app/background_jobs.py:153-178 | a whole iteration, from its replies and the fate of its unlock, is a path of the protocol |
| SchedulerTick.LeadsIsRun | app/background_jobs.py:181-200 | paths of the protocol are runs, so the theorems over runs hold of sequences of iterations |
| SchedulerTick.SchedulerIteration | app/background_jobs.py:153-198 | the imperative iteration leaves lock, counter and log in the state that path ends in |
| Exceptions.IsDbConnectionError | app/core/exceptions.py:23-65 | the cause walk terminates on every finite exception graph, cycles included, and answers true exactly when the head passes a head test or some exception reachable by cause-or-orig steps passes a link test |
| Exceptions.ConnectionErrorExactly | app/core/exceptions.py:23-65 | that answer over the exceptions themselves: an invalidated driver error at the head, or anywhere down the chain an operational or OS error or a listed token in the text |
| Exceptions.SuccessorExactly | app/core/exceptions.py:52-63 | a step goes to the cause when there is a truthy one, else to the driver error, else nowhere |
| Exceptions.ChainStaysIn | app/core/exceptions.py:52-63 | once a step leads back into the visited exceptions, every later step stays there: stopping at a repeat misses nothing |
| Exceptions.BuildUnhandledExceptionResponse | app/core/exceptions.py:83-127 | 503 exactly for connection errors and 500 otherwise, with the text of the environment |
| Exceptions.ProductionHidesDetail | app/core/exceptions.py:68-127 | in production two exceptions get the same response if and only if they agree on being connection errors |
| Exceptions.InvalidatedOnlyAtTheHead | app/core/exceptions.py:26-60 | an invalidated driver error wrapped in another exception is not recognised, though by itself it is |
| ErrorMiddleware.Exchange.Call | app/core/error_middleware.py:24-44 | for every script of the inner app, every ending and every failing send: the client-side trace, passed on unchanged after a start, one 500 or 503 reply before it, and what is raised |
| ErrorMiddleware.TraceExactly | app/core/error_middleware.py:29-44 | the client sees what the inner app delivered, followed by one start and one body exactly when an HTTP exchange raised an exception before attempting a start |
| ErrorMiddleware.Exchange.SendWrapper | app/core/error_middleware.py:31-35 | a start counts as soon as it is attempted, delivered or not |
| ErrorMiddleware.AtMostOneStart | app/core/error_middleware.py:29-44 | the client sees at most as many response starts as the inner app attempted, or one when it attempted none, that one exactly when the middleware replies |
| ErrorMiddleware.StartsBounded | app/core/error_middleware.py:31-38 | no more starts are delivered than attempted |
| CacheSpec.StoreIsLatestPut | app/core/public_list_cache.py:16-40 | over every history of get, put and clear with any clock readings, a key is stored exactly when some put of it with a positive time to live has not been overwritten, cleared, expired or evicted by a later call, and what is stored is that put |
| CacheSpec.HitIsLatestPut | app/core/public_list_cache.py:16-32 | a read hits exactly when such a put exists and has not expired, and returns its payload |
| CacheSpec.StoreIsBounded | app/core/public_list_cache.py:30-32 | the store never holds more than 65 entries |
| CacheSpec.ClearExactly | app/core/public_list_cache.py:35-40 | clearing a prefix removes exactly the keys that begin with it, letter by letter, and keeps the other entries; clearing without one empties the cache |
| CacheSpec.PutExactly | app/core/public_list_cache.py:27-32 | a put without a positive time to live changes nothing; any other stores payload and expiry, and the other keys stay exactly when there were at most 64 |
| CacheSpec.GetExactly | app/core/public_list_cache.py:16-24 | a read hits exactly an unexpired entry, and removes nothing but that entry once it has expired |
| PublicListCache.Cache.Get | app/core/public_list_cache.py:16-24 | the hit and the store after it are those of the map; the object handed back is made of new objects throughout |
| PublicListCache.Cache.Put | app/core/public_list_cache.py:27-32 | the store after it is that of the map, holding new objects only |
| PublicListCache.Cache.Clear | app/core/public_list_cache.py:35-40 | afterwards exactly the keys that do not begin with the prefix are left, with their entries; without a prefix none |
| PublicListCache.Node.DeepCopy | app/core/public_list_cache.py:24-32 | a deep copy has the same value and shares no object with the original |
| PublicListCache.Isolated | app/core/public_list_cache.py:13-40 | with the cache and the objects it owns left alone, its contents stay the same whatever else in the heap changes |
| PublicListCache.PutThenModify | app/core/public_list_cache.py:27-32 | any change to the objects of a payload after putting it, and to any other outside objects, leaves the cache as put |
| PublicListCache.GetThenModify | app/core/public_list_cache.py:16-24 | any change to the objects handed back, down to the last, leaves the cache as it was |
| RevisionGraph.RankedExactly | scripts/check_alembic_graph.py:45-52 | a closed graph can be ranked from parents to children if and only if no descent returns to its start, so acyclic means what it says |
| RevisionGraph.SingleHeadReachesAll | scripts/check_alembic_graph.py:54-63 | in an acyclic closed graph a revision is the one head if and only if every revision is its ancestor |
| RevisionGraph.HeadAbove | scripts/check_alembic_graph.py:45-63 | from every revision some head is reached going up |
| RevisionGraph.MergeJoins | scripts/merge_alembic_heads.py:68-92 | one fresh revision below all heads keeps the graph acyclic and closed, leaves exactly that head with everything below it, and keeps every old ancestor relation both ways |
| AlembicScripts.CollectRevisions | scripts/check_alembic_graph.py:20-31 | the dictionary lists for each id exactly the files that declare it, in order |
| AlembicScripts.GraphOfExactly | scripts/check_alembic_graph.py:46-63 | the graph both scripts ask about has exactly the declared revisions, each with the parents of the last file that declares it |
| AlembicScripts.CheckGraph | scripts/check_alembic_graph.py:34-78 | exit code 0 exactly when ids are unique, Alembic could read the graph and one line announces a head |
| AlembicScripts.NamesCountDeclarations | scripts/check_alembic_graph.py:37-43 | an id has more than one name in the dictionary exactly when two files declare it |
| AlembicScripts.GatePassesExactly | scripts/check_alembic_graph.py:37-63 | so the gate passes exactly for unique ids and a well-formed graph with one head, and then every revision is an ancestor of that head |
| AlembicScripts.ParseHeads | scripts/merge_alembic_heads.py:33-41 | the loop collects what the pattern matches, line by line |
| AlembicScripts.HeadLineParses | scripts/merge_alembic_heads.py:38-40 | a printed head is read back if and only if no branch label stands between its id and the mark |
| AlembicScripts.ToolSeesVisibleHeads | scripts/merge_alembic_heads.py:33-48 | the tool sees exactly the heads whose labels do not hide them, in order |
| AlembicScripts.ToolAgreesWithGate | scripts/merge_alembic_heads.py:62-66 | tool and gate count the same heads if and only if every head is readable |
| AlembicScripts.OneHeadIsHidden | scripts/merge_alembic_heads.py:33-48 | a sound graph of two heads, one labelled: its listing announces two heads, of which the tool reads one |
| AlembicScripts.LabelledHeadStalls | scripts/merge_alembic_heads.py:62-66 | on that graph the gate exits with 1, and the tool it recommends exits with 0 and merges nothing |
| AlembicScripts.Versions.MergeHeads | scripts/merge_alembic_heads.py:51-107 | dry runs, failed merges and single visible heads leave the files alone; the first and last exit with 0, a failed merge with the return code of `alembic merge`; a merge leaves the new revision as the only head above everything, and exits 0 exactly when ids were unique |
| TrackRecords.TrackTable.RecordPaidAttempt | app/service/platform/track_record_service.py:228-445 | updating an existing record changes the one row with that internal order id, to the row the update rules give |
| TrackRecords.UpdatedFields | app/service/platform/track_record_service.py:309-343 | an update overwrites a field exactly when the caller gives one: empty texts and amounts of zero keep the old value, and a placeholder name never displaces a real one |
| TrackRecords.UpdatedErrors | app/service/platform/track_record_service.py:380-402 | the error fields are wiped when the purchase is reported provisioned without a code, replaced when the caller asks for it, and otherwise filled in |
| TrackRecords.UpdatedStatuses | app/service/platform/track_record_service.py:374-435 | the fulfillment status becomes the one given unless a success is kept, and the overall status is derived from the row so updated |
| TrackRecords.SuccessKeptExactly | app/service/platform/track_record_service.py:352-377 | on the statuses in use, a confirmed success is kept exactly against an attempt in progress or not started without error code that reports no failure or reversal |
| TrackRecords.OverallExactly | app/service/platform/track_record_service.py:406-435 | on the statuses in use, the table from which the overall status follows |
| TrackCorrection.BuildIndexes | scripts/correct_technology_track_records.py:66-72 | both dictionaries agree with a search for the last matching subscription |
| TrackCorrection.ViolatesExactly | scripts/correct_technology_track_records.py:82-99 | a violation over the tables: provisioned and successful, while the last subscription with the payment id, or failing that with the order id, is missing, not active or without provider id |
| TrackCorrection.FetchedExactly | scripts/correct_technology_track_records.py:59-65 | the subscriptions considered are those not deleted, of the one user if one is named |
| TrackCorrection.AuditListsViolations | scripts/correct_technology_track_records.py:99-139 | the audit has one entry for each violating row, behind those of the rows before it, with the row, the subscription's status or MISSING, and the correction |
| TrackCorrection.Run | scripts/correct_technology_track_records.py:82-170 | the script as written raises exactly when there is a violation, `--apply` or not, and never changes a record; so no fetched record violates after a run if and only if none did before |
| TrackCorrection.FirstViolationStops | scripts/correct_technology_track_records.py:112-149 | no entry can be logged: the log line looks `subscription_status` up in the `after` dictionary, which never has it |
| TrackCorrection.FailureIsNotReached | scripts/correct_technology_track_records.py:124-167 | a concrete failed provisioning: the update would correct it, and the script raises before reaching it |
| TrackCorrection.Correct | scripts/correct_technology_track_records.py:59-170 | the loop over any log line: if some violating row cannot be logged it raises and nothing is stored, otherwise with `apply` each violating row is updated and every other row unchanged, and the audit lists the violations in order |
| TrackCorrection.CorrectedStatus | scripts/correct_technology_track_records.py:117-167 | what the update would make of a violating row: the confirmed success is kept, so only a failed provisioning changes the fulfillment status, and the overall status follows from the payment fields |
| TrackCorrection.CorrectedDiagnostics | scripts/correct_technology_track_records.py:117-167 | and what it writes beside the statuses: source, code and message by the state of the subscription, every other field unchanged |
| TrackCorrection.CorrectionTakesHold | app/service/platform/track_record_service.py:344-435 | with the log line repaired, the update would take hold if and only if the subscription failed to provision or the payment fields do not read as plainly paid; otherwise the row violates again |
| TrackCorrection.RepairedApplySettles | scripts/correct_technology_track_records.py:10-15 | with the log line repaired, no fetched record would violate after an apply if and only if every violation was of one of those two kinds |
| TrackCorrection.PendingIsNotCorrected | app/service/platform/track_record_service.py:344-377 | a captured payment with a pending subscription would still claim success after the update |
| TrackCorrection.SecondRunFinds | scripts/correct_technology_track_records.py:82-99 | a row violates after the update if and only if it did before and the update did not take hold |
| TrackCorrection.CorrectingTwiceIsOnce | app/service/platform/track_record_service.py:309-435 | a second update of a row changes nothing |
| TrackCorrection.AuditIsTruthful | scripts/correct_technology_track_records.py:117-139 | an entry's `after` is what the update would store if and only if provisioning failed and nothing was refunded |
| TrackCorrection.ConsistentUnchanged | scripts/correct_technology_track_records.py:96-97 | a row backed by an active subscription with a provider id is not touched |
| TrackCorrection.FilterAccusesOtherUsers | scripts/correct_technology_track_records.py:62-99 | under `--user-id` a truthful record counts as a violation if and only if its subscription belongs to another user |
| TrackCorrection.IntermediateIsKept | app/service/platform/track_record_service.py:352-435 | an intermediate status written over a confirmed success changes the diagnostics and the derived status only |
| TrackCorrection.FailureGoesThrough | app/service/platform/track_record_service.py:365-424 | a failure with an error code overwrites a confirmed success |
| CapturedPayment.Database.Run | scripts/reconcile_captured_technology_payment.py:46-297 | the refusals, the loops over the session's pending rows and the commit take the tables to the state characterised field by field in the rows below |
| CapturedPayment.Database.ReviveMatched | scripts/reconcile_captured_technology_payment.py:242-249 | the first loop sends every matched subscription that is not active back to waiting |
| CapturedPayment.Database.InvoiceMatched | scripts/reconcile_captured_technology_payment.py:250-268 | the second loop invoices the matched subscriptions that had no invoice |
| CapturedPayment.OnlySuccessWrites | scripts/reconcile_captured_technology_payment.py:183-191 | a refusal or a violated unique constraint leaves every table unchanged |
| CapturedPayment.SelectTrackExactly | scripts/reconcile_captured_technology_payment.py:58-182 | the track is the first with the payment id, or else the first with the order id |
| CapturedPayment.RefusedExactly | scripts/reconcile_captured_technology_payment.py:182-191 | a run is refused exactly when there is no track, the track is not captured or paid, or it has no buyer |
| CapturedPayment.RaisedExactly | scripts/reconcile_captured_technology_payment.py:193-291 | a run that is not refused raises exactly when a drawn invoice number is taken or drawn twice, among as many as there are rows of the payment without invoice, or when a new row's id or idempotency key is taken; otherwise it is applied |
| CapturedPayment.ConstraintsKept | scripts/reconcile_captured_technology_payment.py:193-291 | ids, idempotency keys and invoice numbers stay unique whatever a run draws |
| CapturedPayment.BackfilledRow | scripts/reconcile_captured_technology_payment.py:193-237 | a payment without subscription gets one that is pending, captured and without provider id, to be retried in five minutes, with user, names, price, currency, key and period read off track and call, and one paid invoice for it |
| CapturedPayment.RevivedRow | scripts/reconcile_captured_technology_payment.py:238-249 | a matched subscription that is not active becomes pending and captured, keeping an earlier retry time and provider status; every other row is untouched |
| CapturedPayment.AddedInvoice | scripts/reconcile_captured_technology_payment.py:250-268 | every added invoice is a paid one for a row of the payment that had none, over the track's amount or else the row's price, for that user, currency and billing period |
| CapturedPayment.TrackAfterRun | scripts/reconcile_captured_technology_payment.py:270-291 | the track becomes captured, in progress unless a confirmed success is kept, its overall status derived anew, all else unchanged |
| CapturedPayment.PaymentHasSubscription | scripts/reconcile_captured_technology_payment.py:193-237 | after a successful apply the payment has a subscription |
| CapturedPayment.OthersUntouched | scripts/reconcile_captured_technology_payment.py:242-249 | subscriptions that are active or not this payment's are unchanged, the others wait for provisioning, and no invoice goes away |
| CapturedPayment.EachMatchedHasInvoice | scripts/reconcile_captured_technology_payment.py:250-268 | every matched subscription ends with max(1, previous count) invoices |
| CapturedPayment.MissingCount | scripts/reconcile_captured_technology_payment.py:250-268 | exactly the matched subscriptions without an invoice gain one |
| CapturedPayment.RunningTwiceIsOnce | scripts/reconcile_captured_technology_payment.py:193-291 | a second apply with the same ids, at any later time, over tracks read in the same order, succeeds and leaves subscriptions and invoices unchanged, and the track record too unless its confirmed success is contested by a refund id or a failed fulfillment text |
| CapturedPayment.SecondRunWhateverTrack | scripts/reconcile_captured_technology_payment.py:57-63 | whatever tracks, in whatever order, the second apply reads: it changes no subscription and no invoice |
| CapturedPayment.TrackSettles | app/service/platform/track_record_service.py:352-435 | a second track update changes nothing if and only if the record is not contested in that way |
| CapturedPayment.ContestedExample | app/service/platform/track_record_service.py:352-435 | a provisioned purchase with a refund id, which a second update changes again |
| DealValueRepair.CommissionIsExact | alembic/versions/2026_06_15_1400-a2b3c4d5e6f7_repair_truncated_venture_deal_values.py:19-65 | on every selected row the new price is 10000 k, the percentage h hundredths between 0 and 10000, the commission exactly k h, and the payout within 0 and the price |
| DealValueRepair.CommissionMovesLittle | alembic/versions/2026_06_15_1400-a2b3c4d5e6f7_repair_truncated_venture_deal_values.py:19-65 | for an old payout between 0 and the price the commission moves by at least -k/2 and at most 1 + k/2 |
| DealValueRepair.SelectedExactly | alembic/versions/2026_06_15_1400-a2b3c4d5e6f7_repair_truncated_venture_deal_values.py:41-51 | the brands repaired are those one short of a positive multiple of 10000 |
| DealValueRepair.PayoutAtTheEdges | alembic/versions/2026_06_15_1400-a2b3c4d5e6f7_repair_truncated_venture_deal_values.py:15-65 | without an old payout the repaired one is 95 percent; an old payout of nothing or less leaves nothing, one of the old price or more the whole price |
| DealValueRepair.RepairSettles | alembic/versions/2026_06_15_1400-a2b3c4d5e6f7_repair_truncated_venture_deal_values.py:48-65 | both listing modes repair alike and a repaired row is not selected again |
| DealValueRepair.Database.Upgrade | alembic/versions/2026_06_15_1400-a2b3c4d5e6f7_repair_truncated_venture_deal_values.py:36-81 | every selected brand some venture refers to is repaired once however many ventures share it, everything else is unchanged, and no such brand is left to select |
| DealValueRepair.RerunSelectsNothing | alembic/versions/2026_06_15_1400-a2b3c4d5e6f7_repair_truncated_venture_deal_values.py:41-51 | the query of a second run is then empty |
| Rounding.HalfEvenIsNearest | alembic/versions/2026_06_15_1400-a2b3c4d5e6f7_repair_truncated_venture_deal_values.py:22-28 | Python's `round` is within one half |
| Rounding.HalfEvenTies | alembic/versions/2026_06_15_1400-a2b3c4d5e6f7_repair_truncated_venture_deal_values.py:22-28 | and gives an even number on ties |
| CommissionSplit.SplitAddsUp | alembic/versions/2026_06_11_1900-r7s8t9u0v1w2_listing_commission_refactor.py:44-49 | for every price and every percentage between 0 and 100 the two rounded parts add up to the price, or to one paisa more exactly when the commission ends in half a paisa |
| CommissionSplit.FifteenPercentSplit | alembic/versions/2026_06_11_1900-r7s8t9u0v1w2_listing_commission_refactor.py:34-49 | at 15 percent the extra paisa appears exactly for prices that are 10 modulo 20 paise, hence for no whole-rupee price |
| CommissionSplit.EachPartIsItsShare | alembic/versions/2026_06_11_1900-r7s8t9u0v1w2_listing_commission_refactor.py:44-49 | at 15 percent the commission is within half a paisa of 15 hundredths of the price and the payout of 85 hundredths, ties going away from zero |
| CommissionSplit.MigratedExactly | alembic/versions/2026_06_11_1900-r7s8t9u0v1w2_listing_commission_refactor.py:25-64 | a migrated row has 15 percent exactly when it is one-time with a positive stated price, with commission and payout its 15 and 85 hundredths; every other row has none of the three |
| CommissionSplit.HundredRupees | alembic/versions/2026_06_11_1900-r7s8t9u0v1w2_listing_commission_refactor.py:44-62 | of 100 rupees, 15 are commission and 85 the payout and published seller price |
| CommissionSplit.MigratedRowAddsUp | alembic/versions/2026_06_11_1900-r7s8t9u0v1w2_listing_commission_refactor.py:25-64 | after the three updates every row with a percentage has a positive price its parts add up to, and an unpaid one asks that price and pays that payout |
| CommissionSplit.Listings.Upgrade | alembic/versions/2026_06_11_1900-r7s8t9u0v1w2_listing_commission_refactor.py:25-64 | three table-wide updates in sequence, each reading what the one before wrote, make every row the one characterised above |
| CommissionSplit.NoMarkup | alembic/versions/2026_06_11_1900-r7s8t9u0v1w2_listing_commission_refactor.py:30-62 | an unpaid listing with a percentage ends up asking what its seller had set |
| CommissionSplit.PricesOverwrittenExactly | alembic/versions/2026_06_11_1900-r7s8t9u0v1w2_listing_commission_refactor.py:29-62 | exactly which rows have their seller price set to NULL and which their asking price replaced: unpaid one-time rows whose seller price was zero or negative lose theirs |
| CommissionSplit.ZeroErasesAskingPrice | alembic/versions/2026_06_11_1900-r7s8t9u0v1w2_listing_commission_refactor.py:29-62 | a listing asking 500 rupees with its seller price left at 0 asks nothing afterwards |
| TaxInvoiceNumbers.RanksAreOneToN | alembic/versions/2026_08_06_1615-taxinv001_domain_tax_invoice_numbers.py:67-72 | the sequence numbers of a year cover 1..n |
| TaxInvoiceNumbers.RanksIncrease | alembic/versions/2026_08_06_1615-taxinv001_domain_tax_invoice_numbers.py:62-72 | and grow strictly in stamp order, staying at most n |
| TaxInvoiceNumbers.NumbersCoincide | alembic/versions/2026_08_06_1615-taxinv001_domain_tax_invoice_numbers.py:73-74 | two printed numbers are equal if and only if the sequence numbers are and the years agree in their last two digits, past five digits too |
| TaxInvoiceNumbers.FirstNumberOf2026 | alembic/versions/2026_08_06_1615-taxinv001_domain_tax_invoice_numbers.py:73-74 | the first number of 2026 is AI2600001 |
| TaxInvoiceNumbers.DistinctExactly | alembic/versions/2026_08_06_1615-taxinv001_domain_tax_invoice_numbers.py:67-84 | the numbers of a run are pairwise distinct if and only if the two printed year digits tell its years apart |
| TaxInvoiceNumbers.CenturyApartCollides | alembic/versions/2026_08_06_1615-taxinv001_domain_tax_invoice_numbers.py:73-74 | an order of 1926 and one of 2026 get the same number |
| TaxInvoiceNumbers.Orders.Upgrade | alembic/versions/2026_08_06_1615-taxinv001_domain_tax_invoice_numbers.py:53-97 | the migration commits exactly when no number is given twice or taken already, and then every selected order carries its number and each counter is the greater of its old value and the count; otherwise nothing changes |
| TaxInvoiceNumbers.Orders.RaiseCounters | alembic/versions/2026_08_06_1615-taxinv001_domain_tax_invoice_numbers.py:86-97 | the upsert loop raises each counter to at least the numbers issued and lowers none |
| TaxInvoiceNumbers.FirstRunCommitsExactly | alembic/versions/2026_08_06_1615-taxinv001_domain_tax_invoice_numbers.py:45-84 | on a table without numbers it commits if and only if the year digits tell the years apart |
| TaxInvoiceNumbers.RerunAborts | alembic/versions/2026_08_06_1615-taxinv001_domain_tax_invoice_numbers.py:67-84 | a later run that selects an order of a year already numbered starts at 1 again and aborts on the unique index |
| TaxInvoiceNumbers.NoneTakenExactly | alembic/versions/2026_08_06_1615-taxinv001_domain_tax_invoice_numbers.py:45-84 | on a table that earlier runs left, no number of a run is taken if and only if no stored number is printed for the year of a selected order |
| TaxInvoiceNumbers.LaterRunCommitsExactly | alembic/versions/2026_08_06_1615-taxinv001_domain_tax_invoice_numbers.py:53-97 | so a later run commits if and only if its years are new to the table and told apart by their digits |
| TaxInvoiceNumbers.CommitKeepsNumberedFromOne | alembic/versions/2026_08_06_1615-taxinv001_domain_tax_invoice_numbers.py:67-84 | a committed run leaves such a table again, so this covers every later run |
| Decimal.ValueOfPadded | alembic/versions/2026_08_06_1615-taxinv001_domain_tax_invoice_numbers.py:74 | zero-padded decimal printing loses nothing, for numbers wider than the padding too |
| ApplicationNumbers.Applications.Upgrade | alembic/versions/2026_07_25_1500-l3m4n5o6p7q8_va_sequential_application_numbers.py:37-73 | the migration goes through exactly when no application holds the reference an earlier place is given, because references are unique already; otherwise nothing changes. Then the applications are numbered 1..n in order with matching references, all distinct, and the sequence continues at n + 1 |
| ApplicationNumbers.SecondRunCommitsExactly | alembic/versions/2026_07_25_1500-l3m4n5o6p7q8_va_sequential_application_numbers.py:76-90 | after undoing it, which keeps the references, it goes through again if and only if the numbers were drawn in the order of the rows |
| ApplicationNumbers.SwappedNumbersAbort | alembic/versions/2026_07_25_1500-l3m4n5o6p7q8_va_sequential_application_numbers.py:47-62 | two applications whose numbers were drawn in the other order make it abort |
| ApplicationNumbers.ReferenceInjective | alembic/versions/2026_07_25_1500-l3m4n5o6p7q8_va_sequential_application_numbers.py:60 | a printed reference determines its number, past six digits too |
| ApplicationNumbers.FirstReference | alembic/versions/2026_07_25_1500-l3m4n5o6p7q8_va_sequential_application_numbers.py:60 | the first reference is CB-VA-000001 |
| ReferralDedupe.ItemKeyInjective | alembic/versions/2026_08_13_1100-share001_share_links_and_referral_dedupe.py:146 | the colon-joined key determines listing type and listing, whatever colons the type holds |
| ReferralDedupe.Tracks.Upgrade | alembic/versions/2026_08_13_1100-share001_share_links_and_referral_dedupe.py:118-165 | the keys are filled in and the indexes built exactly when no two keyed rows collide; otherwise the table is unchanged |
| ReferralDedupe.IndexesHoldExactly | alembic/versions/2026_08_13_1100-share001_share_links_and_referral_dedupe.py:156-165 | both partial unique indexes hold if and only if no referral was tracked twice |
| ReferralDedupe.DuplicateExactly | alembic/versions/2026_08_13_1100-share001_share_links_and_referral_dedupe.py:118-165 | written out: the migration goes through exactly when no two rows agree in referrer, listing, type and visitor, visitors unknown counting by address |
| ReferralDedupe.GroupsExactly | scripts/referral_duplicate_scan.py:72-88 | a duplicate group is reported exactly when more than one row has its referrer, listing and visitor, or, without visitor, address |
| ReferralDedupe.ScanCleanMeansNoPairs | scripts/referral_duplicate_scan.py:72-88 | both group counts are zero if and only if no two rows share a group |
| ReferralDedupe.CleanScanSuffices | scripts/referral_duplicate_scan.py:72-88 | for every table, a scan without duplicate groups licenses the migration |
| ReferralDedupe.ScanIsExact | scripts/referral_duplicate_scan.py:72-88 | where every listing has one type, the scan predicts the migration in both directions |
| Percentile.PercentileMonotone | scripts/loadtest_backend.py:98-108 | for every nonempty list and 0 <= p <= q <= 100 the percentile grows with p and stays between minimum and maximum |
| Percentile.PercentileHits | scripts/loadtest_backend.py:98-108 | at 100 k / (n - 1) percent it is exactly the k-th smallest of n values, so the minimum at 0 and the maximum at 100 |
| Percentile.PercentileIgnoresOrder | scripts/loadtest_backend.py:103 | it depends only on which values are in the list, for every percentage |
| Percentile.PercentileIsReading | scripts/loadtest_backend.py:104-108 | it is the piecewise-linear reading of the sorted list at the rank |
| Percentile.PercentileIsLinear | scripts/loadtest_backend.py:104-108 | at rank k + w it is the k-th value plus the fraction w of the step to the next |
| Percentile.OrderedUnique | scripts/loadtest_backend.py:103 | a sorted list is determined by its elements |
| Base64Url.DecodeEncodeWith | app/core/oauth_state.py:32-48 | regrouping eight-bit bytes into six-bit letters with padding loses nothing, over any alphabet of 64 letters |
| Base64Url.DecodeEncode | app/core/oauth_state.py:32-48 | decoding what url-safe base64 with padding (section 5 of RFC 4648) encoded gives back the bytes |
| Base64Url.GroupIsOneNumber | app/core/oauth_state.py:32-34 | three bytes and their four letters denote the same 24-bit number |
| Base64Url.AlphabetExactly | app/core/oauth_state.py:32-34 | the 64 letters in order: capitals, small letters, digits, minus, underscore |
| OAuthState.CreateOAuthState | app/core/oauth_state.py:23-35 | the loop lays the extras that are not None over the three base entries and renders body, dot and signature |
| OAuthState.PayloadEntries | app/core/oauth_state.py:29-31 | each entry of the payload is the extra of that name, or else the base entry |
| OAuthState.CreatedPayload | app/core/oauth_state.py:23-31 | the payload has nonce, provider and an expiry 600 seconds on, unless overridden, the extras that are not None, and nothing else |
| OAuthState.SplitsAtLastDot | app/core/oauth_state.py:42 | splitting at the last dot recovers body and signature |
| OAuthState.RoundTrip | app/core/oauth_state.py:23-55 | a created state parses to exactly its payload if and only if the provider is the same and at most 600 seconds passed, and otherwise to None; extras must not set `exp` |
| OAuthState.ExtraExpiryWins | app/core/oauth_state.py:29-53 | an extra named `exp` replaces the 600 seconds, whatever its value; one that is no number makes parsing raise |
| OAuthState.AcceptedExactly | app/core/oauth_state.py:38-55 | whatever is accepted is a text with its own signature, decoding to an unexpired payload for that provider, and nothing else is |
| OAuthState.RaisesExactly | app/core/oauth_state.py:38-55 | parsing raises if and only if the last part is not ASCII, or the text is a signed payload of this provider whose expiry is no number |
| OAuthState.AccentRaises | app/core/oauth_state.py:43-44 | a concrete state that makes it raise under every secret |
| ShowcaseLabels.GenerateRandomLabels | app/constants/showcase_labels.py:41-93 | for every limit and every outcome of the shuffles: exactly max(1, min(limit, 500)) labels, pairwise distinct, lower-case alphanumeric, at least four long, and never from the syllables or numbers |
| ShowcaseLabels.Collect | app/constants/showcase_labels.py:66-93 | the nested loops with their early returns collect the first distinct clean words of the candidates followed by the numbered words, which are made from a shuffle of all labels the candidates gave |
| ShowcaseLabels.Pool.Add | app/constants/showcase_labels.py:53-57 | a word is added cleaned, when long enough and new, to list and set alike |
| ShowcaseLabels.CleanExactly | app/constants/showcase_labels.py:53-57 | cleaning works letter by letter: small letters and digits stay, capitals become small, everything else goes |
| ShowcaseLabels.CandidatesExactly | app/constants/showcase_labels.py:66-88 | the candidates are the single words, each adjective with each noun and each syllable with each syllable |
| ShowcaseLabels.PushAllIsGood | app/constants/showcase_labels.py:53-57 | adding any words keeps the labels distinct, clean and long enough, and loses no admissible word |
| ShowcaseLabels.BlendsAreDifferent | app/constants/showcase_labels.py:72-76 | blends whose second parts have one length are all different |
| ShowcaseLabels.BlendsSuffice | app/constants/showcase_labels.py:59-76 | however the lists are shuffled, singles and blends already give 500 labels |
| Urls.ParseUnparse | app/core/database.py:56-65 | parsing a printed URL gives its parts back |
| Urls.ParsesWrittenUrl | app/core/database.py:49-65 | a URL written out, its scheme a driver name such as postgresql+asyncpg, parses to the parts it was written from, with or without query and fragment |
| Urls.PrintedUnchanged | app/core/database.py:56-65 | printing a parsed URL gives back the string if and only if it was canonical: lower-case scheme, nothing to strip or delete, no empty query, fragment or parameter mark |
| PoolerUrl.WithPortExactly | app/core/database.py:49-65 | in every case: it raises exactly for a malformed location or port, moves the port exactly for a lower-case host with an explicit, plainly written, nonzero port, and gives every other URL back unchanged |
| PoolerUrl.OnlyThePort | app/core/database.py:50-65 | moving changes the parsed URL in its port and nowhere else, userinfo included |
| PoolerUrl.HostAndPortExactly | app/core/database.py:50-65 | the host is what stands behind the last at-sign up to its first colon, the port what follows |
| PoolerUrl.LowerHostExactly | app/core/database.py:55-64 | the lower-cased host equals the host exactly when there is no upper-case letter before a percent sign |
| PoolerUrl.MovableExactly | app/core/database.py:55-65 | a location can be moved exactly when its host is not empty and has no such letter and its port is a plainly written number from 1 to 65535 |
| PoolerUrl.MovingBack | app/core/database.py:49-65 | moving to any port and back gives the original string byte for byte if and only if that string was canonical |
| PoolerUrl.MovedBackExample | app/core/database.py:49-65 | a URL with an empty query that does not come back |
| PoolerUrl.NormalizeExactly | app/core/database.py:68-91 | normalising never raises, and moves exactly the movable pooler URLs that name the other mode's port |
| PoolerUrl.NormalizedPort | app/core/database.py:84-91 | a movable pooler URL on port 5432 or 6543 afterwards names 5432 in session mode and 6543 otherwise, all else equal |
| PoolerUrl.NormalizeTwice | app/core/database.py:68-91 | normalising twice is normalising once, unless a URL was moved whose printed remainder ends in whitespace; exactly then it is not |
| PoolerUrl.UnsettledExample | app/core/database.py:68-87 | a URL on which the second call still changes something |

## Left out

- Services behind the scheduler: each call is an opaque step that returns, raises or hangs past the limit.
- Postgres, SQLAlchemy and pool internals: one backend connection per lock session, and a cancelled attempt has stopped before its lock is released; two sleeping replicas never hold one connection.
- Clocks, random numbers, fresh ids and environment settings: parameters.
- SchedulerProtocol.MutualExclusion: assumes that no replica loses its backend while inside the work, because exclusion fails without it (`LostBackendBreaksExclusion`).
- SchedulerTick.SchedulerIteration: covers services that return, raise or hang and a release that does not arrive; cancellation and failures while opening or closing sessions are events of the protocol only.
- PublicListCache.Cache.Get: payloads are trees of named lists whose objects may be shared but not cyclic; a stored None, which the source cannot tell from a miss, is not modelled.
- PublicListCache.Node.DeepCopy: sharing inside a payload is copied apart, where `copy.deepcopy` keeps it; values are the same.
- Exceptions.IsDbConnectionError: exception messages and class tests are data of the graph; a `__str__` or attribute access that itself raises is not modelled.
- ErrorMiddleware.Exchange.Call: the JSON response is one start and one body message; header contents are not modelled.
- AlembicScripts.CheckGraph: reading revision ids out of file text with a regular expression is replaced by a field of the file, and `alembic heads` by its meaning on the declared graph, ids without whitespace.
- AlembicScripts.Versions.MergeHeads: `alembic merge` is the creation of one fresh revision below all heads, or a nonzero return code and no file.
- TrackCorrection.Run: starts at the row lists, the session opening before them being outside the model; every row has an internal order id of its own, so creating records does not occur. Any record text the log line prints is taken to print.
- TrackRecords.TrackTable.RecordPaidAttempt: the branch that creates a record, the buyer and note columns neither script writes, and letter case beyond ASCII.
- CapturedPayment.Database.Run: table rows are values, the session's pending changes a second copy that is committed or dropped; report fields, the optional user lookup and the slug's regular expression are not modelled, the slug being a parameter.
- CapturedPayment.RunningTwiceIsOnce: the track part takes both runs to read the tracks in the same order, since the query has none; `SecondRunWhateverTrack` does without.
- CapturedPayment.EachMatchedHasInvoice: subscription ids are unique, and the id of a new row is not one that stray invoices already name.
- DealValueRepair.CommissionIsExact: exact integers and hundredths in place of floats; ties in `round` go to even.
- CommissionSplit.SplitAddsUp: exact integers in paise in place of double precision; `ROUND` on ties goes away from zero.
- TaxInvoiceNumbers.Orders.Upgrade: the rows arrive in the order the query gives them; years have four digits where distinctness is concerned.
- TaxInvoiceNumbers.NoneTakenExactly: numbers typed in by hand for a year that has no number 1 are outside its hypothesis.
- ApplicationNumbers.Applications.Upgrade: `rows` is every application, oldest first; the number column and its index are absent beforehand, as after the earlier migrations or an undo.
- ReferralDedupe.Tracks.Upgrade: column length limits (253 and 64 characters) and the share-link table are not modelled.
- Percentile.PercentileMonotone: over exact reals, not floats.
- OAuthState.RoundTrip: signing and JSON are uninterpreted functions, the digest ASCII without dots and JSON an exact inverse on flat objects; strength of the signature is not a claim.
- OAuthState.AcceptedExactly: decoding covers canonical base64; Python's skipping of stray characters only matters for texts somebody signed.
- ShowcaseLabels.GenerateRandomLabels: letters are ASCII, as all word lists are; determinism under `seed` is not modelled.
- Urls.ParseUnparse: ASCII strings; a network location with square brackets counts as malformed, so IP-literal hosts are outside the model.
- PoolerUrl.NormalizeExactly: the environment name is a boolean; the pool sizing and connect arguments chosen from the URL are single-branch facts.
- `RunStats.record`, routers, controllers, settings, mail, storage, health checks, schema-only migrations and seed data: plumbing, or facts with nothing to prove beyond reading them.
