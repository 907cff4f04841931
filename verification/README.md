# Verified model of a marketplace backend

The system lets sellers submit products, managers approve them, and workers list them on OTTO, Hood
and Kaufland for two accounts (JV and XL). This project models the parts of it that hold rows in
agreement over time, and proves what they promise.

- **EAN pool and publication life** (`Gtin`, `EanPool`, `Listings`, `Lifecycle`, `LifecycleSafety`,
  `LifecycleRuns`, `LifecycleHistory`, `LifecycleExamples`, `ListingState`, `Worker`, `JobVerdict`,
  `Reconciliation`, `Moderation`). `Lifecycle` is one state machine over the pool, product cards,
  listings, jobs and open attempts; every step is one database transaction, so an interleaving of
  workers is a sequence of steps. The classes are the services themselves; their contracts say which
  steps they take, and `LifecycleRuns` and `LifecycleHistory` prove what every sequence of steps
  keeps and what the rows tell about it.
- **Claims and leases** (`Idempotency`, `IdempotencyRuns`, `PushDelivery`, `PushRuns`): state machines
  over a clock, any number of requests or workers, and cleanup or recovery passes.
- **Seller changes and photos** (`SellerChanges`, `SellerEdits`, `Gallery`, `GalleryRuns`): the
  pending overlay with its revision guard, and the gallery under its two uniqueness constraints.
- **Translation batches** (`Chunking`, `Translation`, `TranslationBatch`, `TranslationCollect`,
  `TranslationOutput`): extraction, deduplication, chunking, partial answers, repair and assembly of
  the Turkish catalogue.
- **JSON snapshots** (`ExternalJson`, `JsonSnapshot`, `JsonOversize`, `JsonLossless`): bounded
  compaction, its size and its markers.
- **Arithmetic and mirroring** (`Pricing`, `Stock`, `Afterbuy`, `AfterbuyRows`, `AfterbuyRuns`).

A class method that changes rows is proved equal to a step function on values (`ensures depot ==
DoApprove(old(depot), ...)`); the lemmas are about those functions and about runs of them. What
a function gives is also said without it, in terms of its inputs alone (the lemmas named `...Says`).
Run `dafny verify dfyconfig.toml` to check everything.

## Conventions

- Each service call is one atomic transaction; a raised error rolls it back. External calls (HTTP,
  Firebase, the translation model) are parameters: any answer, an error or a crash.
- Time is an integer, `updated_at` is a counter of saves, a request hash is its text (so injective),
  a decimal is an exact real, and JSON numbers are their text.
- Text functions work on ASCII digits, blanks and letters.
- Rows are sequences in primary-key order or maps by key. Where the source iterates over a set, any
  order is allowed.

## Where the code does not do what it says

Each of these is proved: the code is modelled as it is, an exact condition says when it keeps the
promise, and a concrete run or input shows that it can fail.

- A withdrawal frees the EAN row but leaves the code on the product card, so the code can be handed
  out twice (`LifecycleRuns.WithdrawExact`, `LifecycleExamples.WithdrawnCodeIsHandedOutAgain`).
- `activate` may start on a listing another job is publishing and make it active without a consumed
  EAN (`LifecycleRuns.RunExact`, `LifecycleExamples.ForeignActivationLeavesCodeReserved`).
- A publish that starts over a removal saves an in-progress status (`LifecycleRuns.SavedSettledExact`,
  `LifecycleExamples.PublishSavesRemoval`).
- A job whose targets all succeeded can end FAILED or PARTIAL, when the entry of a target exceeds the
  snapshot limit and loses its `ok` flag (`JobVerdict.JobStatusExact`,
  `JobVerdict.LongAnswerFailsTheJob`, `JobVerdict.DefaultLimitsAllowIt`).
- A handler whose idempotency record has been taken over still completes or abandons it: its answer
  is replayed to another request, or the key is claimed twice (`IdempotencyRuns.AnswerIsHonestExactly`,
  `IdempotencyRuns.NextClaimIsSeparatedExactly`, `IdempotencyRuns.LateAnswerIsReplayed`,
  `IdempotencyRuns.LateAbandonOpensTwice`).
- A push can be sent twice when a worker outlives its lease: its delivery is claimed before the
  outcome is recorded, it sends after another worker has claimed, or its late error gives a held row
  away (`PushRuns.StepExact`, `PushRuns.SecondSendHasCause`, `PushRuns.LateClaimSendsTwice`,
  `PushRuns.LateSendSendsTwice`, `PushRuns.LateRecordSendsTwice`).
- Editing a field back to its live value does not undo the pending change
  (`SellerChanges.EditingBackExact`, `SellerChanges.EditingBackIsIgnored`).
- Long keys are cut without a marker, and an own `_truncated` key hides a truncation
  (`ExternalJson.UnflaggedIdentityExact`, `JsonLossless.SnapshotIsMarkedExactly`,
  `JsonLossless.LongKeyIsCutSilently`, `JsonLossless.DefaultLimitsHideACut`).
- A stock figure over empty variants is given out twice (`Stock.EmptyStockIsDoubled`).

And four remarks. `reorder_product_images` says that the list must contain every image exactly once
but compares sets; repeats can reach it only past `ProductImageReorderSerializer`, which rejects them
(`GalleryRuns.ReorderExact`, `GalleryRuns.RepeatsCanCollide`). A lira price needs the dollar rate
(`Pricing.LiraPriceNeedsBothRates`). A rejection of seller changes keeps the
revision, so only the empty pending changes stop a later approval (`SellerChanges.DiscardKeepsRevision`).
The count check after a successful translation repair can never fail (`TranslationCollect.CollectTexts`).

## Model

| member | source | states |
|---|---|---|
| Gtin.IsValidGtin | apps/ean/serializers.py:7-15 | the validator accepts exactly the digit strings of length 8, 12, 13 or 14 whose weighted sum (3, 1, 3, ... leftwards from the digit before the check digit) is a multiple of ten |
| Gtin.WeightedBody | apps/ean/serializers.py:7-15 | the loop over the reversed body computes the weighted sum of the standard |
| Gtin.UniqueCheckDigit | apps/ean/serializers.py:7-15 | every body of any length has exactly one check digit |
| Gtin.SingleErrorDetected | apps/ean/serializers.py:7-15 | changing any one digit of an accepted code makes it unacceptable |
| Gtin.AdjacentSwapDetected | apps/ean/serializers.py:7-15 | swapping two neighbours goes unnoticed if and only if they differ by 0 or 5 |
| Gtin.ZeroPadding | apps/ean/serializers.py:7-15 | left zero-padding neither creates nor destroys validity |
| EanPool.Pool.ImportEanCodes | apps/ean/services.py:10-60 | the batch import leaves the pool that importing line by line would leave, counts created rows exactly, and classifies every non-blank line once as created, existing, duplicate or invalid |
| EanPool.BatchIsLineByLine | apps/ean/services.py:19-47 | deduplicating the batch and creating what the pool lacks equals importing the lines one after the other |
| EanPool.RepeatedImportCreatesNothing | apps/ean/services.py:41-47 | importing the same lines again, for either account, changes nothing |
| EanPool.GroupsAreJoined | apps/ean/services.py:17 | a code written in groups is read as one code: blanks around it and between its groups go, everything else stays in its order |
| EanPool.Pool.AssignEanCodes | apps/ean/services.py:63-106 | a product without codes reserves the first free unlocked row of each account or nothing at all; a product with both codes is left alone |
| EanPool.AssignSays | apps/ean/services.py:63-106 | an assignment takes the first free unlocked row of each account, writes their codes on the card in their places, and fails exactly when an account has none |
| EanPool.AssignKeepsPool | apps/ean/services.py:63-106 | assignment reserves only available rows: every other row is untouched, so none is taken from another product |
| EanPool.Pool.ConsumeEanCode | apps/ean/services.py:109-139 | only a row reserved by the product with the code on its card is consumed; a consumed row is left alone; anything else is refused |
| EanPool.Pool.DetachEans | apps/accounts/purge.py:76-83 | detaching frees reserved rows of the products and takes the owner off consumed ones, which stay consumed |
| LifecycleRuns.PoolStep | apps/ean/services.py:63-139 | every step of the system keeps all rows with their codes and accounts, available rows without and reserved rows with a product carrying that code, and consumed rows consumed and never given to another product |
| LifecycleRuns.PoolRun | apps/ean/services.py:63-139 | the same over every run, without any assumption on the steps |
| LifecycleSafety.OneRowPerAccount | apps/ean/services.py:63-106 | a product owns at most one row per account |
| LifecycleRuns.WithdrawExact | apps/products/services.py:1005-1032 | withdrawing keeps "a code on the card means an owned row" if and only if the product owns no reserved row |
| LifecycleRuns.BackedStep | apps/ean/services.py:63-106 | every other step keeps the card codes backed by owned rows |
| LifecycleRuns.BackedRun | apps/products/services.py:1022-1029 | card codes stay backed over every run in which no product with reserved codes is withdrawn |
| LifecycleExamples.WithdrawnCodeIsHandedOutAgain | apps/products/services.py:1022-1029 | a run from the empty depot after which two approved products carry one code and the first no longer owns its row |
| LifecycleRuns.CardIsFixed | apps/ean/services.py:63-106 | once assigned, the codes on a card never change over any run, so a worker may go on with the card it loaded |
| Listings.Publication.StartAttempt | apps/orchestrator/publication_services.py:119-178 | on an existing row an attempt starts exactly for an allowed status and a matching EAN; it saves the status it leaves, unless already in progress, and counts the attempt |
| Listings.StartPublicationAttempt | apps/orchestrator/publication_services.py:75-180 | with get_or_create: only a publish creates the row, pending, and starts on it at once; every refusal leaves no trace |
| Listings.Publication.MarkAwaitingConfirmation | apps/orchestrator/publication_services.py:184-230 | a wait puts the listing in progress and does not touch the saved status |
| Listings.Publication.MarkSucceeded | apps/orchestrator/publication_services.py:234-302 | success sets the goal status, clears the saved one and sets each timestamp once; the first publication is reported |
| Listings.SuccessSays | apps/orchestrator/publication_services.py:36-53 | written out: a delete success leaves DELETED and sets the deletion time alone, a deactivate success DEACTIVATED and its time alone, any other ACTIVE and the publication time; each time is set once |
| Listings.DeactivatedComesBack | apps/orchestrator/publication_services.py:36-53 | a deactivation and a later activation lead back to ACTIVE under the first publication time |
| Listings.DeletedOnlyPublishes | apps/orchestrator/publication_services.py:119-147 | after a deletion only a publish may start |
| Listings.Publication.MarkFailed | apps/orchestrator/publication_services.py:306-351 | failure sets FAILED for a publish and otherwise the saved status, which is cleared |
| Listings.InProgressKeepsSaved | apps/orchestrator/publication_services.py:152-155 | further steps of the operation under way never overwrite the saved status |
| Listings.FailureRestores | apps/orchestrator/publication_services.py:323-338 | from a settled status any pre-marks, restarts and waits of one non-publish operation followed by a failure restore it, if and only if no wait came before the first accepted step |
| LifecycleHistory.StartSays | apps/orchestrator/publication_services.py:75-180 | an attempt starts exactly for a claimed job of the product, a code on the card and a listing with that code in a status its operation may start from, and then only this listing is written |
| LifecycleHistory.ReportSays | apps/orchestrator/publication_services.py:184-351 | what waiting and failing make of the listing under way, and that nothing else changes |
| LifecycleHistory.WinSays | apps/orchestrator/tasks.py:893-915 | a success ends the listing in the goal of its operation; a first publication uses up its EAN row, or writes nothing at all when there is none |
| LifecycleHistory.DeletedStaysOff | apps/orchestrator/publication_services.py:119-147 | over every run from a deletion with no attempt open: until a publish starts or a reconciliation decides about the listing it is deleted or gone, and no update, activation, deactivation or deletion starts on it |
| LifecycleHistory.DeleteShuts | apps/orchestrator/publication_services.py:234-302 | the success of the only open attempt, a deletion, begins such a run |
| LifecycleHistory.VersionTells | apps/orchestrator/publication_reconciliation.py:96-99 | over every run a listing with the version it had is the listing it was |
| LifecycleRuns.SavedSettledExact | apps/orchestrator/publication_services.py:152-155 | a step keeps every saved status a settled one if and only if it is not a publish starting on a listing being deactivated or deleted |
| LifecycleRuns.SavedSettledRun | apps/orchestrator/publication_services.py:323-338 | so over runs without such a publish a failure only ever restores settled statuses |
| LifecycleExamples.PublishSavesRemoval | apps/orchestrator/publication_services.py:152-155 | a reachable depot in which such a publish starts, saves an in-progress status and has it restored by a failure |
| LifecycleSafety.SuccessExact | apps/orchestrator/publication_services.py:228-262 | a success leaves every listing accounted for (what was ever published, deactivated or deleted has its EAN row consumed, what is active or falls back to active was published) if and only if it is not that of an activation on a code that is not consumed |
| LifecycleRuns.StepExact | apps/orchestrator/publication_services.py:126-178 | of all steps (import, approval, withdrawal, archiving, jobs, pre-marks, attempts, outcomes, reconciliation, purge) only such a success breaks the account; every other one also keeps the invariant that ties listings, jobs, attempts and EAN rows together |
| LifecycleRuns.RunExact | apps/orchestrator/tasks.py:829-946 | all listings are accounted for in every state of a run if and only if no activation succeeds on an unconsumed code |
| LifecycleRuns.StartsOnSpentIsDisciplined | apps/orchestrator/listing_state_services.py:105-127 | that is so when every activation starts on a consumed code, whatever happens between its start and its success |
| LifecycleRuns.StepKeepsConsumed | apps/ean/services.py:63-139 | no step frees or changes a consumed row of a product that stays |
| LifecycleRuns.ActivatesOwnIsDisciplined | apps/orchestrator/listing_state_services.py:105-127 | and so when activations start on deactivated listings or on ones their own job pre-marked |
| LifecycleRuns.LiveListingsHaveSpentCodes | apps/orchestrator/tasks.py:894-915 | over all runs from the empty depot without such a success a listing that is active, or falls back to active, has a publication time, and one ever published, deactivated or deleted has its EAN row consumed |
| LifecycleRuns.ActivationExactGuard | apps/orchestrator/publication_services.py:134-137 | an activation that starts and succeeds at once leaves every listing accounted for if and only if its code was consumed when it started |
| LifecycleExamples.ForeignActivationLeavesCodeReserved | apps/orchestrator/publication_services.py:134-137 | a run from the empty depot in which an activation overtakes a first publish and the listing ends active with an EAN that is only reserved |
| LifecycleSafety.SucceedKeeps | apps/orchestrator/tasks.py:894-915 | any other success and first-publication consumption in one transaction keep the invariant, also when the consumption is refused |
| LifecycleSafety.ListingStateKeeps | apps/orchestrator/listing_state_services.py:67-133 | pre-marking several listings with their new jobs keeps the invariant |
| LifecycleSafety.PurgeKeeps | apps/accounts/purge.py:86-118 | deleting a seller with all rows keeps the invariant for everyone else |
| LifecycleRuns.ClaimedAtMostOnce | apps/orchestrator/tasks.py:732-762 | however often a job is delivered, at most one delivery starts work |
| LifecycleHistory.JobMoves | apps/orchestrator/tasks.py:732-762 | which step takes a job from which status to which, exactly |
| LifecycleRuns.OnlyPurgeRemoves | apps/accounts/purge.py:86-103 | listings are removed by a purge only |
| LifecycleRuns.RemovalSparesLiveListings | apps/accounts/purge.py:118-206 | a purge removes only listings of that seller that are neither active nor in progress |
| ListingState.Database.CreateListingStateJobs | apps/orchestrator/listing_state_services.py:29-133 | one job per operation with each selected listing that it handles listed once and pre-marked for it; the reported unavailable targets are exactly the requested ones in another status and those without an operation; a deactivation that creates jobs settles the request for it |
| LifecycleHistory.ListingStateOrders | apps/orchestrator/listing_state_services.py:13-133 | a request to switch listings off orders a deactivation on OTTO and a deletion elsewhere, one to switch on an activation on OTTO alone; each chosen listing waits for its own queued job, whose success ends it so, and the others stay |
| ListingState.GroupByOperation | apps/orchestrator/listing_state_services.py:73-88 | the target lists partition the selected listings by operation, without repeats or empty lists |
| ListingState.Database.DeactivateAll | apps/accounts/purge.py:139-146 | the loop over the products pre-marks every active listing and creates jobs exactly when there is one |
| ListingState.Database.PurgeSeller | apps/accounts/purge.py:118-176 | a purge is refused while work is under way, deletes at once exactly when the seller has no active listing, and otherwise only pre-marks the active ones for queued jobs, blocks the seller and leaves the purge busy |
| ListingState.Database.TryFinalizeSellerPurge | apps/accounts/purge.py:179-200 | the final step waits, changing nothing, while a listing is active or work is under way, and otherwise erases the seller |
| LifecycleHistory.PurgeExact | apps/accounts/purge.py:28-75 | a seller is erased exactly when no listing of his is active or in progress and no job of his is queued, running or waiting |
| ListingState.Database.HardDeleteSellerRows | apps/accounts/purge.py:86-107 | listings, jobs, EAN owners and products go in this order, row by row for the EANs |
| ListingState.PurgeErases | apps/accounts/purge.py:76-107 | a deletion leaves no product, listing, job, attempt, mark or EAN owner of the seller, frees his reserved codes, keeps consumed ones consumed, and changes nothing of anybody else |
| ListingState.ErasedIsPurged | apps/accounts/purge.py:86-107 | the purge step is the only state change of which that holds |
| Moderation.Database.ApproveProduct | apps/moderation/services.py:174-226 | approval succeeds exactly for a submitted product at the expected revision with a free code for both accounts; it assigns both codes and sets the status in one transaction, or changes nothing; at another revision the refusal tells a withdrawn product from a changed one |
| Moderation.Database.ChangeApprovedProductStatus | apps/moderation/services.py:285-361 | an approved product moves exactly when the revision matches if one is given, the goal is submitted or rejected, no listing blocks it and a rejection has a reason |
| Moderation.Database.WithdrawSubmission | apps/products/services.py:1005-1032 | a withdrawal frees the reserved rows of the product and leaves the code fields of its card |
| Moderation.Database.ArchiveProduct | apps/products/views.py:412-450 | deletion only sets the status, exactly when no listing is left but deactivated, deleted or failed ones and a seller's product is not in review or approved |
| LifecycleHistory.StatusMoves | apps/moderation/services.py:128-361 | which step takes a product from which status to which, exactly, with the free EAN rows and the listings that decide it |
| LifecycleHistory.ArchivedStays | apps/products/views.py:396-410 | over every run an archived product stays archived |
| LifecycleHistory.ApprovedHaveCodesRun | apps/ean/services.py:63-106 | over every run an approved product has a code for both accounts |
| Worker.Database.Record | apps/orchestrator/tasks.py:885-926 | a recorded outcome closes the attempt, clears the saved status and sets the goal status on success; a first publication has its EAN row consumed in the same transaction or nothing is written |
| Worker.Database.ExecuteTarget | apps/orchestrator/tasks.py:832-926 | one target commits exactly the machine steps start, outcome around whatever else commits meanwhile, going by the card loaded at the claim; a refused start writes nothing |
| Worker.TargetStepsSay | apps/orchestrator/tasks.py:829-926 | a target comes to a start exactly where an attempt may begin, what others do during the call, and its own success or failure, or none after a crash; a search to the call alone, and anything else to nothing |
| Worker.Executor.ExecuteTargets | apps/orchestrator/tasks.py:829-946 | the target loop is that run target by target, with one true entry per target |
| Worker.EntrySays | apps/orchestrator/tasks.py:930-946 | the entry of a target names its marketplace and account, the publication and EAN exactly when it was sent, and the answer of the call |
| Worker.Executor.ExecuteMarketplaceJob | apps/orchestrator/tasks.py:732-946 | the whole worker is a run of the state machine: nothing without a claim, no attempt when the bodies carry truncation markers, then all targets and the verdict, or a stop at the first exception |
| JobVerdict.JobStatusExact | apps/orchestrator/tasks.py:458-472 | a finished job is SUCCEEDED if and only if it has targets, each succeeded and each entry fits the snapshot limit, and FAILED if and only if no target did so |
| JobVerdict.LongAnswerFailsTheJob | apps/orchestrator/tasks.py:944-946 | under any limits that let a list of texts outgrow the byte limit, as the default ones do, a job whose only target was published is judged FAILED when the answer is long |
| JobVerdict.SavedEntrySays | apps/orchestrator/tasks.py:944-946 | the compacted entry of a target keeps its ok flag exactly when it fits the byte limit |
| Worker.SetJobTargetResult | apps/orchestrator/tasks.py:438-455 | the first entry about the target is replaced in place or one is appended, then all are compacted |
| Worker.OnlyTheTargetIsReplaced | apps/orchestrator/tasks.py:445-454 | with one entry per target the new result is the only one about its target and all others stay in place |
| Reconciliation.Database.FinishReconciliation | apps/orchestrator/publication_reconciliation.py:90-200 | a check is confirmed only if the listing and its EAN are as when it was created and no other job is busy; then the EAN is consumed and the listing set, or nothing is written |
| Reconciliation.Database.ReconcileManually | apps/orchestrator/publication_reconciliation.py:24-87 | a manual decision sets the listing as its machine step says: only settled listings with the EAN of the card and no busy job, and confirmation only of failed ones |
| Reconciliation.Database.CreateCheck | apps/orchestrator/publication_reconciliation.py:40-80 | a check job remembers the version of the listing it was created for |
| LifecycleHistory.CheckedIsUnchanged | apps/orchestrator/publication_reconciliation.py:90-150 | a check that is confirmed, after whatever other steps, sets the very listing it was created for, unchanged since |
| LifecycleHistory.FinishSays | apps/orchestrator/publication_reconciliation.py:90-150 | a check makes its listing live exactly when it is confirmed, the listing is as it was, no other job of the product is queued, running or waiting and its EAN row is there; otherwise it only fails its job |
| LifecycleHistory.DecisionWrites | apps/orchestrator/publication_reconciliation.py:24-150 | a manual decision writes the status asked for (DELETED for DEACTIVATED outside OTTO, ACTIVE to confirm a failed listing) with its timestamp on this listing alone |
| LifecycleHistory.DecisionTakesEffect | apps/orchestrator/publication_reconciliation.py:24-150 | it takes effect exactly for a settled listing with the code of its card and no busy job, and, unless the goal is FAILED, with an EAN row |
| Reconciliation.Database.RecoverStaleJobs | apps/orchestrator/tasks.py:1729-1739 | exactly the jobs running since before the cutoff fail, and nothing else changes |
| Idempotency.Store.Claim | apps/idempotency/services.py:68-142 | a claim in two attempts comes to what the stored record decides, else to what a rival record that stays decides, else to a fresh record, or to in-progress after two rivals that left |
| Idempotency.VerdictSays | apps/idempotency/services.py:109-134 | a live record refuses another request as reused, replays a completed answer to the same one and refuses it as in progress otherwise; an expired one is taken over with nothing of the old answer |
| Idempotency.Store.Complete | apps/idempotency/services.py:145-162 | completing stores the response exactly when the slot still holds the claimed, unfinished row |
| Idempotency.Store.Abandon | apps/idempotency/services.py:165-177 | abandoning deletes exactly the claimed, unfinished row |
| Idempotency.Store.PurgeExpired | apps/idempotency/tasks.py:11-33 | the cleanup deletes only expired records of its batch |
| IdempotencyRuns.ProtocolHolds | apps/idempotency/services.py:85-177 | over every run in which no overtaken handler writes: no two live claims of a key, two fresh claims separated by an abandon or an expiry, and each replay is the response the last claimant stored for the same request hash |
| IdempotencyRuns.PunctualRunsKeepPromises | apps/idempotency/services.py:85-177 | the same over every run in which handlers finish before their record expires |
| IdempotencyRuns.TriesRun | apps/idempotency/services.py:68-107 | over every run no request reads its key more than twice |
| IdempotencyRuns.StepExact | apps/idempotency/services.py:85-177 | a transaction, clock tick or cleanup pass keeps the invariant behind it if and only if it is not an overtaken handler writing its outcome |
| IdempotencyRuns.LateAnswerIsReplayed | apps/idempotency/services.py:145-162 | a run from the start: an answer given after its record was taken over is replayed to another request |
| IdempotencyRuns.LateAbandonOpensTwice | apps/idempotency/services.py:165-177 | a run from the start: an abandon after the record was taken over lets a third request claim a key that is live |
| IdempotencyRuns.CompletionExact | apps/idempotency/services.py:145-162 | a completion keeps the protocol intact if and only if it writes nothing or nobody holds an unexpired later claim of the key |
| IdempotencyRuns.AbandonExact | apps/idempotency/services.py:165-177 | the same for abandoning, as far as the invariant is concerned |
| IdempotencyRuns.AnswerIsHonestExactly | apps/idempotency/services.py:145-162 | an answer that is completed and then served to the next request with its hash comes from the last claimant if and only if the handler was not overtaken |
| IdempotencyRuns.NextClaimIsSeparatedExactly | apps/idempotency/services.py:165-177 | abandoning an open record and letting the next request claim the key keeps fresh claims separated by an abandon or an expiry if and only if the handler was not overtaken |
| PushDelivery.Delivery.Claim | apps/notifications/tasks.py:17-65 | a delivery is claimed when pending, or when processing with an expired lease, and every claim is a new attempt |
| PushDelivery.Delivery.Record | apps/notifications/tasks.py:123-201 | an outcome sets SENT, INVALID or back to PENDING, whatever the row says by then |
| PushDelivery.Delivery.Recover | apps/notifications/tasks.py:216-283 | recovery returns exactly the expired processing rows to the queue |
| PushDelivery.RecoveredIsClaimable | apps/notifications/tasks.py:243-262 | a recovered row is PENDING and any worker may claim it at any time; no other row changes |
| PushDelivery.SendNotificationPush | apps/notifications/tasks.py:72-213 | the loop over the devices claims and records each row once, at its own clock reading, counts accepted, invalid and retryable ones exactly, and after the last retry fails those still pending |
| PushDelivery.DeliveredSays | apps/notifications/tasks.py:72-213 | what one pass makes of a row, by its status, lease, result and whether it is the last retry |
| PushRuns.AtMostOneAcceptedSend | apps/notifications/tasks.py:123-201 | over every run without a late step, of any number of workers and recovery passes, at most one send is accepted per delivery and there is at most one live holder |
| PushRuns.StepExact | apps/notifications/tasks.py:33-65 | a step keeps the promise (one accepted send at most, also if a worker within its lease sends next, and whoever is within a lease owns the row) and leaves a final row alone if and only if it is not late: not a claim while an accepted send is unrecorded, not an accepted send of an overtaken worker, not an outcome over a held or final row |
| PushRuns.RunExact | apps/notifications/tasks.py:33-65 | so a run keeps the promise and final rows at every step if and only if no step of it is late |
| PushRuns.SecondSendHasCause | apps/notifications/tasks.py:123-201 | over all runs: if two sends are accepted there was a first late step, taken while everything was in order, and it is one of these three kinds |
| PushRuns.LeaseKeptIsDisciplined | apps/notifications/tasks.py:33-65 | when workers send and record within their lease no step is late |
| PushRuns.ClaimExact | apps/notifications/tasks.py:33-65 | while a worker owns the row another one claims it if and only if the lease is over by the clock it read |
| PushRuns.SecondSendExact | apps/notifications/tasks.py:123-201 | after an accepted send that is not recorded a second one is accepted if and only if the other worker read the clock after the lease |
| PushRuns.FinalStays | apps/notifications/tasks.py:228-268 | no run without a late step leaves SENT, INVALID or FAILED |
| PushRuns.FinalHasCause | apps/notifications/tasks.py:123-213 | over every run, late steps or not, a row is FAILED only after a give-up on a pending row, INVALID only after a refused token and SENT only after an accepted send |
| PushRuns.WaitingHasFailed | apps/notifications/tasks.py:160-213 | only a worker whose own send failed gives up |
| PushRuns.CanStillBeSent | apps/notifications/tasks.py:33-65 | after any run a row that is not final can still be sent: once the lease is over a new worker claims it, sends and records SENT |
| PushRuns.RecoveredIsSent | apps/notifications/tasks.py:243-275 | from any expired processing row a recovery pass, a claim, an accepted send and its outcome end in SENT |
| PushRuns.LateClaimSendsTwice | apps/notifications/tasks.py:33-65 | a concrete run: after a claim over an unrecorded accepted send the same push is accepted twice |
| PushRuns.LateSendSendsTwice | apps/notifications/tasks.py:123-201 | the same after a late send, without any claim over an accepted one and without a recorded outcome |
| PushRuns.LateRecordSendsTwice | apps/notifications/tasks.py:123-201 | the same after a late error written over a held row, by two workers that send within their lease |
| PushRuns.LoneLateRecordIsHarmless | apps/notifications/tasks.py:123-201 | a reachable late outcome that overtakes nobody is no late step in this sense and ends SENT |
| ExternalJson.Compactor.CompactValue | apps/common/external_json.py:16-76 | the recursive compaction with its side flag returns the compacted value and raises the flag exactly when something was cut |
| ExternalJson.Compactor.CompactDict | apps/common/external_json.py:26-40 | the dict loop with its break keeps the first entries, later duplicates of a cut key winning, and adds the item marker |
| ExternalJson.Compactor.CompactList | apps/common/external_json.py:42-59 | the list loop keeps the first items and appends the marker |
| ExternalJson.CutTextSays | apps/common/external_json.py:58-76 | a text over the limit, of a string or any other value, keeps exactly its first characters and ends in "...[truncated]" |
| ExternalJson.CutListSays | apps/common/external_json.py:40-56 | a list over the limit keeps exactly its first values, each compacted, with the marker behind them |
| ExternalJson.CutDictSays | apps/common/external_json.py:26-38 | a dict over the limit keeps exactly its first fields, each compacted, with the item marker behind them |
| ExternalJson.UntruncatedIsIdentity | apps/common/external_json.py:16-76 | compaction that does not raise the flag returns its input, for keys within the limit |
| ExternalJson.UnflaggedIdentityExact | apps/common/external_json.py:16-76 | for distinct keys it returns its input if and only if all keys, at any depth, are within the limit and the value is JSON throughout |
| ExternalJson.CompactIdempotent | apps/common/external_json.py:16-76 | compacting twice at the same depth is compacting once, for keys within the limit and no key named like the item marker |
| JsonSnapshot.CompactExternalJson | apps/common/external_json.py:78-125 | the size check and the shrinking preview loop return the snapshot of the specification and terminate |
| JsonSnapshot.ShrinkFits | apps/common/external_json.py:103-125 | the preview loop ends within the byte limit, or with the fixed 20-byte marker when even the head does not fit |
| JsonOversize.OversizedSays | apps/common/external_json.py:92-125 | a payload over the byte limit is replaced by the marker, the reason, its size and the longest beginning of its text within 8192 bytes and the room, less exactly the excess of quoting it; without room for any text the size or the marker alone is left |
| JsonOversize.OneCutSuffices | apps/common/external_json.py:109-121 | the preview loop cuts at most once: dropping as many characters as there are bytes too many is enough |
| JsonOversize.DecimalIsReadBack | apps/common/external_json.py:92-96 | the size in the snapshot is read back as the number of bytes |
| JsonOversize.QuotedIsReadBack | apps/common/external_json.py:78-85 | any text is read back from its quoted form, whatever characters it holds |
| JsonSnapshot.SnapshotIsBounded | apps/common/external_json.py:78-125 | a snapshot exceeds the byte limit by at most the 20 bytes of the late marker |
| JsonSnapshot.PayloadContainsTruncationMarkers | apps/orchestrator/job_services.py:24-32 | the detector finds a marker exactly where one is |
| JsonLossless.TruncationIsMarked | apps/common/external_json.py:84-90 | whatever was cut leaves a marker the detector finds |
| JsonLossless.AssignedMembers | apps/common/external_json.py:29-36 | of the fields whose keys meet after cutting the last one stays |
| JsonLossless.UnmarkedSnapshotIsLossless | apps/orchestrator/job_services.py:24-32 | for any dict with keys within the limit and no own top-level marker key: no marker in the snapshot means the snapshot equals the payload |
| JsonLossless.DetectorIsExact | apps/orchestrator/job_services.py:24-32 | for payloads free of markers the detector fires if and only if the snapshot differs from the payload |
| JsonLossless.SnapshotIsMarkedExactly | apps/common/external_json.py:84-90 | the snapshot of any payload is found marked if and only if it exceeds the byte limit, gets the late top-level marker, or carries a marker: one of the payload that survives, one made by cutting a key, or a cut in depth or in a list |
| JsonLossless.CutIsMarkedExactly | apps/common/external_json.py:84-90 | in particular the snapshot of a cut dict, unless a key that is, or is cut to, the marker key keeps the late marker out |
| JsonLossless.UncutSnapshotExact | apps/common/external_json.py:26-36 | the snapshot of an uncut payload within the byte limit is the payload if and only if no key in it is too long |
| JsonLossless.LongKeyIsCutSilently | apps/common/external_json.py:35-36 | a concrete family: a key over the limit is cut without any marker |
| JsonLossless.OwnMarkerKeyHidesCut | apps/common/external_json.py:86-88 | under any limits with room for two fields, an own top-level marker key hides the cut of a text beside it |
| JsonLossless.DefaultLimitsHideACut | apps/common/external_json.py:86-88 | so under the default limits a text of 4001 letters is cut without a marker |
| Chunking.ChunkEntries | scripts/translate_otto_catalog_to_turkish.py:203-224 | the chunks concatenate to the input, none is empty, and each holds at most 35 entries and 10,000 characters unless it is a single entry |
| Chunking.GreedyNeedsNoMore | scripts/translate_otto_catalog_to_turkish.py:203-224 | the greedy chunks of any tail of a legally partitioned list are no more than the parts |
| Chunking.ChunksAreOptimal | scripts/translate_otto_catalog_to_turkish.py:203-224 | no partition into legal consecutive chunks uses fewer chunks |
| Translation.BuildEntries | scripts/translate_otto_catalog_to_turkish.py:91-200 | the entries of a catalogue in order, or an error exactly when two keys are equal |
| Translation.DeduplicateEntries | scripts/translate_otto_catalog_to_turkish.py:227-255 | every entry is resolved to its (text, context), and each of these appears once among the unique entries |
| Translation.UniqueCovers | scripts/translate_otto_catalog_to_turkish.py:227-255 | the unique entries have exactly the sources of all entries, without repeats |
| Translation.ExtractedKeys | scripts/translate_otto_catalog_to_turkish.py:91-200 | which keys the extraction yields for categories, groups and attributes, with the first non-blank name of an id deciding |
| TranslationBatch.ReceivedTexts | scripts/translate_otto_catalog_to_turkish.py:541-548 | the texts of one response, collected in a loop |
| TranslationBatch.ReceivedMeans | scripts/translate_otto_catalog_to_turkish.py:541-548 | blank and foreign items are dropped and the last text for a key wins |
| TranslationBatch.ReadBatchTranslations | scripts/translate_otto_catalog_to_turkish.py:478-574 | the texts and failures of a batch output, line by line and then request by request |
| TranslationBatch.LastGiverWins | scripts/translate_otto_catalog_to_turkish.py:550-562 | with several lines for a key the last line that gives it a text wins |
| TranslationBatch.RetryKeysMean | scripts/translate_otto_catalog_to_turkish.py:497-573 | a key is asked for again if and only if a line for a request with it misses it or no line answers such a request |
| TranslationBatch.CleanBatchExact | scripts/translate_otto_catalog_to_turkish.py:497-573 | nothing has failed if and only if every line answers a known request with exactly its keys and every request is answered |
| TranslationBatch.BatchIsAccounted | scripts/translate_otto_catalog_to_turkish.py:478-574 | for any output lines the translated and the failed keys together are the expected ones, and no text is blank |
| TranslationBatch.RetryMissing | scripts/translate_otto_catalog_to_turkish.py:577-656 | the repair succeeds if and only if there is something to ask for, all of it is known and every chunk of five comes back with exactly its aliases; it returns the texts of the aliases |
| TranslationBatch.RepairIsComplete | scripts/translate_otto_catalog_to_turkish.py:609-656 | a successful repair has a non-blank text for exactly the retried keys |
| TranslationCollect.CollectTexts | scripts/translate_otto_catalog_to_turkish.py:738-789 | collecting succeeds if and only if nothing failed or the repair is asked for and complete; it then has one non-blank text for exactly the unique entries, so the count check after the repair never fires |
| TranslationCollect.TextOrigin | scripts/translate_otto_catalog_to_turkish.py:738-789 | every collected text answers its own source: the repair answer to its alias if it was retried, else the last line that gave it a text |
| TranslationCollect.Collect | scripts/translate_otto_catalog_to_turkish.py:722-793 | for any batch output it succeeds if and only if the keys are distinct, the texts could be collected and all categories and groups are named; every catalogue entry has the non-blank text collected for its (text, context), and the output is assembled from these texts |
| TranslationCollect.BuildOutput | scripts/translate_otto_catalog_to_turkish.py:659-719 | the localized catalogue is assembled exactly when all keys it looks up are there, and every name and group in it is the translation of its own key |
| TranslationCollect.DictGivesLast | scripts/translate_otto_catalog_to_turkish.py:690-703 | of several attributes or groups with one id the last one stays |
| TranslationCollect.AssemblyNeedsNames | scripts/translate_otto_catalog_to_turkish.py:659-703 | with a text for every extracted entry all look-ups succeed if and only if all categories and groups are named |
| TranslationOutput.AttributeOutput | scripts/translate_otto_catalog_to_turkish.py:690-703 | in the output of a collection that succeeded an attribute has exactly its non-blank fields and all its allowed values in their order, each with the text collected for its own source string and context, a blank value as it was |
| TranslationOutput.NameOutput | scripts/translate_otto_catalog_to_turkish.py:667-685 | categories and groups carry the texts collected for their own names, a group for the first name that is not blank |
| TranslationOutput.OutputIsComplete | scripts/translate_otto_catalog_to_turkish.py:667-703 | every category, group and attribute has its place in the output |
| TranslationOutput.NonEmptySays | scripts/translate_otto_catalog_to_turkish.py:80-84 | a source text counts when anything is left between its blanks, and then as that |
| SellerChanges.Product.PendingFieldDiffs | apps/products/services.py:365-384 | exactly the listed fields whose value differs from the live one count, an agreed price aside |
| SellerChanges.Product.SaveSellerPendingChanges | apps/products/services.py:404-495 | an edit overlays the pending changes and takes a new revision, or changes nothing; a comment alone is refused |
| SellerEdits.SaveSays | apps/products/services.py:404-459 | in terms of the card and the request alone: a save that asks for nothing writes nothing, another one overlays exactly the listed fields that differ from the live value and the agreed price, the variants and set pieces that differ in number or in any field, the photos and the comment |
| SellerChanges.Product.UpdateProduct | apps/products/services.py:155-184 | fields are set, variants and set pieces replaced as wholes, and a product in review takes a new revision |
| SellerChanges.Product.ApproveSellerChanges | apps/moderation/services.py:364-398 | approval checks the revision if one is given, applies the pending changes and takes a new revision |
| SellerChanges.Product.RejectSellerChanges | apps/moderation/services.py:402-438 | rejection archives the pending changes with the live values they were meant to replace, empties them and keeps the revision |
| SellerChanges.BaselineUndoes | apps/products/services.py:274-285 | applying the rejected changes and then the baseline kept with them gives back every listed field, the pieces and the variants up to the spaces around compositions |
| SellerChanges.OneChangeSetPerRevision | apps/products/services.py:598-621 | over every run the revision never decreases, and while it stands the pending changes are the same or empty |
| SellerChanges.ReviewedIsApplied | apps/moderation/services.py:33-51 | an approval with the revision read alongside non-empty changes applies exactly those changes, whatever happened in between |
| SellerChanges.OverlayIsHistory | apps/products/services.py:419-459 | after any edits of an approved product the overlay of each field is the last value that counted |
| SellerChanges.ApprovalAppliesHistory | apps/products/services.py:555-587 | approval gives every field the last submitted value that differed from the live one, else the live value; variants and set pieces go as wholes |
| SellerEdits.ApprovalGivesWhatWasAsked | apps/products/services.py:555-587 | after any edits an approval gives each field the value asked for last, variants and set pieces as last submitted with a difference, and leaves what nobody asked for |
| SellerEdits.ApprovalGoesThrough | apps/products/services.py:426-447 | it goes through exactly when one of the edits asked for something and the revision was read after them |
| SellerEdits.ApprovalSays | apps/moderation/services.py:364-398 | what an approval needs and writes, field by field |
| SellerEdits.RejectionSays | apps/products/services.py:590-621 | what a rejection needs and keeps: the rejected changes, the reason and the live values beside them |
| SellerEdits.AgreedPriceIsLive | apps/products/services.py:365-384 | submitting the agreed price asks for nothing, also when the live price was edited since |
| SellerChanges.PendingNeedsAChange | apps/products/services.py:426-447 | there is something to approve if and only if one of the edits changed something |
| SellerChanges.EditingBackExact | apps/products/services.py:372-384 | saving the live value of a field changes nothing, and approval then gives the live value if and only if no other value of it is waiting |
| SellerChanges.EditingBackIsIgnored | apps/products/services.py:372-384 | after any counted edit, putting the field back does not take it back |
| Gallery.GalleryRows.CreateWithImages | apps/products/services.py:79-129 | up to 20 images get their list index as position and the first is primary; more are refused |
| Gallery.GalleryRows.UploadProductImage | apps/products/services.py:656-699 | an upload goes behind the last image, is primary if asked or if there is none, and is refused at 20 |
| Gallery.GalleryRows.DeleteProductImage | apps/products/services.py:753-804 | a deletion hands the primary flag to the first image left |
| Gallery.GalleryRows.MakeProductImagePrimary | apps/products/services.py:807-826 | exactly the chosen image becomes primary |
| Gallery.GalleryRows.ShiftPositions | apps/products/services.py:895-899 | the shift keeps positions distinct at every single row write, in any row order |
| Gallery.GalleryRows.ReorderProductImages | apps/products/services.py:867-915 | a reorder is refused for another set of images, raises IntegrityError exactly when a write meets an image not yet renumbered, and otherwise puts each image at its last index with the first on the cover |
| GalleryRuns.RunKeeps | apps/products/services.py:656-915 | in every state of every run there are at most 20 images, positions are distinct and exactly one image is primary when there is any |
| GalleryRuns.ReorderIsExact | apps/products/services.py:879-913 | a list without repeats puts every image at its list index and the first on the cover |
| GalleryRuns.ReorderExact | apps/products/services.py:879-905 | a list of exactly the images puts each at its list index if and only if it repeats none |
| GalleryRuns.NoRepeatsNoCollision | apps/products/services.py:895-905 | such a list never makes a row write collide |
| GalleryRuns.RepeatsCanCollide | apps/products/services.py:879-905 | a list that names exactly the images, with repeats, on which the service function collides; it gets there only past the serializer, which rejects repeats |
| GalleryRuns.RunShows | apps/products/services.py:656-915 | after every run the photos are displayed in the order and with the cover that the steps give on a plain list |
| Pricing.RoundTo49Or99 | apps/products/pricing.py:71-83 | the search over four hundreds finds the nearest of all positive integers ending in 49 or 99, the larger on a tie; 0.99 for amounts up to zero |
| Pricing.ClosestIsNearest | apps/products/pricing.py:71-83 | the closed form of that price is nearest among all such integers |
| Pricing.RoundingIsClose | apps/products/pricing.py:71-83 | the price is at most 25 away once the amount is at least 24 |
| Pricing.RoundingIsMonotone | apps/products/pricing.py:71-83 | rounding is monotone over all amounts |
| Pricing.HalfUpIsNearest | apps/products/pricing.py:48-59 | quantizing gives whole cents at most half a cent away |
| Pricing.HalfCentGoesAway | apps/products/pricing.py:55-59 | half a cent goes away from zero |
| Pricing.PackedCbm | apps/products/pricing.py:25-36 | the largest variant plus every set piece; no variant is an error |
| Pricing.LargestIsMaximum | apps/products/pricing.py:27-33 | the loop over the variants finds their maximum |
| Pricing.DeDeliveryEur | apps/products/pricing.py:63-68 | the first tier that contains the volume decides; no tier is an error |
| Pricing.PriceSays | apps/products/pricing.py:48-130 | the price in full: the unit price in the rate of its own currency, the city freight for the packed volume, the delivery tier and the three percentages, in whole cents, then the nearest 49 or 99; no price without both rates, an error for a zero rate |
| Pricing.ListingPriceMonotone | apps/products/pricing.py:115-130 | for fixed volume, positive rates and non-negative percentages a higher unit price never lists cheaper, through both quantizations, and whether there is a price does not depend on it |
| Stock.ApplyCanonicalQty | apps/afterbuy/sale_actions.py:26-50 | the in-place loop gives each variant its rounded share and the last one the rest |
| Stock.ShareSays | apps/afterbuy/sale_actions.py:41-46 | each variant but the last gets the nearest share, the even one on a tie; empty stock goes to the first |
| Stock.RestSays | apps/afterbuy/sale_actions.py:39-47 | the last variant gets what is left of the figure, if anything |
| Stock.ConservationBound | apps/afterbuy/sale_actions.py:26-50 | with n variants of positive total stock the new sum lies between the figure and the figure plus (n - 1) / 2 |
| Stock.ConservedExactly | apps/afterbuy/sale_actions.py:38-46 | the sum is the figure if and only if the rounded shares of all but the last leave room |
| Stock.BoundIsAttained | apps/afterbuy/sale_actions.py:38-46 | for every n from 3 on some stock attains the upper bound |
| Stock.EmptyStockIsDoubled | apps/afterbuy/sale_actions.py:41-42 | with no stock and at least two variants the sum is twice the figure |
| Afterbuy.Database.UpsertSoldOrder | apps/afterbuy/sync.py:37-82 | an order is its header write and one item write per tracked item, in order |
| AfterbuyRows.KeySays | apps/afterbuy/sync.py:19-28 | the key of an item row is the first of item id, number, SKU, product id, EAN and title that is not empty, in 80 characters |
| AfterbuyRows.LineSays | apps/afterbuy/sync.py:57-77 | each column of an item row holds its own field of the item in its width |
| AfterbuyRows.StoredRows | apps/afterbuy/sync.py:37-82 | storing an order gives each row the data of the last of its stored items that goes there, and the order its own header |
| AfterbuyRows.OwnIdsKeepOwnRows | apps/afterbuy/sync.py:54-82 | items of one order with distinct ids within the key length keep rows and data of their own |
| Afterbuy.Database.ApplyCardPriceSnapshot | apps/afterbuy/settlement.py:8-17 | the price and currency of the card are stored only where none is stored yet |
| Afterbuy.Database.QueueSaleNotification | apps/afterbuy/notify.py:42-61 | managers are told exactly when the notice is not sent yet, and then it is |
| Afterbuy.Database.SyncAccount | apps/afterbuy/sync.py:85-128 | the cursor loop stores the accepted orders of the pages up to the first that ends it and reports their counts; a failed request keeps what is stored |
| AfterbuyRows.TallySays | apps/afterbuy/sync.py:104-128 | the report counts all orders read, the accepted ones in their order and their distinct ids |
| AfterbuyRows.EndsSays | apps/afterbuy/sync.py:117-121 | reading ends with the first page that is the last, names no last order, or the one the page before named |
| Afterbuy.PagesAreOneWindow | apps/afterbuy/sync.py:98-121 | reading page by page stores what one window with all accepted orders stores |
| AfterbuyRuns.WritesSummary | apps/afterbuy/sync.py:54-81 | after any writes the last line and header win, the first match settles and notices follow the matches, also for items that share a key |
| AfterbuyRuns.ReplayChangesNothing | apps/afterbuy/sync.py:37-82 | replaying any writes on an unchanged catalogue leaves everything unchanged, also with colliding item keys |
| AfterbuyRuns.ReplayAfterOthers | apps/afterbuy/sync.py:37-82 | the writes of one order may come again after any writes about others |
| AfterbuyRuns.UpsertIsIdempotent | apps/afterbuy/sync.py:37-82 | an order stored twice with the same catalogue is stored once, whatever other orders are stored in between |
| AfterbuyRuns.OverlapIsHarmless | apps/afterbuy/sync.py:91-121 | writes that end one window and begin the next count once, also when an order repeats in them |
| AfterbuyRuns.OnlyNewOrdersCount | apps/afterbuy/sync.py:91-121 | after one window another one stores its new orders and changes nothing else, wherever the common orders stand in either |
| AfterbuyRuns.WindowsStoreOnce | apps/afterbuy/sync.py:91-121 | any number of windows, one after another, stores each of their orders once, as it was read first |
| AfterbuyRuns.FirstSeenIsUnion | apps/afterbuy/sync.py:91-121 | those orders have distinct ids and are the union of the windows |
| AfterbuyRuns.SetOfOrdersDecides | apps/afterbuy/sync.py:91-121 | synchronising overlapping windows is synchronising their union: the set of orders read, not their windows, repetitions or order, decides all orders, items, settlements, sent notices and how often managers are told |
| AfterbuyRuns.SettlementIsFinal | apps/afterbuy/settlement.py:8-17 | a settled price and currency never change again, whatever the catalogue becomes |
| AfterbuyRuns.ManagersAreToldOnce | apps/afterbuy/notify.py:42-61 | over any run managers are told about an item at most once, exactly when its notice is sent |
| AfterbuyRuns.MatchedItemsAreToldOnce | apps/afterbuy/notify.py:42-61 | from an empty mirror managers are told once about every item that was ever matched, and about no other |

## Left out

- Views, serializers other than the GTIN check, permissions, throttling, admin and migrations: plumbing.
- Payload builders, status classification and the marketplace clients: opaque calls that may fail.
- The OTTO and Kaufland polling chains, which the hot path does not schedule: only the mark steps they share with the worker are modelled.
- Password reset, tokens, cookies, media files, notification texts, AI prompts and sales aggregates.
- Lost updates from unlocked saves: every service call is taken as atomic.
- Floating-point rounding in the stock shares, the 28-digit decimal context and Unicode digits, blanks and case.
- Width limits of integer columns (positions beyond 32767, attempt counters).
- Lone surrogates and non-string keys in JSON values; a tuple is taken as a list.
- Catalogue files that are not shaped as the translation script expects (its structural errors).
- Jobs that a deleted seller requested for other sellers' products, and contents, configurations and files deleted with a seller.
- The contents of the pending photo payload (`build_pending_images_payload`): the overlay keeps it as a list of ids.
- The editable-status guard of the gallery services, and role checks before a purge.
- ListingState.Database.CreateListingStateJobs: job ids are handed out in pairs.
- LifecycleRuns.LiveListingsHaveSpentCodes: assumes that no activation succeeds on an unconsumed code; RunExact shows that this is exact for every state of the run.
- LifecycleRuns.BackedRun: holds until a product with reserved codes is withdrawn; WithdrawExact shows that this is exact.
- IdempotencyRuns.ProtocolHolds: assumes that no handler whose record was taken over completes or abandons it; AnswerIsHonestExactly and NextClaimIsSeparatedExactly show what the next request meets otherwise.
- PushRuns.AtMostOneAcceptedSend: assumes that no step is late; RunExact shows that this is exact for the promise that counts a worker within its lease as about to send, while a late claimant that crashes before it sends does no harm.
- PushDelivery.SendNotificationPush: describes one undisturbed pass; other workers and recovery passes are in PushRuns.
- Worker.Database.ExecuteTarget: a worker whose job or product row was purged ends as by an exception, because its later saves fail.
- Idempotency.Store.PurgeExpired: which expired records make up the batch is left open; the source takes the oldest ids.
- SellerChanges.Product.ApproveSellerChanges: the update job that approval creates for active listings is not part of the step.
- SellerChanges.ApprovalAppliesHistory: a stored decimal is taken to read back as the text that was saved.
- Afterbuy.Database.SyncAccount: a server that never ends the cursor loop is a list of pages that runs out, as if the next request failed.
- AfterbuyRuns.OnlyNewOrdersCount: an order is taken to read the same in every window, and the catalogue to stay; when it does not, WritesSummary says which write wins.
- AfterbuyRuns.ReplayChangesNothing: says nothing of the time stamps that every save renews.
- "Approve what you saw" for a product in review across rejection and resubmission: those steps do not take a new revision.
