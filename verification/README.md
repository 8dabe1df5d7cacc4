# Verified models of the commerce backend

Dafny 4.11 models of the parts of this backend whose correctness rests on state that changes step by step,
with proofs of what they promise. `dafny verify dfyconfig.toml` checks the whole project.

| file | what it models |
|---|---|
| `CatalogModel.dfy`, `CatalogValidation.dfy` | catalog entities and table constraints; the validation rules, their reports and the readiness gate |
| `CatalogStore.dfy`, `CatalogWrites.dfy`, `CatalogFamily.dfy` | SKU rows, permanent reservations and the price ledger; what a payload leaves in them; resolution of payload SKUs and the family aggregate |
| `CatalogSpec.dfy`, `CatalogInvariants.dfy` | the catalog as a state machine, and its invariant |
| `CatalogLedger.dfy`, `CatalogHistory.dfy`, `CatalogVerdicts.dfy`, `CatalogExamples.dfy` | statements over whole runs: prices, idempotency, past ids; exact verdicts of saves and publications; runs that show what those verdicts allow |
| `CatalogService.dfy` | the service itself: methods that write the tables statement by statement, proved against that state machine |
| `Publication.dfy`, `MediaSlots.dfy` | the database-and-disk publication protocol with its sweeper; the image slots of an export row |
| `SyncEngine.dfy`, `EventSync.dfy`, `NdrProxy.dfy` | the three kinds of synchronization units |
| `Confirmation.dfy` | suspended actions, confirmation and execution, under interleaving |
| `RetryQueue.dfy`, `QueuePoller.dfy` | the lease-fenced retry workers; the bounded-concurrency poller and its dispatch pipeline |
| `AzmStore.dfy`, `AzmInvariants.dfy`, `AzmArrival.dfy`, `AzmOutcome.dfy`, `AzmIngestion.dfy` | contract ingestion: its tables and writes, what every history keeps, what a committed run contains and when it commits, and the ingester |
| `ProvenanceFirewall.dfy`, `SemanticMapper.dfy`, `TableOrder.dfy` | reuse of historical values; mapping of nested evidence; deletion order of tables |

Code that changes fields is a class whose methods are proved against functions on values; the promises are
then proved about those functions. Where steps of several actors interleave, every database, disk or network
call is one transition and a run is any sequence of enabled transitions.

## Where the code and its promises differ

- A save of a READY family that renames a SKU by internal id and brings no images is demoted to DRAFT although
  the rows it writes are complete: the gate sees the unmerged input. `CatalogVerdicts.DemotedThoughComplete` says
  exactly when, and `CatalogExamples.ADemotionWithoutNeed` is such a run. The converse never happens
  (`CatalogInvariants.ReadyFamiliesPassTheGate`).
- A publication promotes what it fetched earlier, without looking again: a save in between can get an incomplete
  product published, exactly when `CatalogVerdicts.SaveBeforeTheCommit` and `LateCommitVerdict` say.
- The price ledger can record a change from a price to itself, when a payload price differs from the stored one
  only below the precision of the column (`CatalogLedger.LedgerRecordsOnlyChanges` gives the exact condition over
  runs, `CatalogExamples.AnEntryThatIsNoChange` a run).
- A committed publication can lose its file in exactly three ways (`Publication.ExactlyThreeWaysToLoseAFile`), and
  runs are safe exactly when four kinds of disorder are excluded (`Publication.SafeExactlyWhenOrderly`).
- At most eight transient attempts of a delivery are counted, but the bound of eight on the attempts themselves holds
  only while every settling write applies under its own token (`RetryQueue.EightAttemptsExactlyWithoutLosses`).
- A delivered writeback can be reopened when the acknowledgement of its success write is lost, because settling
  writes match on the claim token alone.
- A stop during a claim loses a slot for good; with a capacity of one the poller never claims again.
- A failed run of a synchronization unit should move no checkpoint. An error that the remote tool reports is no exception
  for the client (`scratch_shopdeck_canonical/backend/shopdeck/mcp_client.py:82-95`): the reply carries no `rows`, the code takes it for an empty answer, stores nothing and moves the
  checkpoint, and what only that window asked for is never fetched again. A timely row arrives exactly when a window
  that asks for it is answered with rows: `SyncEngine.LocalCopyIsExact`, `SyncEngine.ATimelyRowIsLost` and
  `SyncEngine.TimelyRowsArriveExactlyWithoutEmptyReplies`, and the same in `EventSync.dfy` and, for both proxy queries
  and the report batches, in `NdrProxy.dfy`.
- An event whose creation time does not parse is stored again by every replay.
- An ingestion can answer FAILED after its commit. A contract that is new to its source is skipped exactly when a
  committed one, split elsewhere, joins to the same text (`AzmInvariants.NewContractsAreSkippedExactlyWhenResplit`).
- A SKU with two equal images shows the same image twice, although the channel document speaks of deduplication;
  `MediaSlots.RepeatsOnlyInTheFirstTwo` says for which inputs.
- A product code missing both from the evidence and from the verification counts as a match; reuse keeps to the
  verified family exactly when the verification names a code (`ProvenanceFirewall.ReuseStaysInTheFamily`).
- A concept that three payload leaves resolve to is both ambiguous and mapped.

## Assumptions

- One PostgreSQL transaction is one step of the catalog. In its runs a publication is one step from fetch to commit;
  what a commit that comes later does is stated separately, in `CatalogVerdicts.dfy`. Constraint and
  reservation-trigger failures follow `business_systems/catalog/schema.sql`.
- Digests are opaque values. For event rows, equal fingerprints agree on the creation time, and rows are read
  back as they were written. Identifiers drawn at random are supplied from outside and may collide, which then
  violates a primary key; only publication artifacts and dispatch tasks are taken to be new.
- Rows carry the verdict of the URL parser with each URL. The UUID parser's verdict on a lookup key is supplied.
- The queries of a run are sent after its upper bound was read off the clock, and those of different runs one after the
  other. A reply that carries rows is the whole answer to its query; about a reply without rows nothing is assumed.
- A shipment's report is there by the time its change shows in one of the proxy tables.

## Model

| member | source | states |
|---|---|---|
| `CatalogValidation.FamilyReport` | business_systems/catalog/validation.py:334-407 | the payload report is empty exactly for a family that meets every syntax, pricing, dimension, tax and URL rule and repeats no SKU id |
| `CatalogValidation.GateReport` | business_systems/catalog/validation.py:410-522 | the readiness report is empty exactly for a complete product with at least one SKU, each valid and with a non-blank image |
| `CatalogValidation.SkuReport` | business_systems/catalog/validation.py:288-331 | a SKU's report is empty exactly when the SKU meets the rules |
| `CatalogValidation.PricingErrorTable` | business_systems/catalog/validation.py:118-169 | each price error is reported exactly when its relation is broken |
| `CatalogValidation.DimensionErrorTable` | business_systems/catalog/validation.py:186-224 | each dimension error exactly when the dimension is out of bounds |
| `CatalogValidation.SkuErrorTable` | business_systems/catalog/validation.py:288-331 | a SKU is reported under the code and field of each rule it breaks |
| `CatalogValidation.ProductErrorTable` | business_systems/catalog/validation.py:334-375 | and a product |
| `CatalogValidation.MissingImagesAreReported` | business_systems/catalog/validation.py:470-484 | the gate reports missing images exactly when some SKU has none |
| `CatalogValidation.ValidatePricing` | business_systems/catalog/validation.py:118-184 | the pricing report: no error exactly for positive prices with selling price at most MRP, no warning exactly when the cost does not exceed the selling price |
| `CatalogValidation.WarningsAreLossLeaders` | business_systems/catalog/validation.py:378-407 | a payload is warned about exactly when one of its SKUs sells below its cost |
| `CatalogValidation.ValidateUrls` | business_systems/catalog/validation.py:263-285 | one error per malformed URL, none exactly when all are blank or well-formed |
| `CatalogValidation.ValidateSkuInput` | business_systems/catalog/validation.py:288-331 | builds the SKU's errors and warnings; valid exactly when there is no error |
| `CatalogValidation.ValidateSiblings` | business_systems/catalog/validation.py:388-405 | the loop with its set of seen ids reports exactly the repeated ids and each SKU's errors and warnings |
| `CatalogValidation.ValidateProductFamilyPayload` | business_systems/catalog/validation.py:378-407 | builds the payload report with its warnings; valid exactly when there is no error |
| `CatalogValidation.ValidateReadinessGate` | business_systems/catalog/validation.py:410-522 | builds the gate report with its warnings; open exactly for a ready family |
| `CatalogValidation.StoredSkuKeepsTheRules` | business_systems/catalog/schema.sql:56-88 | a valid SKU that passes the column constraints is still valid, and ready if it was, after rounding |
| `CatalogModel.RoundingIsNearest` | business_systems/catalog/schema.sql:56-88 | prices are rounded to the nearest paisa, halves away from zero |
| `CatalogValidation.StripsExactlyTheSpace` | business_systems/catalog/validation.py:334-356 | stripping removes the white space at both ends, all of it, and nothing else |
| `CatalogStore.InsertKeepsShelf` | business_systems/catalog/service.py:549-590 | inserting a SKU keeps the reservations, the price chain and the balance of ledger and rows |
| `CatalogStore.UpdateKeepsShelf` | business_systems/catalog/service.py:591-661 | updating a SKU keeps them too, whether or not it is renamed or repriced |
| `CatalogStore.UnclaimedIsNotTaken` | business_systems/catalog/schema.sql:114-146 | an id that is free or one's own meets neither the unique constraint nor the reservation trigger |
| `CatalogStore.WriteSkusAreSound` | business_systems/catalog/service.py:538-663 | after the checks no statement of a payload meets a reservation constraint, repeated internal ids included; the result keeps every invariant and reservation and touches no other product's row |
| `CatalogStore.WriteSkusKeepReady` | business_systems/catalog/service.py:538-663 | rows that were ready stay ready under updates and renames, and new ones are, provided the inputs bring images where needed |
| `CatalogWrites.EachRowIsTheMergeOfItsInputs` | business_systems/catalog/service.py:538-663 | whatever rows the inputs name, and however often, each row ends as the merge of its own inputs in their order, and every other row stays |
| `CatalogWrites.ThePayloadIsWrittenExactly` | business_systems/catalog/service.py:538-663 | when no row is targeted twice, each targeted row is the merge of its input over what was there, and no other row is added or changed |
| `CatalogWrites.WrittenFamilyIsReady` | business_systems/catalog/service.py:592-603 | over a complete family the written one is complete exactly when every targeted row ends up with an image |
| `CatalogWrites.OneInputKeepsImages` | business_systems/catalog/service.py:602-603 | without repeated ids a row keeps an image exactly when its input brings a real one, or none to a row that has one |
| `CatalogWrites.WritesRecordChanges` | business_systems/catalog/service.py:605-627 | exactly the inputs whose prices differ from the current ones below column precision record a change that is none |
| `CatalogWrites.StatementsGoThrough` | business_systems/catalog/service.py:538-663 | after the checks the statements all go through exactly when every row they would leave fits its columns |
| `CatalogFamily.ResolvedInputsAreCleared` | business_systems/catalog/service.py:267-358 | an input that survives resolution names no other product's row and no id reserved to another SKU |
| `CatalogFamily.ResolutionVerdict` | business_systems/catalog/service.py:267-358 | resolution succeeds exactly when each known internal id belongs to the product and each SKU id is unreserved, reserved to the id given, or, without one, current in the product; inputs keep content and id, or get the id their SKU id is reserved to; else the first such input gives the reason |
| `CatalogFamily.RetiredIdsAreNotReused` | business_systems/catalog/service.py:308-355 | a SKU id its holder has given up is rejected for any other SKU, new or existing |
| `CatalogFamily.GateJudgesTheMap` | business_systems/catalog/validation.py:410-522 | the verdict of the gate does not depend on the order in which the rows are listed |
| `CatalogFamily.MergedEntry` | business_systems/catalog/service.py:434-456 | the entry the gate sees for an input is the merge over the current row of that id, or the raw input |
| `CatalogFamily.OpenGateMeansImages` | business_systems/catalog/service.py:409-468 | although the gate judges stale and unmerged rows on a rename, an open gate implies the images the written rows need |
| `CatalogFamily.GateVerdict` | business_systems/catalog/service.py:409-468 | over a complete family the gate opens exactly when the merged product is complete and every input brings no blank images, and images if its SKU id is new |
| `CatalogInvariants.SaveKeepsTheInvariant` | business_systems/catalog/service.py:182-714 | a save keeps the invariant, never meets a reservation trigger, leaves no product PUBLISHED on success, and changes nothing otherwise |
| `CatalogInvariants.RenameKeepsTheInvariant` | business_systems/catalog/service.py:720-844 | the same for a rename of the product code |
| `CatalogInvariants.OpenGateMeansComplete` | business_systems/catalog/service.py:904-971 | the gate over the persisted rows opens exactly for a complete persisted family |
| `CatalogInvariants.TransitionKeepsTheInvariant` | business_systems/catalog/service.py:850-996 | the same for DRAFT and READY transitions |
| `CatalogInvariants.PublishKeepsTheInvariant` | business_systems/catalog/shopdeck_adapter.py:300-400 | a publication without a save between its fetch and its commit keeps the invariant |
| `CatalogStore.MergeTakesWhatIsGiven` | business_systems/catalog/service.py:592-603 | each attribute on its own: the payload's if given, the row's otherwise; merging twice is merging once |
| `CatalogSpec.MergeProduct` | business_systems/catalog/service.py:362-375 | the same for each attribute of the product, whose code, name, brand and tax rate are always given |
| `CatalogInvariants.SaveWritesTheProduct` | business_systems/catalog/service.py:470-536 | a save leaves the merged product and every other product as it was |
| `CatalogInvariants.SaveWritesThePayload` | business_systems/catalog/service.py:538-663 | a save lays its inputs in order over the rows they target and touches no other row; without repeated targets it writes exactly the payload's SKUs |
| `CatalogInvariants.RenameChangesOnlyTheCode` | business_systems/catalog/service.py:787-800 | a rename changes the code and at most PUBLISHED to READY, and keeps the old code reserved |
| `CatalogInvariants.RenameVerdict` | business_systems/catalog/service.py:720-844 | a rename succeeds exactly for a valid free code and an existing product whose row fits; each failure has its answer |
| `CatalogInvariants.TransitionVerdict` | business_systems/catalog/service.py:888-977 | a transition succeeds exactly for an existing product, to READY only with a complete family, sets only the state, and else says which of the two failed |
| `CatalogInvariants.StepKeepsTheInvariant` | business_systems/catalog/service.py:182-996 | every step keeps the invariant and lets codes, ids, parents and ledger only grow; without success it changes nothing |
| `CatalogInvariants.RunKeepsTheInvariant` | business_systems/catalog/service.py:182-996 | the same over any run |
| `CatalogInvariants.ReadyFamiliesPassTheGate` | business_systems/catalog/service.py:461-468 | in every reachable state the persisted family of a READY or PUBLISHED product passes the readiness gate |
| `CatalogInvariants.IdentifiersAreUnique` | business_systems/catalog/schema.sql:24-46 | no two products share a code and no two SKUs an id |
| `CatalogInvariants.ReservationsArePermanent` | business_systems/catalog/schema.sql:104-192 | in every continuation a reserved code or id keeps its owner, a SKU keeps its product, and the ledger only grows |
| `CatalogLedger.LedgerIsTheWholeHistory` | business_systems/catalog/service.py:578-627 | a SKU's ledger starts without previous prices, is an unbroken chain, and ends at the current prices |
| `CatalogLedger.UpdatesThatRecordNoChange` | business_systems/catalog/service.py:605-627 | an update logs a change that is none exactly when the prices differ only below column precision |
| `CatalogExamples.AnEntryThatIsNoChange` | business_systems/catalog/service.py:605-627 | a run from the empty catalog whose last ledger entry leads from prices to the same prices |
| `CatalogLedger.LedgerRecordsOnlyChanges` | business_systems/catalog/service.py:578-627 | over every run each ledger entry records a change exactly when no successful save gave prices that differ from the current ones only below column precision |
| `CatalogLedger.ExactPricesRecordChanges` | business_systems/catalog/service.py:578-627 | so with prices in whole paise every entry records a change |
| `CatalogHistory.LiveKeysChangeNothing` | business_systems/catalog/service.py:90-134 | while a record is live a call with its key changes nothing: it replays the stored response for the same operation and request, and is a conflict otherwise |
| `CatalogHistory.OtherKeysAreCarriedOut` | business_systems/catalog/service.py:90-134 | a call without a live record is carried out and answered as if it had no key |
| `CatalogHistory.RecordSurvives` | business_systems/catalog/service.py:90-176 | a record outlives every run that stays within its expiry, cleanups included |
| `CatalogHistory.OneSuccessPerWindow` | business_systems/catalog/service.py:90-167 | at most one mutation per key succeeds in each window |
| `CatalogHistory.RepeatsReplayTheirOwnResponse` | business_systems/catalog/service.py:90-167 | a successful call repeated within its window, after any other events, replays its own response; another request under its key is a conflict |
| `CatalogHistory.PastIdsResolveToTheirFirstHolder` | business_systems/catalog/service.py:1028-1046 | any id some SKU once had resolves to that SKU in every later state |
| `CatalogHistory.LookupVerdict` | business_systems/catalog/service.py:1002-1056 | the three lookups in their order, each found exactly when its own table has the key |
| `CatalogVerdicts.PublicationIsBlockedByEqualPricesOnly` | business_systems/catalog/shopdeck_adapter.py:145-181 | publication goes through exactly when a READY or PUBLISHED product is among the targets and no SKU of one sells at its MRP |
| `CatalogVerdicts.PublicationIsAllOrNothing` | business_systems/catalog/shopdeck_adapter.py:300-400 | without a save between fetch and commit every eligible product becomes PUBLISHED and no other changes, or nothing changes |
| `CatalogVerdicts.PlanVerdict` | business_systems/catalog/service.py:209-468 | the checks before the first write pass exactly for a valid family, an existing product if one is named, a free code and acceptable inputs; the first that fails answers |
| `CatalogVerdicts.SaveSucceedsExactly` | business_systems/catalog/service.py:182-714 | a save succeeds exactly when those checks pass and what it would write fits the columns |
| `CatalogVerdicts.ResavesTargetTheirRows` | business_systems/catalog/service.py:336-358 | a payload that lists SKUs by their current SKU ids alone passes resolution and targets exactly their rows |
| `CatalogVerdicts.DraftsStayDrafts` | business_systems/catalog/service.py:409-468 | new products start in DRAFT and a save leaves a DRAFT product there |
| `CatalogVerdicts.SaveVerdict` | business_systems/catalog/service.py:409-468 | the exact condition under which a save over a READY or PUBLISHED product leaves it READY |
| `CatalogVerdicts.WrittenFamilyVerdict` | business_systems/catalog/service.py:470-663 | what such a save leaves is complete exactly when the merged product is complete and every targeted row ends up with an image |
| `CatalogVerdicts.DemotedThoughComplete` | business_systems/catalog/service.py:409-468 | it demotes a product whose written family is complete exactly when that condition holds and yet some input fails the gate |
| `CatalogExamples.ADemotionWithoutNeed` | business_systems/catalog/service.py:409-468 | a run from the empty catalog that demotes a product with a complete family |
| `CatalogVerdicts.CommitVerdict` | business_systems/catalog/shopdeck_adapter.py:391-400 | promoting fetched products keeps the invariant exactly when each has a complete family at that moment |
| `CatalogVerdicts.LateCommitVerdict` | business_systems/catalog/shopdeck_adapter.py:300-400 | whatever runs between fetch and commit, the commit keeps the invariant exactly when no fetched product has been demoted and left incomplete |
| `CatalogVerdicts.SaveBeforeTheCommit` | business_systems/catalog/shopdeck_adapter.py:300-400 | one save between fetch and commit breaks the publication exactly when its merged product is incomplete or a row it targets ends up without an image |
| `CatalogExamples.AnIncompleteProductIsPublished` | business_systems/catalog/shopdeck_adapter.py:391-400 | a run in which a save between fetch and commit gets an incomplete product published |
| `CatalogService.CatalogService.CheckIdempotency` | business_systems/catalog/service.py:90-134 | none without a live record; the stored response for the same operation and request; a conflict otherwise |
| `CatalogService.CatalogService.SaveIdempotency` | business_systems/catalog/service.py:136-167 | stores the response until its expiry, or fails on an over-long key |
| `CatalogService.CatalogService.CleanupExpiredIdempotencyRecords` | business_systems/catalog/service.py:169-176 | removes exactly the expired records and answers how many |
| `CatalogService.CatalogService.StoreProduct` | business_systems/catalog/service.py:470-536 | the product statement with its constraints and trigger |
| `CatalogService.CatalogService.StoreSku` | business_systems/catalog/service.py:540-661 | one SKU statement with its ledger entry, constraints and trigger |
| `CatalogService.CatalogService.StoreSkus` | business_systems/catalog/service.py:538-663 | the persisting loop writes the payload statement by statement and collects the saved ids |
| `CatalogService.CatalogService.ResolveInputs` | business_systems/catalog/service.py:267-358 | the resolving loop succeeds exactly for acceptable inputs and fills in internal ids, or stops at the first rejection |
| `CatalogService.CatalogService.ExistingSkus` | business_systems/catalog/service.py:409-432 | the map of persisted rows by current id, whatever order the rows arrive in |
| `CatalogService.CatalogService.MergeInputs` | business_systems/catalog/service.py:434-456 | the payload laid over that map |
| `CatalogService.CatalogService.Gate` | business_systems/catalog/service.py:458-468 | the verdict of the gate on a family map |
| `CatalogService.CatalogService.PlanFamily` | business_systems/catalog/service.py:209-468 | all checks and decisions that precede the first write |
| `CatalogService.CatalogService.Apply` | business_systems/catalog/service.py:470-714 | the writes of a save, all of them or none |
| `CatalogService.CatalogService.SaveProductFamily` | business_systems/catalog/service.py:182-714 | carries out the save step of the state machine and keeps the invariant |
| `CatalogService.CatalogService.RenameProductCode` | business_systems/catalog/service.py:720-844 | carries out the rename step and keeps the invariant |
| `CatalogService.CatalogService.TransitionLifecycleState` | business_systems/catalog/service.py:850-996 | carries out the transition step and keeps the invariant |
| `CatalogService.CatalogService.Audit` | business_systems/catalog/shopdeck_adapter.py:323-339 | collects the products to export unless a row fails the audit |
| `CatalogService.CatalogService.PublishEligible` | business_systems/catalog/shopdeck_adapter.py:300-400 | promotes what was audited, or nothing |
| `CatalogService.CatalogService.ResolveSku` | business_systems/catalog/service.py:1002-1056 | the master row the three-way lookup finds, with its fallback to the reservations |
| `Publication.ExactlyThreeWaysToLoseAFile` | business_systems/catalog/shopdeck_adapter.py:385-427 | in every reachable safe state, exactly which steps leave a committed artifact without its file |
| `Publication.SafeExactlyWhenOrderly` | business_systems/catalog/shopdeck_adapter.py:361-531 | every run is safe exactly when late commits, lost acknowledgements, registration during a sweep and forced sweeps are all excluded |
| `Publication.StepKeepsInv` | business_systems/catalog/shopdeck_adapter.py:361-531 | every orderly step of publishers, sweeper and clock keeps the protocol invariant |
| `Publication.CommittedArtifactsHaveTheirFile` | business_systems/catalog/shopdeck_adapter.py:361-427 | over every orderly run each committed artifact has its file with the registered hash |
| `Publication.SweepSparesCommittedAndLive` | business_systems/catalog/shopdeck_adapter.py:497-529 | in an orderly run the sweeper removes no committed or live-leased file |
| `Publication.LateCommitLosesTheFile` | business_systems/catalog/shopdeck_adapter.py:391-405 | a commit after the lease expired can lose its file |
| `Publication.LostCommitAcknowledgementLosesTheFile` | business_systems/catalog/shopdeck_adapter.py:407-427 | a commit whose acknowledgement is lost can lose its file |
| `Publication.RegisteringDuringASweepLosesTheFile` | business_systems/catalog/shopdeck_adapter.py:456-529 | an artifact registered during a sweep can lose its file |
| `Publication.AForcedSweepLosesTheFile` | business_systems/catalog/shopdeck_adapter.py:460-482 | a forced sweep can take the file of an artifact within its lease |
| `Publication.ShopDeckAdapter.GeneratePublicationArtifact` | business_systems/catalog/shopdeck_adapter.py:361-440 | one uninterrupted publication: committed row, promoted products and final file; or no file left, and a committed row just when the commit took effect unacknowledged and the handler could not mark it |
| `Publication.ShopDeckAdapter.CleanupUncommittedPublicationArtifacts` | business_systems/catalog/shopdeck_adapter.py:442-531 | an uninterrupted sweep, forced or not, removes exactly the stray and unleased temporary files and the final files neither committed nor leased, and fails exactly the abandoned rows |
| `Publication.SweepRemovesAll` | business_systems/catalog/shopdeck_adapter.py:497-529 | the removals of an uninterrupted sweep are steps of the interleaved protocol |
| `MediaSlots.ProjectMediaSlots` | business_systems/catalog/shopdeck_adapter.py:76-127 | the in-place slot filling equals the display order without later repeats, padded to ten |
| `MediaSlots.PlaceLead` | business_systems/catalog/shopdeck_adapter.py:96-108 | the first two slots and the indices they consume |
| `MediaSlots.FillFrom` | business_systems/catalog/shopdeck_adapter.py:111-125 | one filling loop |
| `MediaSlots.OfferKeepsFirstOccurrences` | business_systems/catalog/shopdeck_adapter.py:111-125 | the filling loop keeps exactly the first occurrences, up to ten |
| `MediaSlots.SlotsAreAPrefixOfInputs` | business_systems/catalog/shopdeck_adapter.py:91-127 | filled slots are a prefix, drawn from the inputs, without repeats from the third on |
| `MediaSlots.NothingDroppedWhenRoomRemains` | business_systems/catalog/shopdeck_adapter.py:110-127 | if the last slot is empty every non-empty input appears |
| `MediaSlots.FamilyImagesPrecedeLeftovers` | business_systems/catalog/shopdeck_adapter.py:110-125 | from the third slot on product images precede leftover SKU images |
| `MediaSlots.PresentFilters` | business_systems/catalog/shopdeck_adapter.py:89-90 | blank entries are dropped and the others keep their order |
| `MediaSlots.LeadingImages` | business_systems/catalog/shopdeck_adapter.py:96-108 | the first two slots: two SKU images, or one and the first product image, or two product images |
| `MediaSlots.ImagesKeepTheirOrder` | business_systems/catalog/shopdeck_adapter.py:110-125 | from the third slot on product images keep the order of their list, and leftover SKU images that of theirs |
| `MediaSlots.RepeatsOnlyInTheFirstTwo` | business_systems/catalog/shopdeck_adapter.py:80-108 | the documented deduplication holds exactly when the first two images of the display order differ or there are not two |
| `MediaSlots.RepeatedPrimaryImage` | business_systems/catalog/shopdeck_adapter.py:96-108 | a row whose first two slots repeat |
| `SyncEngine.UpsertReplacesPerKey` | scratch_shopdeck_canonical/backend/sync/sync_shopdeck_mcp_data.py:205-243 | each fetched key ends with exactly the fetched version, other keys are untouched |
| `SyncEngine.RefetchGrowsByTheNullKeys` | scratch_shopdeck_canonical/backend/sync/sync_shopdeck_mcp_data.py:205-243 | fetching a batch again adds one row per incomplete key, none exactly when all keys are complete |
| `SyncEngine.SyncUnit.GetCheckpoint` | scratch_shopdeck_canonical/backend/sync/sync_shopdeck_mcp_data.py:246-254 | the end of the last successful window, or one look-back before the bound; a window that starts one overlap earlier continues the chain |
| `SyncEngine.SyncUnit.UpsertRecords` | scratch_shopdeck_canonical/backend/sync/sync_shopdeck_mcp_data.py:205-243 | the staged delete and insert |
| `SyncEngine.SyncUnit.ProcessSyncUnit` | scratch_shopdeck_canonical/backend/sync/sync_shopdeck_mcp_data.py:323-354 | a run that raises changes nothing; any other moves the checkpoint to its upper bound, also when the reply has no rows and nothing is stored |
| `SyncEngine.WindowsLeaveNoGap` | scratch_shopdeck_canonical/backend/sync/sync_shopdeck_mcp_data.py:323-354 | over any runs the windows behind the checkpoint form a chain without gaps and the checkpoint is its end |
| `SyncEngine.TimelyRowsAreAskedFor` | scratch_shopdeck_canonical/backend/sync/sync_shopdeck_mcp_data.py:340-348 | a row visible within the overlap of its update time is asked for by some window |
| `SyncEngine.OverlapIsTheToleratedLateness` | scratch_shopdeck_canonical/backend/sync/sync_shopdeck_mcp_data.py:340-348 | a delay is tolerated by the windows of every chain exactly when it is at most the overlap |
| `SyncEngine.LastFetchWins` | scratch_shopdeck_canonical/backend/sync/sync_shopdeck_mcp_data.py:205-243 | the last fetch that contains a key decides what the table holds for it |
| `SyncEngine.LocalCopyIsExact` | scratch_shopdeck_canonical/backend/sync/sync_shopdeck_mcp_data.py:205-354 | over every run the table holds exactly the last version of a row if and only if a window that asked for it was answered with rows |
| `SyncEngine.LocalCopyConverges` | scratch_shopdeck_canonical/backend/sync/sync_shopdeck_mcp_data.py:205-354 | some window asks for a timely row; the row arrives if one of these is answered with rows, and otherwise does not |
| `SyncEngine.TimelyRowsArriveExactlyWithoutEmptyReplies` | scratch_shopdeck_canonical/backend/sync/sync_shopdeck_mcp_data.py:345-353 | every timely row of every truthful source arrives in every run exactly when no window may be answered without rows |
| `SyncEngine.ATimelyRowIsLost` | scratch_shopdeck_canonical/backend/sync/sync_shopdeck_mcp_data.py:345-353 | a run from a fresh unit after which a timely row never arrives, whatever runs follow |
| `SyncEngine.ChunkList` | scratch_shopdeck_canonical/backend/sync/sync_shopdeck_mcp_data.py:318-320 | the chunks concatenate to the list and are full but for the last |
| `EventSync.InsertKeepsFingerprintsDistinct` | scratch_shopdeck_canonical/backend/sync/sync_shopdeck_mcp_data.py:285-316 | an insertion keeps fingerprints distinct exactly when no row is already stored outside what the window query can find |
| `EventSync.FetchedFingerprintsArePresent` | scratch_shopdeck_canonical/backend/sync/sync_shopdeck_mcp_data.py:285-316 | every fetched fingerprint is stored afterwards |
| `EventSync.ReplayInsertsNothing` | scratch_shopdeck_canonical/backend/sync/sync_shopdeck_mcp_data.py:285-316 | replaying a window inserts nothing exactly when every row has a parsed creation time inside it |
| `EventSync.UnparsedEventIsDuplicated` | scratch_shopdeck_canonical/backend/sync/sync_shopdeck_mcp_data.py:285-316 | a row whose creation time does not parse is stored again by each replay |
| `EventSync.EventSyncUnit.UniqueIncoming` | scratch_shopdeck_canonical/backend/sync/sync_shopdeck_mcp_data.py:294-298 | the loop keeps the first row of each fingerprint |
| `EventSync.EventSyncUnit.ExistingFingerprints` | scratch_shopdeck_canonical/backend/sync/sync_shopdeck_mcp_data.py:300-303 | the fingerprints of the stored rows of the window |
| `EventSync.EventSyncUnit.InsertEventRecords` | scratch_shopdeck_canonical/backend/sync/sync_shopdeck_mcp_data.py:285-316 | inserts exactly the new rows and counts them |
| `EventSync.EventSyncUnit.ProcessEventSyncUnit` | scratch_shopdeck_canonical/backend/sync/sync_shopdeck_mcp_data.py:438-468 | a run that raises changes nothing; any other moves the checkpoint, also when the reply has no rows and nothing is inserted |
| `EventSync.UnfoundAmongFirsts` | scratch_shopdeck_canonical/backend/sync/sync_shopdeck_mcp_data.py:294-305 | deduplicating first and filtering after is one filter |
| `EventSync.EventsAreKeptExactlyOnce` | scratch_shopdeck_canonical/backend/sync/sync_shopdeck_mcp_data.py:438-468 | over any overlapping runs no fingerprint is stored twice and every fetched one is stored |
| `EventSync.EventWindowsLeaveNoGap` | scratch_shopdeck_canonical/backend/sync/sync_shopdeck_mcp_data.py:438-468 | the replay windows form a chain without gaps |
| `EventSync.EventsAreStoredExactlyWhenDelivered` | scratch_shopdeck_canonical/backend/sync/sync_shopdeck_mcp_data.py:438-468 | over every run an event is stored once if a window that asked for it was answered with rows, and else not at all |
| `EventSync.LateEventsArriveExactlyOnce` | scratch_shopdeck_canonical/backend/sync/sync_shopdeck_mcp_data.py:438-468 | some window asks for an event visible within the replay window; it is stored once if one of these is answered with rows |
| `EventSync.LateEventsArriveExactlyWithoutEmptyReplies` | scratch_shopdeck_canonical/backend/sync/sync_shopdeck_mcp_data.py:457-467 | every late event is stored once in every run exactly when no window may be answered without rows |
| `EventSync.ALateEventIsLost` | scratch_shopdeck_canonical/backend/sync/sync_shopdeck_mcp_data.py:457-467 | a run from a fresh unit after which a late event is never stored, whatever runs follow |
| `NdrProxy.AskedReportsAreCurrent` | scratch_shopdeck_canonical/backend/sync/sync_shopdeck_mcp_data.py:404-417 | after the batches exactly the shipments in a batch answered with rows have their current report, and no other changed |
| `NdrProxy.NdrProxyUnit.FetchReports` | scratch_shopdeck_canonical/backend/sync/sync_shopdeck_mcp_data.py:404-417 | every affected shipment is asked for, in batches; a batch that raises leaves the reports as they were, one without rows counts as answered |
| `NdrProxy.NdrProxyUnit.ProcessNdrProxyUnit` | scratch_shopdeck_canonical/backend/sync/sync_shopdeck_mcp_data.py:357-435 | a run that raises nowhere moves both checkpoints to one bound, with or without rows, and brings exactly the answered reports up to date; any other changes nothing |
| `NdrProxy.ProxyWindowsLeaveNoGap` | scratch_shopdeck_canonical/backend/sync/sync_shopdeck_mcp_data.py:357-435 | over any runs the two checkpoints stay together and the windows of either query form a chain without gaps |
| `NdrProxy.TimelyChangesAreAskedFor` | scratch_shopdeck_canonical/backend/sync/sync_shopdeck_mcp_data.py:370-417 | a shipment that changes in either table, visibly within the overlap, is asked for by some run if that table's windows are answered with rows |
| `NdrProxy.ReportsAreExact` | scratch_shopdeck_canonical/backend/sync/sync_shopdeck_mcp_data.py:404-417 | over every run a shipment's last report is here exactly when a batch with the shipment was answered with rows once the report was there |
| `NdrProxy.ReportsConverge` | scratch_shopdeck_canonical/backend/sync/sync_shopdeck_mcp_data.py:357-435 | once a change has been visible long enough the shipment's report is the last one, if every query was answered with rows |
| `NdrProxy.ReportsArriveExactlyWithoutEmptyReplies` | scratch_shopdeck_canonical/backend/sync/sync_shopdeck_mcp_data.py:380-417 | every settled report arrives in every run exactly when neither proxy query nor any batch may be answered without rows |
| `NdrProxy.AReportStaysStale` | scratch_shopdeck_canonical/backend/sync/sync_shopdeck_mcp_data.py:380-417 | for each of the three a run in which one such reply keeps a report away |
| `TableOrder.TopologicalSort` | scripts/teardown_test_debris.py:32-84 | a permutation with dependents first, or a cycle reported exactly when the restricted graph has one |
| `TableOrder.FilterGraph` | scripts/teardown_test_debris.py:33-37 | the graph restricted to the given tables |
| `TableOrder.CountReferences` | scripts/teardown_test_debris.py:65-68 | each table's number of dependents |
| `TableOrder.StartQueue` | scripts/teardown_test_debris.py:70-71 | the tables nothing depends on |
| `TableOrder.RemoveEdges` | scripts/teardown_test_debris.py:75-79 | removing a table's edges queues exactly those it releases |
| `TableOrder.Drained` | scripts/teardown_test_debris.py:72-82 | when the queue is empty, tables are missing exactly when there is a cycle |
| `TableOrder.LeftoverHasCycle` | scripts/teardown_test_debris.py:81-82 | a set in which every table is referenced from inside has a cycle |
| `TableOrder.OrderedGraphHasNoCycle` | scripts/teardown_test_debris.py:81-84 | a graph that can be ordered has none |
| `TableOrder.SelfReferenceIsACycle` | scripts/teardown_test_debris.py:65-82 | a self-reference is one |
| `RetryQueue.Repository.Enqueue` | src/infrastructure/adapters/customer_engagement/repository.py:302-330 | a second enqueue under an id changes nothing |
| `RetryQueue.Repository.ClaimPending` | src/infrastructure/adapters/customer_engagement/repository.py:332-373 | claims the claimable record that has been due longest, or there is none |
| `RetryQueue.Repository.Mark` | src/infrastructure/adapters/customer_engagement/repository.py:375-418 | a settling write takes effect exactly for the holder of the claim token |
| `RetryQueue.Repository.ProcessNext` | src/workers/outbound_writeback_worker.py:100-246 | one pass by the reply: acceptance or a stored conflict delivers, any other client error but 429 is given up, everything else is retried after its wait, or given up at the eighth failure |
| `RetryQueue.RepliesSettleRecords` | src/workers/recording_fetch_worker.py:91-177 | the same table for either worker; the recording worker delivers on any conflict and gives up on no reply |
| `RetryQueue.DeadLettersHaveACause` | src/workers/outbound_writeback_worker.py:117-246 | over every run a record is dead-lettered only by a definite refusal or after eight counted transient failures |
| `RetryQueue.StepKeepsInv` | src/workers/outbound_writeback_worker.py:100-246 | every step of every interleaved worker keeps the invariant |
| `RetryQueue.DeliveredIsHeld` | src/workers/outbound_writeback_worker.py:117-176 | a record is DELIVERED only if the server holds a result for its engagement |
| `RetryQueue.AttemptsAreCountedOpenOrLost` | src/workers/outbound_writeback_worker.py:117-246 | over every run each delivery attempt that ends transiently is counted by its record, still open, or lost because its settling write did not apply under its token |
| `RetryQueue.TransientAttemptsAreBounded` | src/workers/outbound_writeback_worker.py:205-226 | at most eight delivery attempts end transiently, and one more for each loss; at most seven are retried |
| `RetryQueue.EightAttemptsExactlyWithoutLosses` | src/workers/outbound_writeback_worker.py:205-226 | the promised bound of eight holds for all runs with at most a given number of losses exactly when that number is zero |
| `RetryQueue.CrashesAreNotCounted` | src/workers/outbound_writeback_worker.py:100-246 | for every n a run with n transient attempts of one record, none of them counted |
| `RetryQueue.TerminalRecordsChangeOnlyAfterALostAcknowledgement` | src/workers/outbound_writeback_worker.py:117-203 | the only step that changes a terminal record is the handler after a success write that raised although it took effect |
| `RetryQueue.TerminalRecordsNeverChange` | src/workers/outbound_writeback_worker.py:100-246 | terminal records never change when success writes are acknowledged |
| `RetryQueue.LostAcknowledgementReopensADeliveredRecord` | src/workers/outbound_writeback_worker.py:117-203 | the run in which a delivered record becomes pending again |
| `RetryQueue.ScheduledDelaysTotalAtMost123Minutes` | src/workers/outbound_writeback_worker.py:226-241 | without a Retry-After the delays of a record total at most 123 minutes |
| `RetryQueue.RunsStayOnSchedule` | src/workers/recording_fetch_worker.py:164-177 | the same schedule for every run of either worker |
| `QueuePoller.StepConservesSlots` | src/workers/ndr_queue_poller.py:60-140 | every step conserves slots; one is lost exactly by a stop during a claim |
| `QueuePoller.EverySlotIsAccountedFor` | src/workers/ndr_queue_poller.py:60-140 | free permits, the loop's slot, working tasks and lost slots make up the capacity; acquisitions match releases and holders |
| `QueuePoller.ReleasedTasksStayReleased` | src/workers/ndr_queue_poller.py:121-140 | a task that has released its slot never releases again |
| `QueuePoller.EachSlotIsReleasedOnce` | src/workers/ndr_queue_poller.py:121-140 | over any run no task releases its slot twice |
| `QueuePoller.NoClaimsOutsideHours` | src/workers/ndr_queue_poller.py:76-106 | without an iteration inside calling hours no slot is taken and nothing is claimed |
| `QueuePoller.SlotsAreLostOnlyByStoppingAClaim` | src/workers/ndr_queue_poller.py:60-106 | no slot is lost exactly when no stop falls into a claim |
| `QueuePoller.WedgedForever` | src/workers/ndr_queue_poller.py:76-118 | once every slot is lost nothing is claimed again, restarts included |
| `QueuePoller.OneStopWedgesASequentialPoller` | src/workers/ndr_queue_poller.py:60-106 | with capacity one a single such stop is enough |
| `QueuePoller.WaitForCallCompletion` | src/workers/ndr_queue_poller.py:321-350 | the wait ends within one poll step of its bound, by the first lookup before the bound that finds the call ended or raises, or gives up |
| `QueuePoller.Pipe.DispatchCall` | src/workers/ndr_queue_poller.py:238-306 | the six dispatch effects are attempted in order up to the first failure |
| `QueuePoller.Pipe.ProcessClaimedItem` | src/workers/ndr_queue_poller.py:164-319 | the trace of an item; an engagement is returned exactly when all six effects succeeded |
| `QueuePoller.DispatchEffectsAreAPrefix` | src/workers/ndr_queue_poller.py:164-319 | for every pattern of failures the dispatch effects are a prefix of the six, and the retry report comes at most once and last |
| `QueuePoller.TraceVerdict` | src/workers/ndr_queue_poller.py:164-319 | the first call that fails is the last before the retry report; otherwise all planned calls are made, and a missing phone is reported |
| `QueuePoller.NdrQueuePoller.StartPolling` | src/workers/ndr_queue_poller.py:54-58 | starts the loop once |
| `QueuePoller.NdrQueuePoller.StopPolling` | src/workers/ndr_queue_poller.py:60-74 | a stop cancels the loop, and with it the slot of an open claim |
| `QueuePoller.NdrQueuePoller.PollOnce` | src/workers/ndr_queue_poller.py:76-119 | one iteration: outside hours it naps, without a permit it waits, an item takes a permit for its task, and anything else gives the permit back |
| `QueuePoller.NdrQueuePoller.ProcessTask` | src/workers/ndr_queue_poller.py:121-140 | the task releases its slot exactly once, whatever fails |
| `Confirmation.SuspendedActions.SuspendAction` | src/infrastructure/adapters/postgres_memory.py:73-83 | inserts a pending row, or fails on a nonce in use |
| `Confirmation.SuspendedActions.RetrieveSuspendedAction` | src/infrastructure/adapters/postgres_memory.py:85-123 | the suspended request, exactly when the row is of this session and not both pending and past its expiry |
| `Confirmation.SuspendedActions.AtomicConsumeAction` | src/infrastructure/adapters/postgres_memory.py:125-144 | consumes a pending row of the session strictly before its expiry, once |
| `Confirmation.EvaluateRequest` | src/brain_core/decision/decision_engine.py:18-49 | an action is suspended and never proceeds; everything else proceeds |
| `Confirmation.ProcessIntent` | src/brain_core/decision/decision_engine.py:51-86 | confirmed exactly when the row was retrieved and then consumed; a pending row of the session is confirmed with its request before its expiry |
| `Confirmation.EvaluateEvidence` | src/brain_core/decision/decision_engine.py:88-157 | whatever shape the data has, at most one recommendation, for the first item with open exceptions, none for an action, and an error for data that cannot be scanned |
| `Confirmation.FirstDecisive` | src/brain_core/decision/decision_engine.py:110-120 | the first item that has open exceptions or raises, none exactly when there is none |
| `Confirmation.ProcessQuery` | src/brain_core/orchestration/rabta_orchestrator.py:85-175 | one uninterrupted turn with its own clock readings runs an action only as a confirmed suspension, and recommends only after something else |
| `Confirmation.Executes` | src/brain_core/orchestration/rabta_orchestrator.py:85-128 | an action leaves a turn only as the request retrieved and consumed by its confirmation |
| `Confirmation.TurnsExecute` | src/brain_core/orchestration/rabta_orchestrator.py:85-128 | a confirmation runs its fresh suspended request, a question itself, and an action or a rejection nothing |
| `Confirmation.EvaluationVerdict` | src/brain_core/decision/decision_engine.py:100-157 | the first decisive item of whatever shape the data has decides: a suspension under the new nonce, or an error |
| `Confirmation.ConfirmationsExecute` | src/brain_core/orchestration/rabta_orchestrator.py:85-152 | in every reachable state a fresh turn that confirms a pending suspension of its session before its expiry executes exactly its request |
| `Confirmation.RejectionsConsume` | src/brain_core/decision/decision_engine.py:80-86 | and one that rejects it consumes it and runs nothing |
| `Confirmation.StepKeepsInv` | src/brain_core/orchestration/rabta_orchestrator.py:85-152 | every step of every interleaved turn keeps the invariant |
| `Confirmation.ExecutedActionsWereConfirmed` | src/brain_core/orchestration/rabta_orchestrator.py:85-152 | an executed action was confirmed in its session strictly before expiry, is the suspended request, and was not rejected first |
| `Confirmation.AtMostOnceExecution` | src/infrastructure/adapters/postgres_memory.py:125-144 | each suspension is executed at most once |
| `Confirmation.RejectionIsFinal` | src/brain_core/decision/decision_engine.py:80-86 | a suspension whose rejection consumed first is never executed |
| `Confirmation.LateRejectionDoesNotStopAnExecution` | src/brain_core/decision/decision_engine.py:64-86 | a rejection answered after the confirmation's consume does not stop the execution |
| `Confirmation.TheRaceIsReachable` | src/brain_core/decision/decision_engine.py:64-86 | a run that reaches that situation |
| `AzmStore.PutIsSound` | src/azm/ingestion/ingestion_utils.py:138-430 | check-then-write keeps natural keys and ids unique and every row with its id |
| `AzmInvariants.ExecKeeps` | src/azm/ingestion/universal_ingester.py:122-239 | every write of a run keeps the store sound and linked and loses nothing |
| `AzmInvariants.WritesAreInOrder` | src/azm/ingestion/universal_ingester.py:122-239 | the namespace is opened first and only then, and every field comes under its own view |
| `AzmInvariants.EveryHistoryKeepsTheStore` | src/azm/ingestion/universal_ingester.py:98-268 | over any configurations and faults keys stay unique, links exist, and ids are stable |
| `AzmInvariants.OneStableIdPerConcept` | src/azm/ingestion/ingestion_utils.py:177-226 | a concept key has one id, for ever |
| `AzmInvariants.FailedRunsAreUndoneExactlyWithoutCountFaults` | src/azm/ingestion/universal_ingester.py:241-268 | whatever faults strike the writes, for all stores and configurations a FAILED run leaves the store unchanged exactly when the counts after the commit cannot raise |
| `AzmInvariants.FailureAfterTheCommit` | src/azm/ingestion/universal_ingester.py:241-268 | such a run |
| `AzmInvariants.RepeatedContractsAreSkipped` | src/azm/ingestion/ingestion_utils.py:37-61 | a completed contract of a source is skipped and changes nothing in every later state |
| `AzmInvariants.SkippedExactlyForAKnownDigest` | src/azm/ingestion/ingestion_utils.py:37-61 | after any history an ingestion is skipped exactly when a run of its source with the digest of its joined contracts committed |
| `AzmInvariants.NewContractsAreSkippedExactlyWhenResplit` | src/azm/ingestion/universal_ingester.py:106-116 | with digests that never collide, a new pair of contracts is skipped exactly when a committed pair of its source, split elsewhere, joins to the same text |
| `AzmInvariants.SplitsShareAHash` | src/azm/ingestion/universal_ingester.py:106-116 | a run from the empty store in which that happens and a concept never arrives |
| `AzmInvariants.CommittedRunsAreComplete` | src/azm/ingestion/universal_ingester.py:130-179 | a committed run holds every concept, and its relationships end at concepts of the configuration |
| `AzmArrival.LastDefinitionsArrive` | src/azm/ingestion/universal_ingester.py:122-239 | after a committed run each concept with its aliases, relationship, view, field with its mapping, and external key is in the store as its last definition says, between the right rows |
| `AzmArrival.EveryDefinitionArrives` | src/azm/ingestion/universal_ingester.py:122-239 | when nothing is defined twice, so is every definition of the configuration |
| `AzmArrival.CommittedConfigurationIsStored` | src/azm/ingestion/universal_ingester.py:122-239 | after a committed run of a configuration without repeats each concept with its aliases, relationship, view, field under its view with its mapping, and external key of the configuration is in the store |
| `AzmArrival.WritesAreWellDefined` | src/azm/ingestion/universal_ingester.py:122-239 | a configuration without repeated definitions gives writes none of which redefines another |
| `AzmOutcome.UnhinderedRunsCommit` | src/azm/ingestion/universal_ingester.py:122-251 | without faults, and with identifiers in use nowhere, a run commits exactly when its relationships end at its own concepts |
| `AzmOutcome.IngestionVerdict` | src/azm/ingestion/universal_ingester.py:98-268 | what an unhindered ingestion of a new contract answers |
| `AzmIngestion.UniversalAzmIngester.AddConcepts` | src/azm/ingestion/universal_ingester.py:130-154 | the concept loop |
| `AzmIngestion.UniversalAzmIngester.AddRelationships` | src/azm/ingestion/universal_ingester.py:156-179 | the relationship loop |
| `AzmIngestion.UniversalAzmIngester.AddViews` | src/azm/ingestion/universal_ingester.py:192-217 | the view loop with its fields |
| `AzmIngestion.UniversalAzmIngester.AddExternals` | src/azm/ingestion/universal_ingester.py:219-239 | the external mapping loop |
| `AzmIngestion.UniversalAzmIngester.IsAlreadyIngested` | src/azm/ingestion/ingestion_utils.py:37-61 | whether a completed run has this source and hash |
| `AzmIngestion.UniversalAzmIngester.Ingest` | src/azm/ingestion/universal_ingester.py:98-268 | carries out one ingestion and keeps the store; a completed one leaves the whole configuration there |
| `ProvenanceFirewall.ClassifyScenario` | src/intelligence_domains/catalog_intelligence/orchestrator.py:80-105 | scenario B exactly for an existing active family, never A |
| `ProvenanceFirewall.ReusedExactlyWhenVouched` | src/intelligence_domains/catalog_intelligence/orchestrator.py:111-394 | a field becomes reused exactly when it was proposed, the family is verified, and the referenced record meets every condition of that field |
| `ProvenanceFirewall.ReuseVerdict` | src/intelligence_domains/catalog_intelligence/orchestrator.py:111-394 | a proposal is reused exactly when the family is verified and the last record with its reference supports it for the draft's size and pack, and is unknown otherwise |
| `ProvenanceFirewall.JudgementVerdict` | src/intelligence_domains/catalog_intelligence/orchestrator.py:219-394 | the reason given is the first condition that fails |
| `ProvenanceFirewall.FirewallGuarantee` | src/intelligence_domains/catalog_intelligence/orchestrator.py:111-394 | no operational field stays a proposal, the two prices are unknown, everything else is untouched |
| `ProvenanceFirewall.FieldsAreIndependent` | src/intelligence_domains/catalog_intelligence/orchestrator.py:214-394 | the fields do not affect each other |
| `ProvenanceFirewall.SecondApplicationChangesNothing` | src/intelligence_domains/catalog_intelligence/orchestrator.py:111-394 | a second application changes nothing, whatever it is given |
| `ProvenanceFirewall.UnverifiedFamiliesReuseNothing` | src/intelligence_domains/catalog_intelligence/orchestrator.py:80-215 | new reuse implies a verified active family |
| `ProvenanceFirewall.ReuseCarriesTheCode` | src/intelligence_domains/catalog_intelligence/orchestrator.py:177-256 | the evidence of a newly reused field carries the verified product code exactly when the verification has one |
| `ProvenanceFirewall.ReuseStaysInTheFamily` | src/intelligence_domains/catalog_intelligence/orchestrator.py:80-256 | for a verified family every run keeps to its product code exactly when the verification names one |
| `ProvenanceFirewall.MissingCodesMatch` | src/intelligence_domains/catalog_intelligence/orchestrator.py:177-256 | a run that reuses a value of a record without a code, after a verification without one |
| `ProvenanceFirewall.EvaluateField` | src/intelligence_domains/catalog_intelligence/orchestrator.py:219-285 | one field and its diagnosis |
| `ProvenanceFirewall.BlockProposals` | src/intelligence_domains/catalog_intelligence/orchestrator.py:198-213 | scenarios A and D drop the proposals |
| `ProvenanceFirewall.EvaluateProposals` | src/intelligence_domains/catalog_intelligence/orchestrator.py:214-394 | scenarios B and C judge each field on its own and diagnose every proposal |
| `ProvenanceFirewall.EveryProposalIsDiagnosed` | src/intelligence_domains/catalog_intelligence/orchestrator.py:214-394 | each judged proposal has a diagnosis, and it is that of its judgement unless an older one without evidence stands |
| `ProvenanceFirewall.DiagnosisVerdict` | src/intelligence_domains/catalog_intelligence/orchestrator.py:260-285 | a diagnosis names the referenced record when it is there and was looked at |
| `ProvenanceFirewall.EvaluateProvenancePromotion` | src/intelligence_domains/catalog_intelligence/orchestrator.py:111-394 | the draft and its diagnoses after the firewall |
| `SemanticMapper.SemanticEvidenceMapper.MapLeaf` | src/brain_core/semantics/mapper.py:60-97 | one leaf is recorded, or the append fails |
| `SemanticMapper.SemanticEvidenceMapper.MapRecursive` | src/brain_core/semantics/mapper.py:44-97 | the recursive walk records the leaves in order |
| `SemanticMapper.OneMoreHit` | src/brain_core/semantics/mapper.py:76-91 | what one more leaf does to a concept |
| `SemanticMapper.TheWalkMeetsEveryLeaf` | src/brain_core/semantics/mapper.py:44-58 | the walk meets exactly the leaves of the payload, at any depth, each with its last key and dotted path |
| `SemanticMapper.EveryLeafIsRecordedOnce` | src/brain_core/semantics/mapper.py:44-97 | every leaf at any depth is recorded exactly once |
| `SemanticMapper.VerdictByHits` | src/brain_core/semantics/mapper.py:76-91 | one hit maps, two are ambiguous, from three on the concept is both |
| `SemanticMapper.ThreeLeavesOfOneConcept` | src/brain_core/semantics/mapper.py:44-97 | a nested payload with three such leaves and its result |

## Left out

- Language-model calls, prompts and response parsing, HTTP routes, authentication, connection handling, the frontend and operator scripts: plumbing without a decided meaning.
- Message texts and logging; the warnings inside a service's response, which are those of the report; the list of errors a closed gate returns on a transition, whose order depends on the row order of a query.
- CSV compilation, except the image slots; number formatting; JSON encoding.
- Upper-casing of lookup keys outside ASCII.
- CatalogModel.StorableSku: treats every over-long text as an error; PostgreSQL silently cuts trailing spaces off instead.
- Clock columns and the update-time trigger of the catalog; writes to the channel mapping, which the service does not make.
- CatalogService.CatalogService.ResolveSku: is given the UUID parser's verdict on the key; the master row is the SKU with its product, without the channel columns.
- CatalogVerdicts.PublicationIsAllOrNothing: takes fetch and commit as one step; LateCommitVerdict is about the two apart.
- CatalogService.CatalogService.PublishEligible: carries out fetch, audit and commit without another call in between.
- Publication.ShopDeckAdapter.GeneratePublicationArtifact: keeps the promoted products as a set; what promotion does to their rows is the catalog's `Commit`.
- SyncEngine.SyncUnit.UpsertRecords: takes rows after the cleaning of their columns and the look-up of missing SKU ids by product name; tables without a primary key and rows without any known column are not part of this model.
- TableOrder.TopologicalSort: takes distinct tables, as the one caller passes; for a repeated table the code releases its references twice.
- Retention and index maintenance of the sync database, advisory-lock numbering, and the notification that follows a report upsert.
- The depth-first part of the deletion order, whose result the code does not use.
- QueuePoller.NdrQueuePoller.StopPolling: ends at the cancelled loop; waiting for the active tasks, whose steps interleave, is not part of it.
- The start of a new poll loop while a stopped one still winds down; cancellation of dispatch tasks; the single-shot path that bypasses the slots.
- QueuePoller.Pipe.ProcessClaimedItem: makes no claim about the number of phone calls placed, which rests on the provider executor.
- The content of recommendations beyond the proposed request; the memory of past turns; the unused second pass of the evidence loop.
- AzmStore.PutIsSound: covers the primary keys and natural keys; other column constraints are among the faults that may strike any write.
- Provenance rows beyond their ids, lifecycle and version columns, and time stamps of the ingestion tables.
- ProvenanceFirewall.EvaluateProvenancePromotion: infinite and not-a-number values of `float` count as failed conversions.
- SemanticMapper.SemanticEvidenceMapper.MapLeaf: an append to an ambiguous entry whose single value happens to be a list succeeds in the code and is an error here; payloads with distinct paths that are no concept ids never reach it.
