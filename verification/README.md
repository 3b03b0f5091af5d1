# Mini ERP: a verified model

The mini ERP runs a packaging plant: it weighs and splits rolls of raw material, prepares
materials by formula, balances returned paint, keeps roll stock, caches order images, watches its
own health and stores credentials. This project models the parts where a mistake costs material,
money or access, and proves what they promise, for every input and for every run.

Verify everything with `dafny verify dfyconfig.toml`.

## Components

| modules | subject |
|---|---|
| `Text`, `Numerals`, `Lists`, `Sets` | trimming, ASCII case, splitting, digit strings, totals, set sizes |
| `DecimalAmount`, `PaintBalance`, `PaintItems`, `PaintMerging` | exact decimals in units of 10^-12, the 70/30 paint balance, item normalization and what it does to the balance |
| `CacheEviction`, `ImageCache` | the bounded, single-flight image cache as an interleaving protocol |
| `DoctorLatch`, `SystemDoctor` | the incident latch, its bounded event log and aggregate status |
| `FixedPoint`, `Preparation` | six-place quantities, half-up shares of an order, formulas |
| `RawSplit`, `SplitIssue`, `SplitName` | the cutting plan, weight balance, discrepancy reports, roll names |
| `OrderLayout`, `OrderEdit`, `RollNames` | lanes and lane groups, material locks, and how roll names meet the locks |
| `RollStock` | the receipt and stock tables as atomic transactions |
| `AuthVault`, `AuthStore` | credentials, the vault of recoverable codes, the one-time migration |

Text is a sequence of Unicode scalar values, as in the source. Machine integers are modelled as
unbounded integers with every check, saturation and cast written out. Where the source updates
state, a specification function or relation gives the new state and a method or class is proved
equal to it; the theorems are about the specification and therefore about both. Error variants
and message texts are not told apart unless a result depends on them.

Four facts about the code that a reader may not expect are proved here, each with a concrete input
and the exact condition:

- The normal split and the discrepancy report are not complementary on every text: a balancing
  waste of `1.` is taken by both and one of `1,0` by neither (`SplitIssue.NotComplementary`).
  `SplitIssue.Complementary` gives the exact condition.
- A cache getter that failed removes the entry of its own cell even if another getter has
  meanwhile filled that cell, because removal goes by cell identity; `ImageCache.FilledEntryRemoved`
  is such a run, and `ImageCache.CleanupRemoves` says exactly which entries a cleanup removes.
- Labels of a paint item that trim to the same text are merged, and the amounts of all but the last
  are lost. A successful calculation survives normalization if and only if every amount lost from a
  colour or solvent item is zero (`PaintMerging.NormalizationPreservesCalculation`);
  `PaintMerging.OneAndOneDiffer` is an item for which it does not.
- Submitting a receipt again makes a roll available even if an order holds or has consumed it:
  `RollStock.ConsumedIsReleased` is such a run, and `RollStock.OnlySubmitReleases` and
  `RollStock.ReservationHolds` say exactly when it happens.

## Model

| member | source | states |
|---|---|---|
| `DecimalAmount.ReadGrammar` | src/core/returned_paint_calculations.rs:186-213 | the reader accepts exactly the texts of the decimal and scientific grammar and splits them uniquely |
| `DecimalAmount.Parse` | src/core/returned_paint_calculations.rs:183-280 | the digit loop with its checked i128 arithmetic returns value x 10^12 exactly when the value is at most MAX and needs at most the allowed fraction digits; zero is accepted with any exponent |
| `DecimalAmount.ParseSpelling` | src/core/returned_paint_calculations.rs:214-280 | trailing-zero removal, the exponent shift and every overflow check agree with the rational value of the spelling |
| `DecimalAmount.ReadSignificand` | src/core/returned_paint_calculations.rs:232-246 | the significand loop fails exactly when the digits exceed i128 |
| `DecimalAmount.ShiftedExact` | src/core/returned_paint_calculations.rs:247-279 | checked powers and products reject nothing that is storable |
| `DecimalAmount.SameValueSameAmount` | src/core/returned_paint_calculations.rs:183-280 | equal rational values give equal amounts, however they are spelled |
| `DecimalAmount.DisplayRoundTrip` | src/core/returned_paint_calculations.rs:312-322 | parsing the printed text of any storable amount gives the amount back |
| `DecimalAmount.DisplayInjective` | src/core/returned_paint_calculations.rs:312-322 | different storable amounts print differently |
| `DecimalAmount.AmountPlaces` | src/core/returned_paint_calculations.rs:175-181 | fewer allowed places accept exactly the amounts that are multiples of the coarser unit |
| `DecimalAmount.DisplayInput` | src/core/returned_paint_calculations.rs:282-286 | a printed input amount is again a valid input with the same amount |
| `DecimalAmount.AmountExact` | src/core/returned_paint_calculations.rs:183-280 | an accepted text denotes exactly its amount, as a fraction |
| `DecimalAmount.NormalizeStoredIdempotent` | src/core/returned_paint_calculations.rs:356-360 | normalizing a stored decimal twice is normalizing it once |
| `DecimalAmount.NormalizeStoredByValue` | src/core/returned_paint_calculations.rs:356-360 | two readable texts normalize to the same text if and only if they have the same value or neither is storable |
| `PaintBalance.CalculateReturnedPaint` | src/core/returned_paint_calculations.rs:93-157 | the loops over items and values with their checked totals compute the specified balance or the specified error |
| `PaintBalance.ScanItems` | src/core/returned_paint_calculations.rs:96-124 | the loop over the items gives the totals of both usages or the first error |
| `PaintBalance.ScanExact` | src/core/returned_paint_calculations.rs:99-124 | scanning succeeds if and only if every entry is readable and the six totals fit, and then gives those totals |
| `PaintBalance.TotalTens` | src/core/returned_paint_calculations.rs:175-177 | every total of 11-place inputs is a multiple of ten units |
| `PaintBalance.FinishExact` | src/core/returned_paint_calculations.rs:126-157 | the 70% and 30% steps are exact on such totals, and the balance succeeds if and only if all eight results are non-negative and storable |
| `PaintBalance.CalculateExact` | src/core/returned_paint_calculations.rs:93-157 | the whole calculation succeeds exactly for readable items with an acceptable balance, and prints that balance |
| `PaintBalance.PaintConserved` | src/core/returned_paint_calculations.rs:126-157 | read back, alcohol plus paint of a usage is everything put in, what was used is rasxot minus astatka, and the mix splits 7 to 3 |
| `PaintBalance.CalculateOutcome` | src/core/returned_paint_calculations.rs:93-157 | on readable items the outcome, error included, is decided by the six totals: an overflow is invalid, then a balance below zero is negative, then an unstorable amount is invalid |
| `PaintBalance.HasMinimumValuesPerUsage` | src/core/returned_paint_calculations.rs:12-36 | the early exit agrees with the full counts per usage |
| `PaintItems.NormalizeItemsIdempotent` | src/core/returned_paint_calculations.rs:371-420 | normalizing normalized items changes nothing |
| `PaintMerging.ItemLoses` | src/core/returned_paint_calculations.rs:398-408 | for every item and bucket, the amounts entered are the amounts kept plus the amounts of the overwritten entries |
| `PaintMerging.NormalizationPreservesCalculation` | src/core/returned_paint_calculations.rs:371-420 | raw and normalized items have the same outcome, errors included, if every overwritten amount of a colour or solvent item is zero, and a successful calculation only then |
| `PaintMerging.NormalizedOutcome` | src/core/returned_paint_calculations.rs:371-420 | the normalized items give the outcome of the six totals minus what is overwritten in each, so an invalid value stays one exactly when those remaining totals overflow or cannot be stored, and a negative balance exactly when they do not overflow and are negative |
| `PaintMerging.TwoLabelsDiffer` | src/core/returned_paint_calculations.rs:398-408 | a colour item with the labels ` a` and `a` calculates differently once normalized, whatever the amounts |
| `PaintMerging.OneAndOneDiffer` | src/core/returned_paint_calculations.rs:398-408 | the same for two amounts of one |
| `PaintMerging.LastOfAlikeKeysWins` | src/core/returned_paint_calculations.rs:398-408 | an entry is kept if and only if no later label trims to the same text |
| `CacheEviction.CachedBytes` | src/core/order_image_cache.rs:108-109 | the byte count is the sum over all filled entries |
| `CacheEviction.Oldest` | src/core/order_image_cache.rs:111-112 | the victim is a filled entry with the smallest stamp, or there is none |
| `CacheEviction.Evict` | src/core/order_image_cache.rs:107-115 | the loop ends and removes filled entries only, oldest first, no more than needed, until the limits hold or nothing filled is left |
| `CacheEviction.EvictedUnique` | src/core/order_image_cache.rs:107-115 | there is only one map that eviction may leave |
| `CacheEviction.EvictedExactly` | src/core/order_image_cache.rs:107-115 | an entry goes if and only if it is filled and the map would be over the limits even without every filled entry used before it |
| `ImageCache.NextKeeps` | src/core/order_image_cache.rs:63-117 | every step of every interleaving keeps the cache invariant |
| `ImageCache.RunInv` | src/core/order_image_cache.rs:63-117 | the invariant holds in every state of every run |
| `ImageCache.CacheBounded` | src/core/order_image_cache.rs:107-115 | after each cleanup the cached bytes are at most 64 MiB, the map has at most 512 entries or only unfilled ones, and stamps are pairwise distinct |
| `ImageCache.EntriesBounded` | src/core/order_image_cache.rs:65-115 | in every state of every run, between cleanups too, the map has at most 512 entries plus one per call in flight |
| `ImageCache.CleanupRemoves` | src/core/order_image_cache.rs:100-115 | a cleanup removes exactly the entry of its own cell when it brought no image, filled or not, and the entries that have to make room; within the limits nothing else |
| `ImageCache.CleanupEvictsOldest` | src/core/order_image_cache.rs:107-115 | what makes room was used before every filled entry that stays |
| `ImageCache.FilledEntryRemoved` | src/core/order_image_cache.rs:102-106 | a run in which a failed getter removes an entry that another getter has filled |
| `ImageCache.ReturnsGenuineImage` | src/core/order_image_cache.rs:75-99 | a returned image is what the store returned for exactly the same owner, id and size class, read after the lookup time minus the TTL |
| `ImageCache.LoggedReadHappened` | src/core/order_image_cache.rs:80-83 | each recorded read is what the store held at an earlier step of the run |
| `ImageCache.UnfilledIsInFlight` | src/core/order_image_cache.rs:100-106 | an entry that is missing or not filled always has a getter in flight |
| `ImageCache.SingleFlight` | src/core/order_image_cache.rs:75-99 | two getters never load the same cell at once |
| `ImageCache.FilledOnce` | src/core/order_image_cache.rs:75-99 | what a cell holds never changes |
| `ImageCache.HitOnlyJoins` | src/core/order_image_cache.rs:65-75 | a getter that found a filled cell never reads the store and returns exactly what the cell held |
| `ImageCache.OrderImageCache.constructor` | src/core/order_image_cache.rs:44-53 | a new cache is an initial state of the protocol |
| `ImageCache.OrderImageCache.Lookup` | src/core/order_image_cache.rs:65-74 | the first locked section is the lookup step: expired entries go, the key gets the next stamp, a fresh cell if it was missing |
| `ImageCache.OrderImageCache.Cleanup` | src/core/order_image_cache.rs:100-115 | the second locked section is the cleanup step: removal by cell identity, then eviction |
| `DoctorLatch.LatchIsIncident` | src/core/system_doctor.rs:350-397 | after any samples the latch is critical if and only if some window of failed samples has no later window of good ones; the counters are the current run lengths |
| `DoctorLatch.IncidentStep` | src/core/system_doctor.rs:358-386 | how one more sample changes the windowed definition |
| `DoctorLatch.NeutralKeepsIncident` | src/core/system_doctor.rs:352-357 | neutral and unknown samples keep the verdict and break both windows |
| `SystemDoctor.RunChecks` | src/core/system_doctor.rs:257-331 | after any commands each of the three checks is the latch of exactly its own samples |
| `SystemDoctor.RunConsistent` | src/core/system_doctor.rs:157-331 | in every reachable state the first three checks stay database, memory and disk, protection is memory or disk critical, and the status is the aggregate of the checks |
| `SystemDoctor.ProtectedMeansIncident` | src/core/system_doctor.rs:324-327 | protection means an incident in the memory or disk history |
| `SystemDoctor.RunEvents` | src/core/system_doctor.rs:203-206 | the stored events are the last 32 of every transition ever |
| `SystemDoctor.LogReplays` | src/core/system_doctor.rs:302-317 | the transitions of each rule chain from its first status to its current one |
| `SystemDoctor.EventsReplay` | src/core/system_doctor.rs:320-323 | so do the stored ones, from some status on |
| `SystemDoctor.UpdateChecks` | src/core/system_doctor.rs:295-318 | the loop updates the three checks and logs their transitions in order |
| `SystemDoctor.DomainPosition` | src/core/system_doctor.rs:159-174 | the domain check is always the fourth |
| `SystemDoctor.ReplaceDomain` | src/core/system_doctor.rs:159-187 | the domain check is appended once and replaced from then on |
| `SystemDoctor.Doctor.constructor` | src/core/system_doctor.rs:234-255 | a new doctor has a normalized policy and three starting checks |
| `SystemDoctor.Doctor.Observe` | src/core/system_doctor.rs:257-331 | the locked section is the observe step of the specification |
| `SystemDoctor.Doctor.Publish` | src/core/system_doctor.rs:157-209 | the locked section is the domain step |
| `SystemDoctor.Doctor.PublishWifiReport` | src/core/system_doctor.rs:211-232 | the locked section is the Wi-Fi step |
| `SystemDoctor.Doctor.Protected` | src/core/system_doctor.rs:341-347 | the flag answers the windowed definition for the whole history |
| `FixedPoint.DecimalExact` | src/core/preparation.rs:58-79 | the reader returns v if and only if the trimmed text spells v millionths and v is in 1 to MAX; the i64 checks reject nothing in range |
| `FixedPoint.DecimalTextRoundTrip` | src/core/preparation.rs:81-83 | printed text reads back for exactly the amounts in 1 to MAX, for no other integer |
| `Preparation.RequiredKgExact` | src/core/preparation.rs:85-100 | a share is the exact product rounded to the nearest unit, halves up, positive, at most the order; the wide product fits and the cast loses nothing |
| `Preparation.RequiredKgRefused` | src/core/preparation.rs:95-98 | a share in range is refused exactly when the product is under half a unit |
| `Preparation.ReadLines` | src/core/preparation.rs:169-181 | the loop succeeds exactly when every line reads and no two trimmed codes are equal |
| `Preparation.ComputeQuantities` | src/core/preparation.rs:165-185 | the method computes the specified portions of 1 to 100 lines |
| `Preparation.QuantitiesSorted` | src/core/preparation.rs:165-185 | the result is a strictly sorted permutation of the lines, each portion the nearest |
| `Preparation.QuantitiesTotal` | src/core/preparation.rs:165-185 | the portions sum to within n/2 units of the order times the total percentage |
| `Preparation.QuantitiesOrderFree` | src/core/preparation.rs:182-183 | the order of the lines does not matter, success and failure alike |
| `Preparation.SortedUnique` | src/core/preparation.rs:182-183 | there is only one strictly sorted arrangement, so any sort gives it |
| `Preparation.SumPercents` | src/core/preparation.rs:460-463 | the running total never overflows and is the sum |
| `Preparation.NormalizeLines` | src/core/preparation.rs:440-474 | the method accepts exactly the readable, distinct lines that total 100% |
| `Preparation.NormalizedLinesWhole` | src/core/preparation.rs:440-474 | an accepted formula is a strictly sorted permutation that totals exactly 100% |
| `Preparation.NormalizeShares` | src/core/preparation.rs:358-386 | accepted shares come out strictly sorted by name and total exactly 100% |
| `Preparation.NormalizedSharesWhole` | src/core/preparation.rs:358-386 | shares are accepted exactly with a product code, bounded distinct names and a total of 100%; the result is strictly sorted, a permutation, and totals 100% |
| `Preparation.WholeFormulaTotal` | src/core/preparation.rs:165-185 | portions by an accepted formula sum to within n/2 units of the order |
| `RawSplit.WeighLines` | src/core/raw_material_split.rs:169-221 | the loop with its running width and early exits accepts exactly the lines that all weigh and use up the roll |
| `RawSplit.ValidateOutputs` | src/core/raw_material_split.rs:147-224 | the method computes the specified cutting plan |
| `RawSplit.PlanMaximal` | src/core/raw_material_split.rs:147-224 | outputs are legal rolls with net = gross - bobina, they fit side by side with n x 355 mm at most the width, and no further legal roll would fit |
| `RawSplit.IssueWasteExact` | src/core/raw_material_split.rs:253-276 | the report's reader accepts exactly the texts without a final separator that denote 0 to MAX, with comma or dot |
| `RawSplit.WasteReaders` | src/core/raw_material_split.rs:18-30 | on positive amounts the two readers of the waste differ only in commas and final separators |
| `SplitIssue.AcceptedExactly` | src/core/raw_material_split.rs:129-145 | with a cutting plan, a split is accepted with a waste if and only if the waste text spells a positive amount that makes up the source exactly |
| `SplitIssue.SplitConserves` | src/core/raw_material_split.rs:129-224 | every accepted split has outputs plus a positive waste equal to the source, legal rolls that fit the width, and no room for another |
| `SplitIssue.Complementary` | src/core/raw_material_split.rs:279-315 | both paths accept, or neither does, exactly for a balancing waste written with a final separator and no comma, or with a comma and no final separator; otherwise exactly one does |
| `SplitIssue.BothAccept` | src/core/raw_material_split.rs:255-259 | a command with a waste of `1.` that balances is accepted by both paths |
| `SplitIssue.NeitherAccepts` | src/core/raw_material_split.rs:254-254 | a command with a waste of `1,0` that balances is accepted by neither |
| `SplitIssue.NotComplementary` | src/core/raw_material_split.rs:253-315 | such commands exist: 3 kg cut into 2 kg, with each of the two texts |
| `SplitIssue.ReportKinds` | src/core/raw_material_split.rs:279-315 | the kind of a report is decided by the amount the waste text spells: none, zero, too little or too much, and the difference closes the balance |
| `SplitIssue.IssueDecimalExact` | src/core/raw_material_split.rs:243-251 | signed text is a sign and the six-place text of the magnitude, and reads back exactly when positive and storable |
| `SplitIssue.RecordedReproduces` | src/core/raw_material_split.rs:94-127 | a completion through a report has the report's plan, a readable waste, its signed difference and a storable output total |
| `SplitIssue.RecordedAccepts` | src/core/raw_material_split.rs:94-127 | with matching measurements only an output total beyond MAX is refused |
| `SplitName.CompactKeeps` | src/core/raw_material_split.rs:67-74 | compacting a measure keeps its amount |
| `SplitName.NameSplitItem` | src/core/raw_material_split.rs:52-77 | the new name has the base of the old one, and naming it again gives what naming the old one would |
| `SplitName.NamingKeepsBase` | src/core/raw_material_split.rs:52-66 | naming keeps the base of every name |
| `SplitName.RenamingReplaces` | src/core/raw_material_split.rs:52-77 | renaming is last-write-wins for every name |
| `OrderLayout.CheckProducts` | src/core/order_layout.rs:29-63 | the loop with its id set and frame counter accepts exactly the valid product lists |
| `OrderLayout.ValidateProducts` | src/core/order_layout.rs:29-63 | the same with the source's rules for ids and names |
| `OrderLayout.LanesPartition` | src/core/order_layout.rs:65-102 | a valid layout has one lane per frame and lane widths sum to the useful width |
| `OrderLayout.LaneIdsDistinct` | src/core/order_layout.rs:86-102 | lane ids are pairwise distinct |
| `OrderLayout.GroupConsecutive` | src/core/order_layout.rs:110-118 | the loop accepts exactly positive counts that use up the lanes; every group is as wide as its own lanes |
| `OrderLayout.GroupWidths` | src/core/order_layout.rs:104-119 | the same, with one group per lane for an empty list; total width is preserved |
| `OrderEdit.ForMaterials` | src/core/order_edit.rs:26-56 | the loop locks exactly the layers that some roll matches, and all of them if some roll matches none |
| `OrderEdit.ValidateMaterialEdit` | src/core/order_edit.rs:88-120 | the checks with early returns permit exactly the edits the restrictions allow |
| `OrderEdit.LocksKeptByEdit` | src/core/order_edit.rs:88-120 | one accepted edit keeps every lock, and the unresolved flag |
| `OrderEdit.LocksOnlyGrow` | src/core/order_edit.rs:26-56 | along any run of edits accepted against fresh restrictions locked layers keep value and index, locks only grow, layer count and dimensions are constant, and an unresolved roll freezes all layers |
| `RollNames.WordsAppend` | src/core/order_edit.rs:60-60 | a word behind a space is one more word of the comparison form |
| `RollNames.SplitRollMatches` | src/core/order_edit.rs:59-84 | the name a split gives to a roll matches the material it was cut from |
| `RollNames.SplitRollLocks` | src/core/order_edit.rs:36-49 | a roll named by a split locks every layer of its material |
| `RollNames.SplitRollFreezes` | src/core/order_edit.rs:88-120 | no permitted edit changes a layer of that material |
| `RollStock.ReservedExactly` | src/db/postgres_gscale_receipt_store.rs:526-548 | in every reachable state a roll is reserved exactly while in use or consumed, and keys and names belong to their barcodes |
| `RollStock.RowChanges` | src/db/postgres_gscale_receipt_store.rs:104-149 | every transaction changes a row in one of five legal ways only, and removes none |
| `RollStock.DeletedForGood` | src/db/postgres_gscale_receipt.rs:91-134 | rows never disappear and a deleted row never changes again, even if the delete lands between draft and submit |
| `RollStock.OnlySubmitReleases` | src/db/postgres_gscale_receipt_store.rs:104-149 | a roll that is not available becomes so if and only if a draft receipt for it is submitted in the spelling of its row, it is not deleted and no assignment is in the way |
| `RollStock.ConsumedIsReleased` | src/db/postgres_gscale_receipt_store.rs:104-149 | a run from empty tables in which a consumed roll is available again |
| `RollStock.ReservationHolds` | src/db/postgres_gscale_receipt_store.rs:104-149 | a reservation changes if and only if such a submit goes through |
| `RollStock.HolderTookIt` | src/db/postgres_gscale_receipt_store.rs:526-548 | the order a roll is reserved for took it itself at some step and has held it since |
| `RollStock.ConsumedByHolder` | src/db/postgres_gscale_receipt_store.rs:592-614 | a roll is consumed only by the order that took it and held it until then |
| `RollStock.AllOrNothing` | src/db/postgres_gscale_receipt_store.rs:544-548 | a batch mark goes through if and only if every barcode names a row that qualifies, and changes exactly those rows, or nothing |
| `RollStock.UpdateRows` | src/db/postgres_gscale_receipt_store.rs:526-548 | the number of rows changed equals the number of barcodes exactly when all of them qualify |
| `RollStock.CorrectReceipts` | src/db/postgres_gscale_receipt_store.rs:319-346 | a correction reaches exactly the receipts behind the roll |
| `RollStock.GscaleReceiptStore.constructor` | src/db/postgres_gscale_receipt.rs:21-25 | a new store has empty tables |
| `RollStock.GscaleReceiptStore.CreateDraft` | src/db/postgres_gscale_receipt_store.rs:3-102 | refused for a deleted roll, otherwise the draft step |
| `RollStock.GscaleReceiptStore.SubmitDraft` | src/db/postgres_gscale_receipt_store.rs:104-149 | the submit step, with the guarded upsert and the assignment |
| `RollStock.GscaleReceiptStore.UpdateStock` | src/db/postgres_gscale_receipt_store.rs:231-358 | the correction step |
| `RollStock.GscaleReceiptStore.SoftDeleteStock` | src/db/postgres_gscale_receipt_store.rs:360-503 | the soft-delete step |
| `RollStock.GscaleReceiptStore.Mark` | src/db/postgres_gscale_receipt_store.rs:505-569 | rows are changed first and rolled back when they are too few |
| `RollStock.GscaleReceiptStore.MarkStockInUse` | src/db/postgres_gscale_receipt_store.rs:505-569 | the in-use step |
| `RollStock.GscaleReceiptStore.MarkStockConsumed` | src/db/postgres_gscale_receipt_store.rs:571-635 | the consumption step |
| `RollStock.GscaleReceiptStore.DeleteStockEntryDraft` | src/db/postgres_gscale_receipt_store.rs:637-644 | only drafts are deleted |
| `AuthVault.RunInv` | src/db/postgres_auth.rs:51-183 | in every reachable state stored hashes survive a read and a write, vault entries decrypt to codes their hash verifies, and a completed cutover means a ready store |
| `AuthVault.IssuedHolds` | src/db/postgres_auth.rs:298-313 | issuing a code stores a hash that verifies it and makes it recoverable |
| `AuthVault.UnissuedKeeps` | src/db/postgres_auth.rs:298-313 | a step that issues no code to an account keeps its hash and its recoverable code |
| `AuthVault.HashStays` | src/db/postgres_auth.rs:298-313 | without a code issued in between the hash stays, whatever stale states are written |
| `AuthVault.LastCodeWins` | src/db/postgres_auth.rs:298-325 | the stored hash is the one computed by the step that issued the last code, it verifies that code, and that code is recovered |
| `AuthVault.HashOrigin` | src/db/postgres_auth.rs:298-313 | a stored hash is that of the last code issued or the one the account was created with |
| `AuthVault.StaleWriteIssuesNothing` | src/db/postgres_auth.rs:249-270 | a state read at any time and written back at any other time issues no code |
| `AuthVault.AccessCodeVerifies` | src/db/postgres_auth.rs:315-325 | the code handed out is empty or verifies against the current hash; the read fails exactly when there is a code and the cipher cannot be loaded |
| `AuthVault.ReadWriteBack` | src/db/postgres_auth.rs:249-313 | writing back the very state that was read changes nothing |
| `AuthVault.RecoverKeeps` | src/db/postgres_auth.rs:164-183 | recovery keeps the invariant and never changes an account |
| `AuthVault.MigrateKeeps` | src/db/postgres_auth.rs:51-148 | a migration leaves the store ready |
| `AuthVault.ReadyForever` | src/db/postgres_auth.rs:36-48 | once migrated, always ready |
| `AuthVault.MigrationOnce` | src/db/postgres_auth.rs:67-81 | after a migration succeeded every later one changes nothing |
| `AuthVault.LawsHold` | src/core/auth/password.rs:12-61 | the laws assumed of hashing and encryption can be met |
| `Lists.AddEach` | src/db/postgres_auth.rs:83-114 | the loops that collect suppliers and builtin accounts add every item in turn, or fail |
| `AuthStore.ImportRows` | src/db/postgres_auth.rs:124-135 | the rows are imported all together or not at all |
| `AuthStore.ImportCredentials` | src/db/postgres_auth.rs:124-135 | every migrated state makes its account row, and its vault row if it brings a plaintext code |
| `AuthStore.PostgresAuthStore.constructor` | src/db/postgres_auth.rs:32-34 | a new store has empty tables |
| `AuthStore.PostgresAuthStore.State` | src/db/postgres_auth.rs:249-270 | the state read is one that can be written back without changing anything |
| `AuthStore.PostgresAuthStore.WriteState` | src/db/postgres_auth.rs:298-313 | the write step: flags always, the hash only for a plaintext code or a new account |
| `AuthStore.PostgresAuthStore.ResetAdminCode` | src/db/postgres_auth.rs:150-162 | the reset step |
| `AuthStore.PostgresAuthStore.RecoverAccessCode` | src/db/postgres_auth.rs:164-183 | the recovery step; accounts are untouched |
| `AuthStore.PostgresAuthStore.PutBuiltinIdentity` | src/db/postgres_auth.rs:336-361 | the identity step |
| `AuthStore.PostgresAuthStore.MigrateLegacy` | src/db/postgres_auth.rs:51-148 | the migration step |

## Left out

- Error variants and message texts: a failure is one value, except in the paint calculation where the kind is part of the result.
- ImageCache.ReturnsGenuineImage: callers cancelled between lookup and cleanup, the etag, the semaphores and the decoder are not modelled; a load reads the store once, may fail at any point, and decoding is a function of the bytes. A cleanup is one step, although the once-cells are not under the mutex of the map: in the code another call may fill a cell while an eviction loop runs.
- ImageCache.OrderImageCache.Lookup: one clock reading per locked section, and the u64 stamp never wraps.
- SystemDoctor.Doctor.Observe: messages and units of checks are not modelled; their values are.
- OrderEdit.ForMaterials: lower-casing is a parameter; a positive number is judged by its digits, without the overflow and underflow of 64-bit floating point.
- RollNames.SplitRollMatches: asks of lower-casing that it leaves digits, dots, slashes and spaces at the end of a text alone.
- OrderLayout.LanesPartition: widths are real numbers, so floating-point rounding and infinities are not modelled.
- RollStock.GscaleReceiptStore.SubmitDraft: SQL `lower` is modelled as ASCII lower-casing; dimensions, units, payloads and the event ledger are not modelled, and quantities come in already checked for being positive.
- RollStock.OnlySubmitReleases: the triggers of migrations 0097 and 0142, which refuse to make a split parent or a remainder source available again, are not modelled; the splits and remainders are recorded by other stores, and for such a roll a submit fails instead of releasing it.
- RollStock.DeletedForGood: covers the transactions of this store and any change of assignments; other stores that write the same rows (transfers, splits) are not modelled.
- AuthVault.LastCodeWins: cryptography is replaced by its laws; salts and nonces are inputs of the steps.
- AuthStore.PostgresAuthStore.ResetAdminCode: the readiness check and the update are one step, which `AuthVault.ReadyForever` justifies.
- The derivation of supplier codes is a parameter of the migration.
- Inventory transfers, production queues, warehouses, route validation and queue positions of order edits.
- HTTP, websockets, notifications, spreadsheets, search, configuration, directories and monitoring, which would only add easy members.
