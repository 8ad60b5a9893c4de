# Verification of the SDK's stateful cores

This Dafny project models eleven components of the SDK and proves what they
promise. Each file holds one module.

- **Shared provider quota** (`PaperQuota`, `PaperQuotaSafety`,
  `PaperQuotaProgress`): the lock that clients on any number of hosts keep in a
  versioned key-value store. Clients and store are one step machine with a
  monotone clock. The store is assumed to swap exactly when the expected version
  is current, 0 standing for absent, and never to repeat a version; a reply may be
  lost after its swap took effect, and a client may die at any point. Progress is
  proved as schedules that a client left alone can follow, and over every run as
  what a client has done when it is through.
- **Foreign-read client** (`ForeignRead`, `ForeignReadSafety`,
  `ForeignReadTheorems`, `ForeignReadTimes`, `ForeignReadSession`,
  `ForeignReadTables`): open, chunk, complete and abort, called by concurrent
  tasks. A step is the code between two awaits; replies, timeouts and
  cancellations are chosen by an adversary. A reference automaton replays the
  traffic of each execution.
- **Paper identity and merge** (`PaperIdentity`, `Papers`, `PaperRecords`,
  `PaperMerge`, `PaperOrder`, `PaperSearch`): union-find with path halving,
  grouping, and the deterministic merge of provider records.
- **Schema drift** (`Json`, `JsonText`, `JsonStrings`, `SchemaDrift`,
  `SchemaCompatibility`, `SchemaLevels`, `SchemaReport`, `SchemaSoundness`,
  `SchemaContract`): the recursive classifier, the relation it decides, what an
  accepted change means for records, the canonical form and its text. Floats are
  numerators over powers of two.
- **Ontology import rewriter** (`TurtleMask`, `TurtleTokens`, `TurtleEdits`,
  `TurtleRewrite`, `TurtleRuns`, `TurtleRemoval`, `TurtleFullRemoval`,
  `TurtleView`, `TurtleRemask`, `TurtleFullView`, `TurtleFullExact`,
  `TurtlePass`): the position-preserving view, the token edits that remove some or
  all objects of an object list, the view of the result, which the rewriter masks
  again before its next pattern, and whole passes.
- **Platform fallback** (`Platform`, `PlatformFallback`, `PlatformOutcomes`):
  ordered backends with retries, an in-flight placeholder, result validators and
  the status store.
- **Sweeps and fan-out** (`SourceSweep`, `SweepProgress`, `SweepSeries`): pages,
  parents, the held watermark, and one sweep after the other.
- **Event identity** (`EventIdentity`, `EventPages`, `EventDeliveries`):
  candidates over a shared index, committed only for accepted pages.
- **Lock-graph walk** (`LockGraph`): the worklist closure with extras.
- **Contract printer and Turtle reader** (`TurtleText`, `TurtleReader`,
  `SourceContract`): escaping, the token reader, and the round trip of contracts
  with their property bindings.
- **Bookmark paging** (`Bookmarks`).

Sequential code that changes things in place is modelled by classes, arrays and
loops, each proved against a specification function; concurrent protocols are
step machines over values, because their states interleave. `Sorting` and
`Common` hold what the modules share. Every lemma carries `{:induction false}`:
inductions are written out. `dafny verify dfyconfig.toml` checks the project.

Three promises hold only under a condition. Each is proved to hold exactly under
it, and an input that fails is given:

- full removal of an object list goes through exactly when no comma shows inside
  an object with objects on both sides (`TurtleFullRemoval.RemoveAll`; refused:
  `CommaRefused`);
- a printed contract document reads back as declared exactly when no value holds a
  control character (`SourceContract.DocumentRoundTrip`; not recovered:
  `TabNotRecovered`);
- an accepted schema change, in the keywords modelled, keeps records valid exactly
  when it is safe: wherever a record can hold a value listed by `enum` or
  `const`, erasing leaves a valid one
  (`SchemaSoundness.AcceptedIsSound`; broken: `AcceptedUnsound`).

## Model

| member | source | states |
|---|---|---|
| `PaperQuotaSafety.MutualExclusion` | scion_sdk/adapters/paper_quota.py:54-126 | in every interleaving of any number of clients, also when swap replies are lost, at most one client is inside a slot body of a credential group |
| `PaperQuotaSafety.PolicyPinned` | scion_sdk/adapters/paper_quota_values.py:32-64 | the policy revision and spacing first stored for a group are those of every later entry of the group |
| `PaperQuotaSafety.SpacingRespected` | scion_sdk/adapters/paper_search_attempt.py:35-99 | two provider calls of a group, by one client or by two, never overlap, and at least the pinned spacing lies between the end of one and the start of the next |
| `PaperQuotaSafety.NoCallAfterKept` | scion_sdk/adapters/paper_quota.py:55-75 | once a request ends still holding the lock, no client of its group ever calls the provider again |
| `PaperQuotaSafety.NoCallAfterRetained` | scion_sdk/adapters/paper_quota.py:36-68 | a slot that ends marked as retained is never followed by another call of its group |
| `PaperQuotaSafety.RunInvariant` | scion_sdk/adapters/paper_quota.py:54-126 | the lock invariant and the timing invariant hold in every state of every run |
| `PaperQuotaSafety.StepKeepsLocked` | scion_sdk/adapters/paper_quota.py:87-126 | every step of a client or of the store keeps the lock invariant |
| `PaperQuotaSafety.StepKeepsTimed` | scion_sdk/adapters/paper_search_attempt.py:56-99 | every step keeps the spacing invariant of calls, sleeps and releases |
| `PaperQuotaSafety.StepKeepsPinned` | scion_sdk/adapters/paper_quota_values.py:44-64 | no step changes what an entry pins |
| `PaperQuotaSafety.StepKeepsQuiet` | scion_sdk/adapters/paper_download.py:135-155 | no step adds a call to the group of a lock that was kept |
| `PaperQuotaProgress.FreeSlotServes` | scion_sdk/adapters/paper_quota.py:54-126 | from any reachable state whose group is free, a client running alone makes one call per outcome of any script of retryable outcomes, ends, and leaves the group free again |
| `PaperQuotaProgress.FailingSearchServed` | scion_sdk/adapters/paper_search_attempt.py:35-99 | a search whose calls all fail retryably makes exactly `retries + 1` calls and leaves the group free |
| `PaperQuotaProgress.EveryoneServed` | scion_sdk/adapters/paper_quota.py:54-126 | any queue of clients of one policy is served in turn, each calling in its turn |
| `PaperQuotaProgress.SlotComesBack` | scion_sdk/adapters/paper_quota.py:112-126 | from every reachable state a client in its slot can give it back, also one that waits out a provider delay |
| `PaperQuotaProgress.AlwaysReturned` | scion_sdk/adapters/paper_quota.py:112-126 | over every run, a client that was granted the slot and is through, neither dead nor interrupted outside the slot body, has sent its release, unless it kept its mark |
| `PaperQuotaProgress.AllRetriesMade` | scion_sdk/adapters/paper_search_attempt.py:35-99 | over every run, a search whose calls all fail makes `retries + 1` of them before it leaves, not one less and not one more |
| `PaperQuotaProgress.DelaysInTime` | scion_sdk/adapters/paper_search_attempt.py:56-99 | over every run, no client waits for a provider delay that reaches its deadline |
| `PaperQuotaProgress.OtherPolicyToldSo` | scion_sdk/adapters/paper_quota_values.py:44-64 | once an entry pins a policy, a client of the group with another revision or spacing is told so in every later state |
| `PaperQuotaProgress.HeldIsBusy` | scion_sdk/adapters/paper_quota_values.py:44-64 | while a client with a name of 32 characters is in its slot, others of its policy are told that it is busy |
| `ForeignReadTheorems.AdmissionBounded` | scion_sdk/adapters/foreign_read.py:440-509 | over every run, live executions and reservations together never exceed 1024, live and fenced ids are disjoint, and no live execution is terminal |
| `ForeignReadTheorems.FenceExact` | scion_sdk/adapters/foreign_read.py:763-771 | an id is fenced exactly when it is among the last 1024 ids to close |
| `ForeignReadTheorems.ClosedIdRefused` | scion_sdk/adapters/foreign_read.py:755-804 | a closed id is refused for reopening and for any phase until 1024 other ids have closed after it |
| `ForeignReadTheorems.ClosedGrows` | scion_sdk/adapters/foreign_read.py:763-786 | the order in which ids closed only ever grows at its end |
| `ForeignReadTheorems.LedgerAddsUp` | scion_sdk/adapters/foreign_read.py:510-573 | chunk requests carry 0, 1, 2, ... with none sent twice, rows are the sum of the accepted chunks, rows and bytes stay within their limits |
| `ForeignReadTheorems.BytesPerChunk` | scion_sdk/adapters/foreign_read.py:806-826 | bytes stay within the number of accepted chunks times the chunk limit |
| `ForeignReadTheorems.NothingAfterFinal` | scion_sdk/adapters/foreign_read.py:575-640 | in the traffic of an execution, a failed phase is followed only by an abort, and a certificate or an answered abort by nothing |
| `ForeignReadTheorems.CertificateExact` | scion_sdk/adapters/foreign_read.py:575-609 | a successful complete certifies exactly the totals of the chunks accepted before it |
| `ForeignReadTheorems.RequestsDue` | scion_sdk/adapters/foreign_read.py:510-545 | every request sent names its execution, carries the next sequence number, and a chunk is within all four limits |
| `ForeignReadTheorems.RepliesRepeat` | scion_sdk/adapters/foreign_read.py:545-640 | every reply accepted names the execution, the sequence number and the rows or reason of the request it answers |
| `ForeignReadSession.ReadCertified` | scion_sdk/adapters/foreign_read.py:440-609 | against a server that echoes and adds up, before the deadline, any chunks within the limits, limits included, and a complete end in a certificate of exactly their rows and bytes |
| `ForeignReadSession.ReadAborted` | scion_sdk/adapters/foreign_read.py:611-640 | after any accepted chunks an abort is answered and closes the execution |
| `ForeignReadTimes.SentInTime` | scion_sdk/adapters/foreign_read.py:788-804 | over every run, whatever is sent for an execution is sent before the deadline its open asked for and before its server lets it expire |
| `ForeignReadTimes.OpenedAsAsked` | scion_sdk/adapters/foreign_read.py:470-509 | an execution is installed only for the digest its open asked for, under an id neither live nor fenced, with time left, its deadline counted from the clock reading at the open |
| `ForeignReadTimes.SweepExact` | scion_sdk/adapters/foreign_read.py:773-786 | the sweep of an open closes exactly the executions that nobody holds and that are past their deadline or expiry |
| `ForeignReadTheorems.TrafficOfEveryExecution` | scion_sdk/adapters/foreign_read.py:510-640 | all of this for every execution of every run, against any replies |
| `ForeignReadTheorems.ClosedIsSilent` | scion_sdk/adapters/foreign_read.py:763-804 | once closed, in whichever way, an execution sends and receives nothing more, also not for tasks that found it before and still wait for its lock |
| `ForeignReadTheorems.NothingAfterExpiry` | scion_sdk/adapters/foreign_read.py:788-804 | after a phase failed because its execution expired, nothing is sent for that execution again, and its id is not live |
| `ForeignReadTheorems.NothingAfterSweep` | scion_sdk/adapters/foreign_read.py:773-786 | after a sweep closed an execution nothing is sent for it again |
| `ForeignReadTheorems.StepKeepsClosed` | scion_sdk/adapters/foreign_read.py:755-804 | no step changes a closed execution |
| `ForeignReadSafety.StepKeepsSafe` | scion_sdk/adapters/foreign_read.py:440-804 | every atomic segment keeps the registry, the locks, the reservation count and the ledgers |
| `ForeignReadSafety.RunSafe` | scion_sdk/adapters/foreign_read.py:440-804 | every state of every run is safe |
| `ForeignReadSafety.AdmitKeepsSafe` | scion_sdk/adapters/foreign_read.py:440-470 | admission with its sweep keeps the client safe and reserves within the bound |
| `ForeignReadSafety.InstallKeepsSafe` | scion_sdk/adapters/foreign_read.py:470-509 | the reply to an open ends its reservation, and is installed only under an id neither live nor fenced |
| `ForeignReadSafety.EnterKeepsSafe` | scion_sdk/adapters/foreign_read.py:510-545 | checks and expiry under the execution lock keep the client safe |
| `ForeignReadSafety.ReceiveKeepsSafe` | scion_sdk/adapters/foreign_read.py:545-640 | any reply to a phase, good or bad, keeps the client safe |
| `ForeignReadSafety.CleanupKeepsSafe` | scion_sdk/adapters/foreign_read.py:684-743 | the end of an abort cleanup keeps the client safe |
| `ForeignReadSafety.TerminalizeTwice` | scion_sdk/adapters/foreign_read.py:763-771 | closing an execution twice in a row is closing it once |
| `ForeignReadSafety.ReapKeepsSafe` | scion_sdk/adapters/foreign_read.py:773-786 | the sweep over expired, unlocked executions keeps the client safe, in any order |
| `ForeignReadTables.Tables.Terminalize` | scion_sdk/adapters/foreign_read.py:763-771 | the tables after closing an execution, the fence trimmed to 1024 in a loop |
| `ForeignReadTables.Tables.ReapExpired` | scion_sdk/adapters/foreign_read.py:773-786 | the sweep closes exactly the expired, unlocked executions |
| `PaperIdentity.Root` | scion_sdk/adapters/paper_identity.py:40-44 | path halving ends, although a parent may be larger than its child, and never changes a root |
| `PaperIdentity.HalveKeepsForest` | scion_sdk/adapters/paper_identity.py:40-44 | one halving step keeps every representative |
| `PaperIdentity.LinkKeepsForest` | scion_sdk/adapters/paper_identity.py:47-56 | linking one root below another merges exactly their two trees |
| `PaperIdentity.Link` | scion_sdk/adapters/paper_identity.py:47-56 | after all records the representatives are exactly the chains of shared keys |
| `PaperIdentity.Collect` | scion_sdk/adapters/paper_identity.py:47-59 | the method returns the specified groups, in order of their first records |
| `PaperIdentity.GroupsExact` | scion_sdk/adapters/paper_identity.py:47-59 | two records are in one group exactly when a chain of records sharing a (revision, token) key connects them |
| `PaperIdentity.GroupsDisjoint` | scion_sdk/adapters/paper_identity.py:47-59 | no record is in two groups |
| `PaperIdentity.GroupsInhabited` | scion_sdk/adapters/paper_identity.py:47-59 | every group is non-empty and in range |
| `PaperIdentity.HasLeader` | scion_sdk/adapters/paper_identity.py:47-59 | every record has a group |
| `PaperIdentity.GroupsHaveOneRevision` | scion_sdk/adapters/paper_identity.py:47-59 | all records of a group have one revision |
| `Papers.FieldOf` | scion_sdk/adapters/paper_merge.py:34-65 | the loop over records refuses exactly when one provider contradicts itself, and otherwise lists the values met with their evidence |
| `Papers.ConsistentStep` | scion_sdk/adapters/paper_merge.py:34-65 | one more record contradicts its predecessors exactly when its provider stated another value before |
| `Papers.CanonicalIsToken` | scion_sdk/adapters/paper_merge.py:68-74 | the canonical id of a group is one of its own tokens |
| `PaperRecords.MergeGroup` | scion_sdk/adapters/paper_merge.py:77-110 | one group's merged record, or a refusal when a field does not merge |
| `PaperRecords.MergedGroupMeans` | scion_sdk/adapters/paper_merge.py:77-110 | a merged record names a token of a member and the first member's revision, lists exactly the references and public offers of its members, once each and in the order in which they first occur, and each field holds what its members state |
| `PaperRecords.CanonicalMeans` | scion_sdk/adapters/paper_merge.py:68-74 | the canonical id is the lowest DOI token of the members if any has one, else the lowest alias, else the lowest provider name |
| `PaperRecords.ChosenMeans` | scion_sdk/adapters/paper_merge.py:34-65 | a merged field lists each value a member states once, in the order in which they first occur, with all evidence for it |
| `PaperRecords.StatedValue` | scion_sdk/adapters/paper_merge.py:39-42 | what a record states of a field: a text that is not empty, or its authors |
| `PaperMerge.MergePermutes` | scion_sdk/adapters/paper_merge.py:113-150 | every permutation of the input succeeds or is refused alike, with the same output |
| `PaperMerge.MergeNamesApart` | scion_sdk/adapters/paper_merge.py:68-74 | no two outputs share canonical id and revision |
| `PaperMerge.SortedIdsPermute` | scion_sdk/adapters/paper_merge.py:113-135 | the declared order of ids does not depend on the input order |
| `PaperMerge.GroupRevision` | scion_sdk/adapters/paper_merge.py:113-150 | records merged together share their revision |
| `PaperMerge.MergeMeans` | scion_sdk/adapters/paper_merge.py:77-150 | every output is such a record of one group, of the one revision all its members carry, and every group gives an output |
| `PaperMerge.RefusalExact` | scion_sdk/adapters/paper_merge.py:113-150 | a batch is refused exactly when it is too large, not admissible, holds an invalid DOI, has two different DOIs among records connected by shared keys, or a group whose fields do not merge |
| `PaperMerge.OneDoiExact` | scion_sdk/adapters/paper_identity.py:62-71 | a group passes exactly when no two members have different DOIs |
| `PaperMerge.KeysShare` | scion_sdk/adapters/paper_identity.py:28-59 | two records share a key exactly when they have one revision and a common DOI, alias or provider name |
| `PaperOrder.OrderedInOrder` | scion_sdk/adapters/paper_merge.py:113-135 | records are grouped by declared provider, then record id, then revision, whatever the order of the batch |
| `PaperOrder.ReferencesInOrder` | scion_sdk/adapters/paper_merge.py:77-110 | in a merged record no reference stands after one whose provider was declared later, or after one of its provider with a later record id |
| `PaperOrder.MergedInOrder` | scion_sdk/adapters/paper_merge.py:136-150 | the merged records come by canonical id, and of one id by revision |
| `PaperSearch.Unique` | scion_sdk/adapters/paper_merge.py:113-132 | the first loop keeps one record per id in declared order, or refuses a clash, an undeclared provider or too many records of one |
| `PaperSearch.MergeRecords` | scion_sdk/adapters/paper_merge.py:113-150 | the method computes the specified merge |
| `PaperSearch.Judge` | scion_sdk/adapters/paper_search.py:161-183 | a page that does not merge with those kept before is reported failed and leaves the result as it was |
| `PaperSearch.Compose` | scion_sdk/adapters/paper_search.py:141-183 | the result is the merge of exactly the pages still reported fine, and completeness says whether none, some or all of them are |
| `SchemaDrift.FindChanges` | scion_sdk/schema_drift.py:137-149 | the recursive method lists the specified changes |
| `SchemaDrift.FindPropertyChanges` | scion_sdk/schema_drift.py:63-85 | changes of properties, name by name in sorted order |
| `SchemaDrift.FindKeywordChanges` | scion_sdk/schema_drift.py:116-134 | changes of the compared keywords |
| `SchemaDrift.SortNames` | scion_sdk/schema_drift.py:63-85 | names are visited sorted and without repetition |
| `SchemaDrift.ClassifiedHarmless` | scion_sdk/schema_drift.py:171-176 | the classification is compatible exactly when every change is |
| `SchemaCompatibility.ChangesExact` | scion_sdk/schema_drift.py:137-149 | under optional fields all changes are harmless exactly when the new schema is compatible with the old as a relation of meanings |
| `SchemaCompatibility.PropertiesExact` | scion_sdk/schema_drift.py:63-85 | the same for properties, absent and empty ones alike |
| `SchemaCompatibility.KeywordExact` | scion_sdk/schema_drift.py:102-134 | the same for each keyword, with enum and required compared as sets |
| `SchemaCompatibility.CompatTransitive` | scion_sdk/schema_drift.py:63-176 | compatibility is transitive over all schema trees |
| `SchemaCompatibility.Classify` | scion_sdk/schema_drift.py:179-202 | the classifier, with its refusals for a missing contract |
| `SchemaCompatibility.AcceptedExact` | scion_sdk/schema_drift.py:179-202 | two contracts are accepted exactly when their schemas are compatible; every contract accepts itself |
| `SchemaCompatibility.AcceptedSeries` | scion_sdk/schema_drift.py:179-202 | a series of accepted evolutions is accepted end to end |
| `SchemaLevels.ClassificationMeans` | scion_sdk/schema_drift.py:171-202 | for both policies: the class is breaking exactly when a type differs or a required property is gone at some position both have, or the identifiers differ; otherwise compatible exactly when the meanings are the same, or under optional fields compatible |
| `SchemaLevels.LevelExact` | scion_sdk/schema_drift.py:63-149 | a comparison raises, or finds a break, exactly when the meanings differ so at some position that both schemas have |
| `SchemaLevels.ReviewExact` | scion_sdk/schema_drift.py:57-60 | under the default policy nothing is reported exactly when the two mean the same up to the order and repetition of enum entries and absent or empty properties |
| `SchemaLevels.SameSymmetric` | scion_sdk/schema_drift.py:57-149 | meaning the same is symmetric |
| `SchemaLevels.SameCompatible` | scion_sdk/schema_drift.py:57-149 | what means the same is compatible |
| `SchemaLevels.PolicyMatters` | scion_sdk/schema_drift.py:57-60 | the two policies give one class, or the default asks for a review where the other accepts |
| `SchemaReport.ListedExact` | scion_sdk/schema_drift.py:63-149 | unless it raises, a comparison lists exactly the changes, with path, reason and level, told at some position that both schemas have |
| `SchemaSoundness.Sound` | scion_sdk/schema_drift.py:57-149 | a record valid under the new schema is valid under the old once added fields are erased, after a compatible and safe change of schemas of type, required, properties, items, enum and const |
| `SchemaSoundness.SafeIfSound` | scion_sdk/schema_drift.py:57-149 | and only after a safe one: where a listed value that a record can hold breaks by erasing, some record breaks |
| `SchemaSoundness.AcceptedIsSound` | scion_sdk/schema_drift.py:171-202 | an accepted change of contracts is sound for every record exactly when it is safe |
| `SchemaSoundness.AcceptedUnsound` | scion_sdk/schema_drift.py:88-134 | an accepted change that is not: a member is declared beside `enum`, and the listed record loses it |
| `SchemaSoundness.PlainIsSafe` | scion_sdk/schema_drift.py:88-134 | every compatible change is safe between schemas that list values only where neither properties nor items are declared |
| `SchemaSoundness.InhabitedIsMet` | scion_sdk/schema_drift.py:57-149 | the check whether some record meets a schema is exact: an inhabited schema has a valid value |
| `SchemaSoundness.ValidInhabits` | scion_sdk/schema_drift.py:57-149 | and a schema with a valid value is inhabited |
| `SchemaContract.NormalizeExact` | scion_sdk/schema_contract.py:44-65 | two values have one canonical form exactly when they differ in the order of enum, required and type lists and in presentation keys at schema positions |
| `SchemaContract.NormalizeSchemaExact` | scion_sdk/schema_contract.py:56-65 | the same at schema positions |
| `SchemaContract.NormalizeFixed` | scion_sdk/schema_contract.py:44-65 | the canonical form is a fixed point of normalization |
| `SchemaContract.ValidatedFixed` | scion_sdk/schema_contract.py:74-88 | the validator leaves a validated text as it is |
| `SchemaContract.FromSchemaExact` | scion_sdk/schema_contract.py:94-102 | two schemas get one contract text exactly when they are alike |
| `SchemaContract.CanonicalCodec` | scion_sdk/schema_contract.py:68-71 | the text `json.dumps` writes is such a printer, whatever numerals stand for floats, and a parser that undoes it exists |
| `SchemaContract.NormalizeKeepsValid` | scion_sdk/schema_contract.py:44-65 | the canonical form admits exactly the records the schema admits |
| `SchemaContract.AlikeAccepted` | scion_sdk/schema_contract.py:94-102 | schemas that are alike make one contract, and the classifier accepts it for either |
| `SchemaContract.EvolutionSound` | scion_sdk/schema_drift.py:179-202 | from schemas as they are written to their records: after an accepted and safe change, erased records of the new schema are records of the old one |
| `JsonText.PrintApart` | scion_sdk/schema_contract.py:68-71 | the canonical text of a value tells the value and where its text ends |
| `JsonText.TextExact` | scion_sdk/schema_contract.py:68-71 | two values have one canonical text exactly when they are equal |
| `JsonText.NumeralsExist` | scion_sdk/schema_contract.py:68-71 | floats can be written so that different ones differ and differ from integers |
| `JsonStrings.StringRead` | scion_sdk/schema_contract.py:68-71 | every string, as a value or as a key, is written as a literal that denotes it, characters beyond U+FFFF as surrogate pairs |
| `JsonStrings.StringShown` | scion_sdk/schema_contract.py:68-71 | the text of a string is printable ASCII, and such characters but quotes and backslashes stand for themselves |
| `Json.SameNumber` | scion_sdk/schema_contract.py:68-71 | floats are numerators over powers of two in lowest terms, so equal values are equal representations |
| `TurtleMask.MaskKeeps` | scion_sdk/artifacts/_ontology_lexer.py:17-93 | line breaks stay and none appear; a character changes only inside a comment, behind its mark, or inside a quoted literal, where nothing else stays visible |
| `TurtleMask.MaskIdempotent` | scion_sdk/artifacts/_ontology_lexer.py:81-93 | masking twice is masking once |
| `TurtleMask.MaskStill` | scion_sdk/artifacts/_ontology_lexer.py:69-93 | scanning the masked text changes nothing, token by token |
| `TurtleMask.MaskTurtle` | scion_sdk/artifacts/_ontology_lexer.py:81-93 | the scanner, overwriting its character list in place, computes the specified view |
| `TurtleMask.Scan` | scion_sdk/artifacts/_ontology_lexer.py:69-78 | one token is replaced by its view and nothing else changes |
| `TurtleMask.MaskLiteral` | scion_sdk/artifacts/_ontology_lexer.py:49-66 | a literal is blanked through its closing delimiter, escapes taken in pairs |
| `TurtleMask.MaskComment` | scion_sdk/artifacts/_ontology_lexer.py:23-28 | a comment becomes spaces up to the line break |
| `TurtleMask.SkipIri` | scion_sdk/artifacts/_ontology_lexer.py:31-38 | an IRI is passed through its closing bracket |
| `TurtleTokens.MaskExact` | scion_sdk/artifacts/_ontology_lexer.py:17-93 | every text falls into tokens told by its characters alone, and the view shows each: comments as spaces, literals blank but for line breaks, the rest as it is |
| `TurtleTokens.SpanUnique` | scion_sdk/artifacts/_ontology_lexer.py:40-78 | the characters determine where a token ends: a comment at its line break, an IRI at its bracket, a literal at the first unescaped place where its one or three quotes stand again |
| `TurtleEdits.ApplyEdits` | scion_sdk/artifacts/_ontology_edits.py:22-38 | the edits are applied in sorted order with a cursor, or all refused |
| `TurtleEdits.AppliesExactly` | scion_sdk/artifacts/_ontology_edits.py:22-38 | deletions inside the match apply exactly when no two overlap |
| `TurtleRewrite.RemovedRuns` | scion_sdk/artifacts/_ontology_rewrite.py:123-131 | the runs are the maximal runs of removed objects |
| `TurtleRewrite.MakeRunEdits` | scion_sdk/artifacts/_ontology_rewrite.py:134-156 | a run's edits: its objects, the commas inside it, and its border comma with the plain gap behind |
| `TurtleRewrite.AllPiecesApply` | scion_sdk/artifacts/_ontology_rewrite.py:134-163 | the same deletions listed object by object are in order, inside the match, and leave exactly the characters that are kept |
| `TurtleRuns.RunsArePieces` | scion_sdk/artifacts/_ontology_rewrite.py:123-163 | run by run and object by object, every deletion is made equally often |
| `TurtleRemoval.RunsMakePieces` | scion_sdk/artifacts/_ontology_rewrite.py:123-163 | the edits made by runs are those made object by object, as multisets |
| `TurtleRemoval.PartialRemovalEdits` | scion_sdk/artifacts/_ontology_rewrite.py:159-163 | the method makes exactly those edits |
| `TurtleRemoval.RemoveSome` | scion_sdk/artifacts/_ontology_rewrite.py:159-163 | partial removal never overlaps: for every object list and every choice the text left is exactly what is kept, every other character in place |
| `TurtleRemask.OneCommaShown` | scion_sdk/artifacts/_ontology_rewrite.py:134-163 | in the view of the rewritten document exactly one comma shows between neighbouring kept objects |
| `TurtleRemask.NoCommaShownOutside` | scion_sdk/artifacts/_ontology_rewrite.py:134-163 | and none shows before the first kept object of the list or after the last |
| `TurtleRemask.PartialCuts` | scion_sdk/artifacts/_ontology_rewrite.py:134-163 | partial removal deletes whole tokens: no comment, literal or IRI is cut, and a comment keeps its line break |
| `TurtleRemask.RewrittenView` | scion_sdk/artifacts/ontology_imports.py:80-98 | masking the document after a partial removal, as each later pattern does, gives the old view with the same characters deleted |
| `TurtleView.MaskOfLeft` | scion_sdk/artifacts/_ontology_lexer.py:69-93 | deleting whole tokens and masking commute, for every text and every set of tokens |
| `TurtleRemoval.ObjectLeft` | scion_sdk/artifacts/_ontology_rewrite.py:134-163 | a kept object stays verbatim and a removed one leaves nothing |
| `TurtleRemoval.GapLeft` | scion_sdk/artifacts/_ontology_rewrite.py:134-156 | a gap keeps all its text when its comma stays, and otherwise loses the comma, with the plain text behind it at the border of a run |
| `TurtleFullRemoval.RemoveAll` | scion_sdk/artifacts/_ontology_rewrite.py:85-120 | full removal goes through exactly when no comma shows inside an object with objects on both sides, and then leaves only the gaps that hold a comment and what follows the boundary |
| `TurtleFullRemoval.ObjectListApart` | scion_sdk/artifacts/_ontology_rewrite.py:85-94 | objects and commas stay apart exactly under that condition |
| `TurtleFullRemoval.TokensApart` | scion_sdk/artifacts/_ontology_rewrite.py:65-94 | and so do all tokens with the predicate and its neighbours |
| `TurtleFullRemoval.SortedEdits` | scion_sdk/artifacts/_ontology_rewrite.py:106-120 | tokens and plain gaps together sort into one ascending list of deletions |
| `TurtleFullRemoval.CommentsSurvive` | scion_sdk/artifacts/_ontology_rewrite.py:106-120 | of the comment marks exactly those inside removed tokens go |
| `TurtleFullRemoval.FullRemovalExact` | scion_sdk/artifacts/_ontology_rewrite.py:85-120 | the sorted edits of a full removal apply exactly when no comma shows inside such an object |
| `TurtleFullRemoval.CommaRefused` | scion_sdk/artifacts/_ontology_rewrite.py:85-120 | three imports, the middle one with a comma in its IRI: full removal is refused |
| `TurtleFullExact.TokensExact` | scion_sdk/artifacts/_ontology_rewrite.py:65-94 | the tokens that go are the objects, every comma of the list, the predicate, and of the neighbours asked for the last `;` in front, the first `;` or full stop behind, and the subject |
| `TurtleFullExact.StaysExact` | scion_sdk/artifacts/_ontology_rewrite.py:97-120 | a character of the match stays exactly when no such token covers it and it is past the statement's kept full stop or in a gap with a comment |
| `TurtleFullView.RowCuts` | scion_sdk/artifacts/_ontology_rewrite.py:106-120 | full removal deletes whole tokens: a gap that holds a comment stays whole, with the character behind it |
| `TurtleFullView.FullView` | scion_sdk/artifacts/ontology_imports.py:80-98 | masking the document after a full removal gives the old view with the same characters deleted |
| `TurtleFullView.NothingShown` | scion_sdk/artifacts/ontology_imports.py:104-127 | where the match stood neither an IRI nor a literal shows, so no pattern finds an object there, and around it the view is as before |
| `TurtlePass.MaskedSub` | scion_sdk/artifacts/ontology_imports.py:80-98 | replacing the matches of a pattern one by one, with a cursor, leaves exactly the characters that no match loses |
| `TurtlePass.BothClean` | scion_sdk/artifacts/_ontology_rewrite.py:85-163 | deletions of whole tokens by which no quote moves up can be made together |
| `TurtlePass.OutcomeClean` | scion_sdk/artifacts/_ontology_rewrite.py:166-194 | a match left alone, a partial and a full removal are such deletions |
| `TurtlePass.RunPass` | scion_sdk/artifacts/ontology_imports.py:80-98 | after a pass over any number of matches, masking gives the old view with the characters deleted that any match lost |
| `TurtlePass.PassesShrink` | scion_sdk/artifacts/ontology_imports.py:101-127 | however many patterns follow each other, the view of the last text is the view of the first with the same characters deleted |
| `EventIdentity.Tracker.Fork` | scion_sdk/adapters/event_identity.py:56-65 | a candidate shares the accepted index and has seen what it has seen; refused on a candidate |
| `EventIdentity.Tracker.Classify` | scion_sdk/adapters/event_identity.py:74-114 | new, duplicate, conflict or exhausted, by what was seen in base and overlay and by the room left in both together |
| `EventIdentity.Tracker.Merge` | scion_sdk/adapters/event_identity.py:67-72 | goes through exactly when the candidate was forked here and nothing was recorded since; there is always room and nothing is overwritten |
| `EventIdentity.Tracker.Lookup` | scion_sdk/adapters/event_identity.py:91-94 | the overlay answers first, then the shared base |
| `EventIdentity.Index.Update` | scion_sdk/adapters/event_identity.py:67-72 | the dictionary update appends the candidate's entries |
| `EventPages.ClassifyAll` | scion_sdk/adapters/event_identity.py:56-94 | classifying a page on a candidate or on the root gives the same outcomes and records the same entries |
| `EventPages.WalkIsNew` | scion_sdk/adapters/event_feed.py:154-190 | what a page adds was unknown before and is added once |
| `EventPages.PageIdentity.Begin` | scion_sdk/adapters/event_pending.py:18-22 | refused while a page is extracted or waits for its outcome |
| `EventPages.PageIdentity.Extract` | scion_sdk/adapters/event_feed.py:137-189 | a page is staged only when every event is accepted; otherwise nothing is left behind |
| `EventPages.PageIdentity.Finish` | scion_sdk/adapters/event_pending.py:30-35 | only the waiting page finishes; accepted, it always merges |
| `EventPages.PlayCalls` | scion_sdk/adapters/event_feed.py:137-234 | after any calls in any order the log and every page handed out are as specified |
| `EventPages.PageIdentity.Complete` | scion_sdk/adapters/event_feed.py:137-189 | the second half of an extraction stages the page only when every event is accepted; otherwise nothing is left behind |
| `EventPages.EmittedOnce` | scion_sdk/adapters/event_feed.py:137-234 | over any calls, no id is emitted in two accepted pages, nor twice in one |
| `EventPages.NoTrace` | scion_sdk/adapters/event_pending.py:18-35 | refused calls, failed extractions and rejected pages leave no trace: the log is that of a tracker on which the accepted pages alone were classified directly, in order |
| `EventDeliveries.KnownIsDelivered` | scion_sdk/adapters/event_feed.py:154-190 | after any calls the feed knows exactly the events of its accepted pages |
| `EventDeliveries.PageJudged` | scion_sdk/adapters/event_identity.py:74-114 | after any calls a page is handed out exactly when no event clashes with an accepted one or another of the page and its new events fit |
| `EventDeliveries.Redelivered` | scion_sdk/adapters/event_identity.py:74-94 | delivering an accepted page again is accepted, adds nothing and leaves the log as it was |
| `EventDeliveries.FirstMeans` | scion_sdk/adapters/event_identity.py:74-94 | an event is new exactly when no accepted page and nothing before it in its page has its id |
| `EventDeliveries.LogWithin` | scion_sdk/adapters/event_identity.py:96-114 | after any calls the log is within both limits |
| `LockGraph.WalkGraph` | scripts/check_import_graph_reproducibility.py:466-542 | the walk ends, also on cycles; when it does not refuse it finds exactly the packages of the least closed set, and it refuses only when something needed is not installed or an active requirement of a needed package is not locked |
| `LockGraph.RequirementsFor` | scripts/check_import_graph_reproducibility.py:412-428 | the requirements active under no extra or one of the contexts, each once |
| `LockGraph.RequestChildren` | scripts/check_import_graph_reproducibility.py:522-540 | each active requirement is requested, unless the lock lacks one |
| `LockGraph.LeastUnique` | scripts/check_import_graph_reproducibility.py:466-542 | there is only one least closed set |
| `LockGraph.NeededStep` | scripts/check_import_graph_reproducibility.py:412-428 | what an active requirement of a needed pair asks for is needed |
| `LockGraph.ServeKeepsSound` | scripts/check_import_graph_reproducibility.py:480-542 | processing a request adds only needed pairs |
| `LockGraph.ServeKeepsComplete` | scripts/check_import_graph_reproducibility.py:480-542 | and leaves nothing that processed pairs ask for unqueued |
| `LockGraph.ServeKeeps` | scripts/check_import_graph_reproducibility.py:480-521 | every request that brings something new shrinks the unprocessed part of a finite universe |
| `LockGraph.Advance` | scripts/check_import_graph_reproducibility.py:480-542 | one request served keeps the walk's invariant and shrinks what is unprocessed |
| `LockGraph.ServeChecks` | scripts/check_import_graph_reproducibility.py:522-540 | what was processed had every active requirement locked |
| `PlatformFallback.Runner.Execute` | scion_sdk/adapters/platform_fallback.py:249-304 | whatever the outside does, the result satisfies every validator, its attempts follow policy order, every backend that is left has had the smaller of its two limits, the status says how the last attempt of each went and is given exactly when due, and the result equals the reference result defined without placeholders |
| `PlatformFallback.Runner.Run` | scion_sdk/adapters/platform_fallback.py:306-324 | the run over all backends ends as the reference run does |
| `PlatformFallback.Runner.RunBackend` | scion_sdk/adapters/platform_fallback.py:326-360 | one backend: left out, skipped, distrusted, or tried |
| `PlatformFallback.Runner.Try` | scion_sdk/adapters/platform_fallback.py:362-412 | one attempt, its placeholder popped and replaced |
| `PlatformFallback.Runner.Call` | scion_sdk/adapters/platform_fallback.py:142-154 | a call cut off keeps its placeholder; any other outcome leaves none |
| `PlatformFallback.Runner.Validated` | scion_sdk/adapters/platform_fallback.py:414-480 | a page counts only if its result passes the validators, and its observation is never rejected |
| `PlatformFallback.Runner.AfterFailure` | scion_sdk/adapters/platform_fallback.py:482-511 | retry after a delay, go on at once, or refuse |
| `PlatformFallback.Runner.Refuse` | scion_sdk/adapters/platform_fallback.py:77-104 | the validators of a refusal always pass |
| `PlatformFallback.Runner.ObservedRefusal` | scion_sdk/adapters/platform_fallback.py:191-211 | the store never rejects the observation of a refusal |
| `PlatformFallback.Runner.CutShort` | scion_sdk/adapters/platform_fallback.py:288-296 | a run cut off in the middle of a call still gives a valid result |
| `PlatformFallback.TrailSize` | scion_sdk/adapters/platform_models.py:211-238 | a run makes at most 8 attempts |
| `PlatformFallback.TrailBound` | scion_sdk/adapters/platform_models.py:321-328 | the attempt at a place is at most as many as there are places up to it |
| `PlatformFallback.TrailOrder` | scion_sdk/adapters/platform_fallback.py:482-511 | backends come in policy order, and nothing follows a terminal failure but the same backend's second attempt after a rate limit with a delay |
| `PlatformFallback.GoodMeans` | scion_sdk/adapters/platform_fallback.py:353-360 | attempts of a backend are numbered on from 1 and never pass its limits; another backend is called, and a chain exhausted, only after the smaller of its two limits; every backend's state is that of its last attempt |
| `PlatformOutcomes.OutcomeTold` | scion_sdk/adapters/platform_fallback.py:249-511 | every attempt tells what the backend did when it was called, every skip why, a success returns the page of its last attempt, and the reason of a refusal follows from the last attempt |
| `PlatformOutcomes.PageOk` | scion_sdk/adapters/platform_models.py:211-260 | a page that passed its check is refused only when it is too large or names another backend |
| `Platform.FailureReason` | scion_sdk/adapters/platform_fallback.py:59-74 | an HTTP refusal is never turned into a retryable failure |
| `Platform.StatusStore.Record` | scion_sdk/adapters/platform_status.py:138-166 | an observation is stored exactly when it is valid, and its status follows from the attempts |
| `Platform.StatusStore.Put` | scion_sdk/adapters/platform_status.py:160-165 | the newest 256 observations stay, the recorded one last |
| `Platform.Latest` | scion_sdk/adapters/platform_status.py:78-101 | a backend's state is that of its latest attempt |
| `Platform.StatusOf` | scion_sdk/adapters/platform_status.py:58-166 | a backend is healthy exactly when its last attempt is ok and unhealthy exactly when it has one that is not, with the reason and time of that attempt; the channel is healthy exactly when the first policy's backend was selected |
| `SourceSweep.WatermarkHeld` | scion_sdk/adapters/mcp_tool_paging.py:158-191 | the watermark stays constant until the last page of a sweep, across parents, whatever is answered to each page |
| `SourceSweep.WatermarkReached` | scion_sdk/adapters/mcp_tool_paging.py:158-191 | a sweep ends at the latest of the old watermark and all times emitted, whatever is answered to each page |
| `SourceSweep.LatestAbove` | scion_sdk/adapters/mcp_tool_paging.py:171-186 | no time compared is later than the latest |
| `SourceSweep.LatestMet` | scion_sdk/adapters/mcp_tool_paging.py:171-186 | the latest time is one of those compared |
| `SourceSweep.PageFiltered` | scion_sdk/adapters/mcp_tool_extract.py:51-68 | each page emits exactly the rows read that are not at or below the old watermark |
| `SourceSweep.ParentsInOrder` | scion_sdk/adapters/mcp_tool_fanout.py:126-201 | parents are visited in order, once each, every listing from its start to its end |
| `SourceSweep.WindowNext` | scion_sdk/adapters/mcp_tool_paging.py:131-155 | a numbered page is followed by the rest of its list, or was its end |
| `SourceSweep.SweepEmitsRead` | scion_sdk/adapters/mcp_tool_extract.py:51-68 | in every pagination mode, and also when the answers change from page to page, a sweep emits exactly the rows it reads that are not at or below the old watermark, in order |
| `SourceSweep.ServesFollow` | scion_sdk/adapters/mcp_tool_paging.py:131-155 | a source that serves a list, by page numbers, by offsets, by cursors or at once, is read as that list from its start to its end |
| `SourceSweep.SweepEmitsAll` | scion_sdk/adapters/mcp_tool_fanout.py:126-201 | a sweep over lists that do not change emits every item that is not old, parent by parent in listing order, once each, in every pagination mode |
| `SourceSweep.Reconcile` | scion_sdk/adapters/mcp_tool.py:251-267 | a reconciliation reports the comparison with the known ids exactly when a complete sweep without a watermark fits the page budget, and is refused exactly otherwise |
| `SourceSweep.SweepUnique` | scion_sdk/adapters/mcp_tool.py:251-267 | there is at most one complete sweep |
| `SourceSweep.NoSweep` | scion_sdk/adapters/mcp_tool.py:251-267 | a refused page or a spent budget rules out every complete sweep |
| `SourceSweep.ReconcileSeesAll` | scion_sdk/adapters/mcp_tool.py:251-267 | it sees every id the source lists |
| `SweepSeries.NothingTwice` | scion_sdk/adapters/mcp_tool_paging.py:158-191 | over any series of sweeps, what a later one emits is later than all that was emitted before, unless it has no time |
| `SweepSeries.NothingMissed` | scion_sdk/adapters/mcp_tool_extract.py:51-68 | a row that is read and left out is no later than the first watermark or than something an earlier sweep emitted |
| `SweepProgress.SweepExists` | scion_sdk/adapters/mcp_tool_paging.py:131-191 | when the source serves its lists, in any pagination mode, a complete sweep exists and emits every item that is not old |
| `SweepProgress.ReconcileReports` | scion_sdk/adapters/mcp_tool.py:251-267 | with a budget that is large enough a reconciliation reports the comparison with all that is listed |
| `TurtleText.LiteralRoundTrip` | scion_sdk/_turtle.py:75-76 | the two replacements undo JSON escaping (section 7 of RFC 8259) exactly for texts without control characters |
| `TurtleText.FirstPass` | scion_sdk/_turtle.py:75-76 | what the first replacement leaves |
| `TurtleText.SecondPass` | scion_sdk/_turtle.py:75-76 | what the second leaves: control characters stay escaped |
| `TurtleText.LiteralEnds` | scion_sdk/_turtle.py:17-17 | a written literal ends at its own closing quote, whatever follows |
| `TurtleText.EncodeDenotes` | scion_sdk/artifacts/source_contract.py:72-86 | every string is written as a literal that denotes it to a JSON reader |
| `TurtleReader.Reader.ReadAll` | scion_sdk/_turtle.py:101-108 | the reader accepts exactly the token lists of the grammar and collects their triples |
| `TurtleReader.Reader.ReadStatement` | scion_sdk/_turtle.py:89-99 | one statement, ended by a full stop |
| `TurtleReader.Reader.ReadObjects` | scion_sdk/_turtle.py:94-97 | the objects of one predicate, separated by commas |
| `TurtleReader.Reader.ReadPredicates` | scion_sdk/_turtle.py:91-99 | the predicates of one subject, separated by semicolons |
| `TurtleReader.Reader.ReadPrefix` | scion_sdk/_turtle.py:81-87 | a prefix declaration |
| `TurtleReader.SpelledDenotes` | scion_sdk/_turtle.py:89-99 | a number is spelled by the numeral that denotes it |
| `SourceContract.StatementRead` | scion_sdk/_turtle.py:89-99 | a printed statement reads back as its triples, whatever follows it |
| `SourceContract.DocumentRead` | scion_sdk/_turtle.py:101-108 | printed statements read back as their triples, in order |
| `SourceContract.BlockRoundTrip` | scion_sdk/artifacts/source_contract.py:39-86 | a printed statement, contract or binding, reads back as declared exactly when no value holds a control character |
| `SourceContract.DocumentRoundTrip` | scion_sdk/artifacts/source_contract.py:18-86 | a printed document, with its contracts and property bindings, always reads, and reads as what was declared exactly when no value holds a control character |
| `SourceContract.FieldRecovered` | scion_sdk/access_contract.py:132-160 | of what was read, each field of each contract has the one value declared |
| `SourceContract.BindingsRecovered` | scion_sdk/_contract_fields.py:139-146 | of what was read, a contract's bindings are its sorted (property, field) pairs, or refused when one is blank |
| `SourceContract.PrintedInOrder` | scion_sdk/artifacts/source_contract.py:79-86 | bindings are printed by field name, each field of the descriptor in its turn |
| `SourceContract.BindingsInOrder` | scion_sdk/_contract_fields.py:139-146 | the bindings read come by property, and of one property by field |
| `SourceContract.SharedNameRefused` | scion_sdk/_contract_fields.py:139-146 | two bound fields of one name make the bindings of their contract refused |
| `SourceContract.TabNotRecovered` | scion_sdk/_turtle.py:75-76 | a descriptor with a tab in its operation, which is printed unchecked: its document reads, but not as declared |
| `SourceContract.SortsAgree` | scion_sdk/access_contract.py:169-175 | sorting by contract IRI agrees with sorting by resource URI, because every allowed character exceeds `#` |
| `SourceContract.SuffixKeepsOrder` | scion_sdk/access_contract.py:170-174 | the common suffix keeps the order of two URIs |
| `Bookmarks.ReadPage` | scion_sdk/adapters/bookmark_source.py:100-119 | a page holds the first occurrences from its offset on, as many as fit, and names the next one |
| `Bookmarks.ReadAllPages` | scion_sdk/adapters/bookmark_source.py:100-119 | following the next offsets from 0 ends for any page sizes, and joins to the first occurrence of every identity in source order |
| `Bookmarks.FirstsExact` | scion_sdk/adapters/bookmark_source.py:106-118 | every identity is there at its first row |
| `Bookmarks.FirstsAscend` | scion_sdk/adapters/bookmark_source.py:106-118 | in source order, and only once |

## Left out

- PaperQuota: `QuotaSlot._retained` is a field of a client value in the step machine, not of an object, so aliasing of one slot object by two tasks is not modelled.
- ForeignRead: the client's tables are updated in place only in `ForeignReadTables`, for closing and sweeping; the phases themselves are steps over values.
- ForeignRead: a second cancellation while the abort cleanup is already running is not modelled, nor the abort sent for an open whose id was already in use.
- PaperIdentity: percent-quoting, DOI normalisation and the DOI pattern are function parameters.
- PaperMerge: URL checks on public offers and the output models' field limits are parameters or left out.
- SchemaContract: the parser is any that undoes the printer (`CanonicalCodec` shows that one exists); signed zero, infinities and NaN are not values, the numerals of floats are a parameter, and digests are left out.
- SchemaSoundness: schemas with keywords other than type, required, properties, items, enum and const are not given a meaning for records.
- SchemaDrift: the wording of change reports is kept only as path, reason and level.
- TurtleRewrite: the regular expressions that find matches, predicates, subjects and objects are not modelled; proofs start from their spans, with exactly one visible comma between neighbouring objects for partial removal.
- RewrittenView: the first object starts a token and does not stand right behind a literal (`Sited`), which holds in every Turtle statement.
- FullView: the match starts a token, not behind a comment, and when a literal stands right in front of it no quote stands right behind it (`FullySited`), which holds in every Turtle statement.
- TurtleFullRemoval: the `;` in front and the subject are never both removed, as in the program's three uses.
- RunPass: no quote stands right behind what a match loses, which holds in every Turtle statement; a match whose removal is refused ends the whole rewriting.
- The RDF/XML branch and the recorded requirements of `scope_ontology_imports` are not modelled.
- PlatformFallback: request, principal and schema fields of results and the content checks of pages are one outcome of the page check; clocks and sleeps are parameters.
- Platform: expiry and reading of stored observations are left out.
- SourceSweep: presets with a provider-declared checkpoint, parent lists that change during a sweep, relationships, withdrawals and snapshots are left out, and so is the walk over a preset's chain of parents.
- EventPages: the page digest is one flag that says whether the page exactly repeats the last one; concurrent extractions appear only as refusals of `Begin`.
- LockGraph: reading the lock file and the installed metadata, marker evaluation and the comparison of lock edges are parameters; the sorted output strings are a map from name to version.
- TurtleReader: splitting text into tokens is not modelled, except where a literal ends; integers are read as numbers.
- SourceContract: percent-quoting of field names is an injective parameter; the checks of enumerated, numeric and credential fields when a contract is parsed, and of a descriptor's identity before it is printed, are left out.
- FieldRecovered: contracts have different URIs and canonical terms.
- BindingsRecovered: the same, and the bound fields of a contract have different names; `SharedNameRefused` says what happens otherwise.
- Bookmarks: parsing, validation and enrichment of a row are one outcome of that row.
- Error messages: all exceptions a caller treats alike are one refusal.
- HTTP, TLS, OAuth, MCP bootstrap, file access, document parsing, privacy patterns, payment guards and caches are not part of this model.
