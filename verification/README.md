# inventory-api: a verified model of tuple replication and its protocols

inventory-api keeps a relational record of reported resources and replicates it, through an outbox and a Kafka
consumer, into a relationship (tuple) store. This project models that pipeline and the protocols around it in Dafny
and proves what they guarantee over whole runs. `dafny verify dfyconfig.toml` checks everything.

**Replication.** `Tuples`, `Representations` and `RelationDiff` are the values and the tuple calculation;
`TupleWriter` carries a diff out against a backend that may refuse calls or lose replies; `ResourceHistory` and
`ResourceAggregate` are the versioned resource, its tables and its outbox, once as values and once as the objects the
code has; `RowSelection` is the lookup of current and previous representations; `MessageProcessing` is what the
consumer does with one message. `Pipeline` puts these together as a state machine in which transactions, abandoned
attempts, completed events, redeliveries and writers of tuples about other objects interleave freely, and `Convergence`
and `Revival` prove where every run ends up that goes back when it restarts. `SharedStore` replicates several resources
into one store and says when they leave each other alone. `Progress` says when the consumer can get through the outbox.
`Redelivery` drives the pipeline by the consumer group, whose commits decide where a restart begins, and `StaleRestart`
is a run of it in which a restart goes ahead. `FencedGroup` drops the assumption that a partition has one holder and lets
the fence decide whose calls get through; `UnfencedWriter` is a run in which it does not help.

**Protocols.** `Fencing` (lock acquisition and fenced writes), `ConsumerOffsets` (storing, taking, committing and
restoring offsets, with members joining, restarting and rebalancing), `Notifications` and `PubSub` (read-after-write
waiting, as a state machine and as the objects that run it), `SerializableTransactions` (the retry loop).

**Stores and codecs.** `SnapshotStore` (the in-memory tuple store with versions and retained snapshots),
`SpiceDbCodec` with `Text` (tuples and filters as SpiceDB's), `SpiceDbStore` (SpiceDB as the backend of replication),
`SchemaCache` (the schema cache's keys, written and loaded), `BatchedDeletion` (the deletion job and its dry run). `Iteration` picks the next element of an unordered
iteration.

## What turned out not to hold

Each of these is proved with a concrete run or input, and beside it the exact condition under which the promise holds.

- A resource reported again after a delete is sent as an update whose diff is taken against the representation from
  before the delete, so tuples common to both are deleted and not created again: `Revival.RevivedResourceLosesItsTuple`.
  The converged store is the last projection exactly when no tuple has outlived a delete
  (`Convergence.ConvergesToLastProjectionIff`, `Revival.RevivalIff`).
- A delete event of a resource that has no common representation stops the consumer: its lookup fails, and no run passes
  it until a later report persists one. `Progress.DeletedWithoutCommonFails` is the input (a report with reporter data
  only, then a delete), `Progress.StuckAtDelete` the consequence, and `Progress.CatchUpIff` the exact condition.
- Resources whose keys differ in the reporter instance only are kept apart in the tables and write the same tuples, since
  a tuple names its object without the instance. Report two of them alike and delete one: the other, caught up and never
  deleted, has lost its tuples (`SharedStore.TwinLosesTuple`). Every interleaving converges for every resource exactly when
  no two that write tuples are such twins (`SharedStore.FleetConvergesIff`).
- Relation definitions that share relation, subject namespace and subject type lose tuples
  (`TupleWriter.DiffSoundIffUnambiguous`). On SpiceDB so do definitions that are only encoded alike, "x" and "t_x" for
  instance (`SpiceDbStore.PrefixedNamesCollide`), and an empty value in a list takes the others along when it goes
  (`SpiceDbStore.EmptyValueTakesAll`); `SpiceDbStore.SoundIff` has both exact conditions.
- Two acquirers that both read a lock before its first version both end up with valid tokens
  (`Fencing.FirstAcquisitionsRace`); a lock has one version for ever exactly when it has one now and no acquirer is waiting
  with an empty read (`Fencing.OneVersionForEverIff`). An empty token passes the fence, with the lock's id after a failed
  acquisition and without any id after a revocation (`Fencing.FencedWriteIff`).
- A member that is still writing after its partition was given to another is stopped by the fence, and the group converges
  without exclusive assignments (`FencedGroup.FencedConverges`). It is not stopped when the new holder's acquisition fails
  and that goes on with an empty token: both write, and a run ends stale (`UnfencedWriter.UnfencedGoesStale`).
- Offsets kept over a revocation can be committed after the partition has come back at an earlier position, putting
  the committed offset ahead of the member: `ConsumerOffsets.StaleOffsetsCommitAhead`. It can never happen exactly when
  every assignment finds no member remembering an offset beyond its start (`ConsumerOffsets.RedeliveryGoesBackIff`).
- A restart at such an offset skips part of a replay, and the store keeps a stale tuple although every message has been
  processed: `StaleRestart.StaleAfterRestart`. A restart at the committed offset is a restart of the pipeline exactly when
  no event of the resource lies between the point reached and that offset (`Redelivery.RestartIff`), and a run of such
  restarts converges (`Redelivery.GroupConverges`). A restart ahead is recovered from exactly when every tuple that no
  remaining event touches is already right (`Progress.ConvergesFromIff`).
- A waiter's own notification is dropped when two others are distributed between its subscription and its wait:
  `Notifications.CrowdedOut`, `Notifications.WaitingIsFirstTwo`.
- A tuple is not read back from SpiceDB as written when its relation already starts with the prefix, a type contains a
  slash, a reporter instance is set, or the subject relation is the empty string: `SpiceDbCodec.RoundTripIff`. Its
  deletion by filter takes other tuples along exactly when one of its ids is empty: `SpiceDbCodec.DeletesExactlyIff`.

Where the documentation and the code differ, the model follows the code: the restore comment in
`commitStoredOffsets` speaks of restoring only into empty storage, while the code also merges.

## Model

| member | source | states |
|---|---|---|
| Tuples.FilterIsExactOnDirectTuples | internal/consumer/consumer.go:591-621 | Among tuples with a direct subject and no reporter instance, the filter made from a tuple, each given field read literally, selects that tuple and no other |
| Tuples.FilterCollateral | internal/consumer/consumer.go:591-621 | What else such a filter selects: exactly the tuples that differ only in subject relation or reporter instance |
| Tuples.FilterFields | internal/consumer/consumer.go:591-621 | The filter made from any tuple, field by field: instances dropped, a missing reporter or subject relation left open |
| Tuples.MatchesIff | internal/biz/model/tuple_filter.go:1-59 | A filter selects a tuple exactly when every field it gives is the tuple's |
| Representations.StringSliceField | internal/biz/model/representations.go:88-110 | The loop returns the strings of the array field in order and skips everything else |
| Representations.StringsMembers | internal/biz/model/representations.go:88-110 | A value is returned exactly when the array holds it as a string |
| Representations.StringsInOrder | internal/biz/model/representations.go:88-110 | The strings come in the order of the array |
| Representations.NewRepresentationsIff | internal/biz/model/representations.go:21-51 | Accepted exactly when there is data, and data and version come together for either kind |
| Representations.ValuesMeaning | internal/biz/model/representations.go:76-110 | Which subject ids a definition takes, in terms of the stored JSON, scalar and multi-valued, nil and missing fields included |
| RelationDiff.DiffRelationValues | internal/biz/model/relation_diff.go:7-42 | Creates and deletes list the two set differences, every element once, whatever the order and repetitions of the inputs |
| RelationDiff.CalculateTuplesFromRelationDefs | internal/biz/model/schema.go:147-177 | The result creates exactly the gained and deletes exactly the lost tuples, with nil pointers exactly for empty lists, and without duplicates when the definitions' targets are distinct |
| RelationDiff.DispatchNeverMeetsNil | internal/biz/model/tuples_to_replicate.go:12-34 | With nil current a non-empty result has deletes and no creates; with nil previous the converse |
| RelationDiff.DefaultSchemaEqualsEngine | internal/biz/model/schema.go:28-53 | Any result of the general engine for the workspace definition is the hand-written workspace schema's result, for all inputs |
| RelationDiff.DefaultSchemaIsDiff | internal/biz/model/schema.go:28-53 | The hand-written workspace schema returns a correct diff for the workspace definition, for all inputs |
| RelationDiff.WorkspaceSchemaSpelledOut | internal/biz/model/relations_tuple.go:25-35 | For all keys and workspaces, absent ones included: nothing for an unchanged workspace, otherwise exactly the tuple to subject rbac/workspace of the new one is created and that of the old one deleted, every field written out |
| RelationDiff.GainedSpelledOut | internal/biz/model/relations_tuple.go:37-65 | The engine's tuples, every field written out in terms of the key and the definition |
| TupleWriter.PrefixEffect | internal/consumer/consumer.go:539-588 | What the store holds after any number of the backend calls, tuple by tuple |
| TupleWriter.FullEffect | internal/consumer/consumer.go:539-588 | What the store holds after all of them, for arbitrary lists of creates and deletes |
| TupleWriter.RetryIsIdempotent | internal/consumer/consumer.go:679-701 | Starting over after an attempt abandoned anywhere gives what one clean attempt gives |
| TupleWriter.FirstTokenMeaning | internal/consumer/consumer.go:539-588 | The token returned is one that was given, all before it being empty, or empty if all are |
| TupleWriter.Backend.CreateTuple | internal/consumer/consumer.go:507-536 | An empty list is an error that reaches no backend; otherwise one upsert, and the token of its reply |
| TupleWriter.Backend.DeleteTuple | internal/consumer/consumer.go:566-588 | One deletion per tuple, in order, up to the first failure; success exactly when all are answered, with the first token given |
| TupleWriter.Backend.UpdateTuple | internal/consumer/consumer.go:539-563 | Some prefix of creates-then-deletes has taken effect, for every pattern of refusals and lost replies; success exactly when all calls are answered, then all of it, with the first token given |
| TupleWriter.GainedIsDifference | internal/biz/model/schema.go:147-177 | With unambiguous definitions, diffing definition by definition is diffing the projections |
| TupleWriter.DiffApplied | internal/biz/model/schema.go:147-177 | On a store whose tuples for the key are the previous projection, carrying out the diff leaves the current projection, changes no tuple of another object, and creates and deletes are disjoint |
| TupleWriter.DiffSoundIffUnambiguous | internal/biz/model/schema.go:147-177 | On a store of tuples, carrying out the diff turns one projection into the other for all representations if and only if no two different definitions share a target |
| TupleWriter.AmbiguityLosesTuple | internal/biz/model/schema.go:147-177 | For any two definitions with one target there are representations for which the diff goes wrong |
| ResourceHistory.MaxVersion | internal/data/resource_repository.go:229-279 | The maximum of the persisted common versions, none if there is none |
| ResourceHistory.TransactionStep | internal/biz/model/resource.go:95-198 | On consistent tables a transaction fails exactly for unacceptable input (never for a key collision), keeps the tables consistent, gives a new common representation the next version, moves a live reporter to the next version of its generation, restarts a tombstoned one at version 0 of the next generation, and ignores a second delete |
| ResourceHistory.EveryRunIsConsistent | internal/data/resource_repository.go:133-188 | Over every run of reports and deletes the common representations are exactly the accepted ones, in order, under versions 0, 1, 2, ..., and the outbox numbers them without gaps |
| ResourceHistory.RowsAreWrittenOnce | internal/data/resource_repository.go:133-188 | No (generation, version) and no common version is ever written twice, in any continuation of any run |
| ResourceHistory.EveryRunIsCounted | internal/biz/model/reporter_resource.go:87-114 | Over every run the generation is the number of accepted reports that follow a delete, and the version the number of accepted reports and effective deletes since the generation began |
| ResourceHistory.CommonVersionMoves | internal/biz/model/resource.go:95-127 | The common version moves on from the current one or else the last one, starts at 0, and is cleared without common data while the last one stays |
| ResourceHistory.NewStateVersions | internal/biz/model/resource.go:29-92 | A new resource's versions, current and last, and its reporter state |
| ResourceHistory.SaveFailsIff | internal/data/resource_repository.go:133-188 | For any tables, saving fails exactly on an existing reporter key or common version, or a report without any version |
| ResourceHistory.SaveWrites | internal/data/resource_repository.go:133-207 | For any tables, the rows and the event that saving writes |
| ResourceHistory.IncrementWraps | internal/biz/model/common.go:172-177 | Counters wrap at 64 bits and nowhere else |
| ResourceHistory.FreshReporterKey | internal/biz/model/reporter_resource.go:87-114 | The next (generation, version) after an update or effective delete is above every persisted one, lexicographically |
| ResourceAggregate.ReporterResource.Update | internal/biz/model/reporter_resource.go:87-104 | The in-place update is the value-level one, generation restart included |
| ResourceAggregate.ReporterResource.StartNewGeneration | internal/biz/model/reporter_resource.go:100-104 | Version 0 of the next generation, not tombstoned |
| ResourceAggregate.ReporterResource.Delete | internal/biz/model/reporter_resource.go:106-114 | The version moves on and the tombstone is set |
| ResourceAggregate.Resource.Update | internal/biz/model/resource.go:95-166 | The in-place update leaves the value-level state also when it is rejected after the versions have moved |
| ResourceAggregate.Resource.Delete | internal/biz/model/resource.go:168-198 | A tombstoned resource is left as it is; otherwise the delete key is recorded |
| ResourceAggregate.LastCommonVersion | internal/data/resource_repository.go:229-279 | The MAX subquery, in any row order |
| ResourceAggregate.Inventory.FindResource | internal/data/resource_repository.go:229-279 | Loading yields the value-level aggregate of the tables |
| ResourceAggregate.Inventory.Save | internal/data/resource_repository.go:133-188 | Writing the rows one after the other in a transaction, and rolling back at the first duplicate key, yields the tables of the value-level save, or none of it |
| ResourceAggregate.Inventory.ReportResource | internal/biz/usecase/resources/resource_service.go:156-178 | Load, update or create, save: the tables move by the Report transaction |
| ResourceAggregate.Inventory.DeleteResource | internal/biz/usecase/resources/resource_service.go:332-365 | Load, delete, save: the tables move by the Delete transaction |
| RowSelection.FindCurrentAndPreviousVersionedRepresentations | internal/data/resource_repository.go:289-341 | Whatever the row order and repetition, current is version cv, and previous is version cv - 1 if that exists and the event is no creation; it fails exactly when a selected row is empty |
| RowSelection.CurrentAndPreviousSpelledOut | internal/data/resource_repository.go:289-341 | The pair for any rows, version and operation, written out: a creation and version 0 have no previous |
| RowSelection.PreviousIsThePrecedingOne | internal/data/resource_repository.go:289-341 | For every event in the outbox, whenever it is looked up, current is the representation it was sent for and previous the one persisted just before it |
| RowSelection.DeleteLookup | internal/data/resource_repository.go:343-373 | A delete event finds the newest representation, and fails exactly when none has been persisted yet |
| MessageProcessing.FindLatestRepresentations | internal/data/resource_repository.go:343-373 | The row with the highest version, in any row order, or the error for no row |
| MessageProcessing.FetchRepresentations | internal/consumer/consumer.go:299-345 | The lookup of each operation is the specified pair, and fails exactly when that is missing or a selected row is empty |
| MessageProcessing.Execute | internal/consumer/consumer.go:296-345 | Dispatch by operation: a prefix of that operation's calls has taken effect, all of them on success, which is exactly when all are answered; a creation returns its reply's token, an update the first one given, a deletion none; a failure has met exactly one call that was not answered |
| MessageProcessing.Retry | internal/consumer/consumer.go:679-701 | Success has the clean effect and the token of the last attempt, however many attempts were cut short; failure leaves what those attempts left. With a limit it gives up after exactly that many calls that are not answered, none for a negative one, and succeeds if fewer come; without one it succeeds against a backend that fails finitely often |
| MessageProcessing.RetriesAreIdempotent | internal/consumer/consumer.go:679-701 | Any number of abandoned attempts before a clean one changes nothing about its result |
| MessageProcessing.DispatchIsComplete | internal/consumer/consumer.go:296-345 | For every event, the operation's calls are the whole diff, the dereferenced list is present and the "no tuples" error is unreachable |
| MessageProcessing.AttemptsAreSteps | internal/consumer/consumer.go:353-399 | Failed attempts are steps of the pipeline's runs |
| MessageProcessing.Replicate | internal/consumer/consumer.go:385-398 | An empty diff makes no calls and succeeds; any other is carried out, or abandoned after as many calls without answer as retries are allowed |
| MessageProcessing.ProcessRelationsOperation | internal/consumer/consumer.go:353-399 | Exactly a failed lookup makes no calls; otherwise the calculated diff is replicated |
| MessageProcessing.ProcessMessage | internal/consumer/consumer.go:296-345 | Unknown operations and disabled relations are dropped and unparsable payloads refused without a call; otherwise success carries out the whole calculated diff, a Complete step however the tables have grown since the lookup, and failure some prefixes of its calls, a failed lookup none; with unlimited retries, or more than calls will go unanswered, it fails only if the lookup does |
| Pipeline.ReportEffect | internal/consumer/consumer.go:353-399 | A created or updated event, also when cut short, leaves alone what its diff does not touch, and when complete sets what it does |
| Pipeline.DeleteEffect | internal/consumer/consumer.go:325-338 | A deleted event removes the projection that was newest when it was looked up, which may be ahead of the event and behind later transactions |
| Convergence.CleanPassMembers | internal/consumer/consumer.go:353-399 | One clean pass over the outbox holds exactly the projected tuples that have not stayed projected since some delete |
| Convergence.StepKeepsInv | internal/consumer/consumer.go:353-399 | Every step (transaction, abandoned attempt, completed event, redelivery, foreign write) keeps every tuple settled |
| Convergence.EveryStateSettled | internal/consumer/consumer.go:353-399 | So does every run |
| Convergence.ReplayConverges | internal/consumer/consumer.go:186-288 | In every run of one resource's pipeline, where restarts go back and other writers keep to other objects, whenever the consumer has caught up, the store's tuples for the resource are those of one clean pass, whatever crashes, redeliveries and delays came before |
| Convergence.ConvergesToLastProjectionIff | internal/consumer/consumer.go:353-399 | In such a run that is the projection of the last persisted common representation if and only if no tuple has outlived a delete, hence always for a resource never deleted |
| Convergence.NothingStale | internal/consumer/consumer.go:353-399 | In such a run a caught-up store holds no tuple outside the last projection, and none of a deleted resource |
| SharedStore.SameObjectIff | internal/biz/model/relations_tuple.go:37-65 | Two keys write tuples about one object exactly when they agree in everything but the reporter instance |
| SharedStore.OtherIsOutside | internal/consumer/consumer.go:353-399 | Whatever replication of one resource does is, for a resource with another object, the doing of an outside writer |
| SharedStore.FleetConverges | internal/data/model/reporter_resource.go:14-18 | For several resources over one store, each with its tables and its place, every interleaving converges for each of them when their objects are pairwise different; with the last-projection condition and nothing stale |
| SharedStore.TwinLosesTuple | internal/data/resource_repository.go:216-227 | For any two keys that differ in the instance only and any definition: both reported with one value, one deleted; the other is caught up, was never deleted, and its tuple is gone |
| SharedStore.FleetConvergesIff | internal/biz/model/relations_tuple.go:37-65 | Every interleaving converges for every resource if and only if no two that write tuples differ in the reporter instance only |
| Revival.RevivalIff | internal/biz/usecase/resources/resource_service.go:156-178 | After delete and report the converged store is the new projection exactly when it shares no tuple with the one before |
| Revival.RevivedResourceLosesItsTuple | internal/biz/usecase/resources/resource_service.go:156-178 | A run: report in a workspace, delete, report in it again, catch up; the live resource has no workspace tuple |
| Progress.CanCatchUp | internal/consumer/consumer.go:186-288 | For any relation definitions: undisturbed, the consumer catches up whenever every remaining lookup succeeds |
| Progress.PassedLookups | internal/consumer/consumer.go:371-376 | Without a transaction, the consumer passes only events whose lookups succeed, however it retries and restarts |
| Progress.CatchUpIff | internal/consumer/consumer.go:353-399 | Without another transaction the end of the outbox can be reached if and only if every remaining lookup succeeds, that is, a common representation was ever persisted or no delete event remains |
| Progress.ConvergesFromIff | internal/consumer/consumer.go:353-399 | From any position whose end can be reached, after a restart ahead too: every continuation converges if and only if every tuple that nothing ahead touches is already right |
| Progress.DeletedWithoutCommonFails | internal/data/resource_repository.go:343-373 | For any reporter data: reported without common data and deleted, the resource has a delete event whose lookup fails |
| Progress.StuckAtDelete | internal/consumer/consumer.go:325-338 | No run passes a delete event as long as no common representation is persisted, transactions or not |
| Redelivery.StepKeepsInv | internal/consumer/consumer.go:186-288 | In the group-driven pipeline the partition has at most one holder, at the point reached, and nothing is committed or remembered beyond the log |
| Redelivery.RestartIff | cmd/serve/serve.go:349-377 | A restart at the committed offset is a restart of the pipeline exactly when that offset is not ahead of the point reached or only other resources' messages lie between |
| Redelivery.RunIsPipelineRun | internal/consumer/consumer.go:186-288 | A run of the group in which no restart skips an event and no other resource has the object is a run of the pipeline, the writes for other resources included |
| Redelivery.GroupConverges | internal/consumer/consumer.go:186-288 | In every such run, members joining, crashing, committing and leaving as they like, a caught-up store is one clean pass, is the last projection if and only if no tuple has outlived a delete, and holds nothing stale |
| Redelivery.HarmlessNeverSkips | internal/consumer/consumer.go:705-779 | No restart skips an event if every assignment finds no member remembering an offset beyond its start |
| StaleRestart.RestartedAhead | internal/consumer/consumer.go:651-676 | A reachable restart ahead of the point reached, beyond an event: commit failed on revocation, partition assigned again, first event replayed, remembered offsets committed at shutdown |
| StaleRestart.StaleAfterRestart | internal/consumer/consumer.go:738-773 | It ends caught up with a tuple in the store that the last representation does not have |
| FencedGroup.StepKeepsInv | internal/consumer/consumer.go:705-779 | Without exclusive assignments: the lock has one version, at most one member carries its token, and that member is at the front |
| FencedGroup.OnlyHolderWrites | internal/consumer/consumer.go:512-514 | Once the next member has swapped the version, a former holder's calls are refused |
| FencedGroup.AcquireIff | internal/consumer/consumer.go:711-735 | Acquiring the lock is a restart of the pipeline at the member's offset exactly when that skips no event |
| FencedGroup.FencedConverges | internal/consumer/consumer.go:186-288 | Whoever else still believes to hold the partition, as long as acquisitions succeed and skip nothing and no other resource has the object, a caught-up store is one clean pass, is the last projection if and only if no tuple has outlived a delete, and holds nothing stale |
| UnfencedWriter.UnfencedGoesStale | internal/consumer/consumer.go:722-733 | A run in which the new holder's acquisition fails: both members' calls pass the fence, every event is processed, and the store keeps a tuple the last representation does not have |
| Fencing.RunKeepsInv | internal/data/spicedb_relations_repository.go:601-680 | In every interleaving, tokens of waiting acquirers are fresh and no token is stored twice |
| Fencing.VersionsAreConserved | internal/data/spicedb_relations_repository.go:601-680 | A lock's version tuples are those it started with plus one per acquisition that had read an empty lock |
| Fencing.FirstAcquisitionsRace | internal/data/spicedb_relations_repository.go:631-649 | Two first acquisitions can both succeed, and both tokens pass the fence |
| Fencing.RunKeepsGuarded | internal/data/spicedb_relations_repository.go:601-680 | From one version and no empty read pending, every reachable state has exactly one version, the latest acquirer's |
| Fencing.OneVersionForEverIff | internal/data/spicedb_relations_repository.go:601-680 | Every continuation keeps exactly one version if and only if there is one and no acquirer is waiting with an empty read |
| Fencing.FencedWriteIff | internal/data/spicedb_relations_repository.go:481-496 | Then a fenced write with the lock's id passes if and only if its token is the latest acquirer's or empty; one without an id, if and only if its token is stored for some lock or empty |
| Fencing.SupersededForever | internal/data/spicedb_relations_repository.go:530-545 | A token issued, not stored and not pending stays so |
| Fencing.ReplacedTokenNeverReturns | internal/data/spicedb_relations_repository.go:530-545 | A replaced token never passes the fence again, however acquisitions race |
| ConsumerOffsets.RunIsSafe | internal/consumer/consumer.go:186-288 | In every run every message up to a committed, stored or pending offset, and below a member's position, has been processed |
| ConsumerOffsets.UnprocessedIsNeverSkipped | cmd/serve/serve.go:349-377 | A message not processed is ahead of the committed offset and of no position's past, so a restart meets it again |
| ConsumerOffsets.OffsetsAreConserved | internal/consumer/consumer.go:469-504 | Each offset occurs in storage, in pending batches and among the acknowledged ones together exactly as often as it was stored |
| ConsumerOffsets.NeverAheadIff | internal/consumer/consumer.go:469-504 | Until the partition's next message or assignment its committed offset can never exceed a bound, if and only if neither it nor any offset stored or pending in any member does |
| ConsumerOffsets.AssignWithinIff | internal/consumer/consumer.go:705-737 | An assignment leaves nothing remembered beyond its start exactly when it is harmless |
| ConsumerOffsets.RedeliveryGoesBack | internal/consumer/consumer.go:705-779 | With harmless assignments, the committed offset is never ahead of the holder |
| ConsumerOffsets.RedeliveryGoesBackIff | internal/consumer/consumer.go:705-779 | At no moment of a run can the committed offset get ahead of the holder if and only if every assignment was harmless: no member remembered an offset beyond its start |
| ConsumerOffsets.StaleOffsetsCommitAhead | internal/consumer/consumer.go:738-773 | Otherwise it can be: a reachable group in which it is |
| ConsumerOffsets.OffsetStorage.Store | internal/consumer/consumer.go:246-258 | The offset is appended, and a commit is due at multiples of the modulo |
| ConsumerOffsets.OffsetStorage.Take | internal/consumer/consumer.go:470-486 | The first locked region takes everything |
| ConsumerOffsets.OffsetStorage.Restore | internal/consumer/consumer.go:491-499 | The second puts the batch back in front of what arrived meanwhile |
| ConsumerOffsets.OffsetStorage.CommitStoredOffsets | internal/consumer/consumer.go:469-504 | Committed and stored offsets together are the old ones and those stored meanwhile, in order |
| SnapshotStore.BinarySearch | internal/data/relations_simple.go:115-117 | The first index not below the target |
| SnapshotStore.SimpleRelationsRepository.constructor | internal/data/relations_simple.go:57-64 | The empty history at version 1 |
| SnapshotStore.SimpleRelationsRepository.Reset | internal/data/relations_simple.go:154-161 | Back to the empty history |
| SnapshotStore.SimpleRelationsRepository.RetainCurrentSnapshot | internal/data/relations_simple.go:74-82 | The current state is kept under its version, and the store still refines its history |
| SnapshotStore.SimpleRelationsRepository.ReleaseSnapshot | internal/data/relations_simple.go:85-89 | One snapshot is dropped, the history stays |
| SnapshotStore.SimpleRelationsRepository.ClearSnapshots | internal/data/relations_simple.go:92-96 | All are dropped, the history stays |
| SnapshotStore.SimpleRelationsRepository.Grant | internal/data/relations_simple.go:138-151 | One mutation more in the history, and every retained snapshot is still the state at its version |
| SnapshotStore.SimpleRelationsRepository.CreateTuples | internal/data/relations_simple.go:415-431 | The same for an addition of all the tuples' keys, with the new version as the token; with an injected error nothing changes |
| SnapshotStore.SimpleRelationsRepository.DeleteTuples | internal/data/relations_simple.go:433-450 | The same for a deletion by filter |
| SnapshotStore.SimpleRelationsRepository.AvailableVersions | internal/data/relations_simple.go:110-115 | The sorted versions of the snapshots and the current state |
| SnapshotStore.SimpleRelationsRepository.GetTuplesForToken | internal/data/relations_simple.go:102-127 | With version n in the token, the state in history of the smallest available version at or above n, the current state if n is beyond it; without one, absent or malformed, the state of the oldest available version |
| SnapshotStore.SimpleRelationsRepository.Check | internal/data/relations_simple.go:246-263 | Allowed exactly when the key is in that state |
| SnapshotStore.PresentIff | internal/data/relations_simple.go:415-478 | The state at a version holds exactly the keys added by some mutation and matched by no deletion since |
| SnapshotStore.ReadYourWrites | internal/data/relations_simple.go:246-263 | With a creation's token a check sees every created tuple until a later deletion matches it, whichever snapshots are retained |
| SnapshotStore.SimpleRelationsRepository.CreateThenCheck | internal/data/relations_simple.go:415-431 | On the object: after a creation and any sequence of operations, a check with its token allows each created tuple unless one of them is a deletion that matches it |
| SnapshotStore.SimpleRelationsRepository.StaleCheck | internal/data/relations_simple.go:102-127 | Retain, create, check without a token or with a malformed one: the creation is not seen |
| SnapshotStore.DeletesAreSeen | internal/data/relations_simple.go:246-263 | With a deletion's token a check no longer sees what was deleted, until it is written again |
| SnapshotStore.StoreIsABackend | internal/data/relations_simple.go:415-478 | On direct tuples, replication's calls carried out on this store leave exactly the keys of what the modelled backend holds, after any sequence of calls |
| SnapshotStore.FiltersAgree | internal/data/relations_simple.go:452-478 | The store's reading of a filter and the backend's agree on direct tuples |
| SnapshotStore.KeysAreFaithful | internal/data/relations_simple.go:180-197 | Keys tell direct tuples apart |
| SnapshotStore.KeyFields | internal/data/relations_simple.go:180-197 | Which fields of a tuple make up its key, with and without reporters |
| Text.SplitJoin | internal/data/spicedb_relations_repository.go:698-719 | Splitting inverts joining for parts without the separator |
| Text.JoinSplit | internal/data/spicedb_relations_repository.go:698-719 | Joining inverts splitting for every string |
| SpiceDbCodec.ReferenceRoundTripIff | internal/data/spicedb_relations_repository.go:684-719 | A reference decodes to itself without its instance exactly when its types have no slash |
| SpiceDbCodec.PrefixRoundTrip | internal/data/spicedb_relations_repository.go:900-909 | Adding and stripping the prefix gives back exactly the relations that do not start with it |
| SpiceDbCodec.ReadBackIff | internal/data/spicedb_relations_repository.go:1010-1050 | A written tuple is read back in canonical form exactly when its types have no slash |
| SpiceDbCodec.RoundTripIff | internal/data/spicedb_relations_repository.go:1010-1050 | A written tuple is read back unchanged if and only if its types have no slash, it has no reporter instance, its relation lacks the prefix and its subject relation is absent or non-empty |
| SpiceDbCodec.CollideIff | internal/data/spicedb_relations_repository.go:756-776 | Two tuples with plain types share a stored relationship exactly when their canonical forms are equal |
| SpiceDbCodec.DecodedIsPlain | internal/data/spicedb_relations_repository.go:698-719 | Whatever is read has no slash in a type and no reporter instance |
| SpiceDbCodec.RewriteIff | internal/data/spicedb_relations_repository.go:756-776 | Writing back a relationship that was read gives it unchanged exactly when its relation has the prefix once |
| SpiceDbCodec.EncodedFields | internal/data/spicedb_relations_repository.go:684-776 | A tuple on the wire, field by field |
| SpiceDbCodec.EncodedFilterFields | internal/data/spicedb_relations_repository.go:778-838 | A filter on the wire, field by field, and which are refused |
| SpiceDbCodec.DeletesExactlyIff | internal/data/spicedb_relations_repository.go:778-838 | Among the tuples replication writes, SpiceDB's reading of a tuple's deletion filter selects that tuple and no other if and only if neither of its ids is empty |
| SpiceDbCodec.FilterReadingsAgree | internal/data/spicedb_relations_repository.go:778-838 | For such tuples it selects what the modelled backend selects |
| SpiceDbCodec.FilterReadingsAgreeOnFaithful | internal/data/spicedb_relations_repository.go:825-832 | Both readings agree also for tuples with subject relations: a given relation selects only itself, an absent one any |
| SpiceDbStore.SpiceDbIsABackend | internal/data/spicedb_relations_repository.go:450-556 | On faithful tuples, after any calls of replication whose deletions have ids, SpiceDB holds the encodings of exactly the tuples the modelled backend holds |
| SpiceDbStore.CallsEffect | internal/data/spicedb_relations_repository.go:450-556 | Which relationships are there after any creates and deletes |
| SpiceDbStore.SoundIff | internal/data/spicedb_relations_repository.go:756-838 | On SpiceDB the diff turns one projection into the other for all representations without empty values if and only if definitions encoded alike read the same field; for all representations, if and only if moreover none reads a list |
| SpiceDbStore.AmbiguityLosesRelationship | internal/data/spicedb_relations_repository.go:900-905 | For any two definitions encoded alike that read different fields there are representations for which it goes wrong |
| SpiceDbStore.EmptyValueTakesAll | internal/data/spicedb_relations_repository.go:893-898 | For any definition that reads a list, an empty value that goes takes the others along |
| SpiceDbStore.PrefixedNamesCollide | internal/data/spicedb_relations_repository.go:900-905 | Relation names "x" and "t_x" are unambiguous for the tuple store and not for SpiceDB |
| Notifications.RunKeepsInv | internal/pubsub/listenmanager.go:44-106 | The invariant of every reachable state |
| Notifications.NotifiedMeansProcessed | internal/consumer/consumer.go:208-244 | In every run a waiter that returns without error has had its own message processed, and notified after it subscribed |
| Notifications.BufferIsSubsequence | internal/pubsub/listenmanager.go:83-95 | A subscription holds at most two payloads; what it holds and has handed over is in order part of what was distributed since it subscribed, and all of it exactly when nothing was dropped |
| Notifications.WaitingIsFirstTwo | internal/pubsub/listenmanager.go:44-95 | Until it is read, a registered subscription holds exactly the first two payloads distributed since it subscribed |
| Notifications.CrowdedOut | internal/pubsub/listenmanager.go:86-92 | A reachable state in which a processed and distributed transaction is lost to its waiter |
| Notifications.SubscribeReplaces | internal/pubsub/listenmanager.go:44-56 | A new subscription is offered payloads in place of an older one for the same id |
| Notifications.UnsubscribeStops | internal/pubsub/subscription.go:27-34 | After the first Unsubscribe nothing is offered for the id, and a second changes nothing |
| Notifications.RegisteredIsOffered | internal/pubsub/listenmanager.go:86-92 | A registered subscription with room gets the payload |
| Notifications.EmptyIdIsNeverNotified | internal/consumer/consumer.go:233-244 | Messages without a transaction id are never notified |
| PubSub.ListenManager.Subscribe | internal/pubsub/listenmanager.go:44-56 | A Subscribe step: a fresh subscription replaces any of the same id |
| PubSub.ListenManager.WaitAndDistribute | internal/pubsub/listenmanager.go:58-95 | A Distribute step, or no change when the wait failed |
| PubSub.ListenManager.OfferAll | internal/pubsub/listenmanager.go:86-92 | Every listed subscription with room gets the payload, no other changes |
| PubSub.ListenManager.Unsubscribe | internal/pubsub/listenmanager.go:97-106 | An Unsubscribe step, once per subscription |
| PubSub.ListenManager.WaitOnce | internal/pubsub/subscription.go:36-49 | One turn of the wait: a Receive or a Cancel step, and the result that follows from it |
| SerializableTransactions.Database.Try | internal/data/gorm_transaction_manager.go:35-56 | One attempt has an effect exactly when function and commit both succeed |
| SerializableTransactions.Database.HandleSerializableTransaction | internal/data/gorm_transaction_manager.go:32-61 | At most max attempts, all but the last serialization failures; the function applied exactly once to what others left on success, not at all on error |
| SerializableTransactions.HandledIff | internal/data/gorm_transaction_manager.go:32-80 | Success and the number of attempts are determined: success exactly when the first attempt that is no conflict comes within max and has no error |
| SerializableTransactions.RetriedErrors | internal/data/gorm_transaction_manager.go:63-80 | Exactly Postgres state 40001 and SQLite code 1 are retried: after n of them and then no error the loop succeeds exactly when n is below the limit, in n + 1 attempts; any other error ends it at once |
| SerializableTransactions.FailureMeaning | internal/data/gorm_transaction_manager.go:38-55 | An error of the function counts before one of the commit |
| SchemaCache.NewTypeIsIdempotent | internal/biz/model/common.go:250-273 | Normalising a normalised type name leaves it alone |
| SchemaCache.NewTypeMeaning | internal/biz/model/common.go:250-273 | What normalising does, character by character: a blank name is refused, blanks around it go, capitals become small, and in a resource type a slash becomes an underscore |
| SchemaCache.FormatIsInjective | cmd/schema/schema.go:84-144 | Different keys are written differently, when resource types have no colon and are neither reserved word |
| SchemaCache.KeyFormats | cmd/schema/schema.go:84-144 | The four keys as they are written |
| SchemaCache.ReservedWordsCollide | internal/data/inmemory_schema_repository.go:263-294 | With a reserved word as resource type, a reporter schema takes the key of another resource's schema or configuration |
| SchemaCache.PreloadSchemas | cmd/schema/schema.go:84-144 | Every schema ends up under its own key, in any order |
| SchemaCache.LoadResources | internal/data/inmemory_schema_repository.go:273-294 | For any map, succeeds exactly when every resource schema has a valid type and a text and no two have the same type, with exactly those loaded; of a written cache exactly the resource schemas |
| SchemaCache.FindResourceType | internal/data/inmemory_schema_repository.go:356-365 | A type whose prefix the key has, with the remainder, or none if there is none |
| SchemaCache.LoadReporters | internal/data/inmemory_schema_repository.go:296-326 | Resource schemas stay; every key that starts with a loaded type is placed under one with its text, or it is an error; of a written cache exactly the reporter schemas of those resources are added |
| SchemaCache.NewFromJsonBytes | internal/data/inmemory_schema_repository.go:251-326 | Loading a written cache rebuilds exactly the resource schemas, each with exactly its reporter schemas, for every iteration order; of any other map a malformed resource schema is an error, and what is loaded is exactly what the keys name |
| BatchedDeletion.Table.Count | cmd/jobs/resource_delete_job.go:199-213 | Counting row by row, in any order, gives the number of matching rows |
| BatchedDeletion.Table.DryRunThenDelete | cmd/jobs/resource_delete_job.go:131-217 | What a dry run announces, rows and batches, is what the job then does when no statement fails, and never less |
| BatchedDeletion.Table.DeleteBatch | cmd/jobs/resource_delete_job.go:162-175 | One statement deletes some matching rows, as many as fit, and no others |
| BatchedDeletion.Table.DeleteBatched | cmd/jobs/resource_delete_job.go:148-197 | The loop ends, removes exactly the matching rows, totals the dry run's count in exactly the estimated number of batches; when a statement fails, the total counts what is gone |

## Left out

- Resources with several reporter resources: `Serialize` persists only the first, so the model has one; the key search with case folding is left out with it.
- Timestamps, hrefs, reporter-supplied versions and transaction ids, and with them the duplicate-transaction check.
- Counters beyond their 64-bit range: runs are shorter than that; Increment itself wraps as the code does.
- The query parameter `cv - 1` wraps at cv = 0; a database that rejects the wrapped value is not modelled.
- Fencing refusals inside `Pipeline` and `Redelivery` are refused backend calls there; `FencedGroup` says when they occur.
- TupleWriter.Backend.CreateTuple: does not model the branch for tuples that already exist, because the consumer always upserts and the backend then does not answer that.
- Tuples.FilterIsExactOnDirectTuples: reads an empty id in a filter literally, as the in-memory store does; SpiceDB reads it as any id, and `SpiceDbCodec` says exactly when the two differ.
- Pagination limits, lookups and bulk checks.
- MessageProcessing.Retry: says nothing about a backend that fails for ever, against which unlimited retries would not end.
- The lookup by a key without a reporter instance, which finds a resource of any instance.
- SpiceDB's rejection of malformed ids and types, an empty subject id among them.
- Consistency tokens stored on the resource after processing.
- ConsumerOffsets.OffsetStorage.CommitStoredOffsets: stands for one commit; the interleaving of several is in the steps of the state machine, whose broker keeps some offset of the batch for each partition.
- PubSub.ListenManager.WaitOnce: the loop of `BlockForNotification` is its repetition, since other threads act between the turns.
- The in-memory store's locks, its health check and the 64-bit range of its version; a token is modelled as absent, malformed or a number.
- SchemaCache.NewTypeIsIdempotent: white space and letter case outside ASCII are not modelled.
- SchemaCache.PreloadSchemas: directories and files are given as the keys and texts they are written from.
- BatchedDeletion.Table.DeleteBatched: batch sizes that are not positive, for which the dry run divides by zero or the database decides.
- The recursive null remover of the HTTP middleware, which would add only easy members.
- HTTP and gRPC servers, authentication, JSON schema validation, metrics, configuration and the Kafka, Postgres and SpiceDB clients.
