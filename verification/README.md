# NetBox OpenBao plugin: a verified model of its hard core

The plugin keeps credential rows in PostgreSQL and the secret versions they
name in an OpenBao KV v2 store. The two stores share no transaction. This
project models how the plugin nevertheless keeps them consistent, and the
bounded algorithms of its administration plane, and proves what they promise
over every run and every input. Where a promise turns out not to hold, the
model keeps the code as it is, exhibits the failing run, and proves exactly
when the promise does hold.

| file | what it models |
|---|---|
| `Prelude.dfy`, `Ordering.dfy`, `Json.dfy` | shared vocabulary: optional values, sorted listings and sums over sets, JSON values and their encoding |
| `Material.dfy` | one credential, the store, and each step of an owner working on an uncommitted row with savepoints |
| `Saga.dfy` | whole runs of an outer material owner: any nesting of calls, joins, atomic blocks and handlers, then commit, rejection or a lost answer, then recovery |
| `MaterialTransactions.dfy`, `Services.dfy` | the same owner and services as mutable objects and loops, tied to the functions above |
| `Rotation.dfy` | all interleavings of owners, late deletes, verify jobs and reveals over one credential |
| `LockOrder.dfy` | row locks of any number of owners, quick-adds and automation resolvers |
| `Automation.dfy` | any number of concurrent one-use resolutions over shared rows, lock by lock, with crashes and lost answers |
| `Projection.dfy` | deferred metadata publishers against assignment writers and credential deletions |
| `LeaseWalk.dfy` | the bounded lease hierarchy walk |
| `Validators.dfy` | the worklist and the counter-threaded JSON validators |
| `Redaction.dfy` | the two response redactors |
| `PathTemplate.dfy` | compilation of mounted path templates |
| `SettingsMemo.dfy` | the thread-local settings memo across transactions that may roll back |

## What was found

- **Live version.** With the live pointer set at the start it always names a
  version that exists, although compensating and discard deletes run after the
  row lock is gone. With an empty pointer it does not: a rolled-back write, a
  refresh of the recorded version and a stage pin the pointer to a version whose
  compensating delete is still to come (`Rotation.LivePointerSafeIff`).
- **Refusal after a rollback.** A compensated rollback blocks rotate and stage
  until a refresh catches up, unless no version was recorded: rotate then passes
  no expected version and goes through (`Rotation.RefusalIff`).
- **Lock order.** The docstring of `_lock_metadata` says that a relationship
  that changed during a wait is refused. The code refuses a changed credential,
  but two changes get through, and either lets transactions wait for each other
  in a circle. An assignment that moved to another service of the same target is
  accepted, and the second pass of a delivery then locks that service after the
  credential graph (`LockOrder.DriftDeadlocks`). And the type's schema is found
  by slug without a lock, then locked by key and never compared again: when two
  schemas exchange slugs in between, two second passes can each ask for the
  schema the other one holds (`LockOrder.SwapDeadlocks`). Together these are
  exactly what makes a circle possible: a second pass that begins with its
  assignment on a service it has not locked, or second passes that name each
  other's schemas around a ring (`LockOrder.DeadlockIff`,
  `LockOrder.SchemaCircleIff`).
- **Identity at the commit.** A delivery compares the frozen identity before and
  after its read. What it compares from locked rows still holds when it commits.
  The part taken from a stored schema holds then if the schema that has the
  type's slug is among the locked rows, and can be lost otherwise
  (`Automation.IdentityStraysIff`, `Automation.RenameStrays`).
- **Metadata convergence.** A publisher refreshes the owner captured before the
  write. When another transaction moves the assignment between that read and the
  row lock, the owner in between is never refreshed
  (`Projection.EditConvergesIff`, `Projection.StaleReassignmentDiverges`).
- **Public authentication data.** Publishing a result a second time is not always
  a no-op: a `data` key inside the data object is descended into
  (`Redaction.AuthTwiceIff`).
- **Settings memo.** A plain clear inside a transaction with an uncommitted
  settings write lets a value survive that nobody committed
  (`SettingsMemo.ClearBreaksIff`).

## Assumptions

- `has_staged_version` means that `staged_kv_version` is set.
- A store write with a check-and-set value succeeds only when the value equals
  the current version, and returns the next one; a deleted version stays deleted
  (`netbox_openbao/backends/base.py:62-82`).
- Key fingerprints are opaque strings attached to versions.
- Permissions, dispatch checks and every other oracle may refuse at any call:
  the models let a call fail at each step.
- A COMMIT that failed with an integrity error of SQLSTATE class 23 was not
  applied; any other failed COMMIT may have been.
- The database is READ COMMITTED; row locks and advisory locks last until the
  transaction ends. A settings row another thread could commit is not locked by
  the modelled thread.
- Primary keys are not reused. Schema slugs are unique and can be changed
  (`netbox_openbao/models/schemas.py:36-41`); a built-in type has no stored schema.
- Dictionaries have distinct keys; JSON numbers carry their printed form.

## Model

| member | source | states |
|---|---|---|
| `Rotation.LivePointerSafety` | netbox_openbao/services.py:433-769 | from any quiet start with the live pointer set, over every interleaving of store, rotate, stage, promote, discard, rollback, lost commits, late deletes and refreshes, the live version is present, never moves back, and no version that was ever served is deleted |
| `Rotation.LivePointerSafeIff` | netbox_openbao/services.py:650-656 | the live version is present in all reachable states if and only if the pointer is set at the start |
| `Rotation.EmptyPointerBreaks` | netbox_openbao/services.py:650-656 | from every quiet start with an empty pointer, a concrete run ends serving a deleted version |
| `Rotation.StagingIsolation` | netbox_openbao/services.py:581-588 | a staged version is newer than the live one, within the counter, present, and was never served nor loaded by a reveal |
| `Rotation.LiveIdentityIsCurrent` | netbox_openbao/secrets/identity.py:57-77 | a recorded live key identity always describes the material at the live version, and a key served since it was written in the run, or recorded at the start, has its identity recorded |
| `Rotation.PromotionFindsItsVersion` | netbox_openbao/services.py:698-717 | promotion never finds its staged version missing unless the listing itself fails |
| `Rotation.RecordedNeverAhead` | netbox_openbao/jobs.py:158-186 | the recorded version never exceeds the store's counter, with or without a live pointer and despite the unlocked read-then-update of the verify job |
| `Rotation.CheckedWriteIsNext` | netbox_openbao/services.py:477-496 | a successful write checked against the recorded version returns exactly the next one |
| `Rotation.NothingOverwritten` | netbox_openbao/services.py:477-496 | material at an issued version is unchanged by every later run |
| `Rotation.RollBackLeavesLag` | netbox_openbao/material_transactions.py:63-77 | after a rollback that has to compensate, a recorded version, if there is one, is behind the store |
| `Rotation.RefusedUntilRefresh` | netbox_openbao/services.py:538-555 | while it is behind, no run gets a rotate or a stage through before a refresh catches the counter up, however many stale refreshes it contains: the counter stands still |
| `Rotation.RefusalIff` | netbox_openbao/services.py:538-555 | after a rollback that has to compensate, rotate and stage are refused over every run until a refresh catches up, if and only if a version was recorded |
| `Rotation.EmptyRecordIsNotRefused` | netbox_openbao/services.py:548-555 | with an empty record rotate passes no expected version and the store takes the write |
| `Rotation.RefreshLifts` | netbox_openbao/jobs.py:158-186 | storing the current counter makes rotation possible again |
| `Rotation.SafeDo` | netbox_openbao/services.py:433-769 | every single step of every participant keeps the invariant behind these results |
| `Rotation.EndingsLeave` | netbox_openbao/material_transactions.py:60-108 | a commit publishes the owner's row and audits and leaves exactly the versions it discarded to be deleted, a rollback publishes nothing and leaves exactly those it wrote, a crash or a lost answer leaves nothing |
| `Rotation.StagedRotationCompletes` | netbox_openbao/services.py:633-730 | from every up-to-date row stage, commit, promote, commit is a run that serves the new version under its key's identity and deletes nothing |
| `Rotation.StagedRotationGivenUp` | netbox_openbao/services.py:733-769 | stage, commit, discard, commit and the cleanup is a run that deletes exactly the staged version and keeps what was served |
| `Saga.CompensationIsExact` | netbox_openbao/material_transactions.py:63-79 | over any body, a concluded rollback really is one and deletes exactly the acknowledged writes of this owner, newest first; a committed or unknown outcome deletes none |
| `Saga.OutcomeIsExact` | netbox_openbao/material_transactions.py:134-188 | the outcome from the exception that leaves the block, its cause and SQLSTATE, and the on-commit hooks in order: a rollback exactly for a body error on a live connection or a class 23 failure of COMMIT, committed exactly after a completed COMMIT whatever any callback raises; never committed what the database did not take, nor rolled back what it did |
| `Saga.HookOrderMatters` | netbox_openbao/material_transactions.py:169-171 | were the owner's hook registered behind a callback that fails with class 23, a commit would read as a rollback |
| `Saga.OneRecordEach` | netbox_openbao/material_transactions.py:63-79 | recovery leaves exactly one record for each attempt, newest first, and then one for each discard, and each says what became of it: committed, version removed, cleanup failed or unknown |
| `Saga.CommitIsWitnessed` | netbox_openbao/material_transactions.py:52-58 | if the database took the change, every store write was acknowledged and every write and discard has its audit row among the committed ones |
| `Saga.DoomedNeverCommits` | netbox_openbao/material_transactions.py:153-188 | once an owner was refused or lost an audit row, whatever the rest of its body does, nothing commits and no discard delete is sent |
| `Saga.DoomedForever` | netbox_openbao/material_transactions.py:153-188 | no continuation of the body repairs such an owner |
| `Saga.SwallowedJoinDooms` | netbox_openbao/material_transactions.py:153-160 | an exception leaving a nested join dooms the owner even when a handler swallows it |
| `Saga.MissingAuditDooms` | netbox_openbao/services.py:498-499 | a write or discard whose audit insert failed silently dooms the owner |
| `Saga.UndoneWorkDooms` | netbox_openbao/material_transactions.py:52-58 | an inner savepoint rollback that undoes a write or a discard dooms the owner |
| `Saga.DiscardAfterCommit` | netbox_openbao/material_transactions.py:88-108 | discard deletes are sent if and only if the owner committed and no callback raised, for exactly the versions this owner cleared, each once, none of them still staged; exactly the incomplete ones are recorded, and without any the block ends normally |
| `Saga.UncleanedIsRecorded` | netbox_openbao/material_transactions.py:78-108 | every discard whose cleanup was not sent or not completed has a reconciliation record |
| `Saga.ExecAllLeads` | netbox_openbao/material_transactions.py:144-188 | any body, however nested, only extends the owner's lists, forgets no refusal, revives no undone audit row, restores the savepoint stack, and keeps the lists equal to what really happened to the store |
| `Saga.AtomicIsBodyOrNothing` | netbox_openbao/material_transactions.py:144-188 | an inner atomic block that ends normally is its body, one left by an exception puts back the row and the audit rows and nothing else |
| `Saga.StoppedIff` | netbox_openbao/material_transactions.py:52-58 | the owner stops short of the commit exactly if its body raised, it was refused, or some write or discard has no audit row to be committed |
| `Material.ServedAfter` | netbox_openbao/services.py:477-489 | what each successful operation does to the served, staged and recorded versions, to both key identities and to the store; promotion moves the staged identity along if it was bound to the staged version |
| `Material.RaisesIff` | netbox_openbao/services.py:470-500 | a step raises exactly if its expected version is not the current one, its answer or its save is lost, something is staged already, or the staged version cannot be seen; the row is then as it was but for a pinned live pointer |
| `Material.HonestStep` | netbox_openbao/services.py:472-500 | after each step the remembered attempts and discards are exactly the acknowledged writes and cleared versions, in order |
| `Material.SettledStep` | netbox_openbao/services.py:733-769 | in every view, retained discards name distinct versions that are no longer staged |
| `MaterialTransactions.MaterialTransaction.DeclareGraph` | netbox_openbao/material_transactions.py:45-50 | accepted exactly when the graph is open or nothing new is asked for; an open graph grows by exactly what was asked for, a frozen one never |
| `MaterialTransactions.MaterialTransaction.Witness` | netbox_openbao/material_transactions.py:52-58 | succeeds exactly when every attempt and discard still has its audit row |
| `MaterialTransactions.MaterialTransaction.Recover` | netbox_openbao/material_transactions.py:63-79 | the loop sends the deletes and writes the records of the specification, in order; a version counts as removed exactly if the store answered its own delete |
| `MaterialTransactions.MaterialTransaction.RecoverDiscards` | netbox_openbao/material_transactions.py:78-86 | one record for each discard, by outcome |
| `MaterialTransactions.MaterialTransaction.FinishDeletions` | netbox_openbao/material_transactions.py:88-108 | refuses without a confirmed commit; otherwise one delete for each discard in order; a discard is done exactly when its delete succeeded and the update of its audit row then did, and each other one is recorded |
| `MaterialTransactions.MaterialTransaction.FinishDeletion` | netbox_openbao/material_transactions.py:94-106 | one discard: the delete, then the update of its audit row only if the delete succeeded, and a record unless both did |
| `MaterialTransactions.MaterialTransaction.RunCommitHooks` | netbox_openbao/material_transactions.py:168-171 | the hooks run in order until one raises, and the owner is marked when its own hook runs |
| `MaterialTransactions.MaterialTransaction.LeaveBlock` | netbox_openbao/material_transactions.py:166-184 | which exception leaves the outer block, and whether the owner is marked committed |
| `MaterialTransactions.MaterialTransaction.Conclude` | netbox_openbao/material_transactions.py:144-188 | from the end of the body to the last delete, requests, records and normal exit are those of the whole-run specification under the answers the store and the audit log really gave |
| `MaterialTransactions.ClosedByRecovery` | netbox_openbao/material_transactions.py:180-184 | recovery acts under the mark left by the owner's hook and the test on the exception that left the block, for every way the block can end |
| `Services.Session.StoreCredential` | netbox_openbao/services.py:472-500 | the field-by-field code is the store step, including a lost answer, a failed save and a failed audit |
| `Services.Session.RotateMaterial` | netbox_openbao/services.py:538-555 | the code is the rotate step, checked against the recorded version |
| `Services.Session.StageMaterial` | netbox_openbao/services.py:633-666 | the code is the stage step, with its refusal and its pinning of an empty live pointer |
| `Services.Session.PromoteStaged` | netbox_openbao/services.py:669-730 | the code is the promote step, including the key identity that moves with the version |
| `Services.Session.DiscardStaged` | netbox_openbao/services.py:733-769 | the code is the discard step |
| `LockOrder.DeadlockFreedom` | netbox_openbao/synchronization.py:15-112 | no run of any number of owners, quick-adds and resolvers reaches a circle of waiting transactions, as long as each delivery begins its second pass with its assignment on a service it has locked or on none, and with its type naming the schema it has locked; reservations that meet a move or a rename, and moves to the target itself, are covered |
| `LockOrder.DeadlockIff` | netbox_openbao/automation.py:353-374 | when a delivery begins its second pass, after any run without a service drift, a circle can follow if and only if its locked assignment hangs off a service it has not locked, or the second passes now include a ring in which each has asked for, or has a type that names, the schema the next one locked |
| `LockOrder.SchemaCircleIff` | netbox_openbao/automation.py:185-187 | after any run without a service drift, and with no further unsteady second pass, a circle can follow if and only if there is such a ring, of any length |
| `LockOrder.CircleNeedsNaming` | netbox_openbao/secrets/registry.py:129-136 | without a service drift every circle of waiting transactions consists of second passes, each waiting for the schema the next one locked in its first pass |
| `LockOrder.NamingReachesCircle` | netbox_openbao/automation.py:161-188 | deliveries of any number whose types name each other's schemas around a ring can all be led to wait for each other |
| `LockOrder.SwapDeadlocks` | netbox_openbao/automation.py:185-187 | a run from a quiet start, without any service drift, in which two schemas exchange slugs between lookup and lock and two deliveries end up waiting for each other |
| `LockOrder.NoCircle` | netbox_openbao/synchronization.py:15-40 | transactions that lock in rank and key order cannot wait in a circle |
| `LockOrder.FrozenOwnerNeverWaits` | netbox_openbao/material_transactions.py:45-50 | in every run, drift or not, an owner's lock calls after the freeze name only rows it holds or inserted, and wait for nobody |
| `LockOrder.SecondPassWaitsAtTheEnd` | netbox_openbao/automation.py:353-374 | in a run without a service drift the second pass of a delivery can wait only for a schema |
| `LockOrder.GoodDo` | netbox_openbao/synchronization.py:89-112 | every step of every program keeps the lock order, up to the schema a second pass asks for, except a second pass begun adrift |
| `LockOrder.EarlyDo` | netbox_openbao/synchronization.py:89-112 | every step of every program keeps the owners and the first passes in order, without exception |
| `LockOrder.DriftReachesCircle` | netbox_openbao/automation.py:161-188 | after every legal run, when a delivery begins its second pass adrift, the others can end and an ordinary owner can close a circle with it |
| `LockOrder.DriftDeadlocks` | netbox_openbao/automation.py:178-184 | a run from a quiet start in which a delivery and an owner end up waiting for each other |
| `LockOrder.OwnerStep` | netbox_openbao/quickadd.py:203-213 | target, service and linked credential locks, then policies, engines and credentials, keep an owner in order |
| `LockOrder.OwnerCompletes` | netbox_openbao/synchronization.py:89-112 | from every quiet state an owner locks a policy, an engine and a credential in this order and freezes |
| `LockOrder.DriftRefused` | netbox_openbao/synchronization.py:15-40 | after its waits a resolver refuses a credential whose policy or engine changed, a policy that is gone, an assignment that names another credential, and a dispatch no longer entitled |
| `LockOrder.PassRequests` | netbox_openbao/automation.py:161-188 | what each step of a resolution asks to lock: the rows the columns name at that moment, in key order |
| `Automation.AtMostOnce` | netbox_openbao/automation.py:387-409 | over all interleavings and crashes each dispatch key is read at most once and delivered at most once, by the call that owns its receipt |
| `Automation.DeliveredConsistently` | netbox_openbao/automation.py:349-384 | for every returned bundle, over rows shared by all calls and changed by anyone who finds them unlocked: at both checks and at the commit its assignment is enabled, of the purpose, selected by the reference and on the target or a service of it; the frozen identity matched at both comparisons, and both resolutions chose the receipt's assignment and the same credential; at the commit the version read is the receipt's, the live one and not the staged one, the identity still matches in all that comes from locked rows, and in the schema's part if the schema that has the slug is locked; the success audit is committed |
| `Automation.IdentityStraysIff` | netbox_openbao/automation.py:258 | after the second comparison a bundle can be returned whose identity is another one at the commit, if and only if the type is a stored one and the schema that has its slug is not among the delivery's locks |
| `Automation.RenameStrays` | netbox_openbao/automation.py:185-187 | from every start with an acceptable call for a stored type, a run with two renames that does return such a bundle |
| `Automation.SecondChoiceMayDiffer` | netbox_openbao/automation.py:371-374 | from every start with an acceptable call for a direct assignment whose target has a service, a run in which the second resolution ends at another assignment than the first; it is the identity comparison after the read that refuses the delivery then |
| `Automation.SpentForever` | netbox_openbao/automation.py:333-346 | once a receipt is committed no other call ever reads or returns under its key, even if the first failed |
| `Automation.LateCallRefused` | netbox_openbao/models/automation.py:23-29 | a call started later under that key cannot reserve, read or return |
| `Automation.LostReceiptIsSpent` | netbox_openbao/automation.py:333-346 | after a lost answer to the receipt's insert the call never reads nor returns, and if the insert was applied no call ever does under its key |
| `Automation.LostDeliveryIsAudited` | netbox_openbao/automation.py:375-384 | after a lost answer to the delivery's commit nothing is returned, and the success audit stands if the commit was applied |
| `Automation.FinalVersionNeverDecides` | netbox_openbao/automation.py:371-374 | once the second identity comparison has passed, the version is the one that was read, so the last version check never refuses |
| `Automation.CanDeliver` | netbox_openbao/automation.py:387-401 | an authorized first call over consistent rows has a run through all three resolutions that returns the live version |
| `Automation.InvDo` | netbox_openbao/automation.py:161-240 | every step of every call, lookup, lock by lock and check by check, and every committed change of any unlocked rows, keeps the invariant behind these results |
| `Automation.ResolvedStable` | netbox_openbao/automation.py:230-271 | while a finished resolution holds its rows, its version and all of the identity that comes from locked rows cannot change, nor can the schema's part if the schema that has the slug is one of them |
| `Automation.PassKeeps` | netbox_openbao/synchronization.py:15-40 | each lock of a resolution pins down what was read before it, or the drift is refused; the schema row is pinned, the slug it was found by is not |
| `Automation.LookIff` | netbox_openbao/automation.py:113-131 | a resolution goes on with an assignment exactly if it is the only one that is enabled, of the purpose, selected and on the target or a service of it |
| `Automation.BrokenIsRefused` | netbox_openbao/automation.py:161-225 | after each wait a resolution refuses a vanished row, changed selectors, an assignment no longer entitled, an unusable or unpinned version and an unknown type |
| `Projection.NoResurrection` | netbox_openbao/services.py:318-363 | in every run no metadata is set for a credential after its deletion committed, hence none after its material was destroyed; every destruction follows a committed deletion |
| `Projection.BaseCommit` | netbox_openbao/signals.py:41-46 | a deletion commits while it holds the advisory lock, so no publisher past its reload loses its row |
| `Projection.CommitLeaves` | netbox_openbao/signals.py:127-228 | a commit leaves each row as last written, the deleted credentials gone with their destruction still to come, and one queued publisher for each captured owner |
| `Projection.DeletionDestroys` | netbox_openbao/signals.py:127-178 | from every quiet state a credential without assignments can be deleted, and its material is destroyed after the commit |
| `Projection.PublishedIsLogged` | netbox_openbao/services.py:318-363 | the store's metadata of a credential changes only by its own publisher after the read, to what it read, and never without a log entry |
| `Projection.Converges` | netbox_openbao/signals.py:197-228 | from a quiet, converged start, in every run whose captured owners are current when the row lock is taken, a surviving credential with no publisher left and none lost lists an assignment with an object exactly if that assignment is committed as its own and names that object |
| `Projection.CommitConvergesIff` | netbox_openbao/services.py:318-385 | from a converged state one commit with all its publishers converges if and only if it refreshes every surviving owner whose listing it changed |
| `Projection.EditConvergesIff` | netbox_openbao/signals.py:197-228 | one save or delete converges if and only if the captured owners include the owner at the row lock |
| `Projection.CaptureIsFresh` | netbox_openbao/signals.py:181-194 | the owner captured before a save is the current one unless the row changed between capture and row lock |
| `Projection.StaleReassignmentDiverges` | netbox_openbao/signals.py:197-209 | from every settled state, two writers that captured the same owner have a run without failures after which some survivor lists what it no longer has |
| `Projection.Connection.DeferCustomMetadata` | netbox_openbao/services.py:381-385 | each named credential gets exactly one callback, in ascending order, after those already registered |
| `LeaseWalk.LeaseSet` | netbox_openbao/api/finalization_views.py:98-126 | at most 256 LIST calls for any backend; over a fixed hierarchy it succeeds if and only if no chain of listings is deeper than 12 or unreadable, no prefix is reached in two ways, and prefixes, leases and encoded bytes are within their bounds, and returns exactly the reachable leases, sorted; the counter is one more than the encoded size of a non-empty result; the popped-node guard and the final bound never decide |
| `LeaseWalk.FoundExactly` | netbox_openbao/api/finalization_views.py:98-126 | the leases found are exactly those listed under prefixes reachable from the root, never a partial set |
| `LeaseWalk.ReviewableIff` | netbox_openbao/api/finalization_views.py:98-126 | the budgets of the recursive exploration hold exactly for shallow, readable, small trees in which no prefix is reached in two ways |
| `LeaseWalk.LeaseEntries` | netbox_openbao/api/finalization_views.py:35-54 | a listing is read exactly when the response lists at most 2000 keys and each names an acceptable path; there is then one entry for each key, in order, a branch if and only if the key ends in a slash, named by the prefix, a slash and the key without its trailing slashes |
| `LeaseWalk.BoundedLeaseResult` | netbox_openbao/api/finalization_views.py:57-61 | sorted without duplicates, within the final bounds |
| `LeaseWalk.ListSize` | netbox_openbao/api/finalization_views.py:57-61 | the encoded size of the sorted list in terms of the running sum |
| `LeaseWalk.TakeEntry` | netbox_openbao/api/finalization_views.py:112-125 | each refusal in mid-walk already decides that the hierarchy is over a budget |
| `Validators.ValidateWrappingJson` | netbox_openbao/administration/finalization.py:323-341 | the explicit-stack validator with early refusal accepts exactly the objects in which every value at every depth is acceptable, with at most 2000 members and 256000 encoded bytes, independent of visit order |
| `Validators.WrappingChildren` | netbox_openbao/administration/finalization.py:303-311 | yields all children exactly when every key is acceptable |
| `Validators.SoundEncodes` | netbox_openbao/administration/finalization.py:323-341 | after the walk the encoder cannot fail |
| `Validators.ValidateBoundedJson` | netbox_openbao/administration/engines.py:324-339 | the counter-threaded validator accepts exactly the objects in which every value at every depth is acceptable, within the field, item and size bounds and with declared keys only; its second size check never decides |
| `Validators.Counters.Validate` | netbox_openbao/administration/engines.py:342-351 | accepts exactly the shaped values that fit what the counters leave, and adds their totals |
| `Validators.Counters.ValidateMapping` | netbox_openbao/administration/engines.py:354-362 | the same for dictionaries, member by member |
| `Validators.Counters.ValidateList` | netbox_openbao/administration/engines.py:365-370 | the same for lists |
| `Validators.CountedFits` | netbox_openbao/administration/engines.py:324-339 | the counted bytes never exceed the JSON encoding (section 7 of RFC 8259) |
| `Json.EscapeRoundTrip` | netbox_openbao/administration/engines.py:324-339 | every text can be read back from its encoded form (section 7 of RFC 8259), so the sizes compared are those of real JSON |
| `Redaction.CleanIsStrip` | netbox_openbao/administration/access.py:524-553 | the redactor accepts exactly what fits its rules and returns it with every material member dropped |
| `Redaction.NonInterference` | netbox_openbao/administration/access.py:524-553 | responses that differ only in values under material keys, at any depth, give the same output or are both refused |
| `Redaction.OutputIsSettled` | netbox_openbao/administration/access.py:524-553 | accepted output has no material key at any depth and redacting it again returns it unchanged |
| `Redaction.AccessRedacts` | netbox_openbao/administration/access.py:556-560 | for any lower-casing: values under keys whose lower-casing is a material name do not leak, no such key survives at any depth, and a second pass changes nothing |
| `Redaction.AuthRedacts` | netbox_openbao/administration/authentication.py:926-964 | values under keys that are a material name up to ASCII case, compared character by character, do not leak, and no such key survives at any depth, through the `data` envelope |
| `Redaction.PublicAuthIs` | netbox_openbao/administration/authentication.py:926-964 | a response is published exactly if its data object fits the bounds, and then as that object without precisely its material members |
| `Redaction.AccessResponseIs` | netbox_openbao/administration/access.py:524-560 | the same for access-control responses; with material shown the response is returned as it is |
| `Redaction.AuthTwiceIff` | netbox_openbao/administration/authentication.py:787-793 | publishing twice changes nothing if and only if the data object has no `data` key |
| `Redaction.AuthTwiceDiffers` | netbox_openbao/administration/authentication.py:787-793 | a response on which it does change |
| `Redaction.NormalizeValue` | netbox_openbao/administration/authentication.py:952-959 | the recursive code is the redactor |
| `Redaction.NormalizeMapping` | netbox_openbao/administration/access.py:524-533 | the loop that fills a result dictionary is the redactor on dictionaries |
| `Redaction.NormalizeSequence` | netbox_openbao/administration/authentication.py:938-941 | the same for lists |
| `PathTemplate.CompileOperationPath` | netbox_openbao/administration/engines.py:460-478 | accepts exactly admitted templates with a valid plan, returns the substituted template without braces, and its unresolved check never decides |
| `PathTemplate.OperationReplacements` | netbox_openbao/administration/engines.py:481-505 | the replacements, and each refusal, in order |
| `PathTemplate.PlanIff` | netbox_openbao/administration/engines.py:109-126 | replacements exist exactly if the mount, once stripped of blanks and slashes, the resource, segment by segment, and every parameter are acceptable and match the placeholders |
| `PathTemplate.PlanValues` | netbox_openbao/administration/engines.py:481-505 | the replacements for mount and resource are the mount within the given text and the given resource |
| `PathTemplate.ParseIff` | netbox_openbao/administration/engines.py:58-63 | a template is admitted exactly if it prints reviewed literals and named placeholders, the mount placeholder first |
| `PathTemplate.SequentialIsSimultaneous` | netbox_openbao/administration/engines.py:460-478 | replacing placeholders one after the other in the text is substituting all segments at once |
| `PathTemplate.AnyOrder` | netbox_openbao/administration/engines.py:460-478 | every order of the replacements gives the same path |
| `PathTemplate.QuoteIsIdentity` | netbox_openbao/administration/engines.py:58-63 | quoting changes no accepted mount and no accepted segment (pchar, section 3.3 of RFC 3986) |
| `PathTemplate.QuoteReads` | netbox_openbao/administration/engines.py:460-505 | a quoted text stands for exactly the UTF-8 bytes of the text, whatever its characters |
| `PathTemplate.InputsRecoverable` | netbox_openbao/administration/engines.py:460-505 | two requests compiled to the same path have the same mount, resource and normalized parameters |
| `PathTemplate.DotsIff` | netbox_openbao/administration/engines.py:460-478 | the path has a `.` or `..` segment if and only if the template has one as a literal |
| `PathTemplate.DocumentPathIsPlain` | netbox_openbao/administration/schema.py:148-164 | a path from a capability document's template has no brace and no dot segment |
| `PathTemplate.NormalizedIsUndotted` | netbox_openbao/administration/schema.py:148-164 | normalization, with its renaming of the first placeholder, leaves no dot segment in a mounted template |
| `PathTemplate.NormalizePathIff` | netbox_openbao/administration/schema.py:148-164 | a document path is accepted exactly if it is short, plain and without a dot segment once the version prefix is gone; only its leading mount placeholder is renamed |
| `PathTemplate.RenameIff` | netbox_openbao/administration/schema.py:161-163 | a leading placeholder whose name ends in _mount_path becomes the mount placeholder, and any other path is left alone |
| `PathTemplate.ParsePrints` | netbox_openbao/administration/engines.py:58-63 | an admitted template is exactly what its segments print |
| `SettingsMemo.MemoIsCoherent` | netbox_openbao/conf.py:105-164 | over every run whose plain clears meet no uncommitted write, the memo holds only committed values, a thread with an uncommitted write reads its own view, and otherwise it reads the committed row unless another thread committed since |
| `SettingsMemo.ClearBreaksIff` | netbox_openbao/middleware.py:34-42 | a plain clear, a read and a rollback leave a coherent memo if and only if the view was the committed row at the clear |
| `SettingsMemo.ClearInsideBreaks` | netbox_openbao/jobs.py:52-65 | from every fresh thread, a run that leaves a value nobody committed |
| `SettingsMemo.CoherentDo` | netbox_openbao/signals.py:116-124 | every step keeps coherence |
| `SettingsMemo.MemoResumes` | netbox_openbao/conf.py:105-138 | outside any transaction a read serves the snapshot or takes one, which another thread's commit does not disturb, and a write of its own starts afresh |
| `SettingsMemo.WriteBypasses` | netbox_openbao/conf.py:105-164 | after a write inside a transaction every read sees through to it and leaves no snapshot |
| `SettingsMemo.ThreadLocals.WriteIsUncommitted` | netbox_openbao/conf.py:105-129 | the marker holds exactly while an atomic block is open, and is dropped otherwise |
| `SettingsMemo.ThreadLocals.CurrentConfig` | netbox_openbao/conf.py:132-138 | what a read serves and leaves behind |
| `SettingsMemo.ThreadLocals.ClearConfig` | netbox_openbao/conf.py:141-164 | what a clear leaves, with and without a pending write |

## Left out

- Views, forms, tables, serializers, navigation, URLs and templates: they hold no state beyond what the modelled services own.
- Administration transport, brokers and the KV backends: the store enters only through the contract of its base class.
- The static contract registries of the administration plane: large constant tables.
- Key parsing, fingerprints, signing, encryption and hashing: opaque.
- Permissions, group gates and dispatch authority: arbitrary refusals.
- Release scripts, migrations and snapshot streaming: easy or I/O-bound members.
- Credential status, timestamps and the other metadata columns in rotation: they do not decide which version is served.
- Deletion of the credential row itself in rotation, and full saves of a row outside an owner.
- Owners that work on several credentials at once: the owner is projected to one credential, which its attempts and discards name.
- Lock calls of an owner that was refused before the freeze and whose refusal a handler swallowed: in the lock model a refused call ends the owner.
- Row locks given back when an inner savepoint rolls back: PostgreSQL releases what was locked after the savepoint, so a frozen owner whose inner block was undone can wait again, one with several policies can lock its declared rows again out of order, and two such owners can deadlock. In rotation the credential's row lock goes with the savepoint in the same way, and another owner could come in between.
- A connection that a swallowed database error marked for rollback: the witness query then fails like a missing audit row, and an owner without writes is rolled back silently.
- Locks taken by framework code outside the modelled services, such as foreign key checks other than the linked credential of a quick-add.
- A `set_metadata` call that takes effect after its publisher released the advisory lock.
- The order of entries in a published assignment list, and metadata fields other than that list.
- Text with lone surrogates, and integers too long to print: the encoder refuses both.
- Two database aliases in the settings memo: one connection is modelled.
- Delays and crashes between a commit and its callbacks are modelled only as lost or late callbacks.
