# Sabit verification model

Sabit closes accounting periods: it certifies ledger snapshots by hash, keeps tenants apart on
shared database connections, and lets every financial mutation through one command bridge that
checks period locks and writes an audit event. This project models that core in Dafny 4.11 and
proves what it promises, or the exact condition under which it does. `dafny verify dfyconfig.toml`
checks everything.

## What is modelled

**Canonical text and snapshot hashes** (`JsonText`, `CanonicalJson`, `LegacyJson`, `UnitOrder`,
`CanonicalShape`, `CanonicalLoops`, `SnapshotHash`, `SnapshotParts`, `SnapshotTheorems`,
`HashContents`, `SnapshotBuild`). A JSON value is a tree whose objects list their members in property order; `Denote` gives its meaning, with
objects as maps and arrays as sequences or bags. Keys-only text is a complete invariant of the
meaning: a parser for compact JSON (RFC 8259, sections 4 to 7) reads the canonical value back.
Legacy text also forgets array order at every depth, exactly when the collation ties no two
different canonical values. For hash versions 2 to 5 two payloads share their hash input exactly
when they agree on what the version covers (`Cover`), provided ties of the sort keys serialise
alike (`OrderFree`); the guard is exact, and ordinary payloads meet it. `CanonicalShape` and
`HashContents` say what the texts are, in literal names, decimal digits and UTF-16 code units.

**The database layer** (`PoolCache`, `MigrationRunner`, `MigrationRuns`, `MigrationLoop`,
`TenantScope`, `TenantRuns`, `TransactionBlock`). The pool cache is a class proved against a
function on cache values, whose runs are characterised by recency. Migration runners and
tenant-scoped connections are step systems: any number of runners or tasks interleave, a statement
may fail, take effect and lose its reply, and sessions may die. The loop of one runner and the
bracket of one transaction are also written out as methods, proved to take only steps of these
systems and, for every script of answers, to return and leave exactly what the script determines.

**The close control plane** (`Bridge`, `BridgeCommands`, `BridgeAnswers`, `BridgeRuns`, `BridgeAudit`,
`BridgeService`, `AiBoundary`, `BoundaryBridge`, `AuditChain`, `CloseSession`). A bridge command is a
little machine with one step per database call. The class `CommandBridge` runs a command in place and
is proved to end where the machine ends; the theorems speak of runs of commands, interleaved step by
step or one after another. `BridgeAnswers` gives every answer of every command with the rows it
leaves; `BoundaryBridge` runs commands together with AI calls and boundary scopes. Whatever a command
does not decide itself (failing reads, what a service answers, parsed rows, generated ids) is an
`Oracle` chosen freely per command, so every theorem holds for all of them.

**Vector memory** (`Embedding`, `MemoryStore`). Hashing, bucket counts, cosine similarity over exact
reals, and the store that upserts by id and returns the best hits.

**Validators and printers** (`Guardrails`, `NumberProvenance`, `MoneyFormat`). The scan of agent
output for amounts, the tracing of quoted numbers to figures, and the money printer with its own
stripping step as inverse.

`Ordering`, `Text`, `Cents` and `Wrappers` hold what these share: stable sorting by a total
preorder, JavaScript string order and decimal text, and two-place rounding.

## Assumptions

- `localeCompare` is an arbitrary total preorder on strings, a parameter named `le`. Where a result
  needs it to tie only equal strings, the lemma requires `Antisymmetric(le)`. The usual
  `localeCompare` does not: it ties canonically equivalent strings and may ignore control characters
  such as the NUL that separates the parts of a sort key. What then counts is the exact condition,
  `OrderFree` for snapshots and `TellsApart` for the legacy text, on the strings at hand.
- SHA-256 is a function parameter. Where distinctness of digests matters, the lemma assumes that
  the texts at hand do not collide.
- A JSON number is the text JavaScript prints for it, so negative zero is zero. Strings are Unicode
  scalars without lone surrogates, compared by UTF-16 code unit. Values hold no `NaN`, no `toJSON`
  method and no `undefined` array element.
- Amounts are exact decimals: reals, or whole cents after two-place rounding. Floating-point error
  and the twenty-digit precision of the decimal library are not modelled. Square roots enter as
  parameters, as numbers with `Root(r, x)` or as a function with that property.
- `ON CONFLICT`, `pg_advisory_lock`, `BEGIN`, `COMMIT`, `ROLLBACK` and `SET` behave as PostgreSQL
  documents them: session-level settings made inside a transaction are undone by its rollback, a
  failed statement aborts an open transaction, and the death of a session frees its locks.

## Where the code does not do what it says

Each point has its exact condition as an if-and-only-if, or a lemma that builds the failing run from
every state where it can begin.

- The output object of the canonicalisers loses members named `__proto__`, because assigning that
  key sets the prototype (`CanonicalJson.KeysOnlyFaithful`, with a witness in `ProtoMemberLost`).
- An empty account code and an absent one tie in `entrySortKey` but serialise differently, so every
  payload with two such lines has a reordering with another hash
  (`SnapshotTheorems.EmptyCodeBreaksTheTie`, `OrderFreeExactly`).
- A failed read of the applied versions counts as none applied, so every recorded migration runs
  again: a live runner re-executes a recorded version exactly when its own read failed
  (`MigrationRuns.RerunsExactly`, `FailedReadRunsAll`). A failed unlock leaves the lock held by a
  pooled session until that session dies (`MigrationRuns.UnlockFailureLeaks`, `LeakStays`).
- A failed `ROLLBACK` is ignored, and the connection goes back to the pool. If it leaves the
  transaction open (`TenantRuns.LeftOpenExactly`), the next transaction's `COMMIT` there makes all its
  pending writes durable (`LeftoverIsCommitted`), and a direct query there returns normally without
  being durable (`DirectInLeftover`). If the transaction was aborted, no statement of any later
  query or scoped transaction on the connection takes effect until its session dies (`AbortedRollbackPoisons`,
  `PoisonedServesNobody`). A transaction whose own rollback did not leave it open is all or nothing,
  whatever the others do (`AllOrNothing`), and a direct query is durable unless somebody left a
  transaction open on its connection (`DirectIsDurable`). `TransactionsHappen` shows that these
  states are reached.
- A callback that swallows an error that aborted its transaction loses its writes on a normal return
  (`TenantRuns.SwallowedErrorLosesWrites`); `COMMIT` commits exactly when its session is not in an
  aborted transaction (`CommitExactly`).
- The bridge promises an audit event for every mutation. A command mutates and leaves no event exactly
  when, after its first write, its append is not stored, a write takes effect and throws, a later
  insert is refused, the staging mark fails or the session read after an approval fails
  (`BridgeAudit.UnauditedExactly`, and `UnauditedInRuns` for interleaved commands). When only the append's reply is lost the event stays and the
  command fails (`BridgeRuns.LogIsOkCommands`).
- The lock check and the write are separate database calls, so a command that checked first may
  write into a locked period: every run that has come to such a write goes on into the race
  (`BridgeRuns.LockSlipsIn`, `RaceFollows`), and `LockedChangeIsRace` shows there is no other way.
- A boundary scope opened during an AI call starts afresh, so a mutation in it passes at once
  (`AiBoundary.OpenedUnderCallPasses`), as it does in every idle nested scope once an outer one enters
  a call (`NestedScopeForgets`). The assertion is right exactly in scopes with an open call of their
  own or enclosed in none (`SafeExactly`); a bridge command throws exactly when its own scope has one
  (`BoundaryBridge.ThrownExactly`).
- A vertical bar in an id, action or timestamp gives every verified chain that has one a different
  chain with the same head (`AuditChain.BarsAreAmbiguous`). Among all verified chains the head fixes
  one history exactly when no field of it has a bar (`AuditChain.OnlyHistoryExactly`).
- Formatting twice changes a zero or missing amount shown as a dash, and a text such as `(5.1)9`
  whose printed number itself sits in parentheses (`MoneyFormat.FmtIdempotent`). A negative zero
  shown as a dash is no longer negative (`MoneyFormat.SignAgreesExactly`).

`getOrCreateTenantPool` would lose track of an evicted empty url (`PoolCache.ConsistentExactly`, with
a witness in `EmptyUrlStays`), but `getTenantPool`, its only caller, sends a blank url to the control
pool, so the cache stays consistent whatever the tenants have stored
(`PoolCache.TenantRunsConsistent`).

## Model

| member | source | states |
|---|---|---|
| JsonText.ParseInvertsPrint | src/lib/canonical_json.ts:71-73 | a parser for compact JSON text recovers every value without undefined members from its printed text |
| CanonicalJson.OrderKeysDenote | src/lib/canonical_json.ts:11-25 | canonicalising changes nothing of a value's meaning except the members named `__proto__` |
| CanonicalJson.MeaningDeterminesForm | src/lib/canonical_json.ts:11-25 | values of one meaning have one canonical form, whatever their key order and undefined members |
| CanonicalJson.KeysOnlyRoundTrip | src/lib/canonical_json.ts:71-73 | parsing keys-only text gives the canonical value and hence the meaning of the input |
| CanonicalJson.KeysOnlyComplete | src/lib/canonical_json.ts:11-25 | equal keys-only texts exactly for values equal up to key order and undefined members, array order kept |
| CanonicalJson.KeysOnlyFaithful | src/lib/canonical_json.ts:17-23 | the text keeps every member exactly when no object has a defined member named `__proto__` |
| CanonicalLoops.CanonicalizeKeysOnly | src/lib/canonical_json.ts:11-25 | the loop that assigns into the output object gives at every depth the defined members not named `__proto__`, array indices first by number, the other keys by UTF-16 code units |
| CanonicalLoops.CanonicalizeLegacy | src/lib/canonical_json.ts:30-48 | the legacy loop gives such objects too, and arrays that are permutations of their canonical items with their texts ascending by the collation |
| UnitOrder.TextLeIsUnitOrder | src/lib/canonical_json.ts:15 | the order of keys is lexicographic in UTF-16 code units, surrogate pairs included, a prefix coming first |
| UnitOrder.KeyBeforeExactly | src/lib/canonical_json.ts:15-24 | own-property order: array indices below 2^32 - 1 first and by number, the other keys by code units |
| CanonicalShape.KeysOnlyExactly | src/lib/canonical_json.ts:11-25 | the canonical form is the one value with those members in that order at every depth |
| CanonicalShape.LegacyIsShaped | src/lib/canonical_json.ts:30-66 | the legacy form of an object and of an array, level by level |
| CanonicalShape.PrintExactly | src/lib/canonical_json.ts:71-73 | the text of each kind of value, compact |
| CanonicalShape.EscapedExactly | src/lib/canonical_json.ts:71-73 | the text of each character inside a string |
| LegacyJson.LegacyCanonical | src/lib/canonical_json.ts:30-66 | the legacy form has ordered keys and text-sorted arrays at every depth; the mutual recursion terminates because canonicalising never deepens a value |
| LegacyJson.LegacyDenote | src/lib/canonical_json.ts:30-48 | legacy canonicalisation keeps the meaning up to array permutation |
| LegacyJson.LegacyIdempotent | src/lib/canonical_json.ts:30-66 | canonicalising twice is canonicalising once |
| LegacyJson.LegacyComplete | src/lib/canonical_json.ts:78-80 | equal legacy texts exactly for values equal up to key order, undefined members and array permutation at every depth |
| LegacyJson.LegacyCompleteExactly | src/lib/canonical_json.ts:30-66 | that holds for all values if and only if the collation ties no two different canonical values |
| LegacyJson.TotalOrderTellsApart | src/lib/canonical_json.ts:34 | a collation that ties only identical strings meets that condition |
| LegacyJson.LegacyWithoutArrays | src/lib/canonical_json.ts:30-48 | on values without arrays the two canonical forms coincide |
| SnapshotBuild.CanonicalMoneyObject | src/lib/snapshot_hash.ts:160-197 | the object filled field by field holds, under their literal names, the balance, the sorted entries with each amount as its own two-place text, and optional sections only when present |
| SnapshotBuild.BuildHashText | src/lib/snapshot_hash.ts:237-258 | assigning the manifest and ledger and deleting the context by version yields a text that, parsed back, says of the payload what the version covers, each member under its own name |
| HashContents.HashTextSays | src/lib/snapshot_hash.ts:116-258 | for every version and payload: header, balance, sorted entries, manifest, ledger, comparative section and context, each under its literal name with its own amounts, texts and numbers, and no other member |
| HashContents.MoneyTextShown | src/lib/snapshot_hash.ts:164-173 | an amount's text is sign, whole units and two decimals that give the cents |
| HashContents.SortKeyShown | src/lib/snapshot_hash.ts:51-63 | a sort key is name, debit, credit, line id, code, description and provenance with NULs between |
| Cents.RoundedNearest | src/lib/snapshot_hash.ts:164-173 | cents are the nearest ones, halves away from zero |
| SnapshotParts.TextIsParts | src/lib/snapshot_hash.ts:160-258 | hash texts are equal exactly when all normalised parts are equal |
| SnapshotTheorems.HashSound | src/lib/snapshot_hash.ts:116-258 | payloads with one hash text agree on everything the version covers, whatever the collation ties |
| SnapshotTheorems.HashIdentifiesContent | src/lib/snapshot_hash.ts:116-258 | for every version and payloads whose ties serialise alike: one hash text exactly when covered fields agree, entries as bags of canonical-money rows, manifest from 3, non-empty ledger from 4, comparative and context from 5 |
| SnapshotTheorems.OrderFreeExactly | src/lib/snapshot_hash.ts:116-154 | the hash ignores line order if and only if wherever a sort key ties the tied lines serialise alike |
| SnapshotTheorems.SortKeyIdentifiesRow | src/lib/snapshot_hash.ts:51-63 | with NUL-free fields, no empty account code and no arrays in provenance, equal sort keys mean equal serialised rows |
| SnapshotTheorems.OrdinaryPayloadsOrderFree | src/lib/snapshot_hash.ts:51-154 | such payloads with distinct entry ids and line numbers meet the guard when the collation ties only equal strings |
| SnapshotTheorems.EmptyCodeBreaksTheTie | src/lib/snapshot_hash.ts:51-172 | every payload with two lines that differ only by an empty and an absent account code has a rearrangement with the same covered content and another hash text |
| SnapshotTheorems.DigestIdentifiesContent | src/lib/snapshot_hash.ts:237-258 | equal digests exactly for equal covered content when the two texts do not collide |
| PoolCache.PoolStore.EvictOldest | src/db/index.ts:85-93 | the oldest url leaves the list; unless it is empty its pool leaves the map and is ended |
| PoolCache.PoolStore.GetOrCreate | src/db/index.ts:98-116 | the in-place request returns the pool and the cache that the specification function gives |
| PoolCache.RunSpec | src/db/index.ts:85-116 | after any requests the cache is the most recent distinct urls in recency order, keys and list agree, each pool is cached or ended exactly once |
| PoolCache.SamePoolExactly | src/db/index.ts:98-116 | a request returns the pool of the url's last request exactly when fewer than the cap distinct other urls came since |
| PoolCache.ConsistentExactly | src/db/index.ts:85-116 | a request keeps list, map and ended pools consistent exactly when it does not evict the empty url |
| PoolCache.TenantRunsConsistent | src/db/index.ts:151-162 | blank urls go to the control pool, so whatever urls tenants have stored the cache stays consistent and most recent first |
| PoolCache.TenantUrlExactly | src/db/index.ts:157-161 | a stored url is used exactly when it is not blank |
| MigrationRuns.AtMostOneApplies | src/db/index.ts:387-406 | under any interleaving and failures at most one live runner is in the apply loop, and it owns the lock |
| MigrationRuns.EffectsUnderLock | src/db/index.ts:393-406 | schema and record change only on the session that holds the lock |
| MigrationRuns.RecordedIsPrefix | src/db/index.ts:396-406 | newly recorded versions are an executed prefix of the unapplied list in list order, even when reads fail |
| MigrationRuns.RerunsExactly | src/db/index.ts:373-406 | a live runner that reaches a recorded version runs it again exactly when its own read of the applied versions failed, and skips it otherwise |
| MigrationRuns.ExecutionsExactly | src/db/index.ts:396-406 | every execution of a version is its first recording, a live runner about to record it, an interruption before recording, or a rerun; one recorded at the start has only reruns |
| MigrationRuns.RanOnceExactly | src/db/index.ts:396-406 | a newly recorded version ran once exactly when it was neither interrupted nor rerun |
| MigrationRuns.TwiceOnlyIfInterrupted | src/db/index.ts:396-406 | while no runner's read has failed, a version runs twice only if a failure fell between executing and recording it, and one recorded at the start never runs |
| MigrationRuns.FreeAfterExit | src/db/index.ts:407-415 | when all runners have exited the lock is free exactly when, on surviving sessions, no unlock failed and no reply to the lock statement was lost |
| MigrationRuns.LockFreeExactly | src/db/index.ts:387-415 | at any time the lock is free exactly when no live runner is between acquiring and releasing it and no hold was leaked |
| MigrationRuns.FailedReadRunsAll | src/db/index.ts:373-382 | from every state with a live runner about to read, a failed read lets it execute all versions, each recorded one once more, with no interruption |
| MigrationRuns.UnlockFailureLeaks | src/db/index.ts:407-415 | from every state with a live runner about to unlock, a failed unlock leaves the runner finished and its session holding the lock |
| MigrationRuns.LeakStays | src/db/index.ts:407-415 | a leaked hold keeps the lock on its session through every step but that session's death |
| MigrationRuns.LockCanLeak | src/db/index.ts:407-415 | a failed unlock on a surviving session leaves the lock held after every runner has exited |
| MigrationLoop.Database.RunTenantMigrations | src/db/index.ts:387-416 | run alone it takes only steps of the runner system and returns normally exactly when connection, lock and unlock succeed and every version not seen as applied is found, executed and recorded; otherwise exactly those before the first failing one are, with what took effect of that one |
| MigrationLoop.Database.ApplyEach | src/db/index.ts:396-406 | the loop skips versions seen as applied and stops at the first whose file, execution or record fails, with the recorded and executed versions given exactly |
| TenantRuns.StatementsSeeTheirTenant | src/db/index.ts:475-507 | every statement of a scoped task runs on a session whose tenant is the task's own, in any interleaving |
| TenantRuns.ReleasedExactlyOnce | src/db/transaction.ts:13-29 | every finished task released its connection exactly as often as it acquired one, at most once |
| TenantRuns.ConnectionsConserved | src/db/index.ts:475-507 | each connection is idle, dead or held by exactly one task, and none is held at the end |
| TenantRuns.AllOrNothing | src/db/transaction.ts:13-29 | unless its own failed rollback left it open, a transaction is all or nothing: each executed statement is durable exactly when it committed, whatever other tasks do |
| TenantRuns.LeftOpenExactly | src/db/transaction.ts:23-28 | a rollback leaves its transaction open exactly when it fails, without aborting it, on a live session with the transaction open and not aborted |
| TenantRuns.DirectIsDurable | src/db/index.ts:491-502 | every executed statement of a scoped query or a bare client is durable unless some task left a transaction open on its connection |
| TenantRuns.DirectExactly | src/db/index.ts:491-502 | such a statement, when it takes effect, is durable exactly when its session has no open transaction, and an open one was left there |
| TenantRuns.DirectInLeftover | src/db/index.ts:491-502 | from every state where a task rolls back an open transaction and a query has yet to start, an ignored rollback failure lets the query finish without being durable |
| TenantRuns.AbortedRollbackPoisons | src/db/transaction.ts:23-28 | a rollback that fails on an aborted transaction returns an unusable connection to the pool |
| TenantRuns.PoisonedServesNobody | src/db/index.ts:479-502 | no statement of any task takes effect on such a connection, and it stays so through every step but the death of its session |
| TenantRuns.SuccessMeansCommitted | src/db/transaction.ts:17-22 | in every reachable state a normal return means committed exactly when the callback swallowed no error that aborted its transaction |
| TenantRuns.CommitExactly | src/db/transaction.ts:20-22 | in every reachable state a COMMIT that returns commits exactly when its session is not in an aborted transaction |
| TenantRuns.LeftoverIsCommitted | src/db/transaction.ts:23-28 | from every state where a task rolls back an open transaction and another has yet to start, an ignored rollback failure lets that other's commit make all pending writes of the first durable, which never commits |
| TenantRuns.SwallowedErrorLosesWrites | src/db/transaction.ts:19-22 | from every point of every callback, swallowing an error that aborts the transaction leads to a normal return with nothing committed |
| TransactionBlock.SharedPool.WithTransaction | src/db/transaction.ts:13-29 | on any connection of the pool it takes only steps of the tenant system; it returns, commits, throws and rolls back exactly when its script says so, and a commit makes durable what the callback wrote and what was left pending there |
| TransactionBlock.SharedPool.Bracket | src/db/transaction.ts:18-25 | it returns normally exactly when BEGIN and COMMIT succeed, every statement is answered or its error caught, and the callback does not throw; otherwise it rolls back; the statements that take effect are counted exactly |
| TransactionBlock.SharedPool.ScopedConnect | src/db/index.ts:484-493 | a connection is handed out exactly when it connects in no aborted transaction and its tenant is set; otherwise it goes back at once |
| TenantScope.ValidTenantIdExactly | src/db/index.ts:459-461 | a tenant id is one to 128 letters, digits, underscores and hyphens |
| BridgeService.CommandBridge.ExecuteBridgeCommand | src/bridge/protocol_bridge.ts:255-592 | a command executed in place leaves the state and result of its machine run alone: same branches, error codes and audit event |
| BridgeService.CommandBridge.RecordBridgeMutation | src/bridge/protocol_bridge.ts:218-234 | one event with tenant, period, command and actor is appended unless the append fails |
| BridgeService.CommandBridge.SaveTrialBalance | src/bridge/protocol_bridge.ts:270-330 | lock check, balance within tolerance, connection id, store and audit in this order |
| BridgeService.CommandBridge.CombineStaged | src/bridge/protocol_bridge.ts:416-482 | the staged rows and the adjustment are stored only when together they balance |
| BridgeService.CommandBridge.MoveEntry | src/bridge/protocol_bridge.ts:361-412 | proposing and posting check the lock of the session's period, and skip the check without a period |
| BridgeService.CommandBridge.StoreEntry | src/services/journal_entry_service.ts:173-236 | a status moves only from the expected one, and approval by the named creator is refused |
| BridgeService.CommandBridge.AddEach | src/services/close_adjustments_service.ts:37-147 | one pending adjustment a suggestion; those before a failure stay |
| BridgeService.CommandBridge.DecideAdjustment | src/services/close_adjustment_update_service.ts:45-92 | second lock check, then workflow, then role, then the update |
| BridgeCommands.SaveExactly | src/bridge/protocol_bridge.ts:270-330 | when no call fails, a trial balance is stored with one event exactly when the period is unlocked, the totals balance and a sync names its connection; otherwise nothing changes |
| BridgeCommands.MoveExactly | src/bridge/protocol_bridge.ts:361-412 | when no call fails, an entry is proposed or posted exactly from the expected status in an unlocked period or in none |
| BridgeCommands.UpdateExactly | src/bridge/protocol_bridge.ts:508-541 | when no call fails, an adjustment changes exactly when it exists, its period is unlocked and the role allows the status |
| BridgeCommands.LockExactly | src/bridge/protocol_bridge.ts:543-563 | when no call fails, a period is locked exactly for an approver or a caller without a role |
| BridgeAnswers.SaveCompletes | src/bridge/protocol_bridge.ts:270-330 | every answer of a save: invalid, locked, out of balance, sync without connection, or the lines stored under the period with their event |
| BridgeAnswers.CreateCompletes | src/bridge/protocol_bridge.ts:332-359 | a draft: invalid memo, no session, locked period, id in use, or an entry with the session, status Draft, the named author or else the caller, and no approver |
| BridgeAnswers.MoveCompletes | src/bridge/protocol_bridge.ts:361-412 | proposing and posting: unknown entry, locked period, wrong status, or the next status and nothing else changed |
| BridgeAnswers.ApproveCompletes | src/bridge/protocol_bridge.ts:379-389 | approval: invalid, unknown, not proposed, own entry where barred, or approved with its approver |
| BridgeAnswers.ApplyCompletes | src/bridge/protocol_bridge.ts:414-482 | staged rows: invalid, locked, no such staging, unreadable, out of balance, or the staged rows followed by the adjustment, and the staging marked with its approver |
| BridgeAnswers.AdjustmentsComplete | src/bridge/protocol_bridge.ts:484-506 | adjustments: invalid, locked, unproven, or one pending adjustment a suggestion with its text and period up to the first id that is not fresh |
| BridgeAnswers.UpdateCompletes | src/bridge/protocol_bridge.ts:508-541 | an adjustment's status: invalid, unknown, locked, barred by workflow or role, or changed |
| BridgeAnswers.LockCompletes | src/bridge/protocol_bridge.ts:543-563 | a lock: invalid, another role than approver, or taken in the caller's name |
| BridgeAnswers.FailureAnswers | src/bridge/protocol_bridge.ts:565-592 | a failing call ends any command with SERVICE, and only a lost reply or a broken write leaves something |
| BridgeAnswers.RefusalAnswers | src/bridge/protocol_bridge.ts:255-592 | a refused write ends it with the code of the refusal; an AI call or a bad command ends it before anything is read |
| BridgeAnswers.BalancedExactly | src/bridge/protocol_bridge.ts:285-294 | in balance means that the rounded sums of debits and credits differ by at most the tolerance |
| BridgeAnswers.PeriodLabelExactly | src/utils/period.ts:19-27 | a period label is the leading year and month of the trimmed date text |
| Bridge.StepTouches | src/bridge/protocol_bridge.ts:268-563 | a step changes a period only by the write of a command that holds that period |
| BridgeRuns.BalancedAlways | src/bridge/protocol_bridge.ts:285-294 | under any interleaving and failures no stored trial balance is ever out of tolerance |
| BridgeRuns.SegregatedAlways | src/services/journal_entry_service.ts:200-236 | in every run an approved or posted entry has an approver other than its named creator |
| BridgeRuns.AuditExactly | src/bridge/protocol_bridge.ts:218-234 | in any interleaving the log is one event per ok command in audit order, and none for a failed one unless its append lost its reply |
| BridgeRuns.LogIsOkCommands | src/bridge/protocol_bridge.ts:255-592 | for commands in sequence the log is the events of the ok commands in order exactly when no command reached an append that stores its event and loses the reply |
| BridgeRuns.LockFreezes | src/bridge/protocol_bridge.ts:268-563 | with atomic commands a locked period's trial balance, adjustments and entries never change again, approvals excepted |
| BridgeRuns.ChangesWereChecked | src/services/period_lock_service.ts:91-100 | in any interleaving every change to a period is made by a command whose own check had found it unlocked |
| BridgeRuns.LockedChangeIsRace | src/bridge/protocol_bridge.ts:268-563 | a change to a locked period comes only from a command that had checked before the lock was taken |
| BridgeRuns.LockSlipsIn | src/bridge/protocol_bridge.ts:268-563 | from every state with a command of any kind that has checked the lock and is about to store, a lock of that period takes effect first and the write lands as if it had not |
| BridgeRuns.RaceFollows | src/bridge/protocol_bridge.ts:268-563 | so every run that has come to such a state and has a lock command to come goes on into a race |
| BridgeRuns.RaceHappens | src/bridge/protocol_bridge.ts:271-316 | for one: for every unlocked period and balanced upload there is a run in which the upload lands after the lock |
| BridgeAudit.UnauditedExactly | src/bridge/protocol_bridge.ts:255-592 | for every command, stored state and way its calls can fail: it writes exactly when admitted and its first write takes effect, leaves no event exactly when something named then fails, and without a write changes nothing |
| BridgeAudit.UnauditedInRuns | src/bridge/protocol_bridge.ts:255-592 | in any interleaving a finished command that has written has no event exactly when its append was not stored, its last write threw, the mark or the late read failed, or the rows of the moment turned down an insert |
| BridgeRuns.SilentMutation | src/bridge/protocol_bridge.ts:307-329 | one such case in full: the append of an upload fails, the command reports a service error and the stored trial balance stays |
| BridgeRuns.ApprovalIgnoresLock | src/bridge/protocol_bridge.ts:379-389 | approval succeeds whatever is locked |
| AiBoundary.EnterAdvisoryContext | src/lib/ai_boundary.ts:30-43 | entering a call raises the depth of the current store by one, and does nothing outside every scope |
| AiBoundary.ExitAdvisoryContext | src/lib/ai_boundary.ts:48-53 | leaving a call lowers the depth, never below zero, and does nothing outside every scope |
| AiBoundary.AssertNoAiMutationContext | src/lib/ai_boundary.ts:61-68 | the assertion passes exactly outside every scope or at a depth that is not positive |
| AiBoundary.PassesExactlyWhenIdle | src/lib/ai_boundary.ts:30-77 | in any interleaving a scope's depth counts its own open calls and a mutation passes exactly when there is none |
| AiBoundary.SafeExactly | src/lib/ai_boundary.ts:70-77 | passing means being outside every AI call exactly in scopes with an open call of their own or enclosed in no call, so in every top-level scope |
| AiBoundary.NestedScopeForgets | src/lib/ai_boundary.ts:75-77 | after any run, a call entered in its parent leaves every idle nested scope under a call and still passing |
| AiBoundary.OpenedUnderCallPasses | src/lib/ai_boundary.ts:75-77 | after any run, a scope opened from one that is under a call is under that call and lets a mutation pass |
| BoundaryBridge.ThrownExactly | src/bridge/protocol_bridge.ts:255-259 | in any interleaving of scopes, AI calls and commands a command throws exactly when it began while its own scope had an open call, and has then written nothing |
| BoundaryBridge.TopLevelExactly | src/lib/ai_boundary.ts:61-77 | a command from a top-level scope throws exactly under an AI call; from an idle nested scope under a call it does not |
| BoundaryBridge.JointRunsAreRuns | src/bridge/protocol_bridge.ts:255-592 | the commands of such a run behave as in a run of the bridge alone, so its theorems carry over |
| AuditChain.Build | scripts/demo_report_runner.ts:176-194 | entry by entry the digest of id, action, timestamp, payload and previous hash with bars between, linked to the one before |
| AuditChain.Verify | scripts/demo_report_runner.ts:196-208 | the walk's flags are true exactly when every hash and every link is right, so together exactly for chains as built |
| AuditChain.TamperWalk | scripts/demo_report_runner.ts:213-228 | the walk stops at the first entry that no longer matches its stored hash |
| AuditChain.TamperFoundExactly | scripts/demo_report_runner.ts:213-228 | over a verified chain that is exactly the first changed payload, for any set of changes |
| AuditChain.HeadDeterminesHistory | scripts/demo_report_runner.ts:148-208 | two verified chains with one head are equal in length and every entry, payloads with bars included, unless the digest collides on their texts |
| AuditChain.OnlyHistoryExactly | scripts/demo_report_runner.ts:148-208 | where the digest does not collide on the texts compared, a verified chain is the only one with its head exactly when no field of it, payload included, has a bar |
| AuditChain.BarsAreAmbiguous | scripts/demo_report_runner.ts:148-151 | every verified chain with a bar in an id, action or timestamp has a different verified chain with the same head, under any digest |
| CloseSession.FrozenForever | src/lib/session_write_guard.ts:10-35 | once the guard refuses a session as frozen it refuses it after any further allowed transitions |
| CloseSession.CertifiedWasLocked | scripts/demo_report_runner.ts:69-80 | a certified session that began as a draft was reviewed, finalized and locked just before |
| CloseSession.AllowedExactly | scripts/demo_report_runner.ts:69-80 | the allowed transitions, one by one |
| CloseSession.GuardExactly | src/lib/session_write_guard.ts:10-35 | the guard refuses locked and certified sessions and unknown ones, and no others |
| Embedding.HashString | src/memory/embedding.ts:9-15 | the hash is the base-31 polynomial of the code units modulo 2^32 |
| Embedding.LocalEmbed | src/memory/embedding.ts:22-38 | counting, norm and division produce the specified vector |
| Embedding.WordsExactly | src/memory/embedding.ts:25 | the words of a text are what stands between its runs of white space |
| Embedding.BucketsExactly | src/memory/embedding.ts:27-35 | a word falls into its hash modulo the dimension, a trigram into one plus its hash modulo one less |
| Embedding.EmbedIsUnit | src/memory/embedding.ts:37-38 | an embedding has length one, unless every bucket is empty |
| Embedding.EmbeddedSimilarity | src/memory/embedding.ts:37-113 | normalising leaves similarity unchanged: on embeddings it is their dot product and the cosine of the bucket counts |
| Embedding.MassConserved | src/memory/embedding.ts:22-35 | buckets sum to words plus half the trigrams from dimension 2 on, and each holds just what hashes to it |
| Embedding.CosineSums | src/memory/embedding.ts:101-110 | the loop computes the dot product and both squared norms |
| Embedding.CauchySchwarz | src/memory/embedding.ts:101-113 | the squared dot product is at most the product of the squared norms, for vectors of any length |
| Embedding.CosineBounded | src/memory/embedding.ts:101-113 | similarity lies between -1 and 1 and is symmetric |
| Embedding.CosineSelf | src/memory/embedding.ts:101-113 | a non-zero vector has similarity 1 with itself |
| Embedding.CosineOneExactly | src/memory/embedding.ts:101-113 | non-zero vectors have similarity 1 exactly when they point the same way |
| MemoryStore.Store.Upsert | src/memory/store.ts:21-38 | the record, given field by field, replaces the first entry with its id or is appended; the store is the fold of its history |
| MemoryStore.StoredExactly | src/memory/store.ts:21-38 | after any upserts ids are unique, in order of first appearance, and each holds its latest record |
| MemoryStore.GeneratedIdsDiffer | src/memory/store.ts:13-16 | ids generated at different counts differ whatever the clock reads |
| MemoryStore.TopHitsBest | src/memory/store.ts:43-65 | eligible entries with their own scores, best first, as many as `slice` keeps, and no omitted eligible entry scores above a returned one |
| MemoryStore.EligibleExactly | src/memory/store.ts:54-61 | an entry is eligible exactly when its kind is wanted, or no kinds are given, and its score reaches the minimum |
| MemoryStore.TiesKeepStoreOrder | src/memory/store.ts:59-62 | entries of one score come in store order |
| MemoryStore.QueryAnswers | src/memory/store.ts:43-65 | a query with the default options answers from the whole history: latest records of distinct ids that qualify, best first, none better left out, all of them if fewer than the limit |
| Guardrails.AcceptedExactly | src/llm/guardrails.ts:69-105 | accepted exactly when at every depth finite numbers and numeric strings of at least ten sit directly under an allowed key and no amount key directly holds a number or numeric string |
| Guardrails.PathNeverMatters | src/llm/guardrails.ts:74-78 | the path test on strings never fires: strings are only reached at the root or in an array |
| Guardrails.AcceptedTogether | src/llm/guardrails.ts:79-81 | an array passes exactly when each item would pass alone |
| Guardrails.FineExactly | src/llm/guardrails.ts:74-97 | the rules for one value: texts like digits, commas and a point, at least ten before the point, keys in lower case without underscores and hyphens |
| NumberProvenance.BuildLookupSet | src/lib/number_provenance_validator.ts:71-149 | the set built by the nested additions is the canonical list of the figures |
| NumberProvenance.CanonExactly | src/lib/number_provenance_validator.ts:77-85 | the set holds the rounded figures and their absolute values and nothing else |
| NumberProvenance.MatchesWithAbbreviationTolerance | src/lib/number_provenance_validator.ts:158-184 | a match exactly for a member or a value within five percent of a non-zero member |
| NumberProvenance.ValidateNumberProvenance | src/lib/number_provenance_validator.ts:188-232 | found and unverified are the checked tokens that pass and fail, in order; valid when none fails |
| NumberProvenance.ValidExactly | src/lib/number_provenance_validator.ts:188-232 | a response is valid exactly when every checked token traces to a figure, its absolute value, or five percent around a non-zero one |
| NumberProvenance.FiguresExactly | src/lib/number_provenance_validator.ts:88-146 | the figures of an investigation, a drilldown, the signals and the sums of the first two to five accounts, one by one |
| NumberProvenance.ValidSpelled | src/lib/number_provenance_validator.ts:188-232 | a response is valid exactly when every number is a figure to the cent, signs aside, is less than five percent from one, or is a small number in prose that is no figure |
| NumberProvenance.ListsPartition | src/lib/number_provenance_validator.ts:199-224 | each checked token is reported in exactly one list, as often as it occurs |
| NumberProvenance.DrilldownKeepsValid | src/lib/number_provenance_validator.ts:106-119 | adding a drilldown never turns a valid response invalid |
| MoneyFormat.StripUndoesFmt | frontend/lib/money.ts:16-56 | for every text not shown as a dash, stripping the output gives sign, whole part and two decimals exactly when these do not themselves sit in parentheses |
| MoneyFormat.FmtDecimal | frontend/lib/money.ts:47-55 | for decimal texts the output is the whole part grouped by threes from the right with two decimals, and stripping gives the truncated input back |
| MoneyFormat.FmtPlain | frontend/lib/money.ts:24-56 | a plain number prints as dollar sign, parentheses if negative, grouped whole part and two decimals, or as a dash for zero |
| MoneyFormat.FmtMissing | frontend/lib/money.ts:21-24 | a missing value prints as a dash or as zero |
| MoneyFormat.FmtParens | frontend/lib/money.ts:27-29 | parentheses around a text read as a minus in front of it |
| MoneyFormat.GroupedAt | frontend/lib/money.ts:47-48 | a comma stands before every third digit from the right, and the digits stay |
| MoneyFormat.CommasGroupByThrees | frontend/lib/money.ts:47-48 | on digits the regular expression groups by threes from the right with no leading comma |
| MoneyFormat.TwoPlacesTruncate | frontend/lib/money.ts:39-40 | the two decimals are the input's decimals cut, not rounded |
| MoneyFormat.FmtIdempotent | frontend/lib/money.ts:16-56 | for every text formatting is idempotent exactly when the first pass gave no dash for a placeholder or zero and the printed number does not itself sit in parentheses |
| MoneyFormat.SignAgreesExactly | frontend/lib/money.ts:80-84 | the sign test agrees on a decimal text and its output except for a negative zero shown as a dash |

## Left out

- SnapshotTheorems.HashIdentifiesContent: covers every version but 1, whose number format and entry order the code treats differently: `MoneyVersion` excludes it; `accountType` is a field of `Entry` that no version hashes, so nothing is said of it.
- BridgeRuns.LockFreezes: excludes approvals, because `ApproveJE` makes no lock check.
- BridgeService.CommandBridge.ExecuteBridgeCommand: the services behind the bridge are reduced to the writes they make and the ways they refuse; evidence policy, shadow audit, general-ledger push and cascade appear only as refusals or failures.
- BridgeService.CommandBridge.StoreEntry: the balance, provenance and line checks of the journal service appear only as refusals.
- BridgeService.CommandBridge.DecideAdjustment: the connection lookup and the ledger push of a posting appear only as outcomes of the write.
- MigrationRuns.LockCanLeak: one run with an empty version list; `UnlockFailureLeaks` and `LeakStays` are the general statements.
- Embedding.LocalEmbed: takes text already lower-cased and trimmed, and the square root as a function; dimension 0 divides by zero in the source and is excluded.
- MemoryStore.TopHitsBest: takes the score as a parameter; `Embedding` states what the cosine score satisfies in exact arithmetic.
- NumberProvenance.ValidateNumberProvenance: starts from a list of tokens with their values; the regular expressions that find and read them are not modelled.
- Guardrails.AcceptedExactly: covers the tree scan; `stringContainsDollarAmounts` and the parsing of raw strings before it are not modelled, and numeric strings are read exactly instead of as doubles.
- MoneyFormat.FmtDecimal: `cmpMoney`, `moneyAbs` and `sumMoneyStrings` use floating point and are not modelled.
- TenantRuns.PoisonedServesNobody: transactions run on scoped pools, which set the tenant first; a `withTransaction` on the bare pool, whose own ROLLBACK would clear such a connection, is not modelled.
- TenantRuns.StatementsSeeTheirTenant: a callback that itself issues `SET app.current_tenant_id` is excluded.
- The AI pool cache repeats the tenant pool cache; `closePool` and the `search_path` setup are not modelled.
- The concrete migration list and SQL text: the runner is proved for any strictly ascending list.
- SHA-256, Ed25519 and JWT internals; HTTP routes, authentication, schemas of request bodies, sockets and the user interface.
- ERP adapters, language-model providers and orchestration, whose behaviour is not in the files.
- The vendor lookup over memory entries and confidence scores: single filters and sums.
