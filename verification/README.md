# Governor verification model

A Dafny model of the parts of the governor repository where several tables have to stay in agreement under retries,
races and rollbacks, with proofs over every run of them:

- **The reserve/settle/expire ledger** (`Ledger*.dfy`): wallets, trace budgets, four budget scopes, escrow rows, dispatch
  attempts and the event log. `LedgerRules` states each transaction at once, as the first guard that refuses or the one
  posting that lands; `LedgerSession` is the step-by-step code with its guarded updates, loops and rollbacks, proved to do
  exactly that. `LedgerRuns` cuts runs of transactions into postings, and `LedgerBooks`, `LedgerTrail`, `LedgerReplay` and
  `LedgerAudit` carry the invariants that `LedgerTheorems`, `LedgerRedelivery`, `LedgerReuse` and `LedgerSweep` draw their
  results from. `LedgerAnswers`, `LedgerGuards` and `LedgerLoops` tell every answer from the fields of the request and the
  calls before it, without the rules' own guards, and `LedgerEvents` what each logged event says. `LedgerWitnesses` holds
  short runs on which a stated condition fails. `LedgerOnChain` ties the ledger's log to the hash chain.
- **The hash-chained event log** (`HashChain`, `Checkpoints`, `ChainVerify`, `ChainAppend`, `Retention`, `SecurityChain`,
  `SecurityRetention`): what a correct chain is, the full and the checkpointed verifier, the append protocol under its lock,
  archival, and the second verifier of the Cybersecurity Governor, with and without archival.
- **The Crystal Commit Protocol** (`Crystal*.dfy`): crystallize, commit and the horizon sweeper; `CrystalAnswers` tells its
  answers from the proposals and commits before.
- **The in-process limiter and circuit breaker** (`FallbackLimiter`, `CircuitBreaker`).

Conventions. Money is an `int` in quanta of 10^-12 (sidecar/app/money.py:7). A transaction is atomic: it lands whole or
leaves the tables as they were. Clocks, fresh ids, the batch a sweep's query selected, the circuit's state at a reserve and
the mesh guard are parameters. SHA-256 (FIPS 180-4, section 6.2) is ideal: a digest is the sealed row itself, so equal
digests mean equal rows and no digest is the genesis constant. Constraints are those of the PostgreSQL schemas
(migrations/0001 to 0007 and 0013, cybersecurity-governor/migrations/0001 and 0006): primary and unique keys, references and
the non-negativity checks of wallets and crystal escrow refuse a transaction whole, the wallet check of migrations/0007 at the
wallet update itself. The checks on trace and scope totals and on a row's status and timestamps, and the unique indexes on
refund and final events, refuse nothing in a reachable state, because the sums, stamps and trails proved here satisfy them.

## What the proofs found

- **Archival and the verifiers' shortcuts.** The shortcut of `verify_ledger_chain` compares the head and the row count with
  the checkpoint's stored numbers. After an archival removed k rows, k further rows that do not change the newest stored
  hash, unsealed ones for instance, restore the count, and the incremental verification passes although the same log
  without archival fails. `Retention.StaleShortcutHappens` is such a run. `Retention.ArchivalKeepsFindings` shows that this
  is the only way the two can differ, and that it never happens on a correct log. The second verifier's shortcut does not
  compare the sealed count, and a row left with an insert's placeholder hashes keeps the newest hash:
  `SecurityRetention.SecurityStaleHappens` is a run, `SecurityRetention.SecurityArchivalKeepsFindings` the exact condition.
- **A cold checkpoint.** An archival keeps the findings on a correct log if and only if the checkpointed event is not older
  than the warm cutoff (`Retention.ArchivalSafeExactly`, `SecurityRetention.SecurityArchivalSafeExactly`); in
  `Retention.ColdCheckpointArchived` it is older, and the log verifies as empty. The full pass from genesis accepts a trimmed
  log only when nothing is missing from it (`Retention.FullPassAfterArchival`); `Retention.TrimmedLogRejected` is one it rejects.
- **Redelivery by provider id.** The attempt upsert keeps an existing attempt's operation but takes the new provider request
  id (ledger.py:760-766). A settled request that named only its provider id, sent again, changes nothing; it gets the same
  answer exactly until a call takes over its attempt under another id, and from then on finds no operation
  (`LedgerReuse.AnsweredUntilReused`). `LedgerWitnesses.ReusedAttemptLosesAnswer` is such a run.
- **Late settlement and scopes.** A sweep never gives scope consumption back, so an operation refunded by the sweep and
  settled later charges its scopes again. It settles exactly when it would have settled before and the scopes take the
  whole actual amount (`LedgerSweep.RefundedSettlesWhenScopesAllow`); in `LedgerWitnesses.LateChargeRefused` they do not.
  Stranded operations settle as before.
- **Late closing of crystals.** docs/finance-governor/crystal-commit-protocol.md:43 and :230 let a stranded crystal be
  settled late. The code answers every closed crystal as a replay, before it looks at fingerprint, horizon or late authority
  (commit_ledger.py:259-260). The model follows the code: `CrystalTheorems.TerminalIsFinal`.
- **Before time zero.** A provider without an entry in the local circuit breaker reads as open until 0.0, so the breaker
  also raises at negative clock readings (`CircuitBreaker.RaisesExactly`).

## Model

| member | source | states |
|---|---|---|
| `LedgerTheorems.LogFaithful` | sidecar/app/ledger.py:107-287 | After any run, folding the event log from the seeded wallets rebuilds every wallet's balance and active flag, every operation's status, reserved and actual amount, and every trace's cap and totals. |
| `LedgerTheorems.MoneyConserved` | sidecar/app/ledger.py:401-467 | In every reachable state each user's balance is non-negative, and balance + held reservations + settled actuals is the seeded balance. |
| `LedgerTheorems.TraceTotalsExact` | sidecar/app/ledger.py:469-502 | Each trace's reserved total is the sum of its held reservations and within its cap; its settled total is the sum of its settled actuals. |
| `LedgerTheorems.ScopeUseExact` | sidecar/app/attribution.py:358-403 | Each scope stays within its cap and has consumed the reservations of unsettled operations (held or expired), the actuals of settled ones, and once more the reservations of those settled after a refund, told apart as the log tells them. |
| `LedgerTheorems.ScopeCapFromFirstReserve` | sidecar/app/attribution.py:97-119 | Over any sequence of postings a scope exists exactly when a reserve touched it, and its cap is the one its first reserve asked for. |
| `LedgerTheorems.RunScopeCap` | sidecar/app/attribution.py:97-119 | After any run a scope exists exactly when some reserve landed on it, and its cap is the one the first of them asked for. |
| `LedgerTheorems.SettleChargesItsOwnScopes` | sidecar/app/attribution.py:122-145 | A settlement opens no scope and moves exactly the four its reserve charged, by what the wallet still owed. |
| `LedgerTheorems.RefundedByLog` | reconciler/app/sweeper.py:101-124 | The stamps of a row say it was refunded by a sweep exactly when the log has an EXPIRED_SWEEP for it. |
| `LedgerTheorems.EventLanguage` | sidecar/app/ledger.py:320-376 | Each key's events are one reserve, then at most one refund or a dispatch history that starts with a dispatch or timeout, then at most one closing block of adjustment, marker and drift, in agreement with the row; other keys have none. |
| `LedgerTheorems.RefundExcludesDispatch` | reconciler/app/sweeper.py:39-65 | A key with a sweep refund has no dispatch or timeout event, and no key is reserved twice. |
| `LedgerTheorems.ReservedHasNoAttempt` | sidecar/app/ledger.py:734-782 | An operation still RESERVED has no open dispatch attempt, although the upsert does not rebind the operation of an existing attempt. |
| `LedgerTheorems.LockStopsReserves` | sidecar/app/ledger.py:545-621 | No reserve of a user follows that user's DRIFT_ENFORCED, and a wallet is active exactly when it was seeded active and never locked. |
| `LedgerTheorems.AuditNeverFires` | sidecar/app/finance_ops.py:18-93 | All five probes of the finance audit are empty in every reachable state. |
| `LedgerTheorems.RunSettleRedelivered` | sidecar/app/ledger.py:384-395 | A settled request sent again at any later point of any run leaves the whole database unchanged. With a key it gets the same answer; with only a provider request id it does if and only if an attempt still carries that id, and else finds nothing. |
| `LedgerTheorems.RunReserveRedelivered` | sidecar/app/ledger.py:61-82 | A successful reserve sent again later changes nothing, whether its lookup sees the row or raced past it. |
| `LedgerAnswers.RowHistory` | sidecar/app/ledger.py:107-287 | Every row is exactly what the first accepted reserve of its key says: cost, model, user, trace, identity with its defaults, and expiry; it is settled, at the cost of the first accepted settlement, if there is one, and at nothing otherwise. |
| `LedgerAnswers.ReserveReplayAnswer` | sidecar/app/ledger.py:61-82 | A reserve under a used key changes nothing. With the same cost, model, trace, user and trace cap as the first it is answered with the status the log tells and the reserved cost, or the settled cost once a settlement was accepted; with any of them different it is a conflict. |
| `LedgerAnswers.SettleReplayAnswer` | sidecar/app/ledger.py:384-395 | A later settlement of a settled key that agrees on identity changes nothing and is accepted if and only if its cost is the settled one and its provider request id, if given, the one on the row; otherwise it is a conflict. |
| `LedgerAnswers.OneAmount` | sidecar/app/ledger.py:384-395 | All accepted settlements of one key name one amount. |
| `LedgerAnswers.SweepWaits` | reconciler/app/sweeper.py:19-34 | An operation may be swept exactly when the log has it reserved, in flight or timed out, and the time to live has passed since its first reserve. |
| `LedgerGuards.ReserveAnswer` | sidecar/app/ledger.py:59-104 | The whole answer to a reserve of an unused key, the first that holds: circuit open or approval missing, a scope whose operations use too much of the cap it was opened at, another trace cap, a full trace, a user unknown, inactive, locked in the log or without enough of the seed left, an unregistered model; else accepted at its cost. |
| `LedgerGuards.CapsAsked` | sidecar/app/attribution.py:340-355 | The scopes and caps a reserve asks for, by its fields: each name or its default, each budget unless missing or zero. |
| `LedgerGuards.FoundBy` | sidecar/app/ledger.py:785-811 | A settle request is about the operation whose key it names, when some reserve of it was accepted, or else the one whose attempt carries the provider request id it names; otherwise it is refused as not found and changes nothing. |
| `LedgerGuards.SettleAnswer` | sidecar/app/ledger.py:379-467 | The whole answer to the first settlement of an operation, the first that holds: another identity, an id on another attempt, more to pay than the seed has left, more than a scope has room for, an id on another operation; else accepted at its cost. What is to pay is told by the log: the reservation counts unless an EXPIRED_SWEEP gave it back. |
| `LedgerGuards.DriftDecides` | sidecar/app/ledger.py:846-853 | An accepted first settlement locks the wallet exactly when it exceeds the reservation by more than the absolute tolerance and, unless nothing was reserved, by more than the tolerated ratio of it; the last event then is DRIFT_ENFORCED, and DRIFT_TOLERATED exactly for any other excess. |
| `LedgerLoops.LoopsCounted` | sidecar/app/attribution.py:148-203 | After any run the counter of a run, step and signature is the number of reports accepted under it, which never passes the limit, or one where the limit is not positive. |
| `LedgerLoops.FurtherReport` | sidecar/app/attribution.py:169-188 | With a limit n > 0, a report nothing else speaks against is refused with a policy error exactly when n have landed, and accepted otherwise. |
| `LedgerLoops.ReportAnswer` | sidecar/app/ledger.py:320-376 | The whole answer to a dispatch or timeout report, the first that holds: another identity, a settled or expired operation, no attempt key, an exhausted loop; an id on another attempt; an id on another operation; else accepted with amount zero. |
| `LedgerLoops.RequestWrites` | sidecar/app/ledger.py:734-782 | An accepted report or first settlement writes one row and at most one attempt: the status it reports, the id it brings or the one kept, the first dispatch time, and the operation the attempt was made for. |
| `LedgerEvents.LogMovesBalance` | sidecar/app/ledger.py:814-832 | The amounts logged for a user add up to what the balance moved since the seed, and every event names the user of its operation. |
| `LedgerRedelivery.SettleRedelivered` | sidecar/app/ledger.py:785-811 | The same, condition included, from any well-formed state. |
| `LedgerReuse.AnsweredUntilReused` | sidecar/app/ledger.py:734-782 | After any calls, a settlement sent again by provider request id alone gets the same answer if no call between took over its attempt under another id, and finds nothing if one did. |
| `LedgerReuse.RunKeepsOwned` | sidecar/app/ledger.py:760-766 | Over any run, an attempt of a settled operation carries its id until such a call, and no other attempt ever does. |
| `LedgerWitnesses.ReusedAttemptLosesAnswer` | sidecar/app/ledger.py:760-766 | A run from seeded wallets on which the second answer is that no operation was found. |
| `LedgerRuns.RunsPost` | sidecar/app/ledger.py:59-104 | Every state a run of reserve, settle and sweep transactions passes through is reached by whole postings alone. |
| `LedgerBooks.LeadsBalances` | sidecar/app/ledger.py:146-166 | Every sequence of postings keeps the tables in agreement: row invariants, wallet, trace and scope sums. |
| `LedgerTrail.LeadsFits` | sidecar/app/ledger.py:545-621 | Every sequence of postings keeps each key's events in the language of its row, and each lock in the log. |
| `LedgerReplay.LeadsReplays` | sidecar/app/ledger.py:814-832 | Every sequence of postings appends exactly the events that move the replayed books to the new tables. |
| `LedgerAudit.TrailKinds` | sidecar/app/finance_ops.py:41-75 | In a trail of the language the reserve is first and only first, a refund second and only once without dispatch, and at most one final marker. |
| `LedgerAudit.AuditPasses` | sidecar/app/finance_ops.py:18-93 | Balanced books and fitting trails leave no probe anything to find. |
| `LedgerAudit.AuditMeans` | sidecar/app/finance_ops.py:18-93 | The five probes are empty exactly when no balance is negative, no trace reserves more than its cap, no key has two sweep refunds or two final markers, and every stranded operation has its hold event. |
| `LedgerSweep.FundsCheckConfluent` | sidecar/app/ledger.py:872-885 | The non-negative balance check of a settlement passes right after the sweep exactly when it passes before it. |
| `LedgerSweep.SettleConfluent` | reconciler/app/sweeper.py:39-115 | Settling right after the sweep expired or stranded an operation ends with the same wallets, traces and attempts, and the same rows but for the sweep's stamp. |
| `LedgerSweep.StrandedSettlesAlike` | sidecar/app/ledger.py:504-515 | A stranded operation settles exactly when it would have before the sweep, and charges its scopes alike. |
| `LedgerSweep.RefundedSettlesWhenScopesAllow` | sidecar/app/ledger.py:504-515 | A refunded operation settles if and only if it would have before the sweep and its scopes take the whole actual amount. |
| `LedgerWitnesses.LateChargeRefused` | sidecar/app/ledger.py:504-515 | A run on which a settlement is accepted before the sweep and refused by its scope caps after it. |
| `LedgerSweep.HeldSettlementProceeds` | gateway/app/governance.py:75 | Settling a held operation at no more than its reservation never fails on funds or caps and never locks a wallet; only a provider request id used elsewhere can refuse it. |
| `LedgerSweep.SweepBySnapshot` | reconciler/app/sweeper.py:36-132 | A batch leaves each selected row as one expiry on the snapshot would, and every other row alone. |
| `LedgerSweep.DrainResolvesEarliest` | reconciler/app/sweeper.py:19-34 | Without new work, k batches of size b resolve exactly the min(n, k*b) earliest-expiring of n eligible operations. |
| `LedgerSession.Session.ReserveOperation` | sidecar/app/ledger.py:59-287 | The code with its lookup, guarded updates and rollback ends in the state and answer of the reserve rules. |
| `LedgerSession.Session.ApplySettlement` | sidecar/app/ledger.py:290-317 | Lookup, identity check and dispatch to settlement or attempt report end in the state and answer of the settle rules. |
| `LedgerSession.Session.RecordAttemptState` | sidecar/app/ledger.py:320-376 | A dispatch or timeout report lands whole or refuses with the first failing guard and changes nothing. |
| `LedgerSession.Session.FinalizeSettlement` | sidecar/app/ledger.py:379-627 | A settlement lands whole, repeats a matching one, or refuses with the first failing guard, the schema's balance check at the wallet update among them, and changes nothing. |
| `LedgerSession.Session.LoadOperation` | sidecar/app/ledger.py:785-811 | The operation found by key, else through the attempt that carries the provider request id. |
| `LedgerSession.Session.UpsertAttempt` | sidecar/app/ledger.py:734-782 | The upsert keeps the operation an existing attempt belongs to and refuses a provider request id of another attempt. |
| `LedgerSession.Session.ExpireOperation` | sidecar/app/ledger.py:630-715 | One selected operation is stranded when it was or may have been dispatched, else refunded to wallet and trace. |
| `LedgerSession.Session.SweepExpiredReservations` | reconciler/app/sweeper.py:19-132 | The batch loop over the rows read at its start equals expiring the operations one by one in the current state. |
| `LedgerSession.Session.ApplyBudgetDelta` | sidecar/app/attribution.py:358-403 | The guarded insert-or-update charges a scope exactly when it stays within the stored cap. |
| `LedgerSession.Session.ApplyBudgetScopes` | sidecar/app/attribution.py:97-119 | The loop over the scopes charges all of them exactly when all fit. |
| `LedgerSession.Session.EnforceLoopGuardrail` | sidecar/app/attribution.py:148-203 | A loop counter is raised exactly when it has not reached the limit; `LedgerLoops` counts over runs. |
| `LedgerSession.Session.AssertFinanceOpsInvariants` | sidecar/app/finance_ops.py:18-93 | The audit passes exactly when all five probes are empty. |
| `LedgerOnChain.SameHeadSameTables` | sidecar/app/ledger_seal.py:85-111 | Two databases reached from one seed by any runs, whose logs the full verifier accepts with one head hash, hold the same events, wallets, traces and operations. |
| `LedgerOnChain.SameHeadSameEvents` | sidecar/app/ledger.py:814-832 | Two accepted logs with one head hash tell the same ledger events, whatever else their metadata holds. |
| `HashChain.ScanRows` | sidecar/app/ledger_seal.py:239-299 | The verifier's loop gives the result of the recursive scan: counts, head, last id and first break. |
| `HashChain.ScanMeans` | sidecar/app/ledger_seal.py:246-299 | The scan reports no break exactly when the sealed rows form a chain, and then counts sealed and unsealed rows and the head right. |
| `HashChain.ScanAccepts` | sidecar/app/ledger_seal.py:292-299 | The scan is valid exactly for chains of sealed rows that continue its anchor. |
| `HashChain.BreakLocated` | sidecar/app/ledger_seal.py:265-287 | On rows that break the chain the scan names the row at the least index where the sealed rows stop being a chain, by its previous hash exactly when that is not the head before it, and reports the counts and head up to there. |
| `HashChain.BreakIsFirst` | sidecar/app/ledger_seal.py:265-287 | That index is the only one: the sealed rows of a prefix chain exactly when it ends at or before it. |
| `HashChain.HeadFixesHistory` | sidecar/app/ledger_seal.py:85-111 | Two chains from genesis of any lengths with the same head hash are equal row for row. |
| `HashChain.HashesDistinct` | sidecar/app/ledger_seal.py:85-111 | No two rows of a chain carry the same hash. |
| `ChainVerify.FullPassAccepts` | sidecar/app/ledger_seal.py:365-387 | The full pass accepts exactly the correct chains and reports their length and head. |
| `ChainVerify.FullPassBreaks` | sidecar/app/ledger_seal.py:265-287 | The whole result of the full pass on a table that breaks at an index: the event id of that row, the reason, and the counts and head of the rows before it. |
| `ChainVerify.FullPassCounts` | sidecar/app/ledger_seal.py:246-299 | The whole result where the sealed rows chain: all rows counted, and valid exactly when none is unsealed. |
| `ChainVerify.AnchoredHeadFixesHistory` | sidecar/app/ledger_seal.py:246-299 | Two tables the full verifier accepts with the same head are equal row for row, ids and amounts included. |
| `ChainVerify.TailAccepts` | sidecar/app/ledger_seal.py:190-244 | From a checkpoint that describes a prefix, the tail pass accepts exactly the tables that are correct chains. |
| `ChainVerify.IncrementalEqualsFull` | sidecar/app/ledger_seal.py:302-387 | From such a checkpoint and for any tail, incremental verification gives the full pass's verdict; on a valid table its counts and head, on an invalid one its whole result. |
| `ChainVerify.VerifyOfPrefixes` | sidecar/app/ledger_seal.py:302-387 | On a correct log no verification reports a break, whatever older snapshots its statements read, and every checkpoint it saves describes a correct prefix. |
| `ChainVerify.VerifyAnswers` | sidecar/app/ledger_seal.py:302-387 | The whole answer with no checkpoint or one that fits: on a correct log the whole log, marked incremental when it started from a checkpoint, else the full pass. |
| `ChainVerify.VerifyStoresEnd` | sidecar/app/ledger_seal.py:355-387 | Afterwards the checkpoint stored is the end of the log and its size when the log is correct, and the old one when it is not. |
| `ChainVerify.VerifyLedgerChain` | sidecar/app/ledger_seal.py:302-387 | The code with its early exits returns the verifier's result, and the checkpoint loaded next is the one it saves, or the old one when it saves none. |
| `Checkpoints.CheckpointTable.SaveCheckpoint` | governor-spine-core/spine_core/chain_checkpoint.py:40-105 | The keyed upsert keeps the table within its schema, in the row that was there, and both readers, by newest row and by key, then find the saved checkpoint. |
| `Checkpoints.ReadersAgree` | governor-spine-core/spine_core/chain_checkpoint.py:40-60 | Under the schema's unique and pinned key, the newest row a verifier loads is the row retention looks up by key. |
| `Checkpoints.CheckpointTable.LoadCheckpointEventId` | governor-spine-core/spine_core/retention_runner.py:127-140 | Retention's lookup gives the event id of the checkpoint a verifier would load. |
| `ChainAppend.CommittedLogIsChain` | governor-spine-core/spine_core/chain_advisory_lock.py:16-35 | After any interleaving of transactions the committed log is in id order, one correct chain, and accepted by the full verifier. |
| `ChainAppend.SnapshotsOnlyGrow` | governor-spine-core/spine_core/chain_advisory_lock.py:16-35 | Every committed snapshot is a prefix of every later one. |
| `ChainAppend.OnlyHolderWrites` | governor-spine-core/spine_core/chain_advisory_lock.py:26-29 | Only the transaction that holds the lock has uncommitted event rows. |
| `ChainAppend.LogIsCommittedEvents` | sidecar/app/ledger_events.py:44-78 | The committed log holds exactly the events of the committed transactions in commit order; rolled-back ones leave nothing. |
| `ChainAppend.NoFalseAlarm` | sidecar/app/ledger_seal.py:302-387 | No verification of a log written this way reports a break, even with statements on different older snapshots and any checkpoint ever saved. |
| `ChainAppend.EveryCheckpointResumes` | sidecar/app/ledger_seal.py:342-365 | Every checkpoint ever saved describes a prefix of the log, and resuming from it on the log with any further rows agrees with the full pass. |
| `ChainAppend.SealContinues` | sidecar/app/ledger_seal.py:114-160 | The seal goes to the writer's own newest row, though it is found by key, and continues the newest hash before it. |
| `ChainAppend.NextIdCounts` | sidecar/app/ledger_events.py:44-78 | The next id is one past the number of ids drawn, those of rolled-back inserts included. |
| `ChainAppend.InsertedUnsealed` | cybersecurity-governor/spine/sidecar/app/security_events.py:63-95 | An inserted row has the next id, the event, and for its two hashes nothing in the ledger and the current head in the second log. |
| `ChainAppend.EventLog.AcquireAppendLock` | governor-spine-core/spine_core/chain_advisory_lock.py:16-35 | The lock is granted to one transaction at a time and again to the one that holds it. |
| `ChainAppend.EventLog.AppendSealedEvent` | sidecar/app/ledger_events.py:18-78 | Lock, insert and seal leave the committed rows alone and add to what the transaction sees one row: the event, with the next id, sealed onto everything before it. |
| `ChainAppend.EventLog.SealLastEvent` | sidecar/app/ledger_events.py:81-136 | Finding and sealing the last event is the seal step of the protocol. |
| `ChainAppend.EventLog.InsertEvent` | cybersecurity-governor/spine/sidecar/app/security_events.py:63-95 | The insert draws the next id; ledger events start without hashes, security events with the current head as placeholder. |
| `ChainAppend.EventLog.CommitTransaction` | governor-spine-core/spine_core/chain_advisory_lock.py:26-35 | A commit publishes the transaction's rows by id and releases the lock. |
| `ChainAppend.EventLog.RollbackTransaction` | governor-spine-core/spine_core/chain_advisory_lock.py:26-35 | A rollback drops the rows, keeps the drawn ids and releases the lock. |
| `Retention.TiersPartition` | governor-spine-core/spine_core/retention_runner.py:143-168 | Hot, warm and cold add up to the total exactly when no row is both hot and cold; with hot days not above warm days there is none. |
| `Retention.ArchiveKeeps` | governor-spine-core/spine_core/retention_runner.py:210-219 | Archival keeps exactly the rows that are not both older than the warm cutoff and covered by the checkpoint. |
| `Retention.RetentionStore.RunRetention` | governor-spine-core/spine_core/retention_runner.py:171-233 | The report counts each tier of the table before archival, archived is the number of rows removed, the tiers add up, and each skip reason is given exactly in its case. |
| `Retention.ArchivalKeepsFindings` | governor-spine-core/spine_core/retention_runner.py:203-220 | Over any run of appends, verifications and archivals with a warm checkpoint, verification finds what it finds without deletion exactly unless its shortcut fires on stale counts, which it never does on a correct log. |
| `Retention.ArchivalSafeExactly` | governor-spine-core/spine_core/retention_runner.py:203-220 | An archival keeps the findings on a correct log if and only if the checkpointed event is not older than the warm cutoff. |
| `Retention.FullPassAfterArchival` | sidecar/app/ledger_seal.py:365-387 | The full pass accepts a trimmed correct log if and only if nothing is missing. |
| `Retention.StaleShortcutHappens` | sidecar/app/ledger_seal.py:342-353 | A concrete run on which the shortcut accepts after archival what the same run without deletion rejects. |
| `Retention.ColdCheckpointArchived` | governor-spine-core/spine_core/retention_runner.py:210-219 | One sealed row, the checkpoint itself and cold: archived, its log verifies as empty, without the head it had. |
| `Retention.TrimmedLogRejected` | sidecar/app/ledger_seal.py:365-387 | The log archival leaves of two correct rows is rejected by the full pass. |
| `SecurityChain.TallyRows` | cybersecurity-governor/spine/sidecar/app/security_seal.py:208-264 | The loop that runs on after a break equals the recursive tally. |
| `SecurityChain.TallyCounts` | cybersecurity-governor/spine/sidecar/app/security_seal.py:208-264 | Its counts are of rows whose own hash matches, its head is the last stored hash, and only the first break is kept. |
| `SecurityChain.TallyAccepts` | cybersecurity-governor/spine/sidecar/app/security_seal.py:208-264 | It keeps no break exactly for correct chains. |
| `SecurityChain.TallyBreaks` | cybersecurity-governor/spine/sidecar/app/security_seal.py:225-264 | The break kept is that of the row at the least index where the rows stop being a chain, by its previous hash exactly when that is not the head before it. |
| `SecurityChain.SecurityFullPassBreaks` | cybersecurity-governor/spine/sidecar/app/security_seal.py:345-366 | The whole result of the second full pass on such a table: that break, and every row counted by whether its own hash matches. |
| `SecurityChain.SecurityAnswers` | cybersecurity-governor/spine/sidecar/app/security_seal.py:267-366 | The whole answer with no checkpoint or one that fits: on a correct log the whole log, else the full pass unless the shortcut misfires. |
| `SecurityChain.FirstCheckpoint` | cybersecurity-governor/spine/sidecar/app/security_seal.py:345-366 | The first verification of a correct log stores the checkpoint at its end. |
| `SecurityChain.SameFirstBreak` | cybersecurity-governor/spine/sidecar/app/security_seal.py:225-229 | Where every row carries a hash, both verifiers report the same first break. |
| `SecurityChain.SameVerdictAsLedger` | cybersecurity-governor/spine/sidecar/app/security_seal.py:345-366 | Both full verifiers accept the same tables, the correct chains, with the same counts and head. |
| `SecurityChain.SecurityIncrementalExactly` | cybersecurity-governor/spine/sidecar/app/security_seal.py:291-343 | On a table that still has the rows its checkpoint describes, incremental and full verification agree if and only if the shortcut does not fire while rows follow the checkpoint; archived tables are `SecurityRetention`'s. |
| `SecurityChain.SecurityIncrementalEqualsFull` | cybersecurity-governor/spine/sidecar/app/security_seal.py:291-343 | On such a table they always agree when the stored total does not exceed the rows the checkpoint covers. |
| `SecurityChain.SecurityVerifyOfPrefixes` | cybersecurity-governor/spine/sidecar/app/security_seal.py:267-366 | On a correct log read through older snapshots no break is reported, and every saved checkpoint describes a prefix and stores such a total. |
| `SecurityChain.VerifySecurityChain` | cybersecurity-governor/spine/sidecar/app/security_seal.py:267-366 | The code with its early exits returns the verifier's result, and the checkpoint loaded next is the one it saves, or the old one when it saves none. |
| `SecurityRetention.SecurityArchivalKeepsFindings` | governor-spine-core/spine_core/retention_runner.py:203-220 | Over any run of appends, verifications and archivals with a warm checkpoint, the second verifier finds what it finds without deletion if and only if its shortcut misfires in both runs or in neither; without deletion it never does when the first checkpoint's total is covered, and on a correct log it never does at all. |
| `SecurityRetention.SecurityArchivalSafeExactly` | governor-spine-core/spine_core/retention_runner.py:203-220 | An archival keeps the second verifier's findings on a correct log if and only if the checkpointed event is not older than the warm cutoff. |
| `SecurityRetention.SecurityStaleHappens` | cybersecurity-governor/spine/sidecar/app/security_seal.py:293-304 | A concrete run on which a row with placeholder hashes is accepted after archival and rejected without. |
| `CrystalTheorems.BudgetConserved` | cybersecurity-governor/spine/sidecar/app/commit_ledger.py:135-160 | For every run each account's balance is non-negative, and balance + reservations of open and stranded crystals + min(reserved, committed) of committed ones is its seed. |
| `CrystalTheorems.StatesAgree` | cybersecurity-governor/spine/sidecar/app/commit_ledger.py:304-319 | Crystal and escrow row always name the same terminal state, and no critical or high crystal is ever EXPIRED. |
| `CrystalTheorems.TerminalIsFinal` | cybersecurity-governor/spine/sidecar/app/commit_ledger.py:259-260 | Over any run a crystal keeps its fields, its first terminal state is its last, and the row of a closed crystal never changes. |
| `CrystalTheorems.CommitMatchesProposal` | cybersecurity-governor/platforms/common/crystal.py:86-87 | A commit that takes effect at any later time carries the facets first crystallized. |
| `CrystalTheorems.ClockDecides` | cybersecurity-governor/platforms/common/crystal.py:90-92 | Without late authority, at every instant an open crystal can be committed with its facets or is sweepable, never both and never neither. |
| `CrystalTheorems.FirstCloserWins` | cybersecurity-governor/spine/reconciler/app/horizon_sweeper.py:29-49 | Where both may act, whoever comes second finds the crystal closed and changes nothing. |
| `CrystalTheorems.TrailTellsAll` | cybersecurity-governor/spine/reconciler/app/horizon_sweeper.py:69-113 | Each crystal's events are its creation with the reserved amount and, once closed, one closing event with its state and amount. |
| `CrystalAnswers.CrystalHistory` | cybersecurity-governor/spine/sidecar/app/commit_ledger.py:77-228 | A crystal exists exactly when some proposal was answered with it, and has its platform, operation, tier, facets, account and reservation; its horizon is the proposal's time plus what the named policy gives, or else five seconds, five minutes or an hour by tier. |
| `CrystalAnswers.CommitAnswer` | cybersecurity-governor/spine/sidecar/app/commit_ledger.py:231-288 | The whole answer to a commit in any run: unknown without such a proposal, a replay once the log has a closing event, else the first refusal by the fields proposed, or done; unless done it changes nothing. |
| `CrystalAnswers.CommitsExactly` | cybersecurity-governor/spine/sidecar/app/commit_ledger.py:274-290 | A commit of an open crystal takes effect if and only if its facets are the crystal's, it comes before the horizon or with late authority, the mesh does not block it, and its amount is not negative. |
| `CrystalAnswers.CommitWrites` | cybersecurity-governor/spine/sidecar/app/commit_ledger.py:289-319 | It records the amount it names and returns what the reservation had above it, and moves nothing else. |
| `CrystalAnswers.LateRefusalForetellsSweep` | cybersecurity-governor/spine/sidecar/app/commit_ledger.py:282-286 | A late commit without authority is refused as stranded if and only if a sweep of the crystal, still CRYSTALLIZED, would strand it, and as blocked if and only if the sweep would expire it. |
| `CrystalAnswers.SweepResolves` | cybersecurity-governor/spine/reconciler/app/horizon_sweeper.py:51-114 | A sweep strands a critical or high crystal, or one an agent reported on, and keeps its reservation; any other it expires and gives all of it back; nothing else moves. |
| `CrystalAnswers.ReproposalReplays` | cybersecurity-governor/spine/sidecar/app/commit_ledger.py:90-103 | Proposing a platform and operation again, with whatever else, changes nothing and is answered with the first crystal and its horizon. |
| `CrystalAnswers.ProposalAnswer` | cybersecurity-governor/spine/sidecar/app/commit_ledger.py:105-160 | The whole answer to a first proposal: the first refusal by policy, account, what the claims leave of the seed, and the schema; or the new crystal with the horizon of its policy or tier. |
| `CrystalAnswers.RunNamed` | cybersecurity-governor/spine/reconciler/app/horizon_sweeper.py:69-113 | Every logged event names the operation and the account of its crystal. |
| `CrystalProtocol.ClosingKeeps` | cybersecurity-governor/spine/sidecar/app/commit_ledger.py:289-319 | Closing a crystal in any of the three ways keeps the tables in agreement and every account's worth. |
| `CrystalSession.SweepBySnapshot` | cybersecurity-governor/spine/reconciler/app/horizon_sweeper.py:51-114 | A sweep resolves each selected crystal as one resolution on its snapshot would and touches no other. |
| `CrystalSession.Session.CrystallizeOperation` | cybersecurity-governor/spine/sidecar/app/commit_ledger.py:77-228 | Replay, policy, balance and schema guards with their rollback end in the state and reply of the crystallize rules. |
| `CrystalSession.Session.CommitOperation` | cybersecurity-governor/spine/sidecar/app/commit_ledger.py:231-330 | The commit's guards, in their order, and its refund and writes end in the state and reply of the commit rules. |
| `CrystalSession.Session.SweepExpiredHorizons` | cybersecurity-governor/spine/reconciler/app/horizon_sweeper.py:29-117 | The loop over the rows read at its start equals resolving the crystals one by one in the current state. |
| `FallbackLimiter.AdmissionsBounded` | sidecar/app/fallback_limiter.py:30-83 | On a clock that does not go back, any window of time admits at most capacity + rate * length reserves. |
| `FallbackLimiter.TokenMissingExactly` | sidecar/app/fallback_limiter.py:38-45 | The converse: a reserve finds no token if and only if some window of time up to now already admitted so many that one more would exceed its allowance. |
| `FallbackLimiter.PerMinuteBounded` | sidecar/app/fallback_limiter.py:47-53 | While the minute does not go back, no user is admitted more often in a minute than the limit. |
| `FallbackLimiter.TraceDepthBounded` | sidecar/app/fallback_limiter.py:55-59 | No trace ever has more distinct admitted keys than the depth limit. |
| `FallbackLimiter.InflightBounded` | sidecar/app/fallback_limiter.py:61-73 | A user's in-flight count stays between zero and the limit, never falls below admissions minus releases, and equals them exactly while every release answers an admission. |
| `FallbackLimiter.InflightIsPeak` | sidecar/app/fallback_limiter.py:61-73 | The in-flight count is the largest excess of admissions over releases since any earlier call. |
| `FallbackLimiter.VerdictByHistory` | sidecar/app/fallback_limiter.py:38-68 | On clocks that do not go back, the answer to a reserve is told exactly by the calls before it and their answers: no window of time is full, the user's attempts in the minute, the keys the trace was asked for, and the user's admissions in excess of releases, the first failing one in this order. |
| `FallbackLimiter.LocalFallbackLimiter.CheckReserve` | sidecar/app/fallback_limiter.py:30-68 | The checks in their order, each leaving behind what it counted, give the verdict and state of the limiter's step. |
| `FallbackLimiter.LocalFallbackLimiter.ReleaseReserve` | sidecar/app/fallback_limiter.py:70-73 | A release lowers a positive count and leaves a zero one. |
| `FallbackLimiter.LocalFallbackLimiter.RefillTokens` | sidecar/app/fallback_limiter.py:75-83 | A refill adds elapsed time times rate up to the capacity, and nothing when the clock did not advance. |
| `CircuitBreaker.DequeIsWindow` | sidecar/app/circuit_breaker.py:38-45 | On a monotone clock the deque is exactly the failures since the last success that lie in the window of the newest. |
| `CircuitBreaker.RaisesExactly` | sidecar/app/circuit_breaker.py:31-54 | The breaker raises at a time exactly when some failure since the last success had the threshold of failures in its window and opened the circuit beyond that time; with none such, only before time zero. |
| `CircuitBreaker.LocalCircuitFallback.RecordFailure` | sidecar/app/circuit_breaker.py:38-49 | The pruning loop and the threshold test give the recorded state. |
| `CircuitBreaker.LocalCircuitFallback.AssertClosed` | sidecar/app/circuit_breaker.py:31-36 | Raises exactly while the stored time, zero when there is none, lies ahead. |

## Left out

- HTTP routes, authentication, providers, webhooks, anchoring, Redis paths, tracing and metric counters: plumbing that no property reads.
- The SQLite dialect, where the append lock is a no-op and the schema has fewer constraints: the PostgreSQL behaviour is modelled.
- Isolation levels other than PostgreSQL's default read committed, under which an appender that waited for the lock reads the head its predecessor committed.
- JSON encoding and Decimal rounding: a stored value reads back unchanged and requests arrive as multiples of the quantum; the drift ratio is compared exactly, without the rounding of a Decimal division.
- Two transactions that read one loop counter at once: the counter is read and raised in one transaction at a time.
- Row locks and SKIP LOCKED: a sweep's selection is a parameter, constrained to eligible operations; the drain result adds that it is the earliest-expiring batch.
- The sweeps read their clock once per batch in the model; the code reads it again per row for the stamp.
- Reason texts, drift amounts, settlement times, lineage records, guardrail incidents and token counts: written and never read by these transactions.
- The conflict branch of `apply_settlement` for a row whose key differs from the request's: the lookup by key cannot return one.
- `mesh_block_reason` beyond a guard that blocks or passes, the crystal hash linkage, which nothing verifies, and the escrow row's own expiry, which nothing reads.
- A missing seal schema or checkpoint table: both are taken to exist. A verifier may read through a replica session, but the checkpoint loaded is the stored one.
- Negative caps in the settings, which the schema would refuse when a trace or scope is first written.
- Retention day arithmetic uses a day of 86400 clock units; a missing ledger table is not modelled.
- FallbackLimiter.AdmissionsBounded: this and the two exact results beside it assume a non-negative capacity and rate, as every sensible setting has; float rounding is not modelled.
- FallbackLimiter.PerMinuteBounded: a wall clock that returns to an earlier minute starts that minute's count again, so the bound is stated for a clock that does not.
- Three further governors repeat the chain verifier and the commit protocol with other columns; they would add only copies.
