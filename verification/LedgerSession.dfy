/** The ledger transactions as the sidecar and the reconciler run them: guarded updates one table after
    the other, with a rollback as soon as one refuses. Each method is proved to do what `LedgerRules`
    says the whole transaction does. */
module LedgerSession {
  import opened Options
  import opened LedgerTypes
  import opened LedgerRules
  import opened LedgerBooks
  import opened LedgerReplay
  import opened LedgerAudit

  /** The four scopes of an operation, in the order they are charged. */
  function ScopeList(user: string, identity: Identity): (ids: seq<ScopeId>)
    ensures forall i, j | 0 <= i < j < |ids| :: ids[i] != ids[j]
    ensures forall id :: id in ids <==> id in ScopeIds(user, identity)
  {
    [RunScope(identity.run), SessionScope(identity.session), UserScope(user), TenantScope(identity.tenant)]
  }

  /** The operation row a settlement writes. */
  function SettledRow(op: Operation, q: SettleRequest): Operation {
    op.(status := Settled, actual := q.cost, providerRequest := Coalesce(q.providerRequest, op.providerRequest))
  }

  lemma ConcatThrice(a: seq<Event>, b: seq<Event>, c: seq<Event>, d: seq<Event>)
    ensures a + b + c + d == a + (b + c + d)
  {
  }

  class Session {
    const cfg: Settings
    var wallets: map<string, Wallet>
    var traces: map<string, Trace>
    var scopes: map<ScopeId, Scope>
    var escrow: map<string, Operation>
    var attempts: map<string, Attempt>
    var loops: map<string, nat>
    var events: seq<Event>

    function Db(): State
      reads this
    {
      State(wallets, traces, scopes, escrow, attempts, loops, events)
    }

    constructor (cfg: Settings, seed: map<string, Wallet>)
      ensures this.cfg == cfg && Db() == State(seed, map[], map[], map[], map[], map[], [])
    {
      this.cfg := cfg;
      wallets, traces, scopes, escrow, attempts, loops, events := seed, map[], map[], map[], map[], map[], [];
    }

    method Rollback(saved: State)
      modifies this
      ensures Db() == saved
    {
      wallets, traces, scopes := saved.wallets, saved.traces, saved.scopes;
      escrow, attempts, loops, events := saved.escrow, saved.attempts, saved.loops, saved.events;
    }

    method AppendEvent(key: string, user: string, kind: EventKind, delta: int)
      modifies this`events
      ensures events == old(events) + [Event(key, user, kind, delta)]
    {
      events := events + [Event(key, user, kind, delta)];
    }

    // ---------- budget scopes ----------

    /** Insert the scope row unless present, then the guarded update. */
    method ApplyBudgetDelta(id: ScopeId, cap: int, delta: int) returns (applied: bool)
      modifies this`scopes
      ensures applied == ScopeFits(old(scopes), id, cap, delta)
      ensures applied ==> scopes == old(scopes)[id := ChargedScope(old(scopes), id, cap, delta)]
    {
      if id !in scopes {
        scopes := scopes[id := Scope(cap, 0)];
      }
      applied := scopes[id].consumed + delta <= scopes[id].cap;
      if applied {
        scopes := scopes[id := scopes[id].(consumed := scopes[id].consumed + delta)];
      }
    }

    /** The scopes one after the other; the first one without room stops the transaction. */
    method ApplyBudgetScopes(ids: seq<ScopeId>, caps: map<ScopeId, int>, delta: int) returns (applied: bool)
      requires forall i, j | 0 <= i < j < |ids| :: ids[i] != ids[j]
      requires forall id :: id in ids <==> id in caps
      modifies this`scopes
      ensures applied == ScopesFit(old(scopes), caps, delta)
      ensures applied ==> scopes == ChargeScopes(old(scopes), caps, delta)
    {
      var i := 0;
      while i < |ids|
        invariant 0 <= i <= |ids|
        invariant forall j | 0 <= j < i :: ScopeFits(old(scopes), ids[j], caps[ids[j]], delta)
        invariant forall j | 0 <= j < i ::
                  ids[j] in scopes && scopes[ids[j]] == ChargedScope(old(scopes), ids[j], caps[ids[j]], delta)
        invariant forall id | id !in ids[..i] :: id in scopes <==> id in old(scopes)
        invariant forall id | id !in ids[..i] && id in scopes :: scopes[id] == old(scopes)[id]
      {
        assert ids[i] !in ids[..i];
        applied := ApplyBudgetDelta(ids[i], caps[ids[i]], delta);
        if !applied {
          return;
        }
        assert ids[..i + 1] == ids[..i] + [ids[i]];
        i := i + 1;
      }
      applied := true;
      assert ids[..i] == ids;
      assert scopes.Keys == ChargeScopes(old(scopes), caps, delta).Keys;
    }

    // ---------- reserve ----------

    /** A reserve of a key that is already booked answers from the row and writes nothing. */
    method ReplayReserve(existing: Operation, r: ReserveRequest) returns (o: Outcome)
      ensures o == ReplayedReserve(existing, r)
    {
      if existing.fingerprint != FingerprintOf(r) {
        return Refused(Conflict);
      }
      var amount := existing.actual;
      if !existing.status.Settled? && amount == 0 {
        amount := existing.reserved;
      }
      o := Accepted(r.key, existing.status, amount);
    }

    /** Insert the trace row unless present, compare its cap, then the guarded update. */
    method ClaimTrace(trace: string, cap: int, amount: int) returns (refused: Option<Error>)
      modifies this`traces
      ensures var before := OpenTrace(old(Db()), trace, cap);
        refused == (if before.cap != cap then Some(Conflict)
                    else if before.reservedTotal + amount > before.cap then Some(TraceCapExceeded) else None) &&
        (refused.None? ==> traces == old(traces)[trace := before.(reservedTotal := before.reservedTotal + amount)])
    {
      if trace !in traces {
        traces := traces[trace := Trace(cap, 0, 0)];
      }
      if traces[trace].cap != cap {
        return Some(Conflict);
      }
      if traces[trace].reservedTotal + amount > traces[trace].cap {
        return Some(TraceCapExceeded);
      }
      traces := traces[trace := traces[trace].(reservedTotal := traces[trace].reservedTotal + amount)];
      refused := None;
    }

    /** The guarded debit of an active wallet. */
    method DebitWallet(user: string, amount: int) returns (debited: bool)
      modifies this`wallets
      ensures debited == WalletCovers(old(Db()), user, amount)
      ensures wallets == if debited
              then old(wallets)[user := old(wallets)[user].(balance := old(wallets)[user].balance - amount)]
                         else old(wallets)
    {
      if user !in wallets || !wallets[user].active || wallets[user].balance < amount {
        return false;
      }
      wallets := wallets[user := wallets[user].(balance := wallets[user].balance - amount)];
      debited := true;
    }

    /** The guarded writes of a reserve in order; a refusal leaves the earlier writes to the rollback. */
    method WriteReserve(r: ReserveRequest, now: int, circuitOpen: bool) returns (refused: Option<Error>)
      modifies this
      ensures refused == ReserveRefusal(cfg, old(Db()), r, circuitOpen)
      ensures refused.None? ==> r.user in old(wallets) && Db() == PostReserve(cfg, old(Db()), r, now)
    {
      hide ScopesFit, ChargeScopes, NeedsApproval, ScopeCaps, FingerprintOf, IdentityOf, TraceCapOf;
      if circuitOpen || NeedsApproval(cfg, r) {
        return Some(PolicyState);
      }
      var scoped := ApplyBudgetScopes(ScopeList(r.user, IdentityOf(r)), ReserveCaps(cfg, r), r.cost);
      if !scoped {
        return Some(TraceCapExceeded);
      }
      refused := ClaimTrace(r.trace, TraceCapOf(cfg, r), r.cost);
      if refused.Some? {
        return;
      }
      var debited := DebitWallet(r.user, r.cost);
      if !debited {
        return Some(InsufficientFunds);
      }
      if r.key in escrow || r.model !in cfg.models {
        return Some(Conflict);
      }
      escrow := escrow[r.key := NewOperation(cfg, r, now)];
      AppendEvent(r.key, r.user, ReserveCreated(r.trace, TraceCapOf(cfg, r)), 0 - r.cost);
    }

    /** `existing` is what the key lookup at the start of the transaction saw: the row, or nothing,
        possibly because another transaction inserted it afterwards. */
    method ReserveOperation(r: ReserveRequest, now: int, circuitOpen: bool,
        existing: Option<Operation>) returns (o: Outcome)
      modifies this
      ensures existing.Some? ==> Db() == old(Db()) && o == ReplayedReserve(existing.value, r)
      ensures existing.None? ==> (Db(), o) == ReserveUnseen(cfg, old(Db()), r, now, circuitOpen)
    {
      if existing.Some? {
        o := ReplayReserve(existing.value, r);
        return;
      }
      hide ReserveRefusal, PostReserve;
      var saved := Db();
      var refused := WriteReserve(r, now, circuitOpen);
      if refused.Some? {
        Rollback(saved);
        return Refused(refused.value);
      }
      o := Accepted(r.key, Reserved, r.cost);
    }

    // ---------- settle requests ----------

    /** Lookup by key, or through the dispatch attempt that carries the provider request id. */
    method LoadOperation(q: SettleRequest) returns (key: Option<string>)
      requires IdsUnique(Db())
      ensures key == Resolve(Db(), q)
    {
      if Given(q.key) {
        return if q.key.value in escrow then q.key else None;
      }
      if Given(q.providerRequest) && exists a | a in attempts :: CarriesId(Db(), a, q.providerRequest) {
        var a :| a in attempts && CarriesId(Db(), a, q.providerRequest);
        return Some(attempts[a].operation);
      }
      return None;
    }

    /** Insert the attempt, or update it in place without rebinding its operation; false when the
        provider request id sits on another attempt. */
    method UpsertAttempt(key: string, q: SettleRequest) returns (stored: bool)
      requires Given(q.attemptKey)
      modifies this`attempts
      ensures stored == !AttemptRefused(old(Db()), key, q)
      ensures attempts == if stored then AttemptsAfter(old(Db()), key, q) else old(attempts)
    {
      var attemptKey := q.attemptKey.value;
      var row := Attempt(key, q.providerRequest, q.outcome);
      if attemptKey in attempts {
        row := attempts[attemptKey].(
          providerRequest := Coalesce(q.providerRequest, attempts[attemptKey].providerRequest),
          status := q.outcome);
      }
      stored := !AttemptIdTaken(attempts, attemptKey, row.providerRequest);
      if stored {
        attempts := attempts[attemptKey := row];
      }
    }

    method EnforceLoopGuardrail(op: Operation, q: SettleRequest) returns (passed: bool)
      modifies this`loops
      ensures passed == !LoopTripped(cfg, old(Db()), op, q)
      ensures loops == if passed then LoopsAfter(old(Db()), op, q) else old(loops)
    {
      if !Given(q.loopSignature) {
        return true;
      }
      var loop := LoopKey(op, q.loopSignature.value);
      if loop in loops && loops[loop] >= cfg.maxLoopRepeats {
        return false;
      }
      if loop in loops {
        loops := loops[loop := loops[loop] + 1];
      } else {
        loops := loops[loop := 1];
      }
      passed := true;
    }

    /** The guarded writes of a dispatch or timeout report in order. */
    method WriteReport(key: string, q: SettleRequest, now: int) returns (refused: Option<Error>)
      requires key in escrow && !q.outcome.Settled?
      modifies this
      ensures refused == ReportRefusal(cfg, old(Db()), key, q)
      ensures refused.None? ==> Db() == PostReport(old(Db()), key, q, now)
    {
      var op := escrow[key];
      if op.status.Settled? || op.status.Expired? {
        return Some(PolicyState);
      }
      if !Given(q.attemptKey) {
        return Some(PolicyState);
      }
      var passed := EnforceLoopGuardrail(op, q);
      if !passed {
        return Some(PolicyState);
      }
      var stored := UpsertAttempt(key, q);
      if !stored {
        return Some(Conflict);
      }
      var id := Coalesce(q.providerRequest, op.providerRequest);
      if OperationIdTaken(escrow, key, id) {
        return Some(IntegrityViolation);
      }
      escrow := escrow[key := op.(
        status := q.outcome,
        dispatchStartedAt := Coalesce(op.dispatchStartedAt, Some(now)),
        providerRequest := id)];
      AppendEvent(key, op.user, if q.outcome.InFlight? then DispatchStarted else TimeoutRecorded, 0);
      refused := None;
    }

    method RecordAttemptState(key: string, q: SettleRequest, now: int) returns (o: Outcome)
      requires key in escrow && !q.outcome.Settled?
      modifies this
      ensures (Db(), o) == RecordReport(cfg, old(Db()), key, q, now)
    {
      hide ReportRefusal, PostReport;
      var saved := Db();
      var refused := WriteReport(key, q, now);
      if refused.Some? {
        Rollback(saved);
        return Refused(refused.value);
      }
      o := Accepted(key, q.outcome, saved.escrow[key].actual);
    }

    /** Wallet and trace part of a settlement, with its adjustment event; the balance check of the schema
        refuses an update that would leave the wallet negative. */
    method PostAmounts(key: string, op: Operation, actual: int) returns (covered: bool)
      requires key in escrow && escrow[key] == op && op.reserved >= 0 && actual >= 0
      modifies this`wallets, this`traces, this`events
      ensures covered == !(WalletDelta(op, actual) != 0 && Overdraws(old(Db()), op, WalletDelta(op, actual)))
      ensures covered ==> events == old(events) + AdjustmentEvents(key, op, actual)
      ensures covered ==> wallets == Pay(old(wallets), op.user, WalletDelta(op, actual))
      ensures covered ==>
                traces == if op.trace in old(traces)
                        then old(traces)[op.trace := SettledTrace(old(traces)[op.trace], op, actual)]
                        else old(traces)
    {
      var refund, correction := 0, 0;
      if !op.status.Expired? {
        if actual <= op.reserved {
          refund := op.reserved - actual;
        } else {
          correction := actual - op.reserved;
        }
      } else {
        correction := actual;
      }
      if refund != 0 {
        if op.user in wallets {
          wallets := wallets[op.user := wallets[op.user].(balance := wallets[op.user].balance + refund)];
          if wallets[op.user].balance < 0 {
            return false;
          }
        }
        AppendEvent(key, op.user, SettlementRefund, refund);
      }
      if correction != 0 {
        if op.user in wallets {
          wallets := wallets[op.user := wallets[op.user].(balance := wallets[op.user].balance - correction)];
          if wallets[op.user].balance < 0 {
            return false;
          }
        }
        AppendEvent(key, op.user, CorrectionDebit, -correction);
      }
      if op.trace in traces {
        var t := traces[op.trace];
        if !op.status.Expired? {
          traces := traces[op.trace := Trace(t.cap, t.reservedTotal - op.reserved, t.settledTotal + actual)];
        } else {
          traces := traces[op.trace := t.(settledTotal := t.settledTotal + actual)];
        }
      }
      covered := true;
    }

    /** Charge the operation's four scopes by the difference to what it already consumed. */
    method ApplySettlementBudgetScopes(op: Operation, delta: int) returns (applied: bool)
      modifies this`scopes
      ensures applied == (delta == 0 || ScopesFit(old(scopes), ScopeCaps(op.user, op.identity, cfg.budgets), delta))
      ensures applied ==> scopes == if delta != 0
              then ChargeScopes(old(scopes), ScopeCaps(op.user, op.identity, cfg.budgets), delta)
                                    else old(scopes)
    {
      if delta == 0 {
        return true;
      }
      applied := ApplyBudgetScopes(
        ScopeList(op.user, op.identity), ScopeCaps(op.user, op.identity, cfg.budgets), delta);
    }

    /** Lock the wallet, or only note the drift, when the actual amount exceeds the reservation. */
    method EnforceDrift(key: string, op: Operation, actual: int)
      modifies this`wallets, this`events
      ensures events == old(events) + DriftEvents(cfg, key, op, actual)
      ensures wallets == if LocksWallet(cfg, op, actual) then Lock(old(wallets), op.user) else old(wallets)
    {
      var excess := if actual - op.reserved > 0 then actual - op.reserved else 0;
      if excess != 0 {
        if DriftExcessive(cfg, excess, op.reserved) {
          if op.user in wallets {
            wallets := wallets[op.user := wallets[op.user].(active := false)];
          }
          AppendEvent(key, op.user, DriftEnforced, 0);
        } else {
          AppendEvent(key, op.user, DriftTolerated, 0);
        }
      }
    }

    /** The operation row, its marker, the check on the wallet balance, and the drift event. */
    method CloseOperation(key: string, op: Operation, q: SettleRequest) returns (refused: Option<Error>)
      requires key in escrow && escrow[key] == op
      modifies this`escrow, this`wallets, this`events
      ensures refused == (if OperationIdTaken(old(escrow), key, SettledRow(op, q).providerRequest)
              then Some(IntegrityViolation)
                          else if op.user in old(wallets) && old(wallets)[op.user].balance < 0
                            then Some(NegativeBalance) else None)
      ensures refused.None? ==> escrow == old(escrow)[key := SettledRow(op, q)]
      ensures refused.None? ==> wallets == if LocksWallet(cfg, op, q.cost) then Lock(old(wallets), op.user)
              else old(wallets)
      ensures refused.None? ==> events == old(events) + [MarkerEvent(key, op)] + DriftEvents(cfg, key, op, q.cost)
    {
      var id := Coalesce(q.providerRequest, op.providerRequest);
      if OperationIdTaken(escrow, key, id) {
        return Some(IntegrityViolation);
      }
      escrow := escrow[key := op.(status := Settled, actual := q.cost, providerRequest := id)];
      AppendEvent(key, op.user, if op.status.Expired? || op.status.Stranded? then LateSettle else SettledFinal, 0);
      if op.user in wallets && wallets[op.user].balance < 0 {
        return Some(NegativeBalance);
      }
      EnforceDrift(key, op, q.cost);
      refused := None;
    }

    /** The guarded writes of a final settlement in order. */
    method WriteSettlement(key: string, q: SettleRequest) returns (refused: Option<Error>)
      requires key in escrow && escrow[key].reserved >= 0 && q.outcome.Settled?
      modifies this
      ensures refused == SettleRefusal(cfg, old(Db()), key, q)
      ensures refused.None? ==> Db() == PostSettle(cfg, old(Db()), key, q)
    {
      hide ScopesFit, ChargeScopes, ScopeCaps, DriftExcessive, AttemptIdTaken, OperationIdTaken, UpsertedAttempt,
           AdjustmentEvents, DriftEvents,
           LocksWallet, Lock, SettledTrace, SettledWallet, MarkerEvent;
      var op := escrow[key];
      if Given(q.attemptKey) {
        var stored := UpsertAttempt(key, q);
        if !stored {
          return Some(Conflict);
        }
      }
      var covered := PostAmounts(key, op, q.cost);
      if !covered {
        return Some(IntegrityViolation);
      }
      var applied := ApplySettlementBudgetScopes(op, if op.status.Expired? then q.cost else q.cost - op.reserved);
      if !applied {
        return Some(TraceCapExceeded);
      }
      refused := CloseOperation(key, op, q);
      SettleWallets(cfg, old(Db()), key, q);
      ConcatThrice(old(events), AdjustmentEvents(key, op, q.cost), [MarkerEvent(key, op)],
        DriftEvents(cfg, key, op, q.cost));
    }

    method FinalizeSettlement(key: string, q: SettleRequest) returns (o: Outcome)
      requires key in escrow && escrow[key].reserved >= 0 && q.outcome.Settled?
      modifies this
      ensures (Db(), o) == Finalize(cfg, old(Db()), key, q)
    {
      var saved, op := Db(), escrow[key];
      if op.status.Settled? {
        if MatchesSettlement(op, q) {
          return Accepted(key, Settled, q.cost);
        }
        return Refused(Conflict);
      }
      hide SettleRefusal, PostSettle;
      var refused := WriteSettlement(key, q);
      if refused.Some? {
        Rollback(saved);
        return Refused(refused.value);
      }
      o := Accepted(key, Settled, q.cost);
    }

    method ApplySettlement(q: SettleRequest, now: int) returns (o: Outcome)
      requires Wellformed(Db())
      modifies this
      ensures (Db(), o) == Settle(cfg, old(Db()), q, now)
    {
      var found := LoadOperation(q);
      if found.None? {
        return Refused(NotFound);
      }
      var key := found.value;
      assert OperationFits(Db(), escrow[key]);
      if !IdentityAgrees(escrow[key], q) {
        return Refused(PolicyState);
      }
      if q.outcome.Settled? {
        o := FinalizeSettlement(key, q);
      } else {
        o := RecordAttemptState(key, q, now);
      }
    }

    // ---------- expiry ----------

    /** Expire one selected operation from the row the selection read. */
    method ExpireOperation(key: string, row: Operation, now: int)
      requires key in escrow && escrow[key] == row
      modifies this
      ensures Db() == Expire(old(Db()), key, now)
    {
      if row.status.InFlight? || row.status.ProviderTimeout? || OpenAttempts(Db(), key) {
        escrow := escrow[key := escrow[key].(status := Stranded, expiredAt := Some(now))];
        AppendEvent(key, row.user, StrandedHold, 0);
        return;
      }
      if row.user in wallets {
        wallets := wallets[row.user := wallets[row.user].(balance := wallets[row.user].balance + row.reserved)];
      }
      if row.trace in traces {
        var trace := traces[row.trace];
        traces := traces[row.trace := trace.(reservedTotal := trace.reservedTotal - row.reserved)];
      }
      escrow := escrow[key := escrow[key].(status := Expired, expiredAt := Some(now))];
      AppendEvent(key, row.user, ExpiredSweep, row.reserved);
    }

    /** The batch loop over the rows the sweep's query returned. */
    method SweepExpiredReservations(keys: seq<string>, now: int) returns (swept: nat)
      requires SweepOf(Db(), keys, now)
      modifies this
      ensures Db() == Sweep(old(Db()), keys, now) && swept == |keys|
    {
      var rows := seq(|keys|, i requires 0 <= i < |keys| reads this requires Eligible(Db(), keys[i], now) =>
        escrow[keys[i]]);
      swept := 0;
      while swept < |keys|
        invariant 0 <= swept <= |keys|
        invariant Db() == Sweep(old(Db()), keys[..swept], now)
        invariant forall j | swept <= j < |keys| :: keys[j] in escrow && escrow[keys[j]] == rows[j]
      {
        ghost var before := Db();
        ExpireOperation(keys[swept], rows[swept], now);
        SweepOneMore(old(Db()), keys, swept, now);
        ExpireOthersStay(before, keys[swept], now);
        swept := swept + 1;
      }
      assert keys[..|keys|] == keys;
    }

    // ---------- audit ----------

    /** The five probes; the audit fails when their counts do not sum to zero. */
    method AssertFinanceOpsInvariants() returns (clean: bool, violations: nat)
      ensures clean == AuditClean(Db())
      ensures clean <==> violations == 0
    {
      var db := Db();
      violations := |NegativeWallets(db)|;
      violations := violations + |CapOverruns(db)|;
      violations := violations + |DuplicateRefunds(db)|;
      violations := violations + |DuplicateSettlements(db)|;
      violations := violations + |StrandedWithoutHold(db)|;
      clean := violations == 0;
    }
  }

  lemma {:induction false} SweepOneMore(s: State, keys: seq<string>, i: nat, now: int)
    requires i < |keys| && SweepOf(s, keys, now)
    ensures keys[i] in Sweep(s, keys[..i], now).escrow
    ensures Sweep(s, keys[..i + 1], now) == Expire(Sweep(s, keys[..i], now), keys[i], now)
    decreases i
  {
    assert Eligible(s, keys[0], now) && Eligible(s, keys[i], now);
    var t := Expire(s, keys[0], now);
    if i == 0 {
      assert keys[..1][1..] == [];
    } else {
      forall j | 0 <= j < |keys[1..]|
        ensures Eligible(t, keys[1..][j], now)
      {
        assert Eligible(s, keys[j + 1], now) && keys[j + 1] != keys[0];
      }
      hide Expire, Eligible;
      SweepOneMore(t, keys[1..], i - 1, now);
      assert keys[..i][1..] == keys[1..][..i - 1] && keys[..i + 1][1..] == keys[1..][..i];
    }
  }

  lemma ExpireOthersStay(s: State, key: string, now: int)
    requires key in s.escrow
    ensures forall k | k in s.escrow && k != key ::
              k in Expire(s, key, now).escrow && Expire(s, key, now).escrow[k] == s.escrow[k]
  {
    hide OpenAttempts;
  }
}
