/** Every answer the ledger gives to a request that is not a copy, told from the fields and the history. */
module LedgerGuards {
  import opened Options
  import opened LedgerTypes
  import opened LedgerRules
  import opened LedgerRuns
  import opened LedgerBooks
  import opened LedgerTrail
  import opened LedgerReplay
  import opened LedgerAudit
  import opened LedgerTheorems
  import opened LedgerAnswers

  // ---------- what a reserve asks for ----------

  /** The cap a request asks for: its own, unless that is missing or zero. */
  predicate AsksCap(given: Option<nat>, default: int, cap: int) {
    cap == if given.Some? && given.value > 0 then given.value else default
  }

  /** The request names this scope, or leaves it to its default. */
  predicate ChargedTo(r: ReserveRequest, scope: ScopeId) {
    match scope
    case RunScope(k) => Names(k, r.run, "default-agent-run")
    case SessionScope(k) => Names(k, r.session, "default-session")
    case UserScope(k) => k == r.user
    case TenantScope(k) => Names(k, r.tenant, "default-tenant")
  }

  /** The request is charged to this scope, which opens at this cap if it is new. */
  predicate AsksScope(cfg: Settings, r: ReserveRequest, scope: ScopeId, cap: int) {
    ChargedTo(r, scope) &&
    match scope
    case RunScope(_) => AsksCap(r.runBudget, cfg.budgets.run, cap)
    case SessionScope(_) => AsksCap(r.sessionBudget, cfg.budgets.session, cap)
    case UserScope(_) => AsksCap(r.userBudget, cfg.budgets.user, cap)
    case TenantScope(_) => AsksCap(r.tenantBudget, cfg.budgets.tenant, cap)
  }

  lemma CapsAsked(cfg: Settings, r: ReserveRequest, scope: ScopeId, cap: int)
    ensures AsksScope(cfg, r, scope, cap) <==> scope in ReserveCaps(cfg, r) && ReserveCaps(cfg, r)[scope] == cap
  {
  }

  /** Some scope has no room for the amount: what its operations use, with it, would pass its cap. */
  ghost predicate ScopeFull(cfg: Settings, t: State, r: ReserveRequest) {
    exists scope, cap :: AsksScope(cfg, r, scope, cap) && Overfills(t, scope, cap, r.cost)
  }

  /** A scope keeps the cap it was opened at. */
  ghost predicate Overfills(t: State, scope: ScopeId, cap: int, amount: int) {
    Total(t.escrow, UsedIn(scope)) + amount > if scope in t.scopes then t.scopes[scope].cap else cap
  }

  /** A scope not there yet is used by no operation. */
  lemma UnusedScope(seed: map<string, Wallet>, t: State, scope: ScopeId)
    requires BooksBalance(seed, t)
    ensures scope in t.scopes ==> t.scopes[scope].consumed == Total(t.escrow, UsedIn(scope)) <= t.scopes[scope].cap
    ensures scope !in t.scopes ==> Total(t.escrow, UsedIn(scope)) == 0
  {
    if scope !in t.scopes {
      forall k | k in t.escrow
        ensures Weight(UsedIn(scope), t.escrow[k]) == 0
      {
        assert OperationFits(t, t.escrow[k]);
      }
      TotalZero(t.escrow, UsedIn(scope));
    }
  }

  lemma UnusedTrace(seed: map<string, Wallet>, t: State, trace: string)
    requires BooksBalance(seed, t)
    ensures trace in t.traces ==> t.traces[trace].reservedTotal == Total(t.escrow, ReservedOn(trace))
    ensures trace !in t.traces ==> Total(t.escrow, ReservedOn(trace)) == 0
  {
    if trace !in t.traces {
      forall k | k in t.escrow
        ensures Weight(ReservedOn(trace), t.escrow[k]) == 0
      {
        assert OperationFits(t, t.escrow[k]);
      }
      TotalZero(t.escrow, ReservedOn(trace));
    }
  }

  lemma FullExactly(cfg: Settings, seed: map<string, Wallet>, t: State, r: ReserveRequest)
    requires BooksBalance(seed, t)
    ensures ScopeFull(cfg, t, r) <==> !ScopesFit(t.scopes, ReserveCaps(cfg, r), r.cost)
  {
    var caps := ReserveCaps(cfg, r);
    forall scope, cap
      ensures AsksScope(cfg, r, scope, cap) <==> scope in caps && caps[scope] == cap
    {
      CapsAsked(cfg, r, scope, cap);
    }
    forall scope
      ensures scope in t.scopes ==> t.scopes[scope].consumed == Total(t.escrow, UsedIn(scope))
      ensures scope !in t.scopes ==> Total(t.escrow, UsedIn(scope)) == 0
    {
      UnusedScope(seed, t, scope);
    }
    hide AsksScope, ReserveCaps, BooksBalance, Total;
    if scope :| scope in caps && !ScopeFits(t.scopes, scope, caps[scope], r.cost) {
      assert AsksScope(cfg, r, scope, caps[scope]);
    }
    if ScopeFull(cfg, t, r) {
      var scope, cap :| AsksScope(cfg, r, scope, cap) && Overfills(t, scope, cap, r.cost);
      assert !ScopeFits(t.scopes, scope, caps[scope], r.cost);
    }
  }

  /** The trace has no room for the amount under its cap. */
  ghost predicate TraceFull(cfg: Settings, t: State, r: ReserveRequest) {
    exists cap :: AsksCap(r.traceCap, cfg.defaultTraceCap, cap) && Total(t.escrow, ReservedOn(r.trace)) + r.cost > cap
  }

  /** The trace was opened under another cap than the one asked for. */
  predicate OtherCap(cfg: Settings, t: State, r: ReserveRequest) {
    r.trace in t.traces && !AsksCap(r.traceCap, cfg.defaultTraceCap, t.traces[r.trace].cap)
  }

  lemma TraceGuards(cfg: Settings, seed: map<string, Wallet>, t: State, r: ReserveRequest)
    requires BooksBalance(seed, t)
    ensures var trace := OpenTrace(t, r.trace, TraceCapOf(cfg, r));
      (trace.cap != TraceCapOf(cfg, r) <==> OtherCap(cfg, t, r)) &&
      (trace.cap == TraceCapOf(cfg, r) ==>
        (trace.reservedTotal + r.cost > trace.cap <==> TraceFull(cfg, t, r)))
  {
    UnusedTrace(seed, t, r.trace);
    assert AsksCap(r.traceCap, cfg.defaultTraceCap, TraceCapOf(cfg, r));
    hide BooksBalance, Total;
  }

  /** What the seed left the user after every amount held or settled covers the request, and no drift
      locked the wallet. */
  ghost predicate FundsThere(seed: map<string, Wallet>, t: State, r: ReserveRequest) {
    r.user in seed && seed[r.user].active && !Locked(t.events, r.user) &&
    seed[r.user].balance - Total(t.escrow, OwedBy(r.user)) >= r.cost
  }

  lemma FundsExactly(seed: map<string, Wallet>, t: State, r: ReserveRequest)
    requires Sound(seed, t)
    ensures FundsThere(seed, t, r) <==> WalletCovers(t, r.user, r.cost)
  {
    hide Wellformed, TracesBalance, ScopesBalance, Total, Replay, TrailsFit, NoReserveAfterLock, Locked;
  }

  predicate ApprovalMissing(cfg: Settings, r: ReserveRequest) {
    (r.requiresApproval || r.cost > cfg.approvalThreshold) && (r.approvalId.None? || r.approvalId.value == "")
  }

  lemma AnswerWhenUnused(cfg: Settings, seed: map<string, Wallet>, t: State, r: ReserveRequest, now: int,
      circuitOpen: bool)
    requires Sound(seed, t) && r.key !in t.escrow
    ensures Reserve(cfg, t, r, now, circuitOpen).1 == ReserveVerdict(cfg, seed, t, r, circuitOpen)
  {
    FullExactly(cfg, seed, t, r);
    TraceGuards(cfg, seed, t, r);
    FundsExactly(seed, t, r);
    hide Sound, ScopeFull, ScopesFit, OtherCap, TraceFull, FundsThere, WalletCovers, ReserveCaps, TraceCapOf,
         PostReserve, OpenTrace;
  }

  /** Each reason to refuse a reserve, the first that holds. */
  ghost function ReserveVerdict(cfg: Settings, seed: map<string, Wallet>, t: State, r: ReserveRequest,
      circuitOpen: bool): Outcome {
    if circuitOpen || ApprovalMissing(cfg, r) then Refused(PolicyState)
    else if ScopeFull(cfg, t, r) then Refused(TraceCapExceeded)
    else if OtherCap(cfg, t, r) then Refused(Conflict)
    else if TraceFull(cfg, t, r) then Refused(TraceCapExceeded)
    else if !FundsThere(seed, t, r) then Refused(InsufficientFunds)
    else if r.model !in cfg.models then Refused(Conflict)
    else Accepted(r.key, Reserved, r.cost)
  }

  /** The whole answer to a reserve whose key no reserve ever opened. */
  lemma ReserveAnswer(cfg: Settings, seed: map<string, Wallet>, calls: seq<Call>, t: State, r: ReserveRequest, now: int,
      circuitOpen: bool)
    requires SeedFits(seed) && Runs(cfg, Start(seed), calls, t)
    requires FirstReserve(cfg, Start(seed), calls, r.key).None?
    ensures Reserve(cfg, t, r, now, circuitOpen).1 == ReserveVerdict(cfg, seed, t, r, circuitOpen)
  {
    StartSound(seed);
    RowHistory(cfg, seed, Start(seed), calls, t, r.key);
    RunSound(cfg, seed, calls, t);
    hide Sound, Runs, FirstReserve, Reserve, ReserveVerdict;
    AnswerWhenUnused(cfg, seed, t, r, now, circuitOpen);
  }

  // ---------- which operation a settle request is about ----------

  /** A request is about the operation whose key it names, or without one about the operation whose attempt
      carries the provider request id it names; without either, about none. */
  lemma FoundBy(cfg: Settings, seed: map<string, Wallet>, calls: seq<Call>, t: State, q: SettleRequest, key: string,
      now: int)
    requires SeedFits(seed) && Runs(cfg, Start(seed), calls, t)
    ensures Resolve(t, q) == Some(key) <==>
              if q.key.Some? && q.key.value != ""
              then q.key.value == key && FirstReserve(cfg, Start(seed), calls, key).Some?
              else
                q.providerRequest.Some? && q.providerRequest.value != "" &&
                exists a | a in t.attempts ::
                  t.attempts[a].providerRequest == q.providerRequest && t.attempts[a].operation == key
    ensures Resolve(t, q).None? ==> Settle(cfg, t, q, now) == (t, Refused(NotFound))
  {
    StartSound(seed);
    RowHistory(cfg, seed, Start(seed), calls, t, key);
    RunSound(cfg, seed, calls, t);
    SoundIsWellformed(seed, t);
    ResolveExactly(t, q, key);
    hide Sound, Runs, FirstReserve, SettledCost, Describes, Wellformed, Start, SettleResolved, Resolve;
  }

  lemma ResolveExactly(t: State, q: SettleRequest, key: string)
    requires Wellformed(t)
    ensures Resolve(t, q) == Some(key) <==>
              if q.key.Some? && q.key.value != ""
              then q.key.value == key && key in t.escrow
              else
                q.providerRequest.Some? && q.providerRequest.value != "" &&
                exists a | a in t.attempts ::
                  t.attempts[a].providerRequest == q.providerRequest && t.attempts[a].operation == key
  {
    hide OperationFits;
    if a :| a in t.attempts && t.attempts[a].providerRequest == q.providerRequest && t.attempts[a].operation == key {
      assert AttemptFits(t, t.attempts[a]);
      assert CarriesId(t, a, q.providerRequest);
    }
  }

  // ---------- settling for the first time ----------

  /** Another dispatch attempt carries the provider request id the request brings for its own. */
  predicate AttemptClash(t: State, q: SettleRequest) {
    q.attemptKey.Some? && q.attemptKey.value != "" && q.providerRequest.Some? &&
    exists a | a in t.attempts :: a != q.attemptKey.value && t.attempts[a].providerRequest == q.providerRequest
  }

  /** Another operation carries the provider request id the request brings. */
  predicate RowClash(t: State, key: string, q: SettleRequest) {
    q.providerRequest.Some? && exists k | k in t.escrow :: k != key && t.escrow[k].providerRequest == q.providerRequest
  }

  /** An id kept from before never clashes; only one brought along can. */
  lemma ClashesExactly(t: State, key: string, q: SettleRequest)
    requires IdsUnique(t) && key in t.escrow
    ensures AttemptRefused(t, key, q) <==> AttemptClash(t, q)
    ensures OperationIdTaken(t.escrow, key, Coalesce(q.providerRequest, t.escrow[key].providerRequest)) <==>
            RowClash(t, key, q)
  {
  }

  /** What the wallet still has to pay for the settlement, once the reservation, where it was not refunded, is
      used up; negative when part of it comes back. */
  ghost function Shortfall(t: State, key: string, reserved: int, cost: int): int {
    cost - if HasRefundEvent(t.events, key) then 0 else reserved
  }

  ghost predicate ScopeTight(t: State, r: ReserveRequest, charge: int) {
    exists scope | scope in t.scopes ::
      ChargedTo(r, scope) && Total(t.escrow, UsedIn(scope)) + charge > t.scopes[scope].cap
  }

  /** Each reason to refuse a first settlement, the first that holds. */
  ghost function SettleVerdict(seed: map<string, Wallet>, t: State, key: string, r: ReserveRequest,
      q: SettleRequest): Outcome
    requires r.user in seed
  {
    var charge := Shortfall(t, key, r.cost, q.cost);
    if AttemptClash(t, q) then Refused(Conflict)
    else if seed[r.user].balance - Total(t.escrow, OwedBy(r.user)) < charge then Refused(IntegrityViolation)
    else if charge > 0 && ScopeTight(t, r, charge) then Refused(TraceCapExceeded)
    else if RowClash(t, key, q) then Refused(IntegrityViolation)
    else Accepted(key, Settled, q.cost)
  }

  lemma SameScopes(cfg: Settings, op: Operation, c: Call, scope: ScopeId)
    requires (c.ReserveCall? || c.RacingReserveCall?) && Describes(cfg, op, c)
    ensures ChargedTo(c.r, scope) <==> scope in ScopeCaps(op.user, op.identity, cfg.budgets)
  {
  }

  lemma TightExactly(cfg: Settings, seed: map<string, Wallet>, t: State, key: string, c: Call, charge: int)
    requires BooksBalance(seed, t) && key in t.escrow
    requires (c.ReserveCall? || c.RacingReserveCall?) && Describes(cfg, t.escrow[key], c)
    ensures !ScopesFit(t.scopes, ScopeCaps(t.escrow[key].user, t.escrow[key].identity, cfg.budgets), charge) <==>
            ScopeTight(t, c.r, charge)
    ensures charge <= 0 ==> !ScopeTight(t, c.r, charge)
  {
    var op := t.escrow[key];
    assert ScopeIds(op.user, op.identity) <= t.scopes.Keys by { assert OperationFits(t, op); }
    forall scope
      ensures ChargedTo(c.r, scope) <==> scope in ScopeCaps(op.user, op.identity, cfg.budgets)
      ensures scope in t.scopes ==> t.scopes[scope].consumed == Total(t.escrow, UsedIn(scope)) <= t.scopes[scope].cap
    {
      SameScopes(cfg, op, c, scope);
      UnusedScope(seed, t, scope);
    }
    hide Describes, ChargedTo, ScopeCaps, Total, BooksBalance, ScopeIds;
    if ScopeTight(t, c.r, charge) {
      var scope :| scope in t.scopes && ChargedTo(c.r, scope) &&
        Total(t.escrow, UsedIn(scope)) + charge > t.scopes[scope].cap;
      assert !ScopeFits(t.scopes, scope, ScopeCaps(op.user, op.identity, cfg.budgets)[scope], charge);
    }
  }

  lemma HeldByLog(seed: map<string, Wallet>, t: State, key: string)
    requires Sound(seed, t) && key in t.escrow && !t.escrow[key].status.Settled?
    ensures HasRefundEvent(t.events, key) <==> t.escrow[key].status.Expired?
  {
    RefundedByLog(t, key);
    assert OperationFits(t, t.escrow[key]);
  }

  lemma BalanceTold(seed: map<string, Wallet>, t: State, key: string)
    requires BooksBalance(seed, t) && key in t.escrow
    ensures var user := t.escrow[key].user;
      user in seed && user in t.wallets &&
      t.wallets[user].balance == seed[user].balance - Total(t.escrow, OwedBy(user)) >= 0
  {
    assert OperationFits(t, t.escrow[key]);
  }

  lemma ChargeTold(seed: map<string, Wallet>, t: State, key: string, cost: int)
    requires Sound(seed, t) && key in t.escrow && !t.escrow[key].status.Settled?
    ensures WalletDelta(t.escrow[key], cost) == -Shortfall(t, key, t.escrow[key].reserved, cost)
  {
    HeldByLog(seed, t, key);
    hide Sound, HasRefundEvent;
  }

  /** With the amount still to pay and the balance at hand, the guards in their order. */
  lemma FinalizeWhen(cfg: Settings, t: State, key: string, q: SettleRequest, charge: int)
    requires key in t.escrow && !t.escrow[key].status.Settled? && WalletDelta(t.escrow[key], q.cost) == -charge
    requires t.escrow[key].user in t.wallets && t.wallets[t.escrow[key].user].balance >= 0
    ensures var op := t.escrow[key];
      Finalize(cfg, t, key, q).1 ==
        if AttemptRefused(t, key, q) then Refused(Conflict)
        else if t.wallets[op.user].balance < charge then Refused(IntegrityViolation)
        else if charge != 0 && !ScopesFit(t.scopes, ScopeCaps(op.user, op.identity, cfg.budgets), charge)
        then Refused(TraceCapExceeded)
        else if OperationIdTaken(t.escrow, key, Coalesce(q.providerRequest, op.providerRequest))
        then Refused(IntegrityViolation)
        else Accepted(key, Settled, q.cost)
  {
    hide ScopesFit, ScopeCaps, AttemptRefused, OperationIdTaken, PostSettle, WalletDelta, Coalesce;
  }

  lemma FinalizeAnswer(cfg: Settings, seed: map<string, Wallet>, t: State, key: string, c: Call, q: SettleRequest)
    requires Sound(seed, t) && key in t.escrow && !t.escrow[key].status.Settled?
    requires (c.ReserveCall? || c.RacingReserveCall?) && Describes(cfg, t.escrow[key], c)
    ensures c.r.user in seed && Finalize(cfg, t, key, q).1 == SettleVerdict(seed, t, key, c.r, q)
  {
    assert t.escrow[key].user == c.r.user && t.escrow[key].reserved == c.r.cost by { hide Sound, Names; }
    assert BooksBalance(seed, t) && IdsUnique(t) by { hide Describes, LogFits, Replay; }
    hide Sound, Wellformed, Describes, ScopesFit, ScopeCaps, ScopeTight, AttemptClash, RowClash, AttemptRefused,
         OperationIdTaken, Finalize, HasRefundEvent, Total, Shortfall, WalletDelta, Coalesce, BooksBalance, IdsUnique;
    ChargeTold(seed, t, key, q.cost);
    BalanceTold(seed, t, key);
    ClashesExactly(t, key, q);
    TightExactly(cfg, seed, t, key, c, Shortfall(t, key, c.r.cost, q.cost));
    FinalizeWhen(cfg, t, key, q, Shortfall(t, key, c.r.cost, q.cost));
  }

  /** The whole answer to the settlement of an operation no settlement was accepted for. */
  lemma SettleAnswer(cfg: Settings, seed: map<string, Wallet>, calls: seq<Call>, t: State, q: SettleRequest, now: int,
      key: string)
    requires SeedFits(seed) && Runs(cfg, Start(seed), calls, t)
    requires q.outcome.Settled? && Resolve(t, q) == Some(key)
    requires SettledCost(cfg, Start(seed), calls, key).None?
    ensures var first := FirstReserve(cfg, Start(seed), calls, key);
      first.Some? && first.value.r.user in seed &&
      Settle(cfg, t, q, now).1 ==
        if NamesSame(q, t.escrow[key].identity) then SettleVerdict(seed, t, key, first.value.r, q)
        else Refused(PolicyState)
  {
    StartSound(seed);
    RowHistory(cfg, seed, Start(seed), calls, t, key);
    RunSound(cfg, seed, calls, t);
    var c := FirstReserve(cfg, Start(seed), calls, key).value;
    NamesFilled(cfg, t.escrow[key], c);
    NamesExactly(t.escrow[key], q);
    hide Sound, Runs, FirstReserve, SettledCost, Describes, Resolve, Start, Finalize, SettleVerdict, IdentityAgrees,
         NamesSame, Settle;
    SettleParts(cfg, t, q, now, key);
    FinalizeAnswer(cfg, seed, t, key, c, q);
  }

  lemma NamesExactly(op: Operation, q: SettleRequest)
    requires op.identity.tenant != "" && op.identity.session != "" && op.identity.run != "" && op.identity.step != ""
    ensures IdentityAgrees(op, q) <==> NamesSame(q, op.identity)
  {
  }

  lemma SettleParts(cfg: Settings, t: State, q: SettleRequest, now: int, key: string)
    requires Resolve(t, q) == Some(key)
    ensures Settle(cfg, t, q, now) ==
            if !IdentityAgrees(t.escrow[key], q) then (t, Refused(PolicyState))
            else if q.outcome.Settled? then Finalize(cfg, t, key, q)
            else RecordReport(cfg, t, key, q, now)
  {
    hide IdentityAgrees, Finalize, RecordReport, Resolve;
  }

  // ---------- drift ----------

  /** The settled amount is out of tolerance: over the reservation by more than the absolute tolerance, and by
      more than the tolerated share of the reservation unless nothing was reserved. */
  ghost predicate Drifts(cfg: Settings, reserved: nat, cost: nat) {
    cost > reserved && cost - reserved > cfg.driftAbsolute &&
    (reserved == 0 || (cost - reserved) as real / reserved as real > cfg.driftRatio as real / QUANTA_PER_UNIT as real)
  }

  lemma Ratio(a: int, b: int, c: int, d: int)
    requires b > 0 && d > 0
    ensures a as real / b as real > c as real / d as real <==> a * d > c * b
  {
    var x, y := a as real / b as real, c as real / d as real;
    assert x * b as real == a as real && y * d as real == c as real;
    var bd := b as real * d as real;
    assert (a * d) as real == x * bd && (c * b) as real == y * bd by {
      assert (a * d) as real == a as real * d as real && (c * b) as real == c as real * b as real;
    }
    assert bd > 0.0;
    assert (x - y) * bd == (a * d - c * b) as real;
  }

  lemma DriftsExactly(cfg: Settings, op: Operation, reserved: nat, cost: nat)
    requires op.reserved == reserved
    ensures LocksWallet(cfg, op, cost) <==> Drifts(cfg, reserved, cost)
  {
    if reserved > 0 { Ratio(cost - reserved, reserved, cfg.driftRatio, QUANTA_PER_UNIT); }
  }

  /** The wallet is locked, and the last event says so, exactly when the amount is out of tolerance; where it only
      exceeds the reservation, the last event says that it was tolerated. */
  ghost predicate DriftTold(cfg: Settings, t: State, u: State, key: string, r: ReserveRequest, cost: nat) {
    |u.events| > |t.events| && r.user in t.wallets && r.user in u.wallets &&
    u.wallets[r.user].active == (t.wallets[r.user].active && !Drifts(cfg, r.cost, cost)) &&
    var last := u.events[|u.events| - 1];
    last.key == key && last.user == r.user &&
    (last.kind.DriftEnforced? <==> Drifts(cfg, r.cost, cost)) &&
    (last.kind.DriftTolerated? <==> cost > r.cost && !Drifts(cfg, r.cost, cost))
  }

  lemma PostedDrift(cfg: Settings, t: State, key: string, r: ReserveRequest, q: SettleRequest)
    requires key in t.escrow && t.escrow[key].user == r.user && t.escrow[key].reserved == r.cost && r.user in t.wallets
    ensures DriftTold(cfg, t, PostSettle(cfg, t, key, q), key, r, q.cost)
  {
    DriftsExactly(cfg, t.escrow[key], r.cost, q.cost);
    hide Drifts, LocksWallet, AttemptsAfter, ChargeScopes, SettledTrace, Coalesce;
  }

  lemma AcceptedPosts(cfg: Settings, s: State, q: SettleRequest, now: int, key: string)
    requires SettlementAccepted(cfg, s, SettleCall(q, now), key) && !s.escrow[key].status.Settled?
    ensures Settle(cfg, s, q, now).0 == PostSettle(cfg, s, key, q)
  {
    AnswerNamesKey(cfg, s, q, now);
    hide Resolve, IdentityAgrees, SettleRefusal, PostSettle, RecordReport;
  }

  /** A first settlement that is accepted locks the user's wallet exactly when its amount is out of tolerance. */
  lemma DriftDecides(cfg: Settings, seed: map<string, Wallet>, calls: seq<Call>, t: State, q: SettleRequest, now: int,
      key: string)
    requires SeedFits(seed) && Runs(cfg, Start(seed), calls, t)
    requires SettledCost(cfg, Start(seed), calls, key).None? && SettlementAccepted(cfg, t, SettleCall(q, now), key)
    ensures var first := FirstReserve(cfg, Start(seed), calls, key);
      first.Some? && DriftTold(cfg, t, Settle(cfg, t, q, now).0, key, first.value.r, q.cost)
  {
    AnswerNamesKey(cfg, t, q, now);
    StartSound(seed);
    RowHistory(cfg, seed, Start(seed), calls, t, key);
    RunSound(cfg, seed, calls, t);
    hide Runs, FirstReserve, SettledCost, Start, Names, PostSettle, DriftTold, Sound, Resolve, Settle;
    BalanceTold(seed, t, key) by { assert BooksBalance(seed, t) by { hide BooksBalance, LogFits, Replay; } }
    AcceptedPosts(cfg, t, q, now, key);
    PostedDrift(cfg, t, key, FirstReserve(cfg, Start(seed), calls, key).value.r, q);
  }
}
