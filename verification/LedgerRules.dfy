/** What each ledger transaction does to the database, stated all at once: the first guard that
    refuses, or the one posting that lands. The step-by-step code is in `LedgerSession`. */
module LedgerRules {
  import opened Options
  import opened LedgerTypes

  // ---------- budget scopes ----------

  function OpenScope(scopes: map<ScopeId, Scope>, id: ScopeId, cap: int): Scope {
    if id in scopes then scopes[id] else Scope(cap, 0)
  }

  predicate ScopeFits(scopes: map<ScopeId, Scope>, id: ScopeId, cap: int, delta: int) {
    OpenScope(scopes, id, cap).consumed + delta <= OpenScope(scopes, id, cap).cap
  }

  predicate ScopesFit(scopes: map<ScopeId, Scope>, caps: map<ScopeId, int>, delta: int) {
    forall id | id in caps :: ScopeFits(scopes, id, caps[id], delta)
  }

  function ChargedScope(scopes: map<ScopeId, Scope>, id: ScopeId, cap: int, delta: int): Scope {
    var scope := OpenScope(scopes, id, cap);
    scope.(consumed := scope.consumed + delta)
  }

  function ChargeScopes(scopes: map<ScopeId, Scope>, caps: map<ScopeId, int>, delta: int): map<ScopeId, Scope> {
    scopes + (map id | id in caps :: ChargedScope(scopes, id, caps[id], delta))
  }

  function ScopeIds(user: string, identity: Identity): set<ScopeId> {
    {RunScope(identity.run), SessionScope(identity.session), UserScope(user), TenantScope(identity.tenant)}
  }

  function ScopeCaps(user: string, identity: Identity, budgets: Budgets): (caps: map<ScopeId, int>)
    ensures caps.Keys == ScopeIds(user, identity)
  {
    map[RunScope(identity.run) := budgets.run,
        SessionScope(identity.session) := budgets.session,
        UserScope(user) := budgets.user,
        TenantScope(identity.tenant) := budgets.tenant]
  }

  // ---------- reserve ----------

  function FingerprintOf(r: ReserveRequest): Fingerprint {
    Fingerprint(r.cost, r.model, r.traceCap, r.trace, r.user)
  }

  function IdentityOf(r: ReserveRequest): Identity {
    Identity(
      TextOr(r.tenant, "default-tenant"),
      TextOr(r.session, "default-session"),
      TextOr(r.run, "default-agent-run"),
      TextOr(r.step, "default-workflow-step"))
  }

  function RequestBudgets(cfg: Settings, r: ReserveRequest): Budgets {
    Budgets(
      AmountOr(r.runBudget, cfg.budgets.run),
      AmountOr(r.sessionBudget, cfg.budgets.session),
      AmountOr(r.userBudget, cfg.budgets.user),
      AmountOr(r.tenantBudget, cfg.budgets.tenant))
  }

  function ReserveCaps(cfg: Settings, r: ReserveRequest): map<ScopeId, int> {
    ScopeCaps(r.user, IdentityOf(r), RequestBudgets(cfg, r))
  }

  function TraceCapOf(cfg: Settings, r: ReserveRequest): int {
    AmountOr(r.traceCap, cfg.defaultTraceCap)
  }

  function OpenTrace(s: State, trace: string, cap: int): Trace {
    if trace in s.traces then s.traces[trace] else Trace(cap, 0, 0)
  }

  predicate NeedsApproval(cfg: Settings, r: ReserveRequest) {
    (r.requiresApproval || r.cost > cfg.approvalThreshold) && !Given(r.approvalId)
  }

  predicate WalletCovers(s: State, user: string, amount: int) {
    user in s.wallets && s.wallets[user].active && s.wallets[user].balance >= amount
  }

  /** The first guard that refuses a reserve whose key lookup found nothing. */
  function ReserveRefusal(cfg: Settings, s: State, r: ReserveRequest, circuitOpen: bool): Option<Error> {
    var trace := OpenTrace(s, r.trace, TraceCapOf(cfg, r));
    if circuitOpen || NeedsApproval(cfg, r) then Some(PolicyState)
    else if !ScopesFit(s.scopes, ReserveCaps(cfg, r), r.cost) then Some(TraceCapExceeded)
    else if trace.cap != TraceCapOf(cfg, r) then Some(Conflict)
    else if trace.reservedTotal + r.cost > trace.cap then Some(TraceCapExceeded)
    else if !WalletCovers(s, r.user, r.cost) then Some(InsufficientFunds)
    else if r.key in s.escrow || r.model !in cfg.models then Some(Conflict)
    else None
  }

  function NewOperation(cfg: Settings, r: ReserveRequest, now: int): Operation {
    Operation(r.user, r.trace, r.model, IdentityOf(r), FingerprintOf(r), r.cost, 0, Reserved, None,
              now + cfg.reserveTtl, None, None)
  }

  function PostReserve(cfg: Settings, s: State, r: ReserveRequest, now: int): State
    requires r.user in s.wallets
  {
    var wallet, trace := s.wallets[r.user], OpenTrace(s, r.trace, TraceCapOf(cfg, r));
    s.(wallets := s.wallets[r.user := wallet.(balance := wallet.balance - r.cost)],
       traces := s.traces[r.trace := trace.(reservedTotal := trace.reservedTotal + r.cost)],
       scopes := ChargeScopes(s.scopes, ReserveCaps(cfg, r), r.cost),
       escrow := s.escrow[r.key := NewOperation(cfg, r, now)],
       events := s.events + [Event(r.key, r.user, ReserveCreated(r.trace, TraceCapOf(cfg, r)), 0 - r.cost)])
  }

  // ---------- dispatch attempts ----------

  /** A provider request id already sits on a different dispatch attempt. */
  predicate AttemptIdTaken(attempts: map<string, Attempt>, attemptKey: string, id: Option<string>) {
    id.Some? && exists k | k in attempts :: k != attemptKey && attempts[k].providerRequest == id
  }

  /** A provider request id already sits on a different operation. */
  predicate OperationIdTaken(escrow: map<string, Operation>, key: string, id: Option<string>) {
    id.Some? && exists k | k in escrow :: k != key && escrow[k].providerRequest == id
  }

  /** The upsert keeps the operation an existing attempt row was created for. */
  function UpsertedAttempt(s: State, attemptKey: string, key: string, q: SettleRequest): Attempt {
    if attemptKey in s.attempts then
      s.attempts[attemptKey].(
        providerRequest := Coalesce(q.providerRequest, s.attempts[attemptKey].providerRequest),
        status := q.outcome)
    else Attempt(key, q.providerRequest, q.outcome)
  }

  predicate AttemptRefused(s: State, key: string, q: SettleRequest) {
    Given(q.attemptKey) &&
    AttemptIdTaken(s.attempts, q.attemptKey.value, UpsertedAttempt(s, q.attemptKey.value, key, q).providerRequest)
  }

  function AttemptsAfter(s: State, key: string, q: SettleRequest): map<string, Attempt> {
    if Given(q.attemptKey)
    then s.attempts[q.attemptKey.value := UpsertedAttempt(s, q.attemptKey.value, key, q)]
    else s.attempts
  }

  predicate OpenAttempts(s: State, key: string) {
    exists k | k in s.attempts ::
      s.attempts[k].operation == key && (s.attempts[k].status.InFlight? || s.attempts[k].status.ProviderTimeout?)
  }

  function LoopKey(op: Operation, signature: string): string {
    op.identity.run + ":" + op.identity.step + ":" + signature
  }

  predicate LoopTripped(cfg: Settings, s: State, op: Operation, q: SettleRequest) {
    Given(q.loopSignature) &&
    var loop := LoopKey(op, q.loopSignature.value);
    loop in s.loops && s.loops[loop] >= cfg.maxLoopRepeats
  }

  function LoopsAfter(s: State, op: Operation, q: SettleRequest): map<string, nat> {
    if Given(q.loopSignature) then
      var loop := LoopKey(op, q.loopSignature.value);
      s.loops[loop := if loop in s.loops then s.loops[loop] + 1 else 1]
    else s.loops
  }

  /** The first guard that refuses a dispatch or timeout report. */
  function ReportRefusal(cfg: Settings, s: State, key: string, q: SettleRequest): Option<Error>
    requires key in s.escrow
  {
    var op := s.escrow[key];
    if op.status.Settled? || op.status.Expired? || !Given(q.attemptKey) || LoopTripped(cfg, s, op, q)
    then Some(PolicyState)
    else if AttemptRefused(s, key, q) then Some(Conflict)
    else if OperationIdTaken(s.escrow, key, Coalesce(q.providerRequest, op.providerRequest))
      then Some(IntegrityViolation)
    else None
  }

  function PostReport(s: State, key: string, q: SettleRequest, now: int): State
    requires key in s.escrow && !q.outcome.Settled?
  {
    var op := s.escrow[key];
    s.(attempts := AttemptsAfter(s, key, q),
       loops := LoopsAfter(s, op, q),
       escrow := s.escrow[key := op.(
         status := q.outcome,
         dispatchStartedAt := Coalesce(op.dispatchStartedAt, Some(now)),
         providerRequest := Coalesce(q.providerRequest, op.providerRequest))],
       events := s.events + [Event(key, op.user, if q.outcome.InFlight? then DispatchStarted else TimeoutRecorded, 0)])
  }

  // ---------- settlement ----------

  function StillHeld(op: Operation): int {
    if op.status.Expired? then 0 else op.reserved
  }

  /** What the wallet gets back (or, when negative, still owes) at settlement. */
  function WalletDelta(op: Operation, actual: int): int {
    StillHeld(op) - actual
  }

  predicate DriftExcessive(cfg: Settings, drift: int, reserved: int) {
    drift > cfg.driftAbsolute && (reserved <= 0 || drift * QUANTA_PER_UNIT > cfg.driftRatio * reserved)
  }

  predicate LocksWallet(cfg: Settings, op: Operation, actual: int) {
    actual > op.reserved && DriftExcessive(cfg, actual - op.reserved, op.reserved)
  }

  /** The schema's check on balances refuses the wallet update of a settlement. */
  predicate Overdraws(s: State, op: Operation, delta: int) {
    op.user in s.wallets && s.wallets[op.user].balance + delta < 0
  }

  /** The first guard that refuses the final settlement of an operation not yet settled. The schema refuses
      a negative balance when the wallet is updated; the code's own probe comes last. */
  function SettleRefusal(cfg: Settings, s: State, key: string, q: SettleRequest): Option<Error>
    requires key in s.escrow
  {
    var op := s.escrow[key];
    var delta := WalletDelta(op, q.cost);
    if AttemptRefused(s, key, q) then Some(Conflict)
    else if delta != 0 && Overdraws(s, op, delta) then Some(IntegrityViolation)
    else if delta != 0 && !ScopesFit(s.scopes, ScopeCaps(op.user, op.identity, cfg.budgets), -delta)
      then Some(TraceCapExceeded)
    else if OperationIdTaken(s.escrow, key, Coalesce(q.providerRequest, op.providerRequest))
      then Some(IntegrityViolation)
    else if Overdraws(s, op, delta) then Some(NegativeBalance)
    else None
  }

  function SettledWallet(cfg: Settings, wallet: Wallet, op: Operation, actual: int): Wallet {
    Wallet(wallet.balance + WalletDelta(op, actual), wallet.active && !LocksWallet(cfg, op, actual))
  }

  function SettledTrace(trace: Trace, op: Operation, actual: int): Trace {
    Trace(trace.cap, trace.reservedTotal - StillHeld(op), trace.settledTotal + actual)
  }

  function AdjustmentEvents(key: string, op: Operation, actual: int): seq<Event> {
    var delta := WalletDelta(op, actual);
    if delta > 0 then [Event(key, op.user, SettlementRefund, delta)]
    else if delta < 0 then [Event(key, op.user, CorrectionDebit, delta)]
    else []
  }

  function MarkerEvent(key: string, op: Operation): Event {
    Event(key, op.user, if op.status.Expired? || op.status.Stranded? then LateSettle else SettledFinal, 0)
  }

  function DriftEvents(cfg: Settings, key: string, op: Operation, actual: int): seq<Event> {
    if LocksWallet(cfg, op, actual) then [Event(key, op.user, DriftEnforced, 0)]
    else if actual > op.reserved then [Event(key, op.user, DriftTolerated, 0)]
    else []
  }

  /** The closing block of events: at most one adjustment, one marker, at most one drift event. */
  function ClosingEvents(cfg: Settings, key: string, op: Operation, actual: int): seq<Event> {
    AdjustmentEvents(key, op, actual) + [MarkerEvent(key, op)] + DriftEvents(cfg, key, op, actual)
  }

  function PostSettle(cfg: Settings, s: State, key: string, q: SettleRequest): State
    requires key in s.escrow
  {
    var op := s.escrow[key];
    var delta := WalletDelta(op, q.cost);
    s.(wallets := if op.user in s.wallets
                  then s.wallets[op.user := SettledWallet(cfg, s.wallets[op.user], op, q.cost)]
                  else s.wallets,
       traces := if op.trace in s.traces
                 then s.traces[op.trace := SettledTrace(s.traces[op.trace], op, q.cost)]
                 else s.traces,
       scopes := if delta != 0
                 then ChargeScopes(s.scopes, ScopeCaps(op.user, op.identity, cfg.budgets), -delta)
                 else s.scopes,
       attempts := AttemptsAfter(s, key, q),
       escrow := s.escrow[key := op.(
         status := Settled,
         actual := q.cost,
         providerRequest := Coalesce(q.providerRequest, op.providerRequest))],
       events := s.events + ClosingEvents(cfg, key, op, q.cost))
  }

  /** A settlement of an already settled operation repeats the recorded one. */
  predicate MatchesSettlement(op: Operation, q: SettleRequest) {
    (!Given(q.providerRequest) || q.providerRequest == op.providerRequest) && op.actual == q.cost
  }

  predicate FieldAgrees(incoming: Option<string>, stored: string) {
    Given(incoming) && stored != "" ==> incoming.value == stored
  }

  predicate IdentityAgrees(op: Operation, q: SettleRequest) {
    FieldAgrees(q.tenant, op.identity.tenant) && FieldAgrees(q.session, op.identity.session) &&
    FieldAgrees(q.run, op.identity.run) && FieldAgrees(q.step, op.identity.step)
  }

  /** The operation a settle request is about, by key or through a dispatch attempt. */
  ghost function Resolve(s: State, q: SettleRequest): (key: Option<string>)
    ensures key.Some? ==> key.value in s.escrow
  {
    if Given(q.key) then
      if q.key.value in s.escrow then q.key else None
    else if Given(q.providerRequest) && exists a :: CarriesId(s, a, q.providerRequest) then
      var a :| CarriesId(s, a, q.providerRequest);
      Some(s.attempts[a].operation)
    else None
  }

  predicate CarriesId(s: State, a: string, id: Option<string>) {
    a in s.attempts && s.attempts[a].providerRequest == id && s.attempts[a].operation in s.escrow
  }

  // ---------- expiry ----------

  predicate Strands(s: State, key: string)
    requires key in s.escrow
  {
    s.escrow[key].status.InFlight? || s.escrow[key].status.ProviderTimeout? || OpenAttempts(s, key)
  }

  function PostStrand(s: State, key: string, now: int): State
    requires key in s.escrow
  {
    var op := s.escrow[key];
    s.(escrow := s.escrow[key := op.(status := Stranded, expiredAt := Some(now))],
       events := s.events + [Event(key, op.user, StrandedHold, 0)])
  }

  function PostRefund(s: State, key: string, now: int): State
    requires key in s.escrow
  {
    var op := s.escrow[key];
    s.(wallets := if op.user in s.wallets
                  then s.wallets[op.user := s.wallets[op.user].(balance := s.wallets[op.user].balance + op.reserved)]
                  else s.wallets,
       traces := if op.trace in s.traces
                 then s.traces[op.trace :=
                        s.traces[op.trace].(reservedTotal := s.traces[op.trace].reservedTotal - op.reserved)]
                 else s.traces,
       escrow := s.escrow[key := op.(status := Expired, expiredAt := Some(now))],
       events := s.events + [Event(key, op.user, ExpiredSweep, op.reserved)])
  }

  /** Expiry of one operation: strand an ambiguous one, refund one never dispatched. */
  function Expire(s: State, key: string, now: int): State
    requires key in s.escrow
  {
    if Strands(s, key) then PostStrand(s, key, now) else PostRefund(s, key, now)
  }

  predicate Eligible(s: State, key: string, now: int) {
    key in s.escrow && Sweepable(s.escrow[key].status) && s.escrow[key].expiresAt <= now
  }

  // ---------- whole transactions ----------

  /** A reserve transaction after its key lookup came back empty (possibly on an older snapshot). */
  function ReserveUnseen(cfg: Settings, s: State, r: ReserveRequest, now: int, circuitOpen: bool): (State, Outcome) {
    match ReserveRefusal(cfg, s, r, circuitOpen)
    case Some(error) => (s, Refused(error))
    case None => (PostReserve(cfg, s, r, now), Accepted(r.key, Reserved, r.cost))
  }

  function ReplayedReserve(op: Operation, r: ReserveRequest): Outcome {
    if op.fingerprint != FingerprintOf(r) then Refused(Conflict)
    else Accepted(r.key, op.status, if !op.status.Settled? && op.actual == 0 then op.reserved else op.actual)
  }

  function Reserve(cfg: Settings, s: State, r: ReserveRequest, now: int, circuitOpen: bool): (State, Outcome) {
    if r.key in s.escrow then (s, ReplayedReserve(s.escrow[r.key], r))
    else ReserveUnseen(cfg, s, r, now, circuitOpen)
  }

  function Finalize(cfg: Settings, s: State, key: string, q: SettleRequest): (State, Outcome)
    requires key in s.escrow
  {
    if s.escrow[key].status.Settled? then
      (s, if MatchesSettlement(s.escrow[key], q) then Accepted(key, Settled, q.cost) else Refused(Conflict))
    else
      match SettleRefusal(cfg, s, key, q)
      case Some(error) => (s, Refused(error))
      case None => (PostSettle(cfg, s, key, q), Accepted(key, Settled, q.cost))
  }

  function RecordReport(cfg: Settings, s: State, key: string, q: SettleRequest, now: int): (State, Outcome)
    requires key in s.escrow && !q.outcome.Settled?
  {
    match ReportRefusal(cfg, s, key, q)
    case Some(error) => (s, Refused(error))
    case None => (PostReport(s, key, q, now), Accepted(key, q.outcome, s.escrow[key].actual))
  }

  function SettleResolved(cfg: Settings, s: State, key: string, q: SettleRequest, now: int): (State, Outcome)
    requires key in s.escrow
  {
    if !IdentityAgrees(s.escrow[key], q) then (s, Refused(PolicyState))
    else if q.outcome.Settled? then Finalize(cfg, s, key, q)
    else RecordReport(cfg, s, key, q, now)
  }

  ghost function Settle(cfg: Settings, s: State, q: SettleRequest, now: int): (State, Outcome) {
    match Resolve(s, q)
    case None => (s, Refused(NotFound))
    case Some(key) => SettleResolved(cfg, s, key, q, now)
  }

  /** Operations selected by a sweep: no key twice, each one eligible. */
  predicate SweepOf(s: State, keys: seq<string>, now: int) {
    (forall i, j | 0 <= i < j < |keys| :: keys[i] != keys[j]) &&
    (forall i | 0 <= i < |keys| :: Eligible(s, keys[i], now))
  }

  /** A sweep expires its selection one operation after the other. */
  function Sweep(s: State, keys: seq<string>, now: int): State
    decreases |keys|
  {
    if keys == [] || keys[0] !in s.escrow then s else Sweep(Expire(s, keys[0], now), keys[1..], now)
  }
}
