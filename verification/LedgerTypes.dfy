/** Rows, requests and settings of the ModelGovernor reserve/settle/expire ledger.
    Money is an int counting quanta of 10^-12; times are ints on the server's clock. */
module LedgerTypes {
  import opened Options

  function TextOr(text: Option<string>, default: string): string {
    if Given(text) then text.value else default
  }

  /** Python's `amount or default`: a zero amount counts as missing. */
  function AmountOr(amount: Option<nat>, default: int): int {
    if amount.Some? && amount.value != 0 then amount.value else default
  }

  datatype Status = Reserved | InFlight | ProviderTimeout | Stranded | Expired | Settled

  /** The wallet still owes this operation its full reservation. */
  predicate Held(status: Status) {
    !status.Expired? && !status.Settled?
  }

  /** Selected by the reconciler's sweep once the expiry time has passed. */
  predicate Sweepable(status: Status) {
    status.Reserved? || status.InFlight? || status.ProviderTimeout?
  }

  datatype Wallet = Wallet(balance: int, active: bool)

  datatype Trace = Trace(cap: int, reservedTotal: int, settledTotal: int)

  datatype ScopeId =
    | RunScope(key: string)
    | SessionScope(key: string)
    | UserScope(key: string)
    | TenantScope(key: string)

  datatype Scope = Scope(cap: int, consumed: int)

  datatype Identity = Identity(tenant: string, session: string, run: string, step: string)

  /** The request digest, taken as ideal: equal digests mean equal fields. */
  datatype Fingerprint = Fingerprint(cost: nat, model: string, traceCap: Option<nat>, trace: string, user: string)

  datatype Operation = Operation(
    user: string,
    trace: string,
    model: string,
    identity: Identity,
    fingerprint: Fingerprint,
    reserved: int,
    actual: int,
    status: Status,
    providerRequest: Option<string>,
    expiresAt: int,
    dispatchStartedAt: Option<int>,
    expiredAt: Option<int>)

  datatype Attempt = Attempt(operation: string, providerRequest: Option<string>, status: Status)

  datatype EventKind =
    | ReserveCreated(trace: string, cap: int)
    | DispatchStarted
    | TimeoutRecorded
    | StrandedHold
    | ExpiredSweep
    | SettlementRefund
    | CorrectionDebit
    | SettledFinal
    | LateSettle
    | DriftEnforced
    | DriftTolerated

  datatype Event = Event(key: string, user: string, kind: EventKind, delta: int)

  datatype State = State(
    wallets: map<string, Wallet>,
    traces: map<string, Trace>,
    scopes: map<ScopeId, Scope>,
    escrow: map<string, Operation>,
    attempts: map<string, Attempt>,
    loops: map<string, nat>,
    events: seq<Event>)

  datatype Budgets = Budgets(run: int, session: int, user: int, tenant: int)

  /** `models` stands for the registered models the escrow table refers to. */
  datatype Settings = Settings(
    reserveTtl: int,
    defaultTraceCap: int,
    driftAbsolute: int,
    driftRatio: int,
    budgets: Budgets,
    approvalThreshold: int,
    maxLoopRepeats: int,
    models: set<string>)

  datatype ReserveRequest = ReserveRequest(
    key: string,
    user: string,
    trace: string,
    model: string,
    cost: nat,
    traceCap: Option<nat>,
    tenant: Option<string>,
    session: Option<string>,
    run: Option<string>,
    step: Option<string>,
    runBudget: Option<nat>,
    sessionBudget: Option<nat>,
    userBudget: Option<nat>,
    tenantBudget: Option<nat>,
    requiresApproval: bool,
    approvalId: Option<string>)

  /** What a settle request may report about an operation. */
  type Report = st: Status | st.InFlight? || st.ProviderTimeout? || st.Settled? witness Settled

  datatype SettleRequest = SettleRequest(
    key: Option<string>,
    outcome: Report,
    cost: nat,
    attemptKey: Option<string>,
    providerRequest: Option<string>,
    tenant: Option<string>,
    session: Option<string>,
    run: Option<string>,
    step: Option<string>,
    loopSignature: Option<string>)

  datatype Error =
    | Conflict
    | InsufficientFunds
    | NotFound
    | PolicyState
    | TraceCapExceeded
    | NegativeBalance
    | IntegrityViolation

  datatype Outcome = Accepted(key: string, status: Status, amount: int) | Refused(error: Error)

  const QUANTA_PER_UNIT := 1_000_000_000_000
}
