/** What the tables owe each other: money conservation, trace totals, scope consumption. */
module LedgerBooks {
  import opened Options
  import opened LedgerTypes
  import opened LedgerRules
  import opened LedgerRuns
  import opened FiniteSums

  // ---------- row by row ----------

  /** A settled operation had been refunded by the sweep exactly when it expired without a dispatch. */
  predicate Refunded(op: Operation) {
    op.expiredAt.Some? && op.dispatchStartedAt.None?
  }

  predicate StampsFit(op: Operation) {
    match op.status
    case Reserved => op.dispatchStartedAt.None? && op.expiredAt.None?
    case InFlight => op.dispatchStartedAt.Some?
    case ProviderTimeout => op.dispatchStartedAt.Some?
    case Stranded => op.dispatchStartedAt.Some? && op.expiredAt.Some?
    case Expired => Refunded(op)
    case Settled => true
  }

  ghost predicate OperationFits(s: State, op: Operation) {
    op.user in s.wallets && op.trace in s.traces && ScopeIds(op.user, op.identity) <= s.scopes.Keys &&
    op.reserved >= 0 && op.actual >= 0 && (!op.status.Settled? ==> op.actual == 0) && StampsFit(op)
  }

  /** Only operations that were dispatched, or settled, carry attempts. */
  ghost predicate AttemptFits(s: State, a: Attempt) {
    a.operation in s.escrow && !s.escrow[a.operation].status.Reserved? && !s.escrow[a.operation].status.Expired?
  }

  ghost predicate IdsUnique(s: State) {
    (forall k, l | k in s.escrow && l in s.escrow && k != l && s.escrow[k].providerRequest.Some? ::
      s.escrow[k].providerRequest != s.escrow[l].providerRequest) &&
    (forall k, l | k in s.attempts && l in s.attempts && k != l && s.attempts[k].providerRequest.Some? ::
      s.attempts[k].providerRequest != s.attempts[l].providerRequest)
  }

  ghost predicate Wellformed(s: State) {
    (forall k | k in s.escrow :: OperationFits(s, s.escrow[k])) &&
    (forall a | a in s.attempts :: AttemptFits(s, s.attempts[a])) &&
    IdsUnique(s)
  }

  function KeyOf(p: Posting): string {
    if p.ReservePosting? then p.r.key else p.key
  }

  /** What no posting ever takes away, and the one escrow row it writes. */
  ghost predicate OneRowWritten(s: State, t: State, key: string) {
    key in t.escrow && t.escrow == s.escrow[key := t.escrow[key]] &&
    t.wallets.Keys == s.wallets.Keys && s.traces.Keys <= t.traces.Keys && s.scopes.Keys <= t.scopes.Keys
  }

  /** The row a posting wrote fits the tables it left. */
  ghost predicate Wrote(s: State, t: State, key: string) {
    OneRowWritten(s, t, key) && OperationFits(t, t.escrow[key])
  }

  lemma ReserveWrites(cfg: Settings, s: State, r: ReserveRequest, now: int)
    requires r.user in s.wallets
    ensures Wrote(s, PostReserve(cfg, s, r, now), r.key)
  {
    hide ChargedScope, TraceCapOf;
  }

  lemma ReportWrites(s: State, key: string, q: SettleRequest, now: int)
    requires key in s.escrow && OperationFits(s, s.escrow[key]) && !q.outcome.Settled?
    requires !s.escrow[key].status.Settled?
    ensures Wrote(s, PostReport(s, key, q, now), key)
  {
    hide AttemptsAfter, LoopsAfter;
  }

  lemma SettleWrites(cfg: Settings, s: State, key: string, q: SettleRequest)
    requires key in s.escrow && OperationFits(s, s.escrow[key])
    ensures Wrote(s, PostSettle(cfg, s, key, q), key)
  {
    hide AttemptsAfter, SettledTrace, SettledWallet, ClosingEvents, ChargedScope, ScopeCaps;
  }

  lemma ExpireWrites(s: State, key: string, now: int)
    requires Wellformed(s) && Eligible(s, key, now)
    ensures Strands(s, key) ==> Wrote(s, PostStrand(s, key, now), key)
    ensures !Strands(s, key) ==> Wrote(s, PostRefund(s, key, now), key)
  {
    assert OperationFits(s, s.escrow[key]);
    hide IdsUnique, AttemptFits;
  }

  lemma PostWritesOneRow(cfg: Settings, s: State, p: Posting)
    requires Wellformed(s) && Fires(cfg, s, p)
    ensures OneRowWritten(s, Post(cfg, s, p), KeyOf(p))
    ensures OperationFits(Post(cfg, s, p), Post(cfg, s, p).escrow[KeyOf(p)])
  {
    if KeyOf(p) in s.escrow { assert OperationFits(s, s.escrow[KeyOf(p)]); }
    match p
    case ReservePosting(r, now) => ReserveWrites(cfg, s, r, now);
    case ReportPosting(key, q, now) => ReportWrites(s, key, q, now);
    case SettlePosting(key, q) => SettleWrites(cfg, s, key, q);
    case StrandPosting(key, now) => ExpireWrites(s, key, now);
    case RefundPosting(key, now) => ExpireWrites(s, key, now);
    hide OperationFits, Wellformed, PostReserve, PostReport, PostSettle, PostStrand, PostRefund, Strands;
  }

  lemma OthersStillFit(s: State, t: State, key: string)
    requires Wellformed(s) && OneRowWritten(s, t, key) && OperationFits(t, t.escrow[key])
    ensures forall k | k in t.escrow :: OperationFits(t, t.escrow[k])
  {
    forall k | k in t.escrow
      ensures OperationFits(t, t.escrow[k])
    {
      if k != key { assert OperationFits(s, s.escrow[k]); }
    }
  }

  lemma AttemptsStillFit(cfg: Settings, s: State, p: Posting)
    requires Wellformed(s) && Fires(cfg, s, p)
    ensures forall a | a in Post(cfg, s, p).attempts :: AttemptFits(Post(cfg, s, p), Post(cfg, s, p).attempts[a])
  {
    hide OperationFits, IdsUnique, WalletCovers, ScopesFit, ChargeScopes, ClosingEvents, AttemptIdTaken,
         OperationIdTaken, LoopsAfter, LoopTripped, SettledTrace, SettledWallet;
    var t := Post(cfg, s, p);
    forall a | a in t.attempts
      ensures AttemptFits(t, t.attempts[a])
    {
      if a in s.attempts { assert AttemptFits(s, s.attempts[a]); }
    }
  }

  /** One row and at most one attempt are written, with provider request ids no other carries. */
  ghost predicate WritesFreeIds(s: State, t: State, key: string, attemptKey: Option<string>) {
    key in t.escrow && t.escrow == s.escrow[key := t.escrow[key]] &&
    !OperationIdTaken(s.escrow, key, t.escrow[key].providerRequest) &&
    if Given(attemptKey)
    then
      var a := attemptKey.value;
      a in t.attempts && t.attempts == s.attempts[a := t.attempts[a]] &&
      !AttemptIdTaken(s.attempts, a, t.attempts[a].providerRequest)
    else t.attempts == s.attempts
  }

  lemma FreeIdsUnique(s: State, t: State, key: string, attemptKey: Option<string>)
    requires IdsUnique(s) && WritesFreeIds(s, t, key, attemptKey)
    ensures IdsUnique(t)
  {
  }

  lemma PostWritesFreeIds(cfg: Settings, s: State, p: Posting)
    requires IdsUnique(s) && Fires(cfg, s, p)
    ensures WritesFreeIds(s, Post(cfg, s, p), KeyOf(p),
                          if p.ReportPosting? || p.SettlePosting? then p.q.attemptKey else None)
  {
    assert KeyOf(p) in s.escrow ==> !OperationIdTaken(s.escrow, KeyOf(p), s.escrow[KeyOf(p)].providerRequest);
    hide IdsUnique, NeedsApproval, WalletCovers, ScopesFit, ChargeScopes, ReserveCaps, TraceCapOf, OpenTrace,
         OpenAttempts, LoopTripped, LoopsAfter, ClosingEvents, SettledWallet, SettledTrace, Overdraws, WalletDelta,
         OperationIdTaken, AttemptIdTaken, Given;
    match p
    case ReservePosting(r, _) => assert !OperationIdTaken(s.escrow, r.key, None) by { NoIdFree(s.escrow, r.key); }
    case ReportPosting(_, _, _) =>
    case SettlePosting(_, _) =>
    case StrandPosting(_, _) =>
    case RefundPosting(_, _) =>
  }

  lemma NoIdFree(escrow: map<string, Operation>, key: string)
    ensures !OperationIdTaken(escrow, key, None)
  {
  }

  /** Both unique indexes on provider request ids survive every posting. */
  lemma IdsStayUnique(cfg: Settings, s: State, p: Posting)
    requires Wellformed(s) && Fires(cfg, s, p)
    ensures IdsUnique(Post(cfg, s, p))
  {
    hide IdsUnique, OperationFits, AttemptFits, Fires, Post, WritesFreeIds;
    PostWritesFreeIds(cfg, s, p);
    FreeIdsUnique(s, Post(cfg, s, p), KeyOf(p),
                  if p.ReportPosting? || p.SettlePosting? then p.q.attemptKey else None);
  }

  lemma PostWellformed(cfg: Settings, s: State, p: Posting)
    requires Wellformed(s) && Fires(cfg, s, p)
    ensures Wellformed(Post(cfg, s, p))
  {
    PostWritesOneRow(cfg, s, p);
    AttemptsStillFit(cfg, s, p);
    IdsStayUnique(cfg, s, p);
    hide Fires, Post;
    OthersStillFit(s, Post(cfg, s, p), KeyOf(p));
  }

  // ---------- column sums ----------

  datatype Measure =
    | OwedBy(user: string)
    | ReservedOn(trace: string)
    | SettledOn(trace: string)
    | UsedIn(scope: ScopeId)

  function HeldAmount(op: Operation): int {
    if Held(op.status) then op.reserved else 0
  }

  function SettledAmount(op: Operation): int {
    if op.status.Settled? then op.actual else 0
  }

  /** A scope keeps the reservation of every unsettled operation, expired ones included; after a
      refunding sweep a settlement adds the actual amount on top of the reservation. */
  function ScopeAmount(op: Operation): int {
    if op.status.Settled? then op.actual + (if Refunded(op) then op.reserved else 0) else op.reserved
  }

  function Weight(m: Measure, op: Operation): int {
    match m
    case OwedBy(user) => if op.user == user then HeldAmount(op) + SettledAmount(op) else 0
    case ReservedOn(trace) => if op.trace == trace then HeldAmount(op) else 0
    case SettledOn(trace) => if op.trace == trace then SettledAmount(op) else 0
    case UsedIn(scope) => if scope in ScopeIds(op.user, op.identity) then ScopeAmount(op) else 0
  }

  function Weights(escrow: map<string, Operation>, m: Measure): map<string, int> {
    map k | k in escrow :: Weight(m, escrow[k])
  }

  ghost function Total(escrow: map<string, Operation>, m: Measure): int {
    Sum(Weights(escrow, m))
  }

  lemma TotalSet(escrow: map<string, Operation>, k: string, op: Operation, m: Measure)
    ensures Total(escrow[k := op], m)
         == Total(escrow, m) + Weight(m, op) - (if k in escrow then Weight(m, escrow[k]) else 0)
  {
    assert Weights(escrow[k := op], m) == Weights(escrow, m)[k := Weight(m, op)];
    SumSet(Weights(escrow, m), k, Weight(m, op));
  }

  lemma TotalZero(escrow: map<string, Operation>, m: Measure)
    requires forall k | k in escrow :: Weight(m, escrow[k]) == 0
    ensures Total(escrow, m) == 0
  {
    SumZero(Weights(escrow, m));
  }

  ghost predicate WalletsBalance(seed: map<string, Wallet>, s: State) {
    s.wallets.Keys == seed.Keys &&
    forall u | u in s.wallets ::
      s.wallets[u].balance >= 0 && s.wallets[u].balance + Total(s.escrow, OwedBy(u)) == seed[u].balance
  }

  ghost predicate TracesBalance(s: State) {
    forall t | t in s.traces ::
      s.traces[t].reservedTotal == Total(s.escrow, ReservedOn(t)) <= s.traces[t].cap &&
      s.traces[t].settledTotal == Total(s.escrow, SettledOn(t))
  }

  ghost predicate ScopesBalance(s: State) {
    forall id | id in s.scopes ::
      s.scopes[id].consumed == Total(s.escrow, UsedIn(id)) <= s.scopes[id].cap
  }

  ghost predicate BooksBalance(seed: map<string, Wallet>, s: State) {
    Wellformed(s) && WalletsBalance(seed, s) && TracesBalance(s) && ScopesBalance(s)
  }

  // ---------- double entry: every table moves by the change of the one row written ----------

  ghost function Change(s: State, t: State, key: string, m: Measure): int
    requires key in t.escrow
  {
    Weight(m, t.escrow[key]) - (if key in s.escrow then Weight(m, s.escrow[key]) else 0)
  }

  ghost predicate WalletMoves(s: State, t: State, key: string, u: string)
    requires OneRowWritten(s, t, key) && u in s.wallets
  {
    t.wallets[u].balance == s.wallets[u].balance - Change(s, t, key, OwedBy(u)) &&
    (s.wallets[u].balance >= 0 ==> t.wallets[u].balance >= 0)
  }

  ghost predicate TraceMoves(s: State, t: State, key: string, id: string)
    requires OneRowWritten(s, t, key) && id in t.traces
  {
    var before := OpenTrace(s, id, t.traces[id].cap);
    t.traces[id].cap == before.cap &&
    t.traces[id].reservedTotal == before.reservedTotal + Change(s, t, key, ReservedOn(id)) &&
    t.traces[id].settledTotal == before.settledTotal + Change(s, t, key, SettledOn(id)) &&
    ((id in s.traces && t.traces[id].reservedTotal <= before.reservedTotal) || t.traces[id].reservedTotal <= before.cap)
  }

  ghost predicate ScopeMoves(s: State, t: State, key: string, id: ScopeId)
    requires OneRowWritten(s, t, key) && id in t.scopes
  {
    var before := OpenScope(s.scopes, id, t.scopes[id].cap);
    t.scopes[id].cap == before.cap &&
    t.scopes[id].consumed == before.consumed + Change(s, t, key, UsedIn(id)) &&
    ((id in s.scopes && t.scopes[id] == before) || t.scopes[id].consumed <= before.cap)
  }

  lemma PostMovesWallet(cfg: Settings, s: State, p: Posting, u: string)
    requires Wellformed(s) && Fires(cfg, s, p) && OneRowWritten(s, Post(cfg, s, p), KeyOf(p)) && u in s.wallets
    ensures WalletMoves(s, Post(cfg, s, p), KeyOf(p), u)
  {
    hide ScopesFit, ChargeScopes, ScopeIds, ScopeCaps, ReserveCaps, NeedsApproval, LocksWallet, OpenAttempts,
         AttemptIdTaken, OperationIdTaken, AttemptsAfter, LoopsAfter, ClosingEvents, LoopTripped, AttemptFits,
           IdsUnique;
    if KeyOf(p) in s.escrow { assert OperationFits(s, s.escrow[KeyOf(p)]); }
    hide Wellformed;
    match p
    case ReservePosting(_, _) =>
    case ReportPosting(_, _, _) =>
    case SettlePosting(_, _) =>
    case StrandPosting(_, _) =>
    case RefundPosting(_, _) =>
  }

  lemma PostMovesTrace(cfg: Settings, s: State, p: Posting, id: string)
    requires Wellformed(s) && Fires(cfg, s, p) && OneRowWritten(s, Post(cfg, s, p), KeyOf(p)) &&
             id in Post(cfg, s, p).traces
    ensures TraceMoves(s, Post(cfg, s, p), KeyOf(p), id)
  {
    hide ScopesFit, ChargeScopes, ScopeIds, ScopeCaps, ReserveCaps, NeedsApproval, LocksWallet, OpenAttempts,
         AttemptIdTaken, OperationIdTaken, AttemptsAfter, LoopsAfter, ClosingEvents, LoopTripped, AttemptFits,
           IdsUnique;
    if KeyOf(p) in s.escrow { assert OperationFits(s, s.escrow[KeyOf(p)]); }
    hide Wellformed;
    match p
    case ReservePosting(_, _) =>
    case ReportPosting(_, _, _) =>
    case SettlePosting(_, _) =>
    case StrandPosting(_, _) =>
    case RefundPosting(_, _) =>
  }

  lemma ReserveMovesScope(cfg: Settings, s: State, r: ReserveRequest, now: int, id: ScopeId)
    requires ReserveRefusal(cfg, s, r, false).None? && r.key !in s.escrow
    requires OneRowWritten(s, PostReserve(cfg, s, r, now), r.key) && id in PostReserve(cfg, s, r, now).scopes
    ensures ScopeMoves(s, PostReserve(cfg, s, r, now), r.key, id)
  {
    hide OpenTrace, AttemptIdTaken, ScopeCaps, RequestBudgets;
    assert Refunded(NewOperation(cfg, r, now)) == false;
    assert ReserveCaps(cfg, r).Keys == ScopeIds(r.user, IdentityOf(r));
    hide ReserveCaps, IdentityOf, ScopeIds;
  }

  lemma SettleMovesScope(cfg: Settings, s: State, key: string, q: SettleRequest, id: ScopeId)
    requires key in s.escrow && StampsFit(s.escrow[key])
    requires !s.escrow[key].status.Settled? && SettleRefusal(cfg, s, key, q).None?
    requires OneRowWritten(s, PostSettle(cfg, s, key, q), key) && id in PostSettle(cfg, s, key, q).scopes
    ensures ScopeMoves(s, PostSettle(cfg, s, key, q), key, id)
  {
    var op := s.escrow[key];
    hide SettledWallet, SettledTrace, AttemptRefused, OpenAttempts, AttemptIdTaken, OperationIdTaken, AttemptsAfter,
         LoopsAfter, ClosingEvents, LoopTripped, AttemptFits, IdsUnique;
    assert Refunded(op) == op.status.Expired?;
    assert ScopeCaps(op.user, op.identity, cfg.budgets).Keys == ScopeIds(op.user, op.identity);
    hide ScopeCaps, ScopeIds;
  }

  lemma PostMovesScope(cfg: Settings, s: State, p: Posting, id: ScopeId)
    requires Wellformed(s) && Fires(cfg, s, p) && OneRowWritten(s, Post(cfg, s, p), KeyOf(p)) &&
             id in Post(cfg, s, p).scopes
    ensures ScopeMoves(s, Post(cfg, s, p), KeyOf(p), id)
  {
    hide ScopesFit, ChargeScopes, ScopeIds, ScopeCaps, ReserveCaps, NeedsApproval, LocksWallet, OpenAttempts,
         AttemptIdTaken, OperationIdTaken, AttemptsAfter, LoopsAfter, ClosingEvents, LoopTripped, AttemptFits,
           IdsUnique;
    if KeyOf(p) in s.escrow { assert OperationFits(s, s.escrow[KeyOf(p)]); }
    hide Wellformed, OperationFits;
    match p
    case ReservePosting(r, now) => ReserveMovesScope(cfg, s, r, now, id);
    case SettlePosting(key, q) => SettleMovesScope(cfg, s, key, q, id);
    case ReportPosting(_, _, _) =>
    case StrandPosting(_, _) =>
    case RefundPosting(_, _) =>
  }

  lemma TotalMoves(s: State, t: State, key: string, m: Measure)
    requires OneRowWritten(s, t, key)
    ensures Total(t.escrow, m) == Total(s.escrow, m) + Change(s, t, key, m)
  {
    TotalSet(s.escrow, key, t.escrow[key], m);
  }

  lemma NothingOnAbsentTrace(s: State, id: string)
    requires Wellformed(s) && id !in s.traces
    ensures Total(s.escrow, ReservedOn(id)) == 0 && Total(s.escrow, SettledOn(id)) == 0
  {
    forall k | k in s.escrow ensures s.escrow[k].trace != id { assert OperationFits(s, s.escrow[k]); }
    TotalZero(s.escrow, ReservedOn(id));
    TotalZero(s.escrow, SettledOn(id));
  }

  lemma NothingInAbsentScope(s: State, id: ScopeId)
    requires Wellformed(s) && id !in s.scopes
    ensures Total(s.escrow, UsedIn(id)) == 0
  {
    forall k | k in s.escrow ensures id !in ScopeIds(s.escrow[k].user, s.escrow[k].identity) {
      assert OperationFits(s, s.escrow[k]);
    }
    TotalZero(s.escrow, UsedIn(id));
  }

  lemma WalletsAfter(seed: map<string, Wallet>, s: State, t: State, key: string)
    requires WalletsBalance(seed, s) && OneRowWritten(s, t, key)
    requires forall u | u in s.wallets :: WalletMoves(s, t, key, u)
    ensures WalletsBalance(seed, t)
  {
    hide Change, Total;
    forall u | u in t.wallets
      ensures t.wallets[u].balance >= 0 && t.wallets[u].balance + Total(t.escrow, OwedBy(u)) == seed[u].balance
    {
      assert WalletMoves(s, t, key, u);
      TotalMoves(s, t, key, OwedBy(u));
    }
  }

  lemma TracesAfter(s: State, t: State, key: string)
    requires Wellformed(s) && TracesBalance(s) && OneRowWritten(s, t, key)
    requires forall id | id in t.traces :: TraceMoves(s, t, key, id)
    ensures TracesBalance(t)
  {
    hide Change, Total, Wellformed;
    forall id | id in t.traces
      ensures t.traces[id].reservedTotal == Total(t.escrow, ReservedOn(id)) <= t.traces[id].cap
      ensures t.traces[id].settledTotal == Total(t.escrow, SettledOn(id))
    {
      assert TraceMoves(s, t, key, id);
      if id !in s.traces { NothingOnAbsentTrace(s, id); }
      TotalMoves(s, t, key, ReservedOn(id));
      TotalMoves(s, t, key, SettledOn(id));
    }
  }

  lemma ScopesAfter(s: State, t: State, key: string)
    requires Wellformed(s) && ScopesBalance(s) && OneRowWritten(s, t, key)
    requires forall id | id in t.scopes :: ScopeMoves(s, t, key, id)
    ensures ScopesBalance(t)
  {
    hide Change, Total, Wellformed;
    forall id | id in t.scopes
      ensures t.scopes[id].consumed == Total(t.escrow, UsedIn(id)) <= t.scopes[id].cap
    {
      assert ScopeMoves(s, t, key, id);
      if id !in s.scopes { NothingInAbsentScope(s, id); }
      TotalMoves(s, t, key, UsedIn(id));
    }
  }

  /** Every posting is double entry: each wallet, trace and scope moves by exactly what the one
      escrow row it writes changed. */
  lemma PostMoves(cfg: Settings, s: State, p: Posting)
    requires Wellformed(s) && Fires(cfg, s, p)
    ensures OneRowWritten(s, Post(cfg, s, p), KeyOf(p))
    ensures forall u | u in s.wallets :: WalletMoves(s, Post(cfg, s, p), KeyOf(p), u)
    ensures forall id | id in Post(cfg, s, p).traces :: TraceMoves(s, Post(cfg, s, p), KeyOf(p), id)
    ensures forall id | id in Post(cfg, s, p).scopes :: ScopeMoves(s, Post(cfg, s, p), KeyOf(p), id)
  {
    PostWritesOneRow(cfg, s, p);
    hide *;
    forall u | u in s.wallets ensures WalletMoves(s, Post(cfg, s, p), KeyOf(p), u) { PostMovesWallet(cfg, s, p, u); }
    forall id | id in Post(cfg, s, p).traces
      ensures TraceMoves(s, Post(cfg, s, p), KeyOf(p), id)
    {
      PostMovesTrace(cfg, s, p, id);
    }
    forall id | id in Post(cfg, s, p).scopes
      ensures ScopeMoves(s, Post(cfg, s, p), KeyOf(p), id)
    {
      PostMovesScope(cfg, s, p, id);
    }
  }

  lemma StartBalances(seed: map<string, Wallet>)
    requires forall u | u in seed :: seed[u].balance >= 0
    ensures BooksBalance(seed, Start(seed))
  {
    forall u | u in seed ensures Total(map[], OwedBy(u)) == 0 { TotalZero(map[], OwedBy(u)); }
  }

  lemma PostBalances(cfg: Settings, seed: map<string, Wallet>, s: State, p: Posting)
    requires BooksBalance(seed, s) && Fires(cfg, s, p)
    ensures BooksBalance(seed, Post(cfg, s, p))
  {
    PostWellformed(cfg, s, p);
    PostMoves(cfg, s, p);
    var t, key := Post(cfg, s, p), KeyOf(p);
    hide Fires, Post, KeyOf;
    WalletsAfter(seed, s, t, key);
    TracesAfter(s, t, key);
    ScopesAfter(s, t, key);
  }

  lemma {:induction false} LeadsBalances(cfg: Settings, seed: map<string, Wallet>, s: State, ps: seq<Posting>, t: State)
    requires BooksBalance(seed, s) && Leads(cfg, s, ps, t)
    ensures BooksBalance(seed, t)
    decreases |ps|
  {
    hide Fires, Post, BooksBalance;
    if ps != [] {
      PostBalances(cfg, seed, s, ps[0]);
      LeadsBalances(cfg, seed, Post(cfg, s, ps[0]), ps[1..], t);
    }
  }
}
