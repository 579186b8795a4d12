/** The reconciler against late settlements: confluence, progress, and how batches drain the backlog. */
module LedgerSweep {
  import opened Options
  import opened LedgerTypes
  import opened LedgerRules
  import opened LedgerRuns
  import opened LedgerBooks

  // ---------- settling before or right after the sweep ----------

  predicate FundsCover(s: State, key: string, actual: int)
    requires key in s.escrow && s.escrow[key].user in s.wallets
  {
    s.wallets[s.escrow[key].user].balance + WalletDelta(s.escrow[key], actual) >= 0
  }

  lemma ExpireShape(s: State, key: string, now: int)
    requires Wellformed(s) && Eligible(s, key, now)
    ensures var t := Expire(s, key, now); var op := s.escrow[key];
            t.attempts == s.attempts && t.scopes == s.scopes && t.wallets.Keys == s.wallets.Keys &&
              t.traces.Keys == s.traces.Keys &&
            op.user in s.wallets && op.trace in s.traces && op.reserved >= 0 &&
            t.escrow == s.escrow[key := op.(status := t.escrow[key].status, expiredAt := Some(now))] &&
            t.escrow[key].status == if Strands(s, key) then Stranded else Expired
    ensures Strands(s, key) ==> Expire(s, key, now).wallets == s.wallets && Expire(s, key, now).traces == s.traces
    ensures !Strands(s, key) ==>
              var op, t := s.escrow[key], Expire(s, key, now);
              var wallet, trace := s.wallets[op.user], s.traces[op.trace];
              t.wallets == s.wallets[op.user := wallet.(balance := wallet.balance + op.reserved)] &&
              t.traces == s.traces[op.trace := trace.(reservedTotal := trace.reservedTotal - op.reserved)]
  {
    assert OperationFits(s, s.escrow[key]);
    hide OpenAttempts;
  }

  /** The funds check of a settlement gives the same answer before and after the sweep. */
  lemma FundsCheckConfluent(s: State, key: string, actual: int, now: int)
    requires Wellformed(s) && Eligible(s, key, now)
    ensures s.escrow[key].user in s.wallets && key in Expire(s, key, now).escrow &&
            Expire(s, key, now).escrow[key].user in Expire(s, key, now).wallets
    ensures FundsCover(Expire(s, key, now), key, actual) == FundsCover(s, key, actual)
  {
    ExpireShape(s, key, now);
    hide Expire, Strands, Wellformed;
  }

  /** Row by row: a strand changes nothing a settlement computes, and a refund cancels out. */
  lemma RowsConfluent(cfg: Settings, wallet: Wallet, trace: Trace, op: Operation, actual: int, now: int)
    requires Sweepable(op.status)
    ensures SettledWallet(cfg, wallet, op.(status := Stranded, expiredAt := Some(now)), actual) ==
            SettledWallet(cfg, wallet, op, actual)
    ensures SettledTrace(trace, op.(status := Stranded, expiredAt := Some(now)), actual) ==
            SettledTrace(trace, op, actual)
    ensures SettledWallet(cfg, wallet.(balance := wallet.balance + op.reserved),
            op.(status := Expired, expiredAt := Some(now)), actual)
         == SettledWallet(cfg, wallet, op, actual)
    ensures SettledTrace(trace.(reservedTotal := trace.reservedTotal - op.reserved),
            op.(status := Expired, expiredAt := Some(now)), actual)
         == SettledTrace(trace, op, actual)
  {
    hide DriftExcessive;
  }

  lemma SettledWalletsConfluent(cfg: Settings, s: State, key: string, q: SettleRequest, now: int)
    requires Wellformed(s) && Eligible(s, key, now) && key in Expire(s, key, now).escrow
    ensures PostSettle(cfg, Expire(s, key, now), key, q).wallets == PostSettle(cfg, s, key, q).wallets
  {
    ExpireShape(s, key, now);
    var op := s.escrow[key];
    RowsConfluent(cfg, s.wallets[op.user], s.traces[op.trace], op, q.cost, now);
    hide Expire, Strands, Wellformed, ChargeScopes, ScopeCaps, ClosingEvents, SettledWallet, SettledTrace, Eligible,
         WalletDelta;
  }

  lemma SettledTracesConfluent(cfg: Settings, s: State, key: string, q: SettleRequest, now: int)
    requires Wellformed(s) && Eligible(s, key, now) && key in Expire(s, key, now).escrow
    ensures PostSettle(cfg, Expire(s, key, now), key, q).traces == PostSettle(cfg, s, key, q).traces
  {
    ExpireShape(s, key, now);
    var op := s.escrow[key];
    RowsConfluent(cfg, s.wallets[op.user], s.traces[op.trace], op, q.cost, now);
    hide Expire, Strands, Wellformed, ChargeScopes, ScopeCaps, ClosingEvents, SettledWallet, SettledTrace, Eligible,
         WalletDelta;
  }

  /** The same operations, except that one row also carries the time the sweep stamped on it. */
  predicate SameRowsButStamp(after: map<string, Operation>, direct: map<string, Operation>, key: string, now: int) {
    after.Keys == direct.Keys && key in direct && after[key] == direct[key].(expiredAt := Some(now)) &&
    forall k | k in direct && k != key :: after[k] == direct[k]
  }

  lemma SettledAttemptsConfluent(cfg: Settings, s: State, key: string, q: SettleRequest, now: int)
    requires Wellformed(s) && Eligible(s, key, now) && key in Expire(s, key, now).escrow
    ensures PostSettle(cfg, Expire(s, key, now), key, q).attempts == PostSettle(cfg, s, key, q).attempts
  {
    ExpireShape(s, key, now);
    hide Expire, Strands, Wellformed, Eligible, ChargeScopes, ScopeCaps, ClosingEvents, SettledWallet, SettledTrace,
         WalletDelta;
  }

  lemma SettledRowsConfluent(cfg: Settings, s: State, key: string, q: SettleRequest, now: int)
    requires Wellformed(s) && Eligible(s, key, now) && key in Expire(s, key, now).escrow
    ensures SameRowsButStamp(PostSettle(cfg, Expire(s, key, now), key, q).escrow, PostSettle(cfg, s, key, q).escrow,
            key, now)
  {
    ExpireShape(s, key, now);
    hide Expire, Strands, Wellformed, Eligible, AttemptsAfter, ChargeScopes, ScopeCaps, ClosingEvents, SettledWallet,
         SettledTrace, WalletDelta;
  }

  /** Settling right after the sweep ends with the same wallets (balances and locks), traces, attempts
      and operation amount as settling directly. */
  lemma SettleConfluent(cfg: Settings, s: State, key: string, q: SettleRequest, now: int)
    requires Wellformed(s) && Eligible(s, key, now) && key in Expire(s, key, now).escrow
    ensures PostSettle(cfg, Expire(s, key, now), key, q).wallets == PostSettle(cfg, s, key, q).wallets
    ensures PostSettle(cfg, Expire(s, key, now), key, q).traces == PostSettle(cfg, s, key, q).traces
    ensures PostSettle(cfg, Expire(s, key, now), key, q).attempts == PostSettle(cfg, s, key, q).attempts
    ensures SameRowsButStamp(PostSettle(cfg, Expire(s, key, now), key, q).escrow, PostSettle(cfg, s, key, q).escrow,
            key, now)
  {
    hide *;
    SettledWalletsConfluent(cfg, s, key, q, now);
    SettledTracesConfluent(cfg, s, key, q, now);
    SettledAttemptsConfluent(cfg, s, key, q, now);
    SettledRowsConfluent(cfg, s, key, q, now);
  }

  predicate OtherGuardsPass(cfg: Settings, s: State, key: string, q: SettleRequest)
    requires key in s.escrow && s.escrow[key].user in s.wallets
  {
    !AttemptRefused(s, key, q) && !OperationIdTaken(s.escrow, key,
      Coalesce(q.providerRequest, s.escrow[key].providerRequest)) &&
    FundsCover(s, key, q.cost)
  }

  predicate ScopesTake(cfg: Settings, s: State, op: Operation, amount: int) {
    amount == 0 || ScopesFit(s.scopes, ScopeCaps(op.user, op.identity, cfg.budgets), amount)
  }

  lemma SettlesExactlyWhen(cfg: Settings, s: State, key: string, q: SettleRequest)
    requires key in s.escrow && s.escrow[key].user in s.wallets
    ensures SettleRefusal(cfg, s, key, q).None? <==>
              OtherGuardsPass(cfg, s, key, q) && ScopesTake(cfg, s, s.escrow[key],
                0 - WalletDelta(s.escrow[key], q.cost))
  {
    hide AttemptIdTaken, OperationIdTaken, ScopesFit;
  }

  lemma OtherGuardsConfluent(cfg: Settings, s: State, key: string, q: SettleRequest, now: int)
    requires Wellformed(s) && Eligible(s, key, now)
    requires key in Expire(s, key, now).escrow && Expire(s, key, now).escrow[key].user in Expire(s, key, now).wallets
    requires s.escrow[key].user in s.wallets
    ensures OtherGuardsPass(cfg, Expire(s, key, now), key, q) == OtherGuardsPass(cfg, s, key, q)
  {
    ExpireShape(s, key, now);
    FundsCheckConfluent(s, key, q.cost, now);
    var t := Expire(s, key, now);
    hide Expire, Strands, Wellformed, FundsCover;
    assert UpsertedAttempt(t, if Given(q.attemptKey) then q.attemptKey.value else "", key, q)
        == UpsertedAttempt(s, if Given(q.attemptKey) then q.attemptKey.value else "", key, q);
    var id := Coalesce(q.providerRequest, s.escrow[key].providerRequest);
    assert forall k | k in s.escrow && k != key :: t.escrow[k] == s.escrow[k];
    assert OperationIdTaken(t.escrow, key, id) == OperationIdTaken(s.escrow, key, id);
  }

  lemma StrandedScopesAlike(cfg: Settings, s: State, key: string, q: SettleRequest, now: int)
    requires Wellformed(s) && Eligible(s, key, now) && Strands(s, key) && key in Expire(s, key, now).escrow
    ensures PostSettle(cfg, Expire(s, key, now), key, q).scopes == PostSettle(cfg, s, key, q).scopes
  {
    ExpireShape(s, key, now);
    hide Strands, Expire, Wellformed, ChargeScopes, ScopeCaps, SettledWallet, SettledTrace, ClosingEvents,
         AttemptsAfter;
  }

  /** A stranded operation settles exactly when it would have settled before the sweep, and then the
      budget scopes agree as well. */
  lemma StrandedSettlesAlike(cfg: Settings, s: State, key: string, q: SettleRequest, now: int)
    requires Wellformed(s) && Eligible(s, key, now) && Strands(s, key)
    ensures key in Expire(s, key, now).escrow
    ensures SettleRefusal(cfg, Expire(s, key, now), key, q).None? <==> SettleRefusal(cfg, s, key, q).None?
    ensures PostSettle(cfg, Expire(s, key, now), key, q).scopes == PostSettle(cfg, s, key, q).scopes
  {
    ExpireShape(s, key, now);
    OtherGuardsConfluent(cfg, s, key, q, now);
    StrandedScopesAlike(cfg, s, key, q, now);
    hide Strands, Expire, Wellformed, OtherGuardsPass, ScopesFit, PostSettle, ScopeCaps;
    SettlesExactlyWhen(cfg, s, key, q);
    SettlesExactlyWhen(cfg, Expire(s, key, now), key, q);
    hide SettleRefusal;
  }

  /** Room for the whole actual amount leaves room for the difference to the reservation. */
  lemma ScopesTakeLess(cfg: Settings, s: State, key: string, actual: int)
    requires Wellformed(s) && ScopesBalance(s) && key in s.escrow
    ensures ScopesTake(cfg, s, s.escrow[key], actual) ==>
            ScopesTake(cfg, s, s.escrow[key], actual - s.escrow[key].reserved)
  {
    var op := s.escrow[key];
    assert OperationFits(s, op);
    assert ScopeCaps(op.user, op.identity, cfg.budgets).Keys == ScopeIds(op.user, op.identity);
    hide ScopeCaps, Wellformed, Total;
  }

  /** A refunded operation settles exactly when it would have settled before the sweep and its scopes
      still have room for the whole actual amount, which the sweep did not give back. */
  lemma RefundedSettlesWhenScopesAllow(cfg: Settings, s: State, key: string, q: SettleRequest, now: int)
    requires Wellformed(s) && ScopesBalance(s) && Eligible(s, key, now) && !Strands(s, key)
    ensures key in Expire(s, key, now).escrow
    ensures SettleRefusal(cfg, Expire(s, key, now), key, q).None? <==>
              SettleRefusal(cfg, s, key, q).None? && ScopesTake(cfg, s, s.escrow[key], q.cost)
  {
    ExpireShape(s, key, now);
    OtherGuardsConfluent(cfg, s, key, q, now);
    ScopesTakeLess(cfg, s, key, q.cost);
    hide Strands, Expire, Wellformed, OtherGuardsPass, ScopesFit;
    SettlesExactlyWhen(cfg, s, key, q);
    SettlesExactlyWhen(cfg, Expire(s, key, now), key, q);
    hide SettleRefusal;
    assert ScopesTake(cfg, Expire(s, key, now), Expire(s, key, now).escrow[key], q.cost) ==
           ScopesTake(cfg, s, s.escrow[key], q.cost);
  }

  // ---------- settlement progress ----------

  /** What a held operation with a clamped amount leaves to refuse: neither funds nor scopes, and no drift. */
  lemma HeldSettlementCovered(cfg: Settings, seed: map<string, Wallet>, s: State, op: Operation, actual: nat)
    requires BooksBalance(seed, s) && OperationFits(s, op) && Held(op.status) && actual <= op.reserved
    ensures ScopesFit(s.scopes, ScopeCaps(op.user, op.identity, cfg.budgets), actual - op.reserved)
    ensures op.user in s.wallets && s.wallets[op.user].balance >= 0 && !LocksWallet(cfg, op, actual)
  {
    assert ScopeCaps(op.user, op.identity, cfg.budgets).Keys == ScopeIds(op.user, op.identity);
    hide Wellformed, DriftExcessive;
  }

  /** Settling a held operation at no more than its reservation can only fail on a provider request id
      that belongs elsewhere, never on funds or caps, and it never locks the wallet. */
  lemma HeldSettlementProceeds(cfg: Settings, seed: map<string, Wallet>, s: State, key: string, q: SettleRequest)
    requires BooksBalance(seed, s) && key in s.escrow && Held(s.escrow[key].status) && q.cost <= s.escrow[key].reserved
    ensures SettleRefusal(cfg, s, key, q).None? <==>
              !AttemptRefused(s, key, q) &&
              !OperationIdTaken(s.escrow, key, Coalesce(q.providerRequest, s.escrow[key].providerRequest))
    ensures SettleRefusal(cfg, s, key, q) in {None, Some(Conflict), Some(IntegrityViolation)}
    ensures s.escrow[key].user in s.wallets && PostSettle(cfg, s, key, q).wallets.Keys == s.wallets.Keys
    ensures forall u | u in s.wallets :: PostSettle(cfg, s, key, q).wallets[u].active == s.wallets[u].active
  {
    var op := s.escrow[key];
    assert OperationFits(s, op);
    hide AttemptRefused, OperationIdTaken, BooksBalance, ScopesFit, ScopeCaps, LocksWallet, Wellformed,
         ClosingEvents, ChargeScopes, OperationFits, AttemptsAfter;
    HeldSettlementCovered(cfg, seed, s, op, q.cost);
  }

  // ---------- draining the backlog ----------

  function EligibleSet(s: State, now: int): set<string> {
    set k | k in s.escrow && Eligible(s, k, now)
  }

  function Members(keys: seq<string>): set<string> {
    set k | k in keys
  }

  function Min(a: int, b: int): int {
    if a <= b then a else b
  }

  /** The batch query: the earliest-expiring eligible operations, in order, as many as fit. */
  ghost predicate Selection(s: State, now: int, batch: nat, keys: seq<string>) {
    SweepOf(s, keys, now) &&
    |keys| == Min(batch, |EligibleSet(s, now)|) &&
    (forall i, j | 0 <= i < j < |keys| :: s.escrow[keys[i]].expiresAt <= s.escrow[keys[j]].expiresAt) &&
    (forall i, u | 0 <= i < |keys| && u in EligibleSet(s, now) - Members(keys) ::
      s.escrow[keys[i]].expiresAt <= s.escrow[u].expiresAt)
  }

  /** The row a sweep leaves behind, computed from the state before the batch alone. */
  predicate RowSwept(s: State, t: State, k: string, now: int) {
    k in s.escrow && k in t.escrow &&
    t.escrow[k] == s.escrow[k].(status := if Strands(s, k) then Stranded else Expired, expiredAt := Some(now))
  }

  lemma ExpireFrames(s: State, key: string, now: int)
    requires key in s.escrow
    ensures Expire(s, key, now).escrow.Keys == s.escrow.Keys && Expire(s, key, now).attempts == s.attempts
    ensures RowSwept(s, Expire(s, key, now), key, now)
    ensures forall k | k in s.escrow && k != key :: Expire(s, key, now).escrow[k] == s.escrow[k]
  {
    hide OpenAttempts;
  }

  /** One batch treats every selected row as the snapshot shows it, and no other row at all. */
  lemma {:induction false} SweepBySnapshot(s: State, keys: seq<string>, now: int)
    requires SweepOf(s, keys, now)
    ensures Sweep(s, keys, now).escrow.Keys == s.escrow.Keys && Sweep(s, keys, now).attempts == s.attempts
    ensures forall k | k in keys :: RowSwept(s, Sweep(s, keys, now), k, now)
    ensures forall k | k in s.escrow && k !in keys :: Sweep(s, keys, now).escrow[k] == s.escrow[k]
    decreases |keys|
  {
    if keys != [] {
      var t := Expire(s, keys[0], now);
      ExpireFrames(s, keys[0], now);
      forall i | 0 <= i < |keys[1..]|
        ensures Eligible(t, keys[1..][i], now)
      {
        assert Eligible(s, keys[i + 1], now);
      }
      hide Expire;
      SweepBySnapshot(t, keys[1..], now);
      assert keys[0] !in keys[1..];
      var u := Sweep(s, keys, now);
      forall k | k in keys
        ensures RowSwept(s, u, k, now)
      {
        if k != keys[0] { assert k in keys[1..] && RowSwept(t, u, k, now); }
      }
    }
  }

  lemma {:induction false} DistinctCount(keys: seq<string>)
    requires forall i, j | 0 <= i < j < |keys| :: keys[i] != keys[j]
    ensures |Members(keys)| == |keys|
    decreases |keys|
  {
    if keys != [] {
      DistinctCount(keys[1..]);
      assert Members(keys) == {keys[0]} + Members(keys[1..]);
    }
  }

  lemma SweepShrinks(s: State, keys: seq<string>, now: int)
    requires SweepOf(s, keys, now)
    ensures EligibleSet(Sweep(s, keys, now), now) == EligibleSet(s, now) - Members(keys)
    ensures Members(keys) <= EligibleSet(s, now)
  {
    SweepBySnapshot(s, keys, now);
    var t := Sweep(s, keys, now);
    hide Sweep;
    forall k | k in s.escrow
      ensures Eligible(t, k, now) <==> Eligible(s, k, now) && k !in keys
    {
      if k in keys { assert RowSwept(s, t, k, now); }
    }
  }

  /** Consecutive batches with no other work in between. */
  ghost predicate Drains(s: State, now: int, batch: nat, batches: seq<seq<string>>, t: State)
    decreases |batches|
  {
    if batches == [] then s == t
    else Selection(s, now, batch, batches[0]) && Drains(Sweep(s, batches[0], now), now, batch, batches[1..], t)
  }

  /** What was eligible in `s` and no longer is in `t`. */
  function ResolvedSet(s: State, t: State, now: int): set<string> {
    EligibleSet(s, now) - EligibleSet(t, now)
  }

  /** The operations resolved between `s` and `t` are the earliest-expiring ones, each was treated the way
      its row in `s` says, and no other operation was touched. */
  ghost predicate ResolvedEarliest(s: State, t: State, now: int) {
    t.escrow.Keys == s.escrow.Keys && t.attempts == s.attempts && EligibleSet(t, now) <= EligibleSet(s, now) &&
    (forall r, u | r in ResolvedSet(s, t, now) && u in EligibleSet(t, now) :: ExpiresFirst(s, r, u)) &&
    (forall r | r in ResolvedSet(s, t, now) :: RowSwept(s, t, r, now)) &&
    (forall k | k in s.escrow && k !in ResolvedSet(s, t, now) :: t.escrow[k] == s.escrow[k])
  }

  predicate ExpiresFirst(s: State, r: string, u: string) {
    r in s.escrow && u in s.escrow && s.escrow[r].expiresAt <= s.escrow[u].expiresAt
  }

  lemma BatchResolvesEarliest(s: State, now: int, batch: nat, keys: seq<string>)
    requires Selection(s, now, batch, keys)
    ensures ResolvedEarliest(s, Sweep(s, keys, now), now)
    ensures |ResolvedSet(s, Sweep(s, keys, now), now)| == Min(batch, |EligibleSet(s, now)|)
  {
    SweepBySnapshot(s, keys, now);
    SweepShrinks(s, keys, now);
    DistinctCount(keys);
    hide Sweep, Eligible, RowSwept;
    assert ResolvedSet(s, Sweep(s, keys, now), now) == Members(keys);
  }

  lemma ResolvedRow(s: State, m: State, t: State, now: int, r: string)
    requires ResolvedEarliest(s, m, now) && ResolvedEarliest(m, t, now) && r in ResolvedSet(s, t, now)
    ensures RowSwept(s, t, r, now)
  {
    hide EligibleSet, ExpiresFirst;
    if r in ResolvedSet(m, t, now) {
      assert RowSwept(m, t, r, now) && r !in ResolvedSet(s, m, now) && m.escrow[r] == s.escrow[r];
    } else {
      assert RowSwept(s, m, r, now) && t.escrow[r] == m.escrow[r];
    }
  }

  lemma ResolvedOrder(s: State, m: State, t: State, now: int, r: string, u: string)
    requires ResolvedEarliest(s, m, now) && ResolvedEarliest(m, t, now)
    requires r in ResolvedSet(s, t, now) && u in EligibleSet(t, now)
    ensures ExpiresFirst(s, r, u)
  {
    assert r in s.escrow && u in s.escrow;
    hide EligibleSet, RowSwept;
    if r in ResolvedSet(m, t, now) {
      assert ExpiresFirst(m, r, u);
      assert r !in ResolvedSet(s, m, now) && m.escrow[r] == s.escrow[r];
      assert u !in ResolvedSet(s, m, now) && m.escrow[u] == s.escrow[u];
    }
  }

  lemma ResolvedOn(s: State, m: State, t: State, now: int)
    requires ResolvedEarliest(s, m, now) && ResolvedEarliest(m, t, now)
    ensures ResolvedEarliest(s, t, now)
    ensures |ResolvedSet(s, t, now)| == |ResolvedSet(s, m, now)| + |ResolvedSet(m, t, now)|
    ensures |EligibleSet(m, now)| == |EligibleSet(s, now)| - |ResolvedSet(s, m, now)|
  {
    forall r | r in ResolvedSet(s, t, now) ensures RowSwept(s, t, r, now) { ResolvedRow(s, m, t, now, r); }
    forall r, u | r in ResolvedSet(s, t, now) && u in EligibleSet(t, now)
      ensures ExpiresFirst(s, r, u)
    {
      ResolvedOrder(s, m, t, now, r, u);
    }
    hide EligibleSet, ExpiresFirst, RowSwept;
    assert ResolvedSet(s, t, now) == ResolvedSet(s, m, now) + ResolvedSet(m, t, now);
    assert EligibleSet(s, now) == ResolvedSet(s, m, now) + EligibleSet(m, now);
  }

  lemma OneMoreBatch(n: nat, left: nat, k: nat, batch: nat)
    requires k > 0 && n - left == Min(batch, n)
    ensures Min(batch, n) + Min(left, (k - 1) * batch) == Min(n, k * batch)
  {
    assert k * batch == batch + (k - 1) * batch;
    assert (k - 1) * batch >= 0;
  }

  /** `k` sweeps of batch `b` resolve exactly the min(n, k*b) earliest-expiring of `n` eligible operations. */
  lemma {:induction false} DrainResolvesEarliest(s: State, now: int, batch: nat, batches: seq<seq<string>>, t: State)
    requires Drains(s, now, batch, batches, t)
    ensures ResolvedEarliest(s, t, now)
    ensures |ResolvedSet(s, t, now)| == Min(|EligibleSet(s, now)|, |batches| * batch)
    decreases |batches|
  {
    hide EligibleSet;
    if batches == [] {
      assert ResolvedSet(s, t, now) == {};
    } else {
      var m := Sweep(s, batches[0], now);
      BatchResolvesEarliest(s, now, batch, batches[0]);
      DrainResolvesEarliest(m, now, batch, batches[1..], t);
      hide *;
      ResolvedOn(s, m, t, now);
      OneMoreBatch(|EligibleSet(s, now)|, |EligibleSet(m, now)|, |batches|, batch);
    }
  }
}
