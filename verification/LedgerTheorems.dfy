/** The headline facts about every run of reserve, dispatch, timeout, settle and sweep transactions. */
module LedgerTheorems {
  import opened Options
  import opened LedgerTypes
  import opened LedgerRules
  import opened LedgerRuns
  import opened LedgerBooks
  import opened LedgerTrail
  import opened LedgerReplay
  import opened LedgerAudit
  import opened LedgerRedelivery

  lemma RunSound(cfg: Settings, seed: map<string, Wallet>, calls: seq<Call>, s: State)
    requires SeedFits(seed) && Runs(cfg, Start(seed), calls, s)
    ensures Sound(seed, s)
  {
    hide Sound, SeedFits, Start;
    RunsPost(cfg, Start(seed), calls, s);
    ReachableSound(cfg, seed, s);
  }

  /** Folding the event log from the seeded wallets rebuilds the tables exactly. */
  lemma LogFaithful(cfg: Settings, seed: map<string, Wallet>, calls: seq<Call>, s: State)
    requires SeedFits(seed) && Runs(cfg, Start(seed), calls, s)
    ensures Replay(seed, s.events) == BooksOf(s)
  {
    RunSound(cfg, seed, calls, s);
  }

  /** Balance, held reservations and settled amounts of a user always add up to the seeded balance. */
  lemma MoneyConserved(cfg: Settings, seed: map<string, Wallet>, calls: seq<Call>, s: State, user: string)
    requires SeedFits(seed) && Runs(cfg, Start(seed), calls, s) && user in seed
    ensures user in s.wallets && s.wallets[user].balance >= 0
    ensures s.wallets[user].balance + Total(s.escrow, OwedBy(user)) == seed[user].balance
  {
    RunSound(cfg, seed, calls, s);
  }

  /** A trace's totals are the sums over its operations, and its reservations never pass its cap. */
  lemma TraceTotalsExact(cfg: Settings, seed: map<string, Wallet>, calls: seq<Call>, s: State, trace: string)
    requires SeedFits(seed) && Runs(cfg, Start(seed), calls, s) && trace in s.traces
    ensures s.traces[trace].reservedTotal == Total(s.escrow, ReservedOn(trace)) <= s.traces[trace].cap
    ensures s.traces[trace].settledTotal == Total(s.escrow, SettledOn(trace))
  {
    RunSound(cfg, seed, calls, s);
  }

  ghost predicate HasRefundEvent(events: seq<Event>, key: string) {
    exists i | 0 <= i < |events| :: events[i].key == key && events[i].kind.ExpiredSweep?
  }

  /** The stamps tell a refunded operation apart exactly as the log does. */
  lemma RefundedByLog(s: State, key: string)
    requires Wellformed(s) && TrailsFit(s) && key in s.escrow
    ensures Refunded(s.escrow[key]) <==> HasRefundEvent(s.events, key)
  {
    var op, trail := s.escrow[key], Trail(s.events, key);
    assert OperationFits(s, op) && TrailFits(trail, op);
    TrailKinds(trail, op);
    if HasRefundEvent(s.events, key) {
      var i :| 0 <= i < |s.events| && s.events[i].key == key && s.events[i].kind.ExpiredSweep?;
      TrailAt(s.events, i);
      assert IsRefundKind(trail[|Trail(s.events[..i], key)|]);
    }
    if Refunded(op) {
      assert IsRefundKind(trail[1]);
      TrailInLog(s.events, key, 1);
    }
  }

  /** Each budget scope stays within its cap and has consumed: the reservation of every unsettled
      operation, held or expired, the actual amount of every settled one, and once more the reservation
      of those that settled after a refunding sweep. */
  lemma ScopeUseExact(cfg: Settings, seed: map<string, Wallet>, calls: seq<Call>, s: State, scope: ScopeId)
    requires SeedFits(seed) && Runs(cfg, Start(seed), calls, s) && scope in s.scopes
    ensures s.scopes[scope].consumed == Total(s.escrow, UsedIn(scope)) <= s.scopes[scope].cap
    ensures forall k | k in s.escrow :: Refunded(s.escrow[k]) <==> HasRefundEvent(s.events, k)
  {
    RunSound(cfg, seed, calls, s);
    forall k | k in s.escrow
      ensures Refunded(s.escrow[k]) <==> HasRefundEvent(s.events, k)
    {
      RefundedByLog(s, k);
    }
  }

  /** The cap the first reserve on a scope asked for. */
  function FirstCap(cfg: Settings, ps: seq<Posting>, scope: ScopeId): Option<int>
    decreases |ps|
  {
    if ps == [] then None
    else if Touches(cfg, ps[0], scope) then Some(ReserveCaps(cfg, ps[0].r)[scope])
    else FirstCap(cfg, ps[1..], scope)
  }

  lemma ReserveOpensScopes(cfg: Settings, s: State, r: ReserveRequest, now: int, scope: ScopeId)
    requires r.user in s.wallets
    ensures var scopes := PostReserve(cfg, s, r, now).scopes;
      (scope in s.scopes ==> scope in scopes && scopes[scope].cap == s.scopes[scope].cap) &&
      (scope !in s.scopes ==> (scope in scopes <==> scope in ReserveCaps(cfg, r))) &&
      (scope !in s.scopes && scope in ReserveCaps(cfg, r) ==> scopes[scope].cap == ReserveCaps(cfg, r)[scope])
  {
    hide ReserveCaps, TraceCapOf, OpenTrace;
  }

  lemma PostOpensScopes(cfg: Settings, s: State, p: Posting, scope: ScopeId)
    requires Wellformed(s) && Fires(cfg, s, p)
    ensures scope in s.scopes ==>
              scope in Post(cfg, s, p).scopes && Post(cfg, s, p).scopes[scope].cap == s.scopes[scope].cap
    ensures scope !in s.scopes ==> (scope in Post(cfg, s, p).scopes <==> Touches(cfg, p, scope))
    ensures scope !in s.scopes && Touches(cfg, p, scope) ==>
            Post(cfg, s, p).scopes[scope].cap == ReserveCaps(cfg, p.r)[scope]
  {
    hide ReserveRefusal, ReportRefusal, SettleRefusal, PostReserve, PostSettle, Strands, ReserveCaps, AttemptsAfter,
         LoopsAfter;
    if p.SettlePosting? { SettleChargesItsOwnScopes(cfg, s, p.key, p.q, scope); }
    if p.ReservePosting? {
      ReserveUserKnown(cfg, s, p);
      ReserveOpensScopes(cfg, s, p.r, p.now, scope);
    }
    hide Wellformed, Eligible;
  }

  lemma ReserveUserKnown(cfg: Settings, s: State, p: Posting)
    requires p.ReservePosting? && Fires(cfg, s, p)
    ensures p.r.user in s.wallets
  {
    hide ScopesFit;
  }

  predicate Touches(cfg: Settings, p: Posting, scope: ScopeId) {
    p.ReservePosting? && scope in ReserveCaps(cfg, p.r)
  }

  /** A scope exists exactly when some reserve touched it, and keeps the cap its first reserve set. */
  lemma {:induction false} ScopeCapFromFirstReserve(cfg: Settings, seed: map<string, Wallet>, s: State,
      ps: seq<Posting>, t: State, scope: ScopeId)
    requires BooksBalance(seed, s) && Leads(cfg, s, ps, t)
    ensures scope in t.scopes <==> scope in s.scopes || FirstCap(cfg, ps, scope).Some?
    ensures scope in t.scopes ==> t.scopes[scope].cap == if scope in s.scopes then s.scopes[scope].cap
            else FirstCap(cfg, ps, scope).value
    decreases |ps|
  {
    if ps != [] {
      PostOpensScopes(cfg, s, ps[0], scope);
      PostBalances(cfg, seed, s, ps[0]);
      hide Fires, Post, BooksBalance, ReserveCaps;
      ScopeCapFromFirstReserve(cfg, seed, Post(cfg, s, ps[0]), ps[1..], t, scope);
    }
  }

  /** A settlement charges the four scopes its reserve charged, by what the wallet still owed, and no other. */
  lemma SettleChargesItsOwnScopes(cfg: Settings, s: State, key: string, q: SettleRequest, scope: ScopeId)
    requires Wellformed(s) && key in s.escrow
    ensures PostSettle(cfg, s, key, q).scopes.Keys == s.scopes.Keys
    ensures scope in s.scopes ==>
              PostSettle(cfg, s, key, q).scopes[scope].cap == s.scopes[scope].cap &&
              PostSettle(cfg, s, key, q).scopes[scope].consumed == s.scopes[scope].consumed +
                (if scope in ScopeIds(s.escrow[key].user, s.escrow[key].identity) then q.cost - StillHeld(s.escrow[key])
                  else 0)
  {
    var op := s.escrow[key];
    assert OperationFits(s, op);
    assert ScopeCaps(op.user, op.identity, cfg.budgets).Keys == ScopeIds(op.user, op.identity);
    hide ScopeCaps, Wellformed, AttemptsAfter, ClosingEvents, SettledWallet, SettledTrace;
  }

  function ReserveOf(c: Call): Option<ReserveRequest> {
    match c
    case ReserveCall(r, _, _) => Some(r)
    case RacingReserveCall(r, _, _) => Some(r)
    case _ => None
  }

  /** The call is a reserve that lands and charges the scope. */
  ghost predicate Charges(cfg: Settings, s: State, c: Call, scope: ScopeId) {
    ReserveOf(c).Some? && ReserveRefusal(cfg, s, ReserveOf(c).value, c.circuitOpen).None? &&
      scope in ReserveCaps(cfg, ReserveOf(c).value)
  }

  ghost function AskedCap(cfg: Settings, s: State, c: Call, scope: ScopeId): Option<int> {
    if Charges(cfg, s, c, scope) then Some(ReserveCaps(cfg, ReserveOf(c).value)[scope]) else None
  }

  /** The cap asked for by the first reserve of the run that lands on the scope. */
  ghost function FirstCapIn(cfg: Settings, s: State, calls: seq<Call>, scope: ScopeId): Option<int>
    decreases |calls|
  {
    if calls == [] then None
    else if Charges(cfg, s, calls[0], scope) then AskedCap(cfg, s, calls[0], scope)
    else FirstCapIn(cfg, Transact(cfg, s, calls[0]), calls[1..], scope)
  }

  lemma {:induction false} SweepKeepsScopes(s: State, keys: seq<string>, now: int)
    ensures Sweep(s, keys, now).scopes == s.scopes
    decreases |keys|
  {
    if keys != [] && keys[0] in s.escrow {
      assert Expire(s, keys[0], now).scopes == s.scopes;
      hide Expire;
      SweepKeepsScopes(Expire(s, keys[0], now), keys[1..], now);
    }
  }

  /** Scopes stay and keep their caps; a new one opens exactly when it is charged, at the cap asked for. */
  predicate ScopeOpens(before: map<ScopeId, Scope>, after: map<ScopeId, Scope>, scope: ScopeId, asked: Option<int>) {
    if scope in before then scope in after && after[scope].cap == before[scope].cap
    else (scope in after <==> asked.Some?) && (scope in after ==> Some(after[scope].cap) == asked)
  }

  lemma ReserveCallOpens(cfg: Settings, s: State, r: ReserveRequest, now: int, circuitOpen: bool, scope: ScopeId)
    requires ReserveRefusal(cfg, s, r, circuitOpen).None?
    ensures r.key !in s.escrow && r.user in s.wallets
    ensures ScopeOpens(s.scopes, PostReserve(cfg, s, r, now).scopes, scope,
                       if scope in ReserveCaps(cfg, r) then Some(ReserveCaps(cfg, r)[scope]) else None)
  {
    assert r.key !in s.escrow && r.user in s.wallets;
    ReserveOpensScopes(cfg, s, r, now, scope);
    hide ReserveRefusal, PostReserve, ReserveCaps;
  }

  lemma SettleCallOpens(cfg: Settings, s: State, q: SettleRequest, now: int, scope: ScopeId)
    requires Wellformed(s)
    ensures ScopeOpens(s.scopes, Settle(cfg, s, q, now).0.scopes, scope, None)
  {
    var key := Resolve(s, q);
    if key.Some? {
      SettleChargesItsOwnScopes(cfg, s, key.value, q, scope);
      hide Wellformed, Resolve, ReportRefusal, SettleRefusal, PostSettle, AttemptsAfter, LoopsAfter, IdentityAgrees,
           MatchesSettlement;
      assert ScopeOpens(s.scopes, Settle(cfg, s, q, now).0.scopes, scope, None);
    }
  }

  /** Only a reserve opens a scope, and no call changes a cap. */
  lemma CallOpensScopes(cfg: Settings, s: State, c: Call, scope: ScopeId)
    requires Wellformed(s) && Admissible(s, c)
    ensures ScopeOpens(s.scopes, Transact(cfg, s, c).scopes, scope, AskedCap(cfg, s, c, scope))
  {
    hide Wellformed, ReserveRefusal, PostReserve, ReserveCaps, Settle, Sweep;
    match c
    case SweepCall(keys, now) => SweepKeepsScopes(s, keys, now);
    case SettleCall(q, now) => SettleCallOpens(cfg, s, q, now, scope);
    case ReserveCall(r, now, circuitOpen) =>
      if ReserveRefusal(cfg, s, r, circuitOpen).None? { ReserveCallOpens(cfg, s, r, now, circuitOpen, scope); }
    case RacingReserveCall(r, now, circuitOpen) =>
      if ReserveRefusal(cfg, s, r, circuitOpen).None? { ReserveCallOpens(cfg, s, r, now, circuitOpen, scope); }
  }

  lemma {:induction false} RunOpensScopes(cfg: Settings, seed: map<string, Wallet>, s: State, calls: seq<Call>,
      t: State, scope: ScopeId)
    requires Sound(seed, s) && Runs(cfg, s, calls, t)
    ensures scope in t.scopes <==> scope in s.scopes || FirstCapIn(cfg, s, calls, scope).Some?
    ensures scope in t.scopes ==>
              t.scopes[scope].cap == if scope in s.scopes then s.scopes[scope].cap
                else FirstCapIn(cfg, s, calls, scope).value
    decreases |calls|
  {
    if calls != [] {
      hide Sound, Wellformed, Transact, Charges, ReserveCaps, Later, Admissible;
      SoundIsWellformed(seed, s);
      CallOpensScopes(cfg, s, calls[0], scope);
      TransactPosts(cfg, s, calls[0]);
      LaterSound(cfg, seed, s, Transact(cfg, s, calls[0]));
      RunOpensScopes(cfg, seed, Transact(cfg, s, calls[0]), calls[1..], t, scope);
    }
  }

  /** After any run, a scope exists exactly when some reserve landed on it, and its cap is the one the first
      such reserve asked for. */
  lemma RunScopeCap(cfg: Settings, seed: map<string, Wallet>, calls: seq<Call>, s: State, scope: ScopeId)
    requires SeedFits(seed) && Runs(cfg, Start(seed), calls, s)
    ensures scope in s.scopes <==> FirstCapIn(cfg, Start(seed), calls, scope).Some?
    ensures scope in s.scopes ==> FirstCapIn(cfg, Start(seed), calls, scope) == Some(s.scopes[scope].cap)
  {
    StartSound(seed);
    RunOpensScopes(cfg, seed, Start(seed), calls, s, scope);
    hide Sound, Runs, FirstCapIn;
  }

  /** Each key's events follow the language of `TrailFits`; only operations in the table have events. */
  lemma EventLanguage(cfg: Settings, seed: map<string, Wallet>, calls: seq<Call>, s: State, key: string)
    requires SeedFits(seed) && Runs(cfg, Start(seed), calls, s)
    ensures if key in s.escrow then TrailFits(Trail(s.events, key), s.escrow[key]) else Trail(s.events, key) == []
  {
    RunSound(cfg, seed, calls, s);
    if key !in s.escrow { NoTrail(s.events, key); }
  }

  /** No dispatched operation is auto-refunded, and one key is debited once: where the log holds a sweep
      refund of a key it holds no dispatch of it, and it holds one reserve of the key at most, also when
      several reserves of the key raced past the lookup. */
  lemma RefundExcludesDispatch(cfg: Settings, seed: map<string, Wallet>, calls: seq<Call>, s: State, i: nat, j: nat)
    requires SeedFits(seed) && Runs(cfg, Start(seed), calls, s)
    requires i < |s.events| && j < |s.events| && i != j && s.events[i].key == s.events[j].key
    ensures s.events[i].kind.ExpiredSweep? ==> !IsReport(s.events[j].kind)
    ensures s.events[i].kind.ReserveCreated? ==> !s.events[j].kind.ReserveCreated?
  {
    RunSound(cfg, seed, calls, s);
    var key := s.events[i].key;
    assert s.events[i] in s.events && OperationFits(s, s.escrow[key]);
    assert TrailFits(Trail(s.events, key), s.escrow[key]);
    var a, b := TrailHasBoth(s.events, if i < j then i else j, if i < j then j else i);
    TrailKinds(Trail(s.events, key), s.escrow[key]);
    hide *;
    KindsApart(Trail(s.events, key), Refunded(s.escrow[key]), a, b, s.events[i].kind, s.events[j].kind);
  }

  lemma KindsApart(trail: seq<EventKind>, refunded: bool, a: nat, b: nat, x: EventKind, y: EventKind)
    requires a < b < |trail| && ((trail[a] == x && trail[b] == y) || (trail[a] == y && trail[b] == x))
    requires forall i | 0 <= i < |trail| :: trail[i].ReserveCreated? <==> i == 0
    requires forall i | 0 <= i < |trail| :: IsRefundKind(trail[i]) <==> refunded && i == 1
    requires refunded ==> forall i | 0 <= i < |trail| :: !IsReport(trail[i])
    ensures x.ExpiredSweep? ==> !IsReport(y)
    ensures x.ReserveCreated? ==> !y.ReserveCreated?
  {
    assert IsRefundKind(trail[a]) || IsRefundKind(trail[b]) || !x.ExpiredSweep?;
  }

  /** An operation still RESERVED never has an open dispatch attempt. */
  lemma ReservedHasNoAttempt(cfg: Settings, seed: map<string, Wallet>, calls: seq<Call>, s: State, key: string)
    requires SeedFits(seed) && Runs(cfg, Start(seed), calls, s) && key in s.escrow && s.escrow[key].status.Reserved?
    ensures !OpenAttempts(s, key)
  {
    RunSound(cfg, seed, calls, s);
    forall a | a in s.attempts ensures s.attempts[a].operation != key { assert AttemptFits(s, s.attempts[a]); }
  }

  /** After a user's wallet was locked for drift, no later reserve of that user is in the log. */
  lemma LockStopsReserves(cfg: Settings, seed: map<string, Wallet>, calls: seq<Call>, s: State)
    requires SeedFits(seed) && Runs(cfg, Start(seed), calls, s)
    ensures NoReserveAfterLock(s.events)
    ensures forall u | u in s.wallets :: u in seed && s.wallets[u].active == (seed[u].active && !Locked(s.events, u))
  {
    RunSound(cfg, seed, calls, s);
  }

  /** The finance audit finds nothing in any reachable state. */
  lemma AuditNeverFires(cfg: Settings, seed: map<string, Wallet>, calls: seq<Call>, s: State)
    requires SeedFits(seed) && Runs(cfg, Start(seed), calls, s)
    ensures AuditClean(s)
  {
    RunSound(cfg, seed, calls, s);
    AuditPasses(seed, s);
  }

  /** A settled request redelivered at any later point of a run changes nothing. */
  lemma RunSettleRedelivered(
      cfg: Settings, seed: map<string, Wallet>, before: seq<Call>, s: State, q: SettleRequest, now: int,
      after: seq<Call>, t: State, later: int)
    requires SeedFits(seed) && Runs(cfg, Start(seed), before, s)
    requires q.outcome.Settled? && Settle(cfg, s, q, now).1.Accepted?
    requires Runs(cfg, Settle(cfg, s, q, now).0, after, t)
    ensures Settle(cfg, t, q, later).0 == t
    ensures Given(q.key) ==> Settle(cfg, t, q, later).1 == Settle(cfg, s, q, now).1
    ensures !Given(q.key) ==>
              Settle(cfg, t, q, later).1 ==
                if exists a :: CarriesId(t, a, q.providerRequest) then Settle(cfg, s, q, now).1 else Refused(NotFound)
  {
    RunSound(cfg, seed, before, s);
    RunsPost(cfg, Settle(cfg, s, q, now).0, after, t);
    hide Settle, Later, Sound;
    assert Wellformed(s) by { SoundIsWellformed(seed, s); }
    SettleRedelivered(cfg, s, q, now, t, later);
  }

  lemma SoundIsWellformed(seed: map<string, Wallet>, s: State)
    requires Sound(seed, s)
    ensures Wellformed(s)
  {
  }

  /** A reserve redelivered at any later point of a run changes nothing, even when it races the lookup. */
  lemma RunReserveRedelivered(
      cfg: Settings, s: State, r: ReserveRequest, now: int, after: seq<Call>, t: State, later: int, circuitOpen: bool)
    requires Reserve(cfg, s, r, now, false).1.Accepted?
    requires Runs(cfg, Reserve(cfg, s, r, now, false).0, after, t)
    ensures Reserve(cfg, t, r, later, circuitOpen).0 == t && Reserve(cfg, t, r, later, circuitOpen).1.Accepted?
    ensures ReserveUnseen(cfg, t, r, later, circuitOpen).0 == t &&
            ReserveUnseen(cfg, t, r, later, circuitOpen).1.Refused?
  {
    RunsPost(cfg, Reserve(cfg, s, r, now, false).0, after, t);
    hide Reserve, ReserveUnseen, Later;
    ReserveRedelivered(cfg, s, r, now, t, later, circuitOpen);
  }
}
