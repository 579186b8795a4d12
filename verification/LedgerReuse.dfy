/** A settlement that named only its provider request id, sent again: it finds its operation exactly until
    another report takes over its dispatch attempt under another id. */
module LedgerReuse {
  import opened Options
  import opened LedgerTypes
  import opened LedgerRules
  import opened LedgerRuns
  import opened LedgerBooks
  import opened LedgerAudit
  import opened LedgerRedelivery
  import opened LedgerTheorems

  /** A settle request takes effect and writes another provider request id to this attempt. */
  ghost predicate Reuses(cfg: Settings, s: State, c: Call, attemptKey: string, id: Option<string>) {
    c.SettleCall? && Given(c.q.attemptKey) && c.q.attemptKey.value == attemptKey &&
    c.q.providerRequest.Some? && c.q.providerRequest != id && Transact(cfg, s, c) != s
  }

  ghost predicate ReusedIn(cfg: Settings, s: State, calls: seq<Call>, attemptKey: string, id: Option<string>)
    decreases |calls|
  {
    calls != [] &&
    (Reuses(cfg, s, calls[0], attemptKey, id) || ReusedIn(cfg, Transact(cfg, s, calls[0]), calls[1..], attemptKey, id))
  }

  /** The operation is settled under the id, through this attempt, and no other attempt carries the id. */
  ghost predicate Owned(s: State, key: string, attemptKey: string, id: Option<string>) {
    id.Some? && key in s.escrow && s.escrow[key].status.Settled? && s.escrow[key].providerRequest == id &&
    attemptKey in s.attempts && s.attempts[attemptKey].operation == key &&
    forall a | a in s.attempts && a != attemptKey :: s.attempts[a].providerRequest != id
  }

  predicate Carried(s: State, attemptKey: string, id: Option<string>) {
    attemptKey in s.attempts && s.attempts[attemptKey].providerRequest == id
  }

  lemma ExpireKeepsOwned(s: State, expired: string, now: int, key: string, attemptKey: string, id: Option<string>)
    requires Eligible(s, expired, now) && Owned(s, key, attemptKey, id)
    ensures Expire(s, expired, now).attempts == s.attempts && Owned(Expire(s, expired, now), key, attemptKey, id)
  {
    hide OpenAttempts;
  }

  lemma {:induction false} SweepKeepsOwned(
      s: State, keys: seq<string>, now: int, key: string, attemptKey: string, id: Option<string>)
    requires SweepOf(s, keys, now) && Owned(s, key, attemptKey, id)
    ensures Sweep(s, keys, now).attempts == s.attempts && Owned(Sweep(s, keys, now), key, attemptKey, id)
    decreases |keys|
  {
    if keys != [] {
      var t := Expire(s, keys[0], now);
      assert Eligible(s, keys[0], now);
      ExpireKeepsOwned(s, keys[0], now, key, attemptKey, id);
      forall i | 0 <= i < |keys[1..]|
        ensures Eligible(t, keys[1..][i], now)
      {
        ExpireKeepsOthers(s, keys[0], now, keys[i + 1]);
      }
      hide Expire, Owned, Eligible;
      SweepKeepsOwned(t, keys[1..], now, key, attemptKey, id);
    }
  }

  /** A settle request that takes effect writes at most its own attempt, and no id that is taken. */
  lemma SettleKeepsOwned(cfg: Settings, s: State, q: SettleRequest, now: int, key: string, attemptKey: string,
      id: Option<string>)
    requires Owned(s, key, attemptKey, id) && Settle(cfg, s, q, now).0 != s
    ensures var t := Settle(cfg, s, q, now).0;
      Owned(t, key, attemptKey, id) &&
      (Carried(t, attemptKey, id) <==>
        Carried(s, attemptKey, id) && !Reuses(cfg, s, SettleCall(q, now), attemptKey, id))
  {
    var own := Resolve(s, q).value;
    assert own != key;
    assert !OperationIdTaken(s.escrow, own, Coalesce(q.providerRequest, s.escrow[own].providerRequest));
    assert q.providerRequest != id;
    var t := Settle(cfg, s, q, now).0;
    assert t.attempts == AttemptsAfter(s, own, q);
    assert t.escrow[key] == s.escrow[key];
    hide Settle, SettleResolved, ClosingEvents, AttemptRefused, LoopTripped, Overdraws;
  }

  lemma CallKeepsOwned(cfg: Settings, s: State, c: Call, key: string, attemptKey: string, id: Option<string>)
    requires Owned(s, key, attemptKey, id) && Admissible(s, c)
    ensures var t := Transact(cfg, s, c);
      Owned(t, key, attemptKey, id) &&
      (Carried(t, attemptKey, id) <==> Carried(s, attemptKey, id) && !Reuses(cfg, s, c, attemptKey, id))
  {
    match c
    case SettleCall(q, now) =>
      hide Owned, Settle, Carried;
      if Settle(cfg, s, q, now).0 != s { SettleKeepsOwned(cfg, s, q, now, key, attemptKey, id); }
    case SweepCall(keys, now) =>
      SweepKeepsOwned(s, keys, now, key, attemptKey, id);
    case ReserveCall(r, now, circuitOpen) =>
      hide ScopesFit, ChargeScopes, NeedsApproval, WalletCovers;
    case RacingReserveCall(r, now, circuitOpen) =>
      hide ScopesFit, ChargeScopes, NeedsApproval, WalletCovers;
  }

  lemma {:induction false} RunKeepsOwned(
      cfg: Settings, s: State, calls: seq<Call>, t: State, key: string, attemptKey: string, id: Option<string>)
    requires Owned(s, key, attemptKey, id) && Runs(cfg, s, calls, t)
    ensures Owned(t, key, attemptKey, id)
    ensures Carried(t, attemptKey, id) <==> Carried(s, attemptKey, id) && !ReusedIn(cfg, s, calls, attemptKey, id)
    decreases |calls|
  {
    if calls != [] {
      CallKeepsOwned(cfg, s, calls[0], key, attemptKey, id);
      hide Owned, Carried, Transact, Reuses, Admissible;
      RunKeepsOwned(cfg, Transact(cfg, s, calls[0]), calls[1..], t, key, attemptKey, id);
    }
  }

  /** A settlement found by provider request id leaves the id on exactly one attempt, its operation's own. */
  lemma SettledThroughOneAttempt(cfg: Settings, s: State, q: SettleRequest, now: int, attemptKey: string)
    requires Wellformed(s) && q.outcome.Settled? && !Given(q.key) && Settle(cfg, s, q, now).1.Accepted?
    requires CarriesId(s, attemptKey, q.providerRequest)
    ensures Resolve(s, q).Some? && Owned(Settle(cfg, s, q, now).0, Resolve(s, q).value, attemptKey, q.providerRequest)
    ensures Carried(Settle(cfg, s, q, now).0, attemptKey, q.providerRequest)
  {
    SettledOnce(cfg, s, q, now);
    assert IdsUnique(s);
    var key := Resolve(s, q).value;
    assert Given(q.providerRequest);
    assert s.attempts[attemptKey].operation == key;
    hide Wellformed, ScopesFit, ChargeScopes, ClosingEvents, SettledTrace, SettledWallet, Resolve, IdentityAgrees,
         Overdraws, MatchesSettlement;
  }

  /** A request that settled an operation by its provider request id alone, sent again after any calls: it
      gets the same answer exactly until one of them takes over the attempt under another id, and from
      then on finds nothing. */
  lemma AnsweredUntilReused(
      cfg: Settings, seed: map<string, Wallet>, before: seq<Call>, s: State, q: SettleRequest, now: int,
      after: seq<Call>, t: State, later: int, attemptKey: string)
    requires SeedFits(seed) && Runs(cfg, Start(seed), before, s)
    requires q.outcome.Settled? && !Given(q.key) && Settle(cfg, s, q, now).1.Accepted?
    requires CarriesId(s, attemptKey, q.providerRequest)
    requires Runs(cfg, Settle(cfg, s, q, now).0, after, t)
    ensures Settle(cfg, t, q, later).0 == t
    ensures Settle(cfg, t, q, later).1 ==
              if ReusedIn(cfg, Settle(cfg, s, q, now).0, after, attemptKey, q.providerRequest) then Refused(NotFound)
              else Settle(cfg, s, q, now).1
  {
    var m := Settle(cfg, s, q, now).0;
    RunSettleRedelivered(cfg, seed, before, s, q, now, after, t, later);
    RunSound(cfg, seed, before, s);
    SoundIsWellformed(seed, s);
    hide Sound, Settle, Runs, ReusedIn, Wellformed, Start;
    SettledThroughOneAttempt(cfg, s, q, now, attemptKey);
    var key := Resolve(s, q).value;
    RunKeepsOwned(cfg, m, after, t, key, attemptKey, q.providerRequest);
    assert (exists a :: CarriesId(t, a, q.providerRequest)) <==> CarriesId(t, attemptKey, q.providerRequest);
  }
}
