/** What the ledger answers a request, told from the calls before it. */
module LedgerAnswers {
  import opened Options
  import opened LedgerTypes
  import opened LedgerRules
  import opened LedgerRuns
  import opened LedgerBooks
  import opened LedgerReplay
  import opened LedgerAudit
  import opened LedgerRedelivery
  import opened LedgerTheorems

  /** The answer of a call; a sweep gives none. */
  ghost function AnswerTo(cfg: Settings, s: State, c: Call): Option<Outcome> {
    match c
    case ReserveCall(r, now, circuitOpen) => Some(Reserve(cfg, s, r, now, circuitOpen).1)
    case RacingReserveCall(r, now, circuitOpen) => Some(ReserveUnseen(cfg, s, r, now, circuitOpen).1)
    case SettleCall(q, now) => Some(Settle(cfg, s, q, now).1)
    case SweepCall(_, _) => None
  }

  /** A reserve of the key is answered with acceptance. */
  ghost predicate ReserveAccepted(cfg: Settings, s: State, c: Call, key: string) {
    (c.ReserveCall? || c.RacingReserveCall?) && c.r.key == key && AnswerTo(cfg, s, c).value.Accepted?
  }

  /** A settlement is answered with acceptance for the key. */
  ghost predicate SettlementAccepted(cfg: Settings, s: State, c: Call, key: string) {
    c.SettleCall? && c.q.outcome.Settled? && AnswerTo(cfg, s, c).value.Accepted? && AnswerTo(cfg, s, c).value.key == key
  }

  /** The first accepted reserve of the key. */
  ghost function FirstReserve(cfg: Settings, s: State, calls: seq<Call>, key: string): (first: Option<Call>)
    ensures first.Some? ==> (first.value.ReserveCall? || first.value.RacingReserveCall?) && first.value.r.key == key
    decreases |calls|
  {
    if calls == [] then None
    else if ReserveAccepted(cfg, s, calls[0], key) then Some(calls[0])
    else FirstReserve(cfg, Transact(cfg, s, calls[0]), calls[1..], key)
  }

  /** The cost of the first accepted settlement of the key. */
  ghost function SettledCost(cfg: Settings, s: State, calls: seq<Call>, key: string): Option<int>
    decreases |calls|
  {
    if calls == [] then None
    else if SettlementAccepted(cfg, s, calls[0], key) then Some(calls[0].q.cost)
    else SettledCost(cfg, Transact(cfg, s, calls[0]), calls[1..], key)
  }

  // ---------- one call and one row ----------

  /** A stored name is the one given, unless that is missing or empty. */
  predicate Names(stored: string, given: Option<string>, default: string) {
    stored == if given.Some? && given.value != "" then given.value else default
  }

  /** What a reserve call fixes about its operation for good. */
  predicate Describes(cfg: Settings, op: Operation, c: Call)
    requires c.ReserveCall? || c.RacingReserveCall?
  {
    op.fingerprint == Fingerprint(c.r.cost, c.r.model, c.r.traceCap, c.r.trace, c.r.user) &&
    op.reserved == c.r.cost && op.expiresAt == c.now + cfg.reserveTtl && op.user == c.r.user && op.trace == c.r.trace &&
    op.model == c.r.model &&
    Names(op.identity.tenant, c.r.tenant, "default-tenant") &&
    Names(op.identity.session, c.r.session, "default-session") &&
    Names(op.identity.run, c.r.run, "default-agent-run") && Names(op.identity.step, c.r.step, "default-workflow-step")
  }

  predicate OpenedBy(cfg: Settings, op: Operation, c: Call)
    requires c.ReserveCall? || c.RacingReserveCall?
  {
    Describes(cfg, op, c) && op.actual == 0 && op.status.Reserved?
  }

  lemma ReserveRow(cfg: Settings, s: State, c: Call, key: string)
    requires c.ReserveCall? || c.RacingReserveCall?
    ensures var t := Transact(cfg, s, c);
      (key in s.escrow ==> key in t.escrow && t.escrow[key] == s.escrow[key]) &&
      (key !in s.escrow ==>
        (key in t.escrow <==> ReserveAccepted(cfg, s, c, key)) && (key in t.escrow ==> OpenedBy(cfg, t.escrow[key], c)))
  {
    if ReserveRefusal(cfg, s, c.r, c.circuitOpen).None? {
      ReserveCallOpens(cfg, s, c.r, c.now, c.circuitOpen, UserScope(""));
      NewRow(cfg, s, c);
    }
    assert c.r.key in s.escrow ==> ReserveRefusal(cfg, s, c.r, c.circuitOpen).Some? by {
      hide ScopesFit, ReserveCaps, WalletCovers;
    }
    hide ReserveRefusal, PostReserve, OpenedBy, ReserveCaps;
  }

  lemma NewRow(cfg: Settings, s: State, c: Call)
    requires (c.ReserveCall? || c.RacingReserveCall?) && c.r.user in s.wallets
    ensures var t := PostReserve(cfg, s, c.r, c.now);
      c.r.key in t.escrow && t.escrow == s.escrow[c.r.key := t.escrow[c.r.key]] &&
      OpenedBy(cfg, t.escrow[c.r.key], c)
  {
    hide ChargeScopes, ReserveCaps, TraceCapOf, OpenTrace;
  }

  lemma SettleRow(cfg: Settings, s: State, q: SettleRequest, now: int, key: string)
    requires Wellformed(s)
    ensures var t := Settle(cfg, s, q, now).0;
      t.escrow.Keys == s.escrow.Keys &&
      (key !in s.escrow ==> !SettlementAccepted(cfg, s, SettleCall(q, now), key)) &&
      (key in s.escrow && !s.escrow[key].status.Settled? ==>
        (t.escrow[key].status.Settled? <==> SettlementAccepted(cfg, s, SettleCall(q, now), key)) &&
        (t.escrow[key].status.Settled? ==> t.escrow[key].actual == q.cost) &&
        (!t.escrow[key].status.Settled? ==> t.escrow[key].actual == s.escrow[key].actual))
  {
    hide Wellformed, Resolve, ReportRefusal, SettleRefusal, AttemptsAfter, LoopsAfter, IdentityAgrees, ClosingEvents,
         ChargeScopes, SettledWallet, SettledTrace, MatchesSettlement;
  }

  lemma {:induction false} SweepRows(s: State, keys: seq<string>, now: int, key: string)
    requires SweepOf(s, keys, now)
    ensures var t := Sweep(s, keys, now);
      t.escrow.Keys == s.escrow.Keys &&
      (key in s.escrow && !s.escrow[key].status.Settled? ==>
        !t.escrow[key].status.Settled? && t.escrow[key].actual == s.escrow[key].actual)
    decreases |keys|
  {
    if keys != [] {
      var t := Expire(s, keys[0], now);
      assert Eligible(s, keys[0], now);
      forall i | 0 <= i < |keys[1..]|
        ensures Eligible(t, keys[1..][i], now)
      {
        ExpireKeepsOthers(s, keys[0], now, keys[i + 1]);
      }
      hide Eligible, Strands;
      SweepRows(t, keys[1..], now, key);
    }
  }

  /** What a call does to the row of a key: it may open it, settle it, or leave it as far as told here. */
  lemma CallRow(cfg: Settings, s: State, c: Call, key: string)
    requires Wellformed(s) && Admissible(s, c)
    ensures var t := Transact(cfg, s, c);
      (key !in s.escrow ==>
        !SettlementAccepted(cfg, s, c, key) && (key in t.escrow <==> ReserveAccepted(cfg, s, c, key)) &&
        (key in t.escrow ==> OpenedBy(cfg, t.escrow[key], c))) &&
      (key in s.escrow ==> key in t.escrow && RowLasts(s.escrow[key], t.escrow[key])) &&
      (key in s.escrow && !s.escrow[key].status.Settled? ==>
        (t.escrow[key].status.Settled? <==> SettlementAccepted(cfg, s, c, key)) &&
        (t.escrow[key].status.Settled? ==> t.escrow[key].actual == c.q.cost) &&
        (!t.escrow[key].status.Settled? ==> t.escrow[key].actual == s.escrow[key].actual))
  {
    var t := Transact(cfg, s, c);
    TransactPosts(cfg, s, c);
    var ps :| Leads(cfg, s, ps, t);
    LeadsKeepsRows(cfg, s, ps, t);
    hide Leads, Settle, Reserve, ReserveUnseen, Sweep, Wellformed, OpenedBy, RowLasts;
    match c
    case SettleCall(q, now) => SettleRow(cfg, s, q, now, key);
    case SweepCall(keys, now) => SweepRows(s, keys, now, key);
    case ReserveCall(r, now, circuitOpen) => ReserveRow(cfg, s, c, key);
    case RacingReserveCall(r, now, circuitOpen) => ReserveRow(cfg, s, c, key);
  }

  // ---------- a row by its history ----------

  /** The row is settled exactly at the amount told, and at nothing while none is. */
  predicate SettledAs(op: Operation, cost: Option<int>) {
    if cost.Some? then op.status.Settled? && op.actual == cost.value else !op.status.Settled? && op.actual == 0
  }

  lemma {:induction false} KnownRowHistory(
      cfg: Settings, seed: map<string, Wallet>, s: State, calls: seq<Call>, t: State, key: string)
    requires Sound(seed, s) && Runs(cfg, s, calls, t) && key in s.escrow
    ensures key in t.escrow && RowLasts(s.escrow[key], t.escrow[key])
    ensures !s.escrow[key].status.Settled? && s.escrow[key].actual == 0 ==>
              SettledAs(t.escrow[key], SettledCost(cfg, s, calls, key))
    decreases |calls|
  {
    if calls != [] {
      var m := Transact(cfg, s, calls[0]);
      SoundIsWellformed(seed, s);
      CallRow(cfg, s, calls[0], key);
      TransactPosts(cfg, s, calls[0]);
      LaterSound(cfg, seed, s, m);
      hide Sound, Wellformed, Transact, Later, Admissible, SettlementAccepted, ReserveAccepted, OpenedBy, RowLasts;
      KnownRowHistory(cfg, seed, m, calls[1..], t, key);
      RowLastsOn(s.escrow[key], m.escrow[key], t.escrow[key]);
    } else {
      assert RowLasts(s.escrow[key], t.escrow[key]);
    }
  }

  lemma RowLastsOn(first: Operation, second: Operation, third: Operation)
    requires RowLasts(first, second) && RowLasts(second, third)
    ensures RowLasts(first, third)
    ensures first.status.Settled? ==> second == first
    ensures second.status.Settled? ==> third == second
  {
  }

  lemma StillDescribes(cfg: Settings, before: Operation, after: Operation, c: Call)
    requires (c.ReserveCall? || c.RacingReserveCall?) && Describes(cfg, before, c) && RowLasts(before, after)
    ensures Describes(cfg, after, c)
  {
    hide Names;
  }

  /** Every row is what the first accepted reserve of its key says, settled at the cost of the first accepted
      settlement if there is one. */
  lemma {:induction false} RowHistory(
      cfg: Settings, seed: map<string, Wallet>, s: State, calls: seq<Call>, t: State, key: string)
    requires Sound(seed, s) && Runs(cfg, s, calls, t) && key !in s.escrow
    ensures key in t.escrow <==> FirstReserve(cfg, s, calls, key).Some?
    ensures key in t.escrow ==>
              Describes(cfg, t.escrow[key], FirstReserve(cfg, s, calls, key).value) &&
              SettledAs(t.escrow[key], SettledCost(cfg, s, calls, key))
    decreases |calls|
  {
    if calls != [] {
      var m := Transact(cfg, s, calls[0]);
      SoundIsWellformed(seed, s);
      CallRow(cfg, s, calls[0], key);
      TransactPosts(cfg, s, calls[0]);
      LaterSound(cfg, seed, s, m);
      hide Sound, Wellformed, Transact, Later, Admissible, SettlementAccepted, ReserveAccepted, Describes, RowLasts;
      if key in m.escrow {
        KnownRowHistory(cfg, seed, m, calls[1..], t, key);
        StillDescribes(cfg, m.escrow[key], t.escrow[key], calls[0]);
      } else {
        RowHistory(cfg, seed, m, calls[1..], t, key);
      }
    }
  }

  // ---------- a reserve sent again ----------

  /** A reserve whose key is in use is answered from the key's history, and changes nothing: with the status
      the log tells, and the reserved cost, or the settled one once there is one, when the request is the
      first one again in cost, model, trace, user and trace cap; and as a conflict when it is not. */
  lemma ReserveReplayAnswer(cfg: Settings, seed: map<string, Wallet>, calls: seq<Call>, t: State, r: ReserveRequest,
      now: int, circuitOpen: bool)
    requires SeedFits(seed) && Runs(cfg, Start(seed), calls, t)
    requires FirstReserve(cfg, Start(seed), calls, r.key).Some?
    ensures var first := FirstReserve(cfg, Start(seed), calls, r.key).value.r;
      var settled := SettledCost(cfg, Start(seed), calls, r.key);
      var told := Replay(seed, t.events).accounts;
      r.key in told &&
      Reserve(cfg, t, r, now, circuitOpen) ==
        (t, if r.cost == first.cost && r.model == first.model && r.trace == first.trace && r.user == first.user &&
               r.traceCap == first.traceCap
            then Accepted(r.key, told[r.key].status, if settled.Some? then settled.value else first.cost)
            else Refused(Conflict))
    ensures SettledCost(cfg, Start(seed), calls, r.key).Some? <==>
            Replay(seed, t.events).accounts[r.key].status.Settled?
  {
    StartSound(seed);
    RowHistory(cfg, seed, Start(seed), calls, t, r.key);
    LogFaithful(cfg, seed, calls, t);
    hide Sound, Runs, Replay, FirstReserve, SettledCost, Names, ReserveUnseen;
  }

  // ---------- a settlement sent again ----------

  /** The identity a settle request names agrees with the operation's, wherever it names one. */
  predicate NamesSame(q: SettleRequest, i: Identity) {
    (q.tenant.Some? && q.tenant.value != "" ==> q.tenant.value == i.tenant) &&
    (q.session.Some? && q.session.value != "" ==> q.session.value == i.session) &&
    (q.run.Some? && q.run.value != "" ==> q.run.value == i.run) &&
    (q.step.Some? && q.step.value != "" ==> q.step.value == i.step)
  }

  /** Any later settlement of a settled key: it changes nothing, and is accepted exactly when it names the
      settled cost again and no provider request id but the one recorded. */
  lemma SettleReplayAnswer(cfg: Settings, seed: map<string, Wallet>, calls: seq<Call>, t: State, q: SettleRequest,
      now: int, key: string)
    requires SeedFits(seed) && Runs(cfg, Start(seed), calls, t)
    requires SettledCost(cfg, Start(seed), calls, key).Some?
    requires q.outcome.Settled? && Resolve(t, q) == Some(key)
    ensures var cost := SettledCost(cfg, Start(seed), calls, key).value;
      key in t.escrow &&
      Settle(cfg, t, q, now) ==
        (t, if !NamesSame(q, t.escrow[key].identity) then Refused(PolicyState)
            else if q.cost != cost then Refused(Conflict)
            else if q.providerRequest.Some? && q.providerRequest.value != "" &&
              q.providerRequest != t.escrow[key].providerRequest
            then Refused(Conflict)
            else Accepted(key, Settled, cost))
  {
    StartSound(seed);
    RowHistory(cfg, seed, Start(seed), calls, t, key);
    assert key in t.escrow;
    NamesFilled(cfg, t.escrow[key], FirstReserve(cfg, Start(seed), calls, key).value);
    hide Sound, Runs, FirstReserve, SettledCost, Describes, Resolve, Start;
  }

  /** All accepted settlements of one key name one amount. */
  lemma OneAmount(cfg: Settings, seed: map<string, Wallet>, calls: seq<Call>, t: State, c: Call, key: string)
    requires SeedFits(seed) && Runs(cfg, Start(seed), calls, t) && SettlementAccepted(cfg, t, c, key)
    ensures var settled := SettledCost(cfg, Start(seed), calls, key);
      settled.Some? ==> c.q.cost == settled.value && AnswerTo(cfg, t, c) == Some(Accepted(key, Settled, settled.value))
  {
    assert Resolve(t, c.q) == Some(key) by {
      hide Resolve, Finalize, RecordReport, IdentityAgrees;
      AnswerNamesKey(cfg, t, c.q, c.now);
    }
    if SettledCost(cfg, Start(seed), calls, key).Some? { SettleReplayAnswer(cfg, seed, calls, t, c.q, c.now, key); }
    hide Runs, SettledCost, Resolve, NamesSame, Start, SeedFits;
  }

  lemma AnswerNamesKey(cfg: Settings, s: State, q: SettleRequest, now: int)
    ensures var answer := Settle(cfg, s, q, now).1;
      answer.Accepted? ==> Resolve(s, q) == Some(answer.key) && answer.status == q.outcome
  {
    hide Resolve, SettleRefusal, ReportRefusal, PostSettle, PostReport, IdentityAgrees, MatchesSettlement;
  }

  // ---------- the time to live ----------

  /** A sweep may take an operation exactly when the log has it open and not stranded, and the time to live has
      passed since its first reserve. */
  lemma SweepWaits(cfg: Settings, seed: map<string, Wallet>, calls: seq<Call>, t: State, key: string, now: int)
    requires SeedFits(seed) && Runs(cfg, Start(seed), calls, t)
    ensures var first, told := FirstReserve(cfg, Start(seed), calls, key), Replay(seed, t.events).accounts;
      Eligible(t, key, now) <==>
        first.Some? && first.value.now + cfg.reserveTtl <= now && key in told &&
        told[key].status in {Reserved, InFlight, ProviderTimeout}
  {
    StartSound(seed);
    RowHistory(cfg, seed, Start(seed), calls, t, key);
    LogFaithful(cfg, seed, calls, t);
    hide Sound, Runs, Replay, FirstReserve, SettledCost, Names;
  }

  /** No part of an operation's identity is empty. */
  lemma NamesFilled(cfg: Settings, op: Operation, c: Call)
    requires (c.ReserveCall? || c.RacingReserveCall?) && Describes(cfg, op, c)
    ensures op.identity.tenant != "" && op.identity.session != "" && op.identity.run != "" && op.identity.step != ""
  {
  }
}
