/** Dispatch and timeout reports: the loop counter, its limit, and the whole answer to a report. */
module LedgerLoops {
  import opened Options
  import opened LedgerTypes
  import opened LedgerRules
  import opened LedgerRuns
  import opened LedgerBooks
  import opened LedgerReplay
  import opened LedgerAudit
  import opened LedgerTheorems
  import opened LedgerAnswers
  import opened LedgerGuards

  /** A dispatch or timeout report is answered with acceptance, for an operation of this run, step and signature. */
  ghost predicate ReportAccepted(cfg: Settings, s: State, c: Call, loop: string) {
    c.SettleCall? && !c.q.outcome.Settled? && c.q.loopSignature.Some? && c.q.loopSignature.value != "" &&
    AnswerTo(cfg, s, c).value.Accepted? && AnswerTo(cfg, s, c).value.key in s.escrow &&
    var i := s.escrow[AnswerTo(cfg, s, c).value.key].identity;
    loop == i.run + ":" + i.step + ":" + c.q.loopSignature.value
  }

  /** How many reports were accepted under this run, step and signature. */
  ghost function Landed(cfg: Settings, s: State, calls: seq<Call>, loop: string): nat
    decreases |calls|
  {
    if calls == [] then 0
    else
      var later := Landed(cfg, Transact(cfg, s, calls[0]), calls[1..], loop);
      if ReportAccepted(cfg, s, calls[0], loop) then later + 1 else later
  }

  function CountOf(loops: map<string, nat>, loop: string): nat {
    if loop in loops then loops[loop] else 0
  }

  /** A row of the counter table counts at least one report. */
  predicate Counting(loops: map<string, nat>) {
    forall l | l in loops :: loops[l] > 0
  }

  lemma ReportCounts(cfg: Settings, s: State, key: string, q: SettleRequest, now: int, loop: string)
    requires key in s.escrow && !q.outcome.Settled?
    ensures var t := RecordReport(cfg, s, key, q, now).0;
      var c := SettleCall(q, now);
      (Settle(cfg, s, q, now) == RecordReport(cfg, s, key, q, now) ==>
        CountOf(t.loops, loop) == CountOf(s.loops, loop) + if ReportAccepted(cfg, s, c, loop) then 1 else 0) &&
      (Counting(s.loops) ==> Counting(t.loops)) &&
      (CountOf(t.loops, loop) > CountOf(s.loops, loop) ==>
        CountOf(s.loops, loop) < cfg.maxLoopRepeats || CountOf(s.loops, loop) == 0)
  {
    hide Settle, AttemptRefused, OperationIdTaken, AttemptsAfter, Coalesce;
  }

  lemma {:induction false} SweepKeepsLoops(s: State, keys: seq<string>, now: int)
    ensures Sweep(s, keys, now).loops == s.loops
    decreases |keys|
  {
    if keys != [] && keys[0] in s.escrow {
      assert Expire(s, keys[0], now).loops == s.loops;
      hide Expire;
      SweepKeepsLoops(Expire(s, keys[0], now), keys[1..], now);
    }
  }

  lemma ReserveKeepsLoops(cfg: Settings, s: State, r: ReserveRequest, now: int, circuitOpen: bool)
    ensures Reserve(cfg, s, r, now, circuitOpen).0.loops == s.loops
    ensures ReserveUnseen(cfg, s, r, now, circuitOpen).0.loops == s.loops
  {
    hide ReserveRefusal, ChargeScopes, ReserveCaps;
    if ReserveRefusal(cfg, s, r, circuitOpen).None? { ReserveCallOpens(cfg, s, r, now, circuitOpen, UserScope("")); }
  }

  lemma SettleCounts(cfg: Settings, s: State, q: SettleRequest, now: int, loop: string)
    ensures var t, c := Settle(cfg, s, q, now).0, SettleCall(q, now);
      CountOf(t.loops, loop) == CountOf(s.loops, loop) + (if ReportAccepted(cfg, s, c, loop) then 1 else 0) &&
      (Counting(s.loops) ==> Counting(t.loops)) &&
      (ReportAccepted(cfg, s, c, loop) ==>
        CountOf(s.loops, loop) < cfg.maxLoopRepeats || CountOf(s.loops, loop) == 0)
  {
    var key := Resolve(s, q);
    if key.None? {
      assert Settle(cfg, s, q, now) == (s, Refused(NotFound)) by { hide Resolve; }
      hide Settle;
    } else {
      SettleParts(cfg, s, q, now, key.value);
      if !q.outcome.Settled? { ReportCounts(cfg, s, key.value, q, now, loop); }
      hide Resolve, Settle, RecordReport, IdentityAgrees, SettleRefusal, MatchesSettlement;
    }
  }

  lemma CallCounts(cfg: Settings, s: State, c: Call, loop: string)
    ensures var t := Transact(cfg, s, c);
      CountOf(t.loops, loop) == CountOf(s.loops, loop) + (if ReportAccepted(cfg, s, c, loop) then 1 else 0) &&
      (Counting(s.loops) ==> Counting(t.loops)) &&
      (ReportAccepted(cfg, s, c, loop) ==>
        CountOf(s.loops, loop) < cfg.maxLoopRepeats || CountOf(s.loops, loop) == 0)
  {
    hide Settle, Reserve, ReserveUnseen, Sweep;
    match c
    case SettleCall(q, now) => SettleCounts(cfg, s, q, now, loop);
    case SweepCall(keys, now) => SweepKeepsLoops(s, keys, now);
    case ReserveCall(r, now, circuitOpen) => ReserveKeepsLoops(cfg, s, r, now, circuitOpen);
    case RacingReserveCall(r, now, circuitOpen) => ReserveKeepsLoops(cfg, s, r, now, circuitOpen);
  }

  lemma {:induction false} RunCounts(cfg: Settings, s: State, calls: seq<Call>, t: State, loop: string)
    requires Runs(cfg, s, calls, t) && Counting(s.loops)
    ensures CountOf(t.loops, loop) == CountOf(s.loops, loop) + Landed(cfg, s, calls, loop) && Counting(t.loops)
    ensures CountOf(s.loops, loop) <= 1 || CountOf(s.loops, loop) <= cfg.maxLoopRepeats ==>
              CountOf(t.loops, loop) <= 1 || CountOf(t.loops, loop) <= cfg.maxLoopRepeats
    decreases |calls|
  {
    if calls != [] {
      CallCounts(cfg, s, calls[0], loop);
      hide Transact, ReportAccepted, Admissible, Counting, CountOf;
      RunCounts(cfg, Transact(cfg, s, calls[0]), calls[1..], t, loop);
    }
  }

  /** After any run the counter of a run, step and signature is the number of reports accepted under it, with no row
      while there is none; and they are at most as many as the limit, or one where the limit is not positive. */
  lemma LoopsCounted(cfg: Settings, seed: map<string, Wallet>, calls: seq<Call>, t: State, loop: string)
    requires Runs(cfg, Start(seed), calls, t)
    ensures var landed := Landed(cfg, Start(seed), calls, loop);
      (loop in t.loops <==> landed > 0) && (loop in t.loops ==> t.loops[loop] == landed) &&
      (landed <= cfg.maxLoopRepeats || landed <= 1)
  {
    RunCounts(cfg, Start(seed), calls, t, loop);
    hide Runs, Landed;
  }

  /** Enough reports have landed: the limit is reached, and there was at least one. */
  ghost predicate LoopDone(cfg: Settings, calls: seq<Call>, seed: map<string, Wallet>, i: Identity, q: SettleRequest) {
    q.loopSignature.Some? && q.loopSignature.value != "" &&
    var landed := Landed(cfg, Start(seed), calls, i.run + ":" + i.step + ":" + q.loopSignature.value);
    landed > 0 && landed >= cfg.maxLoopRepeats
  }

  lemma RecordParts(cfg: Settings, t: State, key: string, q: SettleRequest, now: int)
    requires key in t.escrow && !q.outcome.Settled? && IdsUnique(t)
    ensures var op := t.escrow[key];
      RecordReport(cfg, t, key, q, now).1 ==
        if op.status in {Settled, Expired} || q.attemptKey.None? || q.attemptKey.value == "" ||
          LoopTripped(cfg, t, op, q)
        then Refused(PolicyState)
        else if AttemptClash(t, q) then Refused(Conflict)
        else if RowClash(t, key, q) then Refused(IntegrityViolation)
        else Accepted(key, q.outcome, op.actual)
  {
    ClashesExactly(t, key, q);
    hide LoopTripped, AttemptRefused, AttemptClash, OperationIdTaken, RowClash, PostReport, IdsUnique, Coalesce;
  }

  lemma TripsExactly(cfg: Settings, seed: map<string, Wallet>, calls: seq<Call>, t: State, op: Operation,
      q: SettleRequest)
    requires Runs(cfg, Start(seed), calls, t)
    ensures LoopTripped(cfg, t, op, q) <==> LoopDone(cfg, calls, seed, op.identity, q)
  {
    if q.loopSignature.Some? {
      LoopsCounted(cfg, seed, calls, t, op.identity.run + ":" + op.identity.step + ":" + q.loopSignature.value);
    }
    hide Runs, Landed;
  }

  lemma RowTold(cfg: Settings, seed: map<string, Wallet>, calls: seq<Call>, t: State, key: string)
    requires SeedFits(seed) && Runs(cfg, Start(seed), calls, t) && key in t.escrow
    ensures key in Replay(seed, t.events).accounts
    ensures Replay(seed, t.events).accounts[key].status == t.escrow[key].status
    ensures !t.escrow[key].status.Settled? ==> t.escrow[key].actual == 0
    ensures var i := t.escrow[key].identity; i.tenant != "" && i.session != "" && i.run != "" && i.step != ""
    ensures IdsUnique(t)
  {
    StartSound(seed);
    RowHistory(cfg, seed, Start(seed), calls, t, key);
    LogFaithful(cfg, seed, calls, t);
    RunSound(cfg, seed, calls, t);
    SoundIsWellformed(seed, t);
    NamesFilled(cfg, t.escrow[key], FirstReserve(cfg, Start(seed), calls, key).value);
    hide Sound, Runs, Replay, FirstReserve, SettledCost, Names, OperationFits, IdsUnique, AttemptFits;
  }

  /** The whole answer to a dispatch or timeout report about an operation. */
  lemma ReportAnswer(cfg: Settings, seed: map<string, Wallet>, calls: seq<Call>, t: State, q: SettleRequest, now: int,
      key: string)
    requires SeedFits(seed) && Runs(cfg, Start(seed), calls, t)
    requires !q.outcome.Settled? && Resolve(t, q) == Some(key)
    ensures key in t.escrow && key in Replay(seed, t.events).accounts
    ensures var i, told := t.escrow[key].identity, Replay(seed, t.events).accounts[key].status;
      Settle(cfg, t, q, now).1 ==
        if !NamesSame(q, i) || told in {Settled, Expired} || q.attemptKey.None? || q.attemptKey.value == "" ||
           LoopDone(cfg, calls, seed, i, q)
        then Refused(PolicyState)
        else if AttemptClash(t, q) then Refused(Conflict)
        else if RowClash(t, key, q) then Refused(IntegrityViolation)
        else Accepted(key, q.outcome, 0)
  {
    RowTold(cfg, seed, calls, t, key);
    TripsExactly(cfg, seed, calls, t, t.escrow[key], q);
    NamesExactly(t.escrow[key], q);
    hide Runs, LoopTripped, LoopDone, Replay, NamesSame, Start, Resolve, Settle, IdentityAgrees, RecordReport,
         AttemptClash, RowClash, IdsUnique;
    SettleParts(cfg, t, q, now, key);
    RecordParts(cfg, t, key, q, now);
  }

  /** Under a positive limit n, a report nothing else speaks against is refused exactly when n have landed. */
  lemma FurtherReport(cfg: Settings, seed: map<string, Wallet>, calls: seq<Call>, t: State, q: SettleRequest, now: int,
      key: string)
    requires SeedFits(seed) && Runs(cfg, Start(seed), calls, t) && cfg.maxLoopRepeats > 0
    requires !q.outcome.Settled? && Resolve(t, q) == Some(key) && NamesSame(q, t.escrow[key].identity)
    requires !t.escrow[key].status.Settled? && !t.escrow[key].status.Expired?
    requires q.attemptKey.Some? && q.attemptKey.value != "" && !AttemptClash(t, q) && !RowClash(t, key, q)
    requires q.loopSignature.Some? && q.loopSignature.value != ""
    ensures var i := t.escrow[key].identity;
      var landed := Landed(cfg, Start(seed), calls, i.run + ":" + i.step + ":" + q.loopSignature.value);
      landed <= cfg.maxLoopRepeats &&
      Settle(cfg, t, q, now).1 ==
        if landed == cfg.maxLoopRepeats then Refused(PolicyState) else Accepted(key, q.outcome, 0)
  {
    var i := t.escrow[key].identity;
    ReportAnswer(cfg, seed, calls, t, q, now, key);
    RowTold(cfg, seed, calls, t, key);
    LoopsCounted(cfg, seed, calls, t, i.run + ":" + i.step + ":" + q.loopSignature.value);
    hide Runs, Replay, NamesSame, Start, Resolve, Settle, AttemptClash, RowClash, IdsUnique, Landed;
  }

  // ---------- what an accepted request leaves on the attempt and on the row ----------

  /** The attempt keeps the operation it was made for and, unless the request brings one, its provider request id. */
  predicate AttemptTold(before: map<string, Attempt>, after: map<string, Attempt>, key: string, q: SettleRequest) {
    if q.attemptKey.None? || q.attemptKey.value == "" then after == before
    else
      var a := q.attemptKey.value;
      a in after && after == before[a := after[a]] && after[a].status == q.outcome &&
      after[a].operation == (if a in before then before[a].operation else key) &&
      (q.providerRequest.Some? ==> after[a].providerRequest == q.providerRequest) &&
      (q.providerRequest.None? ==>
        after[a].providerRequest == if a in before then before[a].providerRequest else None)
  }

  lemma RequestWrites(cfg: Settings, t: State, q: SettleRequest, now: int, key: string)
    requires Resolve(t, q) == Some(key) && !t.escrow[key].status.Settled? && Settle(cfg, t, q, now).1.Accepted?
    ensures var u := Settle(cfg, t, q, now).0;
      AttemptTold(t.attempts, u.attempts, key, q) && key in u.escrow && u.escrow == t.escrow[key := u.escrow[key]] &&
      u.escrow[key].status == q.outcome &&
      (q.outcome.Settled? ==> u.escrow[key].dispatchStartedAt == t.escrow[key].dispatchStartedAt) &&
      (!q.outcome.Settled? ==>
        u.escrow[key].dispatchStartedAt ==
          if t.escrow[key].dispatchStartedAt.Some? then t.escrow[key].dispatchStartedAt else Some(now)) &&
      (q.providerRequest.Some? ==> u.escrow[key].providerRequest == q.providerRequest) &&
      (q.providerRequest.None? ==> u.escrow[key].providerRequest == t.escrow[key].providerRequest)
  {
    SettleParts(cfg, t, q, now, key);
    hide Resolve, Settle, IdentityAgrees, SettleRefusal, ReportRefusal, LoopsAfter, ChargeScopes, SettledTrace,
         SettledWallet, ClosingEvents, WalletDelta;
  }
}
