/** Short runs of the ledger on which the exact conditions of the other modules fail. */
module LedgerWitnesses {
  import opened Options
  import opened LedgerTypes
  import opened LedgerRules
  import opened LedgerRuns
  import opened LedgerAudit

  const CFG := Settings(100, 10, 0, 0, Budgets(10, 10, 10, 10), 100, 3, {"m"})
  const SEED: map<string, Wallet> := map["u" := Wallet(100, true)]

  function Ask(key: string, cost: nat): ReserveRequest {
    ReserveRequest(key, "u", "t", "m", cost, None, None, None, None, None, None, None, None, None, false, None)
  }

  /** A dispatch report of one operation under attempt "a". */
  function Dispatch(key: string, id: string): SettleRequest {
    SettleRequest(Some(key), InFlight, 0, Some("a"), Some(id), None, None, None, None, None)
  }

  function SettleByKey(key: string, cost: nat): SettleRequest {
    SettleRequest(Some(key), Settled, cost, None, None, None, None, None, None, None)
  }

  function SettleById(id: string, cost: nat): SettleRequest {
    SettleRequest(None, Settled, cost, None, Some(id), None, None, None, None, None)
  }

  /** Only reserves so far: they add up to `reserved`, in every scope and in the trace. */
  predicate OnlyReserved(s: State, reserved: nat) {
    s.wallets == map["u" := Wallet(100 - reserved, true)] && s.attempts == map[] && s.loops == map[] &&
    (forall k | k in s.escrow :: s.escrow[k].providerRequest.None?) &&
    if reserved == 0 then s.scopes == map[] && s.traces == map[]
    else
      "t" in s.traces && s.traces["t"] == Trace(10, reserved, 0) &&
      forall id | id in ReserveCaps(CFG, Ask("", 0)) :: id in s.scopes && s.scopes[id] == Scope(10, reserved)
  }

  lemma AskAccepted(s: State, key: string, cost: nat, reserved: nat)
    requires OnlyReserved(s, reserved) && 0 < cost && reserved + cost <= 10 && key !in s.escrow
    ensures ReserveRefusal(CFG, s, Ask(key, cost), false).None?
    ensures ReserveCaps(CFG, Ask(key, cost)) == ReserveCaps(CFG, Ask("", 0))
    ensures forall id | id in ReserveCaps(CFG, Ask(key, cost)) :: ReserveCaps(CFG, Ask(key, cost))[id] == 10
  {
    var r := Ask(key, cost);
    assert ReserveCaps(CFG, r) == ReserveCaps(CFG, Ask("", 0));
    assert forall id | id in ReserveCaps(CFG, r) :: ReserveCaps(CFG, r)[id] == 10;
    hide ReserveCaps;
  }

  /** Reserves of the one user fit while they stay within ten. */
  lemma AskFits(s: State, key: string, cost: nat, reserved: nat)
    requires OnlyReserved(s, reserved) && 0 < cost && reserved + cost <= 10 && key !in s.escrow
    ensures var t := Transact(CFG, s, ReserveCall(Ask(key, cost), 0, false));
      OnlyReserved(t, reserved + cost) && t.escrow == s.escrow[key := NewOperation(CFG, Ask(key, cost), 0)]
  {
    AskAccepted(s, key, cost, reserved);
    hide ReserveCaps, ReserveRefusal;
  }

  lemma AtStart()
    ensures OnlyReserved(Start(SEED), 0) && Start(SEED).escrow == map[] && SeedFits(SEED)
  {
  }

  lemma RunsOne(s: State, c: Call)
    requires Admissible(s, c)
    ensures Runs(CFG, s, [c], Transact(CFG, s, c))
  {
    hide Transact;
    assert [c][1..] == [];
    assert Runs(CFG, Transact(CFG, s, c), [], Transact(CFG, s, c));
  }

  // ---------- a reused attempt ----------

  /** Operation k1 is dispatched under attempt "a" with id "p" and settled by that id alone. Then k2 reports
      under the same attempt with id "q", and the first settlement, sent again, finds nothing. */
  lemma ReusedAttemptLosesAnswer()
    ensures var before := [ReserveCall(Ask("k1", 1), 0, false), ReserveCall(Ask("k2", 1), 0, false),
            SettleCall(Dispatch("k1", "p"), 1)];
      var after := [SettleCall(Dispatch("k2", "q"), 3)];
      SeedFits(SEED) &&
      exists s, t ::
        Runs(CFG, Start(SEED), before, s) && Settle(CFG, s, SettleById("p", 1), 2).1 == Accepted("k1", Settled, 1) &&
        Runs(CFG, Settle(CFG, s, SettleById("p", 1), 2).0, after, t) &&
        Settle(CFG, t, SettleById("p", 1), 4).1 == Refused(NotFound)
  {
    hide Transact, Settle, OnlyReserved, Start, SeedFits, ReserveCaps;
    AtStart();
    var s0 := Start(SEED);
    var c1, c2, c3 := ReserveCall(Ask("k1", 1), 0, false), ReserveCall(Ask("k2", 1), 0, false),
      SettleCall(Dispatch("k1", "p"), 1);
    var c4 := SettleCall(Dispatch("k2", "q"), 3);
    AskFits(s0, "k1", 1, 0);
    var s1 := Transact(CFG, s0, c1);
    AskFits(s1, "k2", 1, 1);
    var s2 := Transact(CFG, s1, c2);
    DispatchAndSettle(s2);
    var s3 := Transact(CFG, s2, c3);
    RunsOne(s2, c3);
    assert [c1, c2, c3][1..] == [c2, c3] && [c2, c3][1..] == [c3];
    assert Runs(CFG, s1, [c2, c3], s3);
    assert Runs(CFG, s0, [c1, c2, c3], s3);
    RunsOne(Settle(CFG, s3, SettleById("p", 1), 2).0, c4);
  }

  lemma DispatchAndSettle(s: State)
    requires OnlyReserved(s, 2) && "k1" in s.escrow && "k2" in s.escrow
    requires forall k | k in {"k1", "k2"} ::
              s.escrow[k].status.Reserved? && s.escrow[k].user == "u" &&
              s.escrow[k].trace == "t" && s.escrow[k].reserved == 1
    ensures var s3 := Transact(CFG, s, SettleCall(Dispatch("k1", "p"), 1));
      var m := Settle(CFG, s3, SettleById("p", 1), 2);
      var t := Transact(CFG, m.0, SettleCall(Dispatch("k2", "q"), 3));
      m.1 == Accepted("k1", Settled, 1) && Settle(CFG, t, SettleById("p", 1), 4).1 == Refused(NotFound)
  {
    var s3 := Transact(CFG, s, SettleCall(Dispatch("k1", "p"), 1));
    assert s3 == PostReport(s, "k1", Dispatch("k1", "p"), 1);
    assert s3.attempts == map["a" := Attempt("k1", Some("p"), InFlight)];
    assert CarriesId(s3, "a", Some("p"));
    assert Resolve(s3, SettleById("p", 1)) == Some("k1");
    var m := Settle(CFG, s3, SettleById("p", 1), 2);
    assert m.0 == PostSettle(CFG, s3, "k1", SettleById("p", 1));
    assert m.0.attempts == s3.attempts;
    var t := Transact(CFG, m.0, SettleCall(Dispatch("k2", "q"), 3));
    assert t == PostReport(m.0, "k2", Dispatch("k2", "q"), 3);
    assert t.attempts == map["a" := Attempt("k1", Some("q"), InFlight)];
    hide ClosingEvents, ChargeScopes, ReserveCaps;
  }

  // ---------- a late settlement that no longer fits its scopes ----------

  /** Cap ten, reserve six: settled at six it is accepted, but not after the sweep refunded it, because its
      scopes keep the six and would take six more. */
  lemma LateChargeRefused()
    ensures var s := Transact(CFG, Start(SEED), ReserveCall(Ask("k", 6), 0, false));
      var t := Transact(CFG, s, SweepCall(["k"], 100));
      Runs(CFG, Start(SEED), [ReserveCall(Ask("k", 6), 0, false)], s) && Admissible(s, SweepCall(["k"], 100)) &&
      Settle(CFG, s, SettleByKey("k", 6), 101).1 == Accepted("k", Settled, 6) &&
      Settle(CFG, t, SettleByKey("k", 6), 101).1 == Refused(TraceCapExceeded)
  {
    hide Transact, Settle, OnlyReserved, Start, ReserveCaps;
    AtStart();
    AskFits(Start(SEED), "k", 6, 0);
    var s := Transact(CFG, Start(SEED), ReserveCall(Ask("k", 6), 0, false));
    RunsOne(Start(SEED), ReserveCall(Ask("k", 6), 0, false));
    LateChargeOverflows(s);
  }

  lemma LateChargeOverflows(s: State)
    requires OnlyReserved(s, 6) && "k" in s.escrow && s.escrow["k"] == NewOperation(CFG, Ask("k", 6), 0)
    ensures Admissible(s, SweepCall(["k"], 100))
    ensures Settle(CFG, s, SettleByKey("k", 6), 101).1 == Accepted("k", Settled, 6)
    ensures Settle(CFG, Transact(CFG, s, SweepCall(["k"], 100)), SettleByKey("k", 6), 101).1 ==
            Refused(TraceCapExceeded)
  {
    var op := s.escrow["k"];
    var t := PostRefund(s, "k", 100);
    assert Transact(CFG, s, SweepCall(["k"], 100)) == t by { assert ["k"][1..] == []; }
    assert ScopeCaps(op.user, op.identity, CFG.budgets) == ReserveCaps(CFG, Ask("k", 6)) ==
           ReserveCaps(CFG, Ask("", 0));
    assert RunScope("default-agent-run") in ReserveCaps(CFG, Ask("", 0));
    assert !ScopesFit(t.scopes, ScopeCaps(op.user, op.identity, CFG.budgets), 6);
    hide ReserveCaps, ScopesFit, ChargeScopes, ScopeCaps, ClosingEvents, Sweep;
  }
}
