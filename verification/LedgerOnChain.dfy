/** The ledger's events as rows of the hash chain: one head hash fixes not only the log but the tables. */
module LedgerOnChain {
  import opened LedgerTypes
  import opened LedgerRuns
  import opened LedgerReplay
  import opened LedgerAudit
  import opened LedgerTheorems
  import HashChain
  import ChainVerify

  function KindName(kind: EventKind): string {
    match kind
    case ReserveCreated(_, _) => "RESERVE_CREATED"
    case DispatchStarted => "DISPATCH_STARTED"
    case TimeoutRecorded => "PROVIDER_TIMEOUT_RECORDED"
    case StrandedHold => "STRANDED_HOLD"
    case ExpiredSweep => "EXPIRED_SWEEP"
    case SettlementRefund => "SETTLEMENT_REFUND"
    case CorrectionDebit => "SETTLEMENT_CORRECTION_DEBIT"
    case SettledFinal => "SETTLED_FINAL"
    case LateSettle => "RECONCILED_LATE_SETTLE"
    case DriftEnforced => "DRIFT_ENFORCED"
    case DriftTolerated => "DRIFT_TOLERATED"
  }

  /** The stored event, whatever else its metadata holds. */
  predicate Tells(c: HashChain.Content, e: Event) {
    c.LedgerContent? && c.key == e.key && c.user == e.user && c.kind == KindName(e.kind) && c.delta == e.delta &&
    (e.kind.ReserveCreated? ==>
      "trace_id" in c.metadata && c.metadata["trace_id"] == HashChain.Word(e.kind.trace) &&
      "trace_cap_amount" in c.metadata && c.metadata["trace_cap_amount"] == HashChain.Amount(e.kind.cap))
  }

  predicate Records(rows: seq<HashChain.Row>, events: seq<Event>) {
    |rows| == |events| && forall i | 0 <= i < |rows| :: Tells(rows[i].content, events[i])
  }

  /** Kind names differ in length or in one of their first two letters. */
  lemma NamesDiffer(a: EventKind, b: EventKind)
    requires KindName(a) == KindName(b)
    ensures a == b || (a.ReserveCreated? && b.ReserveCreated?)
  {
    var n, m := KindName(a), KindName(b);
    assert |n| == |m| && n[0] == m[0] && n[1] == m[1];
  }

  lemma TellsOneEvent(c: HashChain.Content, a: Event, b: Event)
    requires Tells(c, a) && Tells(c, b)
    ensures a == b
  {
    NamesDiffer(a.kind, b.kind);
    hide KindName;
  }

  /** Two logs that the full verifier accepts with one head hash tell the same events. */
  lemma SameHeadSameEvents(rows: seq<HashChain.Row>, events: seq<Event>, others: seq<HashChain.Row>, more: seq<Event>)
    requires Records(rows, events) && Records(others, more)
    requires ChainVerify.FullPass(rows).valid && ChainVerify.FullPass(others).valid
    requires ChainVerify.FullPass(rows).head == ChainVerify.FullPass(others).head
    ensures events == more
  {
    ChainVerify.AnchoredHeadFixesHistory(rows, others);
    hide ChainVerify.FullPass, Tells;
    forall i | 0 <= i < |events|
      ensures events[i] == more[i]
    {
      assert HashChain.SameRow(rows[i], others[i]);
      TellsOneEvent(rows[i].content, events[i], more[i]);
    }
  }

  /** Two databases reached from the same seed by any runs, under any settings: if the full verifier accepts
      their logs with the same head hash, they hold the same wallets, traces and operations. */
  lemma SameHeadSameTables(
      seed: map<string, Wallet>,
      cfg: Settings, calls: seq<Call>, s: State, rows: seq<HashChain.Row>,
      otherCfg: Settings, otherCalls: seq<Call>, t: State, others: seq<HashChain.Row>)
    requires SeedFits(seed) && Runs(cfg, Start(seed), calls, s) && Runs(otherCfg, Start(seed), otherCalls, t)
    requires Records(rows, s.events) && Records(others, t.events)
    requires ChainVerify.FullPass(rows).valid && ChainVerify.FullPass(others).valid
    requires ChainVerify.FullPass(rows).head == ChainVerify.FullPass(others).head
    ensures s.events == t.events && s.wallets == t.wallets && s.traces == t.traces && s.escrow.Keys == t.escrow.Keys
    ensures forall k | k in s.escrow :: AccountOf(s.escrow[k]) == AccountOf(t.escrow[k])
  {
    SameHeadSameEvents(rows, s.events, others, t.events);
    LogFaithful(cfg, seed, calls, s);
    LogFaithful(otherCfg, seed, otherCalls, t);
    hide Runs, Replay, ChainVerify.FullPass, Records, AccountOf;
    var books, theirs := BooksOf(s), BooksOf(t);
    assert books == theirs;
    assert books.accounts.Keys == s.escrow.Keys && theirs.accounts.Keys == t.escrow.Keys;
    forall k | k in s.escrow
      ensures k in t.escrow && AccountOf(s.escrow[k]) == AccountOf(t.escrow[k])
    {
      assert books.accounts[k] == theirs.accounts[k];
    }
  }
}
