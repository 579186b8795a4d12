/** The event log alone rebuilds wallets, traces and operations. */
module LedgerReplay {
  import opened LedgerTypes
  import opened LedgerRules
  import opened LedgerRuns
  import opened LedgerBooks
  import opened LedgerTrail

  /** `adjusted` adds up refunds and corrections not yet closed by a settlement marker. */
  datatype Account = Account(user: string, trace: string, status: Status, reserved: int, actual: int, adjusted: int)

  datatype Books = Books(wallets: map<string, Wallet>, traces: map<string, Trace>, accounts: map<string, Account>)

  function Pay(wallets: map<string, Wallet>, user: string, delta: int): map<string, Wallet> {
    if user in wallets then wallets[user := wallets[user].(balance := wallets[user].balance + delta)] else wallets
  }

  function Book(traces: map<string, Trace>, trace: string, reserved: int, settled: int): map<string, Trace> {
    if trace in traces then
      var t := traces[trace];
      traces[trace := Trace(t.cap, t.reservedTotal + reserved, t.settledTotal + settled)]
    else traces
  }

  function OpenAccount(b: Books, e: Event, trace: string, cap: int): Books {
    Books(
      Pay(b.wallets, e.user, e.delta),
      Book(if trace in b.traces then b.traces else b.traces[trace := Trace(cap, 0, 0)], trace, 0 - e.delta, 0),
      b.accounts[e.key := Account(e.user, trace, Reserved, 0 - e.delta, 0, 0)])
  }

  function WithStatus(b: Books, key: string, status: Status): Books {
    if key in b.accounts then b.(accounts := b.accounts[key := b.accounts[key].(status := status)]) else b
  }

  function Release(b: Books, e: Event): Books {
    if e.key in b.accounts then
      var a := b.accounts[e.key];
      Books(
        Pay(b.wallets, e.user, e.delta),
        Book(b.traces, a.trace, 0 - a.reserved, 0),
        b.accounts[e.key := a.(status := Expired)])
    else b
  }

  function Adjust(b: Books, e: Event): Books {
    if e.key in b.accounts then
      var a := b.accounts[e.key];
      b.(wallets := Pay(b.wallets, e.user, e.delta),
         accounts := b.accounts[e.key := a.(adjusted := a.adjusted + e.delta)])
    else b
  }

  /** The marker fixes the actual amount: what was still held minus what went back to the wallet. */
  function Close(b: Books, key: string): Books {
    if key in b.accounts then
      var a := b.accounts[key];
      var held := if a.status.Expired? then 0 else a.reserved;
      var actual := held - a.adjusted;
      b.(traces := Book(b.traces, a.trace, 0 - held, actual),
         accounts := b.accounts[key := a.(status := Settled, actual := actual, adjusted := 0)])
    else b
  }

  function Lock(wallets: map<string, Wallet>, user: string): map<string, Wallet> {
    if user in wallets then wallets[user := wallets[user].(active := false)] else wallets
  }

  function Absorb(b: Books, e: Event): Books {
    match e.kind
    case ReserveCreated(trace, cap) => OpenAccount(b, e, trace, cap)
    case DispatchStarted => WithStatus(b, e.key, InFlight)
    case TimeoutRecorded => WithStatus(b, e.key, ProviderTimeout)
    case StrandedHold => WithStatus(b, e.key, Stranded)
    case ExpiredSweep => Release(b, e)
    case SettlementRefund => Adjust(b, e)
    case CorrectionDebit => Adjust(b, e)
    case SettledFinal => Close(b, e.key)
    case LateSettle => Close(b, e.key)
    case DriftEnforced => b.(wallets := Lock(b.wallets, e.user))
    case DriftTolerated => b
  }

  function ReplayOn(b: Books, events: seq<Event>): Books
    decreases |events|
  {
    if events == [] then b
    else Absorb(ReplayOn(b, events[..|events| - 1]), events[|events| - 1])
  }

  /** The books the log tells, starting from the seeded wallets. */
  function Replay(seed: map<string, Wallet>, events: seq<Event>): Books {
    ReplayOn(Books(seed, map[], map[]), events)
  }

  function AccountOf(op: Operation): Account {
    Account(op.user, op.trace, op.status, op.reserved, op.actual, 0)
  }

  /** The same books as the tables hold them. */
  function BooksOf(s: State): Books {
    Books(s.wallets, s.traces, AccountsOf(s.escrow))
  }

  function AccountsOf(escrow: map<string, Operation>): map<string, Account> {
    map k | k in escrow :: AccountOf(escrow[k])
  }

  lemma {:induction false} ReplayAppend(b: Books, events: seq<Event>, more: seq<Event>)
    ensures ReplayOn(b, events + more) == ReplayOn(ReplayOn(b, events), more)
    decreases |more|
  {
    hide Absorb;
    if more == [] {
      assert events + more == events;
    } else {
      var n := |more| - 1;
      assert (events + more)[..|events| + n] == events + more[..n];
      ReplayAppend(b, events, more[..n]);
    }
  }

  lemma ReplayOne(b: Books, e: Event)
    ensures ReplayOn(b, [e]) == Absorb(b, e)
  {
    assert [e][..0] == [];
  }

  lemma AccountsWritten(escrow: map<string, Operation>, key: string, op: Operation)
    ensures AccountsOf(escrow[key := op]) == AccountsOf(escrow)[key := AccountOf(op)]
  {
  }

  lemma ReserveReplays(cfg: Settings, s: State, r: ReserveRequest, now: int)
    requires r.user in s.wallets && OpenTrace(s, r.trace, TraceCapOf(cfg, r)).cap == TraceCapOf(cfg, r)
    ensures ReplayOn(BooksOf(s), [Event(r.key, r.user, ReserveCreated(r.trace, TraceCapOf(cfg, r)), 0 - r.cost)])
         == BooksOf(PostReserve(cfg, s, r, now))
  {
    var cap, t := TraceCapOf(cfg, r), PostReserve(cfg, s, r, now);
    var e := Event(r.key, r.user, ReserveCreated(r.trace, cap), 0 - r.cost);
    ReplayOne(BooksOf(s), e);
    AccountsWritten(s.escrow, r.key, NewOperation(cfg, r, now));
    hide ReplayOn, AccountsOf, ReserveCaps, ChargeScopes, TraceCapOf;
    assert Book(if r.trace in s.traces then s.traces
           else s.traces[r.trace := Trace(cap, 0, 0)], r.trace, r.cost as int, 0) == t.traces;
  }

  lemma ReportReplays(s: State, key: string, q: SettleRequest, now: int)
    requires key in s.escrow && !q.outcome.Settled?
    ensures ReplayOn(BooksOf(s), [Event(key, s.escrow[key].user, if q.outcome.InFlight? then DispatchStarted
            else TimeoutRecorded, 0)])
         == BooksOf(PostReport(s, key, q, now))
  {
    ReplayOne(BooksOf(s), Event(key, s.escrow[key].user, if q.outcome.InFlight? then DispatchStarted
      else TimeoutRecorded, 0));
    AccountsWritten(s.escrow, key, PostReport(s, key, q, now).escrow[key]);
    hide ReplayOn, AttemptsAfter, LoopsAfter;
  }

  lemma ExpireReplays(s: State, key: string, now: int)
    requires key in s.escrow && OperationFits(s, s.escrow[key])
    ensures ReplayOn(BooksOf(s), [Event(key, s.escrow[key].user, StrandedHold, 0)]) == BooksOf(PostStrand(s, key, now))
    ensures ReplayOn(BooksOf(s), [Event(key, s.escrow[key].user, ExpiredSweep, s.escrow[key].reserved)]) ==
            BooksOf(PostRefund(s, key, now))
  {
    ReplayOne(BooksOf(s), Event(key, s.escrow[key].user, StrandedHold, 0));
    ReplayOne(BooksOf(s), Event(key, s.escrow[key].user, ExpiredSweep, s.escrow[key].reserved));
    AccountsWritten(s.escrow, key, PostStrand(s, key, now).escrow[key]);
    AccountsWritten(s.escrow, key, PostRefund(s, key, now).escrow[key]);
    hide ReplayOn;
  }

  /** Books in the middle of a closing block: adjusted, but not yet closed. */
  function Adjusted(b: Books, key: string, user: string, delta: int): Books
    requires key in b.accounts
  {
    b.(wallets := Pay(b.wallets, user, delta), accounts := b.accounts[key := b.accounts[key].(adjusted := delta)])
  }

  lemma AdjustmentReplays(b: Books, key: string, op: Operation, actual: int)
    requires key in b.accounts && b.accounts[key].adjusted == 0
    ensures ReplayOn(b, AdjustmentEvents(key, op, actual)) == Adjusted(b, key, op.user, WalletDelta(op, actual))
  {
    var delta := WalletDelta(op, actual);
    if delta == 0 {
      assert Pay(b.wallets, op.user, 0) == b.wallets;
      assert b.accounts[key := b.accounts[key].(adjusted := 0)] == b.accounts;
    } else {
      ReplayOne(b, AdjustmentEvents(key, op, actual)[0]);
    }
  }

  lemma DriftReplays(cfg: Settings, b: Books, key: string, op: Operation, actual: int)
    ensures ReplayOn(b, DriftEvents(cfg, key, op, actual))
         == if LocksWallet(cfg, op, actual) then b.(wallets := Lock(b.wallets, op.user)) else b
  {
    var events := DriftEvents(cfg, key, op, actual);
    if events != [] { ReplayOne(b, events[0]); }
  }

  function PaidBooks(s: State, user: string, delta: int, t: State): Books {
    Books(Pay(s.wallets, user, delta), t.traces, AccountsOf(t.escrow))
  }

  lemma CloseReplays(cfg: Settings, s: State, key: string, q: SettleRequest)
    requires key in s.escrow && !s.escrow[key].status.Settled? && OperationFits(s, s.escrow[key])
    ensures Close(Adjusted(BooksOf(s), key, s.escrow[key].user, WalletDelta(s.escrow[key], q.cost)), key)
         == PaidBooks(s, s.escrow[key].user, WalletDelta(s.escrow[key], q.cost), PostSettle(cfg, s, key, q))
  {
    AccountsWritten(s.escrow, key, PostSettle(cfg, s, key, q).escrow[key]);
    hide DriftExcessive, AttemptsAfter, ScopesFit, ChargeScopes, ScopeCaps, ClosingEvents;
  }

  lemma SettleWallets(cfg: Settings, s: State, key: string, q: SettleRequest)
    requires key in s.escrow
    ensures PostSettle(cfg, s, key, q).wallets == SettledWallets(cfg, s.wallets, s.escrow[key], q.cost)
  {
    hide DriftExcessive, ScopesFit, ChargeScopes, AttemptsAfter, ClosingEvents;
  }

  function SettledWallets(cfg: Settings, wallets: map<string, Wallet>, op: Operation,
      actual: int): map<string, Wallet> {
    var paid := Pay(wallets, op.user, WalletDelta(op, actual));
    if LocksWallet(cfg, op, actual) then Lock(paid, op.user) else paid
  }

  lemma SettleReplays(cfg: Settings, s: State, key: string, q: SettleRequest)
    requires key in s.escrow && !s.escrow[key].status.Settled? && OperationFits(s, s.escrow[key])
    ensures ReplayOn(BooksOf(s), ClosingEvents(cfg, key, s.escrow[key], q.cost)) == BooksOf(PostSettle(cfg, s, key, q))
  {
    var op, b, t := s.escrow[key], BooksOf(s), PostSettle(cfg, s, key, q);
    var first, marker, last := AdjustmentEvents(key, op, q.cost), MarkerEvent(key, op),
      DriftEvents(cfg, key, op, q.cost);
    ReplayAppend(b, first + [marker], last);
    ReplayAppend(b, first, [marker]);
    AdjustmentReplays(b, key, op, q.cost);
    var adjusted := Adjusted(b, key, op.user, WalletDelta(op, q.cost));
    ReplayOne(adjusted, marker);
    DriftReplays(cfg, Close(adjusted, key), key, op, q.cost);
    CloseReplays(cfg, s, key, q);
    SettleWallets(cfg, s, key, q);
    assert Absorb(adjusted, marker) == Close(adjusted, key);
    hide ReplayOn, Close, Adjusted, AccountsOf, WalletDelta, LocksWallet, PostSettle, Pay, Lock, MarkerEvent,
         AdjustmentEvents, DriftEvents, OperationFits, Absorb;
  }

  lemma ReserveOpensOwnCap(cfg: Settings, s: State, p: Posting)
    requires p.ReservePosting? && Fires(cfg, s, p)
    ensures p.r.user in s.wallets && OpenTrace(s, p.r.trace, TraceCapOf(cfg, p.r)).cap == TraceCapOf(cfg, p.r)
  {
    hide ScopesFit;
  }

  lemma KnownRow(cfg: Settings, s: State, p: Posting)
    requires Wellformed(s) && Fires(cfg, s, p)
    ensures !p.ReservePosting? ==> KeyOf(p) in s.escrow && OperationFits(s, s.escrow[KeyOf(p)])
  {
    hide OperationFits, IdsUnique, AttemptFits, ReserveRefusal, ReportRefusal, SettleRefusal, Strands;
  }

  /** Replaying the new events of a posting on the old books gives the new books. */
  lemma PostReplays(cfg: Settings, s: State, p: Posting)
    requires Wellformed(s) && Fires(cfg, s, p)
    ensures ReplayOn(BooksOf(s), NewEvents(cfg, s, p)) == BooksOf(Post(cfg, s, p))
  {
    hide ReplayOn, BooksOf, ClosingEvents, PostReserve, PostReport, PostSettle, PostStrand, PostRefund,
         OperationFits, Wellformed, Strands,
         ReserveRefusal, ReportRefusal, SettleRefusal, TraceCapOf, OpenTrace, Eligible;
    KnownRow(cfg, s, p);
    match p
    case ReservePosting(r, now) =>
      ReserveOpensOwnCap(cfg, s, p);
      ReserveReplays(cfg, s, r, now);
    case ReportPosting(key, q, now) => ReportReplays(s, key, q, now);
    case SettlePosting(key, q) => SettleReplays(cfg, s, key, q);
    case StrandPosting(key, now) => ExpireReplays(s, key, now);
    case RefundPosting(key, now) => ExpireReplays(s, key, now);
  }

  lemma {:induction false} LeadsReplays(cfg: Settings, seed: map<string, Wallet>, s: State, ps: seq<Posting>, t: State)
    requires BooksBalance(seed, s) && Replay(seed, s.events) == BooksOf(s) && Leads(cfg, s, ps, t)
    ensures Replay(seed, t.events) == BooksOf(t)
    decreases |ps|
  {
    if ps != [] {
      PostReplays(cfg, s, ps[0]);
      PostAppends(cfg, s, ps[0]);
      PostBalances(cfg, seed, s, ps[0]);
      hide Fires, Post, BooksBalance, BooksOf, NewEvents, ReplayOn;
      ReplayAppend(Books(seed, map[], map[]), s.events, NewEvents(cfg, s, ps[0]));
      LeadsReplays(cfg, seed, Post(cfg, s, ps[0]), ps[1..], t);
    }
  }
}
