/** What each single event of the log says: whose it is, and what it moved. */
module LedgerEvents {
  import opened LedgerTypes
  import opened LedgerRules
  import opened LedgerRuns
  import opened LedgerBooks
  import opened LedgerTrail
  import opened LedgerReplay
  import opened LedgerRedelivery

  /** Every event names the user of its operation. */
  ghost predicate UsersNamed(s: State) {
    forall e | e in s.events :: e.key in s.escrow && e.user == s.escrow[e.key].user
  }

  /** What the events of a user moved, all together. */
  function Moved(events: seq<Event>, user: string): int
    decreases |events|
  {
    if events == [] then 0
    else
      var last := events[|events| - 1];
      Moved(events[..|events| - 1], user) + if last.user == user then last.delta else 0
  }

  lemma {:induction false} MovedOn(events: seq<Event>, more: seq<Event>, user: string)
    ensures Moved(events + more, user) == Moved(events, user) + Moved(more, user)
    decreases |more|
  {
    if more == [] {
      assert events + more == events;
    } else {
      var n := |more| - 1;
      assert (events + more)[..|events| + n] == events + more[..n];
      MovedOn(events, more[..n], user);
    }
  }

  lemma MovedByOne(e: Event, user: string)
    ensures Moved([e], user) == if e.user == user then e.delta else 0
  {
    assert [e][..0] == [];
  }

  lemma ClosingMoves(cfg: Settings, key: string, op: Operation, actual: int, user: string)
    ensures Moved(ClosingEvents(cfg, key, op, actual), user) == if op.user == user then WalletDelta(op, actual) else 0
  {
    var first, marker, last := AdjustmentEvents(key, op, actual), MarkerEvent(key, op),
      DriftEvents(cfg, key, op, actual);
    MovedOn(first + [marker], last, user);
    MovedOn(first, [marker], user);
    MovedByOne(marker, user);
    if first != [] { MovedByOne(first[0], user); }
    if last != [] { MovedByOne(last[0], user); }
    assert Moved(first, user) == if op.user == user then WalletDelta(op, actual) else 0;
    hide LocksWallet, Moved, WalletDelta, AdjustmentEvents;
  }

  lemma ClosingNames(cfg: Settings, key: string, op: Operation, actual: int)
    ensures forall e | e in ClosingEvents(cfg, key, op, actual) :: e.user == op.user
  {
    hide LocksWallet, WalletDelta;
  }

  lemma PostMoves(cfg: Settings, s: State, p: Posting, user: string)
    requires Fires(cfg, s, p) && user in s.wallets
    ensures user in Post(cfg, s, p).wallets
    ensures Post(cfg, s, p).wallets[user].balance == s.wallets[user].balance + Moved(NewEvents(cfg, s, p), user)
  {
    if p.SettlePosting? {
      ClosingMoves(cfg, p.key, s.escrow[p.key], p.q.cost, user);
    } else {
      MovedByOne(NewEvents(cfg, s, p)[0], user);
    }
    hide Moved, ScopesFit, ChargeScopes, ReportRefusal, SettleRefusal, ClosingEvents, AttemptsAfter, LoopsAfter,
         Strands, LocksWallet, SettledTrace, ReserveCaps;
  }

  lemma NewNames(cfg: Settings, s: State, p: Posting)
    requires Fires(cfg, s, p)
    ensures var t := Post(cfg, s, p);
      KeyOf(p) in t.escrow && forall e | e in NewEvents(cfg, s, p) :: e.user == t.escrow[KeyOf(p)].user
  {
    if p.SettlePosting? { ClosingNames(cfg, p.key, s.escrow[p.key], p.q.cost); }
    hide ScopesFit, ChargeScopes, ReportRefusal, SettleRefusal, ClosingEvents, AttemptsAfter, LoopsAfter, Strands,
         LocksWallet, SettledTrace, ReserveCaps;
  }

  lemma PostNames(cfg: Settings, s: State, p: Posting)
    requires Fires(cfg, s, p) && UsersNamed(s)
    ensures UsersNamed(Post(cfg, s, p))
  {
    PostKeepsRows(cfg, s, p);
    PostAppends(cfg, s, p);
    NewNames(cfg, s, p);
    hide Fires, Post, NewEvents, KeyOf;
    var t := Post(cfg, s, p);
    forall e | e in t.events
      ensures e.key in t.escrow && e.user == t.escrow[e.key].user
    {
      if e in s.events { assert RowLasts(s.escrow[e.key], t.escrow[e.key]); }
    }
  }

  lemma {:induction false} LeadsMoves(cfg: Settings, s: State, ps: seq<Posting>, t: State, user: string)
    requires Leads(cfg, s, ps, t) && UsersNamed(s) && user in s.wallets
    ensures UsersNamed(t) && user in t.wallets
    ensures t.wallets[user].balance - Moved(t.events, user) == s.wallets[user].balance - Moved(s.events, user)
    decreases |ps|
  {
    if ps != [] {
      var m := Post(cfg, s, ps[0]);
      PostMoves(cfg, s, ps[0], user);
      PostNames(cfg, s, ps[0]);
      PostAppends(cfg, s, ps[0]);
      MovedOn(s.events, NewEvents(cfg, s, ps[0]), user);
      hide Fires, Post, NewEvents, Moved, UsersNamed;
      LeadsMoves(cfg, m, ps[1..], t, user);
    }
  }

  /** The amounts logged for a user add up to what his balance moved since the seed, and every event names the user
      of its operation. */
  lemma LogMovesBalance(cfg: Settings, seed: map<string, Wallet>, calls: seq<Call>, s: State, user: string)
    requires Runs(cfg, Start(seed), calls, s) && user in seed
    ensures user in s.wallets && s.wallets[user].balance == seed[user].balance + Moved(s.events, user)
    ensures forall e | e in s.events :: e.key in s.escrow && e.user == s.escrow[e.key].user
  {
    RunsPost(cfg, Start(seed), calls, s);
    hide Leads, Runs;
    var ps :| Leads(cfg, Start(seed), ps, s);
    LeadsMoves(cfg, Start(seed), ps, s, user);
  }
}
