/** Re-sending a request that already succeeded changes nothing, at any later point of any run. */
module LedgerRedelivery {
  import opened Options
  import opened LedgerTypes
  import opened LedgerRules
  import opened LedgerRuns
  import opened LedgerBooks

  /** What an operation row never loses: who and what it is for, and its final settlement. */
  predicate RowLasts(before: Operation, after: Operation) {
    after.fingerprint == before.fingerprint && after.identity == before.identity && after.user == before.user &&
    after.trace == before.trace && after.model == before.model && after.reserved == before.reserved &&
    after.expiresAt == before.expiresAt &&
    (before.status.Settled? ==> after == before)
  }

  ghost predicate RowsLast(s: State, t: State) {
    forall k | k in s.escrow :: k in t.escrow && RowLasts(s.escrow[k], t.escrow[k])
  }

  lemma PostKeepsRows(cfg: Settings, s: State, p: Posting)
    requires Fires(cfg, s, p)
    ensures RowsLast(s, Post(cfg, s, p))
  {
    hide ScopesFit, ChargeScopes, AttemptIdTaken, OperationIdTaken, LoopTripped, DriftExcessive, OpenAttempts,
         ClosingEvents;
  }

  lemma {:induction false} LeadsKeepsRows(cfg: Settings, s: State, ps: seq<Posting>, t: State)
    requires Leads(cfg, s, ps, t)
    ensures RowsLast(s, t)
    decreases |ps|
  {
    if ps != [] {
      PostKeepsRows(cfg, s, ps[0]);
      hide Fires, Post;
      LeadsKeepsRows(cfg, Post(cfg, s, ps[0]), ps[1..], t);
    }
  }

  /** A copy of a reserve whose row is there: the lookup answers from the row, and past it the key is taken. */
  lemma CopyRefusedOrReplayed(cfg: Settings, t: State, r: ReserveRequest, later: int, circuitOpen: bool)
    requires r.key in t.escrow && t.escrow[r.key].fingerprint == FingerprintOf(r)
    ensures Reserve(cfg, t, r, later, circuitOpen).0 == t
    ensures Reserve(cfg, t, r, later, circuitOpen).1.Accepted?
    ensures ReserveUnseen(cfg, t, r, later, circuitOpen).0 == t
    ensures ReserveUnseen(cfg, t, r, later, circuitOpen).1.Refused?
  {
    hide PostReserve, ReserveCaps, TraceCapOf, OpenTrace, ScopesFit, NeedsApproval, WalletCovers;
  }

  lemma ReserveLeavesRow(cfg: Settings, s: State, r: ReserveRequest, now: int)
    requires Reserve(cfg, s, r, now, false).1.Accepted?
    ensures var m := Reserve(cfg, s, r, now, false).0;
      r.key in m.escrow && m.escrow[r.key].fingerprint == FingerprintOf(r)
  {
    hide ReserveRefusal, ReserveCaps, TraceCapOf, OpenTrace;
  }

  /** A reserve that once succeeded: every later copy of it, whether its lookup sees the row or
      raced past it, leaves the whole database as it is, and never debits again. */
  lemma ReserveRedelivered(cfg: Settings, s: State, r: ReserveRequest, now: int, t: State, later: int,
      circuitOpen: bool)
    requires Reserve(cfg, s, r, now, false).1.Accepted?
    requires Later(cfg, Reserve(cfg, s, r, now, false).0, t)
    ensures Reserve(cfg, t, r, later, circuitOpen).0 == t
    ensures Reserve(cfg, t, r, later, circuitOpen).1.Accepted?
    ensures ReserveUnseen(cfg, t, r, later, circuitOpen).0 == t
    ensures ReserveUnseen(cfg, t, r, later, circuitOpen).1.Refused?
  {
    hide Reserve, ReserveUnseen, Leads;
    var m := Reserve(cfg, s, r, now, false).0;
    ReserveLeavesRow(cfg, s, r, now);
    var ps :| Leads(cfg, m, ps, t);
    LeadsKeepsRows(cfg, m, ps, t);
    assert RowLasts(m.escrow[r.key], t.escrow[r.key]);
    CopyRefusedOrReplayed(cfg, t, r, later, circuitOpen);
  }

  /** Every attempt that carries this provider id was created for this operation. */
  ghost predicate IdBelongs(s: State, id: Option<string>, key: string) {
    forall a | a in s.attempts && s.attempts[a].providerRequest == id :: s.attempts[a].operation == key
  }

  /** Once a settled operation carries a provider id, no posting can move that id to another operation. */
  lemma PostKeepsId(cfg: Settings, s: State, p: Posting, key: string, id: Option<string>)
    requires Fires(cfg, s, p) && id.Some?
    requires key in s.escrow && s.escrow[key].status.Settled? && s.escrow[key].providerRequest == id &&
             IdBelongs(s, id, key)
    ensures IdBelongs(Post(cfg, s, p), id, key)
  {
    hide ScopesFit, ChargeScopes, AttemptIdTaken, LoopTripped, DriftExcessive, OpenAttempts, ClosingEvents,
         SettledTrace, SettledWallet;
    if p.SettlePosting? || p.ReportPosting? {
      assert p.key != key;
      assert p.q.providerRequest != id;
    }
  }

  lemma {:induction false} LeadsKeepsId(cfg: Settings, s: State, ps: seq<Posting>, t: State, key: string,
      id: Option<string>)
    requires Leads(cfg, s, ps, t) && id.Some?
    requires key in s.escrow && s.escrow[key].status.Settled? && s.escrow[key].providerRequest == id &&
             IdBelongs(s, id, key)
    ensures IdBelongs(t, id, key)
    decreases |ps|
  {
    if ps != [] {
      PostKeepsRows(cfg, s, ps[0]);
      PostKeepsId(cfg, s, ps[0], key, id);
      var m := Post(cfg, s, ps[0]);
      assert RowLasts(s.escrow[key], m.escrow[key]);
      hide Fires, Post;
      LeadsKeepsId(cfg, m, ps[1..], t, key, id);
    }
  }

  /** What the first success leaves behind. */
  lemma SettledOnce(cfg: Settings, s: State, q: SettleRequest, now: int)
    requires Wellformed(s) && q.outcome.Settled? && Settle(cfg, s, q, now).1.Accepted?
    ensures Resolve(s, q).Some? && Resolve(s, q).value in Settle(cfg, s, q, now).0.escrow
    ensures IdentityAgrees(s.escrow[Resolve(s, q).value], q)
    ensures var op := Settle(cfg, s, q, now).0.escrow[Resolve(s, q).value];
      op.status.Settled? && MatchesSettlement(op, q)
    ensures !Given(q.key) ==>
              Settle(cfg, s, q, now).0.escrow[Resolve(s, q).value].providerRequest == q.providerRequest &&
              IdBelongs(Settle(cfg, s, q, now).0, q.providerRequest, Resolve(s, q).value)
  {
    var key := Resolve(s, q).value;
    hide ScopesFit, ChargeScopes, LoopTripped, DriftExcessive, OpenAttempts, ClosingEvents, SettledTrace, SettledWallet,
         OperationFits, AttemptFits;
    if !Given(q.key) {
      var a :| CarriesId(s, a, q.providerRequest) && s.attempts[a].operation == key;
      var t := Settle(cfg, s, q, now).0;
      forall b | b in t.attempts && t.attempts[b].providerRequest == q.providerRequest
        ensures t.attempts[b].operation == key
      {
      }
    }
  }

  /** A SETTLED request that once succeeded: every later copy of it leaves the whole database as it is,
      whether it is found by key or by provider request id. */
  lemma SettleRedelivered(cfg: Settings, s: State, q: SettleRequest, now: int, t: State, later: int)
    requires Wellformed(s) && q.outcome.Settled? && Settle(cfg, s, q, now).1.Accepted?
    requires Later(cfg, Settle(cfg, s, q, now).0, t)
    ensures Settle(cfg, t, q, later).0 == t
    ensures Given(q.key) ==> Settle(cfg, t, q, later).1 == Settle(cfg, s, q, now).1
    ensures !Given(q.key) ==>
              Settle(cfg, t, q, later).1 ==
                if exists a :: CarriesId(t, a, q.providerRequest) then Settle(cfg, s, q, now).1 else Refused(NotFound)
  {
    var m := Settle(cfg, s, q, now).0;
    var key := Resolve(s, q).value;
    SettledOnce(cfg, s, q, now);
    PostingOfSettle(cfg, s, q, now);
    hide Settle, Wellformed, Leads;
    var ps :| Leads(cfg, m, ps, t);
    LeadsKeepsRows(cfg, m, ps, t);
    assert RowLasts(s.escrow[key], m.escrow[key]) && RowLasts(m.escrow[key], t.escrow[key]);
    if !Given(q.key) { LeadsKeepsId(cfg, m, ps, t, key, q.providerRequest); }
    hide RowsLast;
    CopyFindsRow(cfg, t, q, later, key);
  }

  /** A copy of a settlement can only find the settled row, and then repeats its answer. */
  lemma CopyFindsRow(cfg: Settings, t: State, q: SettleRequest, later: int, key: string)
    requires key in t.escrow && t.escrow[key].status.Settled? && q.outcome.Settled?
    requires IdentityAgrees(t.escrow[key], q) && MatchesSettlement(t.escrow[key], q)
    requires Given(q.key) ==> q.key == Some(key)
    requires !Given(q.key) ==> Given(q.providerRequest) && IdBelongs(t, q.providerRequest, key)
    ensures Settle(cfg, t, q, later).0 == t
    ensures Given(q.key) ==> Settle(cfg, t, q, later).1 == Accepted(key, Settled, q.cost)
    ensures !Given(q.key) ==>
              Settle(cfg, t, q, later).1 ==
                if exists a :: CarriesId(t, a, q.providerRequest) then Accepted(key, Settled, q.cost)
                  else Refused(NotFound)
  {
    hide PostSettle, SettleRefusal, IdentityAgrees, MatchesSettlement;
  }

  lemma PostingOfSettle(cfg: Settings, s: State, q: SettleRequest, now: int)
    ensures RowsLast(s, Settle(cfg, s, q, now).0)
    ensures Settle(cfg, s, q, now).1.Accepted? && q.outcome.Settled? ==>
            Settle(cfg, s, q, now).1 == Accepted(Resolve(s, q).value, Settled, q.cost)
  {
    TransactPosts(cfg, s, SettleCall(q, now));
    var ps :| Leads(cfg, s, ps, Settle(cfg, s, q, now).0);
    LeadsKeepsRows(cfg, s, ps, Settle(cfg, s, q, now).0);
    hide PostSettle, SettleRefusal, PostReport, ReportRefusal;
  }
}
