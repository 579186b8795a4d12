/** Runs of ledger transactions, cut into the single postings that change the database. */
module LedgerRuns {
  import opened Options
  import opened LedgerTypes
  import opened LedgerRules

  datatype Call =
    | ReserveCall(r: ReserveRequest, now: int, circuitOpen: bool)
    // a second reserve of a key whose lookup still answered "absent"
    | RacingReserveCall(r: ReserveRequest, now: int, circuitOpen: bool)
    | SettleCall(q: SettleRequest, now: int)
    | SweepCall(keys: seq<string>, now: int)

  ghost predicate Admissible(s: State, c: Call) {
    c.SweepCall? ==> SweepOf(s, c.keys, c.now)
  }

  ghost function Transact(cfg: Settings, s: State, c: Call): State {
    match c
    case ReserveCall(r, now, circuitOpen) => Reserve(cfg, s, r, now, circuitOpen).0
    case RacingReserveCall(r, now, circuitOpen) => ReserveUnseen(cfg, s, r, now, circuitOpen).0
    case SettleCall(q, now) => Settle(cfg, s, q, now).0
    case SweepCall(keys, now) => Sweep(s, keys, now)
  }

  ghost predicate Runs(cfg: Settings, s: State, calls: seq<Call>, t: State)
    decreases |calls|
  {
    if calls == [] then s == t
    else Admissible(s, calls[0]) && Runs(cfg, Transact(cfg, s, calls[0]), calls[1..], t)
  }

  datatype Posting =
    | ReservePosting(r: ReserveRequest, now: int)
    | ReportPosting(key: string, q: SettleRequest, now: int)
    | SettlePosting(key: string, q: SettleRequest)
    | StrandPosting(key: string, now: int)
    | RefundPosting(key: string, now: int)

  predicate Fires(cfg: Settings, s: State, p: Posting) {
    match p
    case ReservePosting(r, now) => ReserveRefusal(cfg, s, r, false).None?
    case ReportPosting(key, q, now) => key in s.escrow && !q.outcome.Settled? && ReportRefusal(cfg, s, key, q).None?
    case SettlePosting(key, q) =>
      key in s.escrow && q.outcome.Settled? && !s.escrow[key].status.Settled? && SettleRefusal(cfg, s, key, q).None?
    case StrandPosting(key, now) => Eligible(s, key, now) && Strands(s, key)
    case RefundPosting(key, now) => Eligible(s, key, now) && !Strands(s, key)
  }

  function Post(cfg: Settings, s: State, p: Posting): State
    requires Fires(cfg, s, p)
  {
    match p
    case ReservePosting(r, now) => PostReserve(cfg, s, r, now)
    case ReportPosting(key, q, now) => PostReport(s, key, q, now)
    case SettlePosting(key, q) => PostSettle(cfg, s, key, q)
    case StrandPosting(key, now) => PostStrand(s, key, now)
    case RefundPosting(key, now) => PostRefund(s, key, now)
  }

  /** `t` follows from `s` by firing the postings in order. */
  ghost predicate Leads(cfg: Settings, s: State, ps: seq<Posting>, t: State)
    decreases |ps|
  {
    if ps == [] then s == t
    else Fires(cfg, s, ps[0]) && Leads(cfg, Post(cfg, s, ps[0]), ps[1..], t)
  }

  ghost predicate Later(cfg: Settings, s: State, t: State) {
    exists ps :: Leads(cfg, s, ps, t)
  }

  function Start(seed: map<string, Wallet>): State {
    State(seed, map[], map[], map[], map[], map[], [])
  }

  ghost predicate Reachable(cfg: Settings, seed: map<string, Wallet>, s: State) {
    Later(cfg, Start(seed), s)
  }

  lemma {:induction false} LeadsOn(cfg: Settings, s: State, ps: seq<Posting>, t: State, qs: seq<Posting>, u: State)
    requires Leads(cfg, s, ps, t) && Leads(cfg, t, qs, u)
    ensures Leads(cfg, s, ps + qs, u)
    decreases |ps|
  {
    hide Fires, Post;
    if ps == [] {
      assert ps + qs == qs;
    } else {
      assert (ps + qs)[0] == ps[0];
      LeadsOn(cfg, Post(cfg, s, ps[0]), ps[1..], t, qs, u);
      assert (ps + qs)[1..] == ps[1..] + qs;
    }
  }

  lemma LaterOn(cfg: Settings, s: State, t: State, u: State)
    requires Later(cfg, s, t) && Later(cfg, t, u)
    ensures Later(cfg, s, u)
  {
    var ps :| Leads(cfg, s, ps, t);
    var qs :| Leads(cfg, t, qs, u);
    LeadsOn(cfg, s, ps, t, qs, u);
  }

  lemma OnePosting(cfg: Settings, s: State, p: Posting)
    requires Fires(cfg, s, p)
    ensures Later(cfg, s, Post(cfg, s, p))
  {
    assert Leads(cfg, Post(cfg, s, p), [p][1..], Post(cfg, s, p));
    assert Leads(cfg, s, [p], Post(cfg, s, p));
  }

  lemma NoPosting(cfg: Settings, s: State)
    ensures Later(cfg, s, s)
  {
    assert Leads(cfg, s, [], s);
  }

  /** Expiring one operation leaves every other operation as eligible as it was. */
  lemma ExpireKeepsOthers(s: State, key: string, now: int, other: string)
    requires key in s.escrow && other != key
    ensures Eligible(Expire(s, key, now), other, now) == Eligible(s, other, now)
  {
  }

  lemma {:induction false} SweepPosts(cfg: Settings, s: State, keys: seq<string>, now: int)
    requires SweepOf(s, keys, now)
    ensures Later(cfg, s, Sweep(s, keys, now))
    decreases |keys|
  {
    if keys == [] {
      NoPosting(cfg, s);
    } else {
      var t := Expire(s, keys[0], now);
      OnePosting(cfg, s, if Strands(s, keys[0]) then StrandPosting(keys[0], now) else RefundPosting(keys[0], now));
      forall i | 0 <= i < |keys[1..]|
        ensures Eligible(t, keys[1..][i], now)
      {
        ExpireKeepsOthers(s, keys[0], now, keys[i + 1]);
      }
      SweepPosts(cfg, t, keys[1..], now);
      LaterOn(cfg, s, t, Sweep(s, keys, now));
    }
  }

  /** Every transaction leaves the database alone or lands a sequence of postings. */
  lemma TransactPosts(cfg: Settings, s: State, c: Call)
    requires Admissible(s, c)
    ensures Later(cfg, s, Transact(cfg, s, c))
  {
    NoPosting(cfg, s);
    match c
    case ReserveCall(r, now, circuitOpen) =>
      if ReserveRefusal(cfg, s, r, circuitOpen).None? { OnePosting(cfg, s, ReservePosting(r, now)); }
    case RacingReserveCall(r, now, circuitOpen) =>
      if ReserveRefusal(cfg, s, r, circuitOpen).None? { OnePosting(cfg, s, ReservePosting(r, now)); }
    case SettleCall(q, now) =>
      var key := Resolve(s, q);
      if key.Some? && q.outcome.Settled? && Fires(cfg, s, SettlePosting(key.value, q)) {
        OnePosting(cfg, s, SettlePosting(key.value, q));
      }
      if key.Some? && !q.outcome.Settled? && Fires(cfg, s, ReportPosting(key.value, q, now)) {
        OnePosting(cfg, s, ReportPosting(key.value, q, now));
      }
    case SweepCall(keys, now) =>
      SweepPosts(cfg, s, keys, now);
  }

  /** Every state a run of transactions passes through is reached by postings alone. */
  lemma {:induction false} RunsPost(cfg: Settings, s: State, calls: seq<Call>, t: State)
    requires Runs(cfg, s, calls, t)
    ensures Later(cfg, s, t)
    decreases |calls|
  {
    if calls == [] {
      NoPosting(cfg, s);
    } else {
      var m := Transact(cfg, s, calls[0]);
      TransactPosts(cfg, s, calls[0]);
      RunsPost(cfg, m, calls[1..], t);
      LaterOn(cfg, s, m, t);
    }
  }
}
