/** The language of events one operation may leave in the log, and what a locked wallet rules out. */
module LedgerTrail {
  import opened LedgerTypes
  import opened LedgerRules
  import opened LedgerRuns
  import opened LedgerBooks

  /** The kinds of the events logged under one key, oldest first. */
  function Trail(events: seq<Event>, key: string): seq<EventKind>
    decreases |events|
  {
    if events == [] then []
    else
      var last := events[|events| - 1];
      Trail(events[..|events| - 1], key) + if last.key == key then [last.kind] else []
  }

  lemma {:induction false} TrailAppend(events: seq<Event>, more: seq<Event>, key: string)
    ensures Trail(events + more, key) == Trail(events, key) + Trail(more, key)
    decreases |more|
  {
    if more == [] {
      assert events + more == events;
    } else {
      var n := |more| - 1;
      assert (events + more)[..|events| + n] == events + more[..n];
      TrailAppend(events, more[..n], key);
    }
  }

  predicate IsReport(kind: EventKind) {
    kind.DispatchStarted? || kind.TimeoutRecorded?
  }

  /** Dispatches, timeouts and strandings, starting with a dispatch or a timeout. */
  predicate LiveTrail(kinds: seq<EventKind>) {
    kinds != [] && IsReport(kinds[0]) && forall i | 0 <= i < |kinds| :: IsReport(kinds[i]) || kinds[i].StrandedHold?
  }

  predicate UnsettledTrail(trail: seq<EventKind>, status: Status) {
    trail != [] && trail[0].ReserveCreated? &&
    match status
    case Reserved => |trail| == 1
    case Expired => trail[1..] == [ExpiredSweep]
    case InFlight => LiveTrail(trail[1..]) && trail[|trail| - 1].DispatchStarted?
    case ProviderTimeout => LiveTrail(trail[1..]) && trail[|trail| - 1].TimeoutRecorded?
    case Stranded => LiveTrail(trail[1..]) && trail[|trail| - 1].StrandedHold?
    case Settled => false
  }

  /** Drift is logged exactly when the actual amount exceeds the reservation. */
  function DriftChoices(op: Operation): set<seq<EventKind>> {
    if op.actual > op.reserved then {[DriftEnforced], [DriftTolerated]} else {[]}
  }

  /** The closing block an operation in status `before` gets when it settles at `op.actual`. */
  predicate ClosingTrail(kinds: seq<EventKind>, before: Status, op: Operation) {
    var delta := (if before.Expired? then 0 else op.reserved) - op.actual;
    var adjustment := if delta > 0 then [SettlementRefund] else if delta < 0 then [CorrectionDebit] else [];
    var marker := if before.Expired? || before.Stranded? then LateSettle else SettledFinal;
    exists drift | drift in DriftChoices(op) :: kinds == adjustment + [marker] + drift
  }

  ghost predicate SettledTrail(trail: seq<EventKind>, op: Operation) {
    exists before, n: nat :: n <= |trail| && SettledFrom(trail, op, before, n)
  }

  predicate SettledFrom(trail: seq<EventKind>, op: Operation, before: Status, n: nat)
    requires n <= |trail|
  {
    UnsettledTrail(trail[..n], before) && ClosingTrail(trail[n..], before, op) && before.Expired? == Refunded(op)
  }

  ghost predicate TrailFits(trail: seq<EventKind>, op: Operation) {
    if op.status.Settled? then SettledTrail(trail, op) else UnsettledTrail(trail, op.status)
  }

  ghost predicate TrailsFit(s: State) {
    (forall k | k in s.escrow :: TrailFits(Trail(s.events, k), s.escrow[k])) &&
    (forall e | e in s.events :: e.key in s.escrow)
  }

  lemma {:induction false} NoTrail(events: seq<Event>, key: string)
    requires forall e | e in events :: e.key != key
    ensures Trail(events, key) == []
    decreases |events|
  {
    if events != [] { NoTrail(events[..|events| - 1], key); }
  }

  /** The events a posting adds; all of them under its own key. */
  function NewEvents(cfg: Settings, s: State, p: Posting): seq<Event>
    requires Fires(cfg, s, p)
  {
    match p
    case ReservePosting(r, now) => [Event(r.key, r.user, ReserveCreated(r.trace, TraceCapOf(cfg, r)), 0 - r.cost)]
    case ReportPosting(key, q, now) =>
      [Event(key, s.escrow[key].user, if q.outcome.InFlight? then DispatchStarted else TimeoutRecorded, 0)]
    case SettlePosting(key, q) => ClosingEvents(cfg, key, s.escrow[key], q.cost)
    case StrandPosting(key, now) => [Event(key, s.escrow[key].user, StrandedHold, 0)]
    case RefundPosting(key, now) => [Event(key, s.escrow[key].user, ExpiredSweep, s.escrow[key].reserved)]
  }

  lemma PostAppends(cfg: Settings, s: State, p: Posting)
    requires Fires(cfg, s, p)
    ensures Post(cfg, s, p).events == s.events + NewEvents(cfg, s, p)
    ensures forall e | e in NewEvents(cfg, s, p) :: e.key == KeyOf(p)
  {
  }

  lemma TrailOfOne(e: Event)
    ensures Trail([e], e.key) == [e.kind]
  {
    assert [e][..0] == [];
  }

  lemma ClosingFits(cfg: Settings, key: string, op: Operation, settled: Operation)
    requires settled.reserved == op.reserved
    ensures ClosingTrail(Trail(ClosingEvents(cfg, key, op, settled.actual), key), op.status, settled)
  {
    var actual := settled.actual;
    var first, marker, last := AdjustmentEvents(key, op, actual), MarkerEvent(key, op),
      DriftEvents(cfg, key, op, actual);
    TrailAppend(first + [marker], last, key);
    TrailAppend(first, [marker], key);
    TrailOfOne(marker);
    if first != [] { TrailOfOne(first[0]); }
    if last != [] { TrailOfOne(last[0]); }
    assert Trail(last, key) in DriftChoices(settled);
  }

  /** Appending one live kind keeps an unsettled, undead trail in the language. */
  lemma ReportExtends(trail: seq<EventKind>, before: Status, kind: EventKind, after: Status)
    requires UnsettledTrail(trail, before) && !before.Expired?
    requires (after.InFlight? && kind.DispatchStarted?) || (after.ProviderTimeout? && kind.TimeoutRecorded?) ||
             (after.Stranded? && kind.StrandedHold? && !before.Reserved?)
    ensures UnsettledTrail(trail + [kind], after)
  {
    assert (trail + [kind])[1..] == trail[1..] + [kind];
  }

  lemma SettleExtends(trail: seq<EventKind>, op: Operation, closing: seq<EventKind>, settled: Operation)
    requires UnsettledTrail(trail, op.status) && StampsFit(op)
    requires settled.status.Settled? && settled.expiredAt == op.expiredAt &&
             settled.dispatchStartedAt == op.dispatchStartedAt
    requires ClosingTrail(closing, op.status, settled)
    ensures TrailFits(trail + closing, settled)
  {
    var all := trail + closing;
    assert all[..|trail|] == trail && all[|trail|..] == closing;
    assert SettledFrom(all, settled, op.status, |trail|);
  }

  /** No sweep finds an open attempt on an operation that was never dispatched. */
  lemma StrandsOnlyDispatched(s: State, key: string)
    requires Wellformed(s) && key in s.escrow && Strands(s, key)
    ensures !s.escrow[key].status.Reserved?
  {
    if OpenAttempts(s, key) {
      var a :| a in s.attempts && s.attempts[a].operation == key;
      assert AttemptFits(s, s.attempts[a]);
    }
  }

  lemma ReportTrailFits(s: State, key: string, q: SettleRequest, now: int, trail: seq<EventKind>, e: Event)
    requires key in s.escrow && !q.outcome.Settled? && TrailFits(trail, s.escrow[key])
    requires !s.escrow[key].status.Settled? && !s.escrow[key].status.Expired?
    requires e.kind == if q.outcome.InFlight? then DispatchStarted else TimeoutRecorded
    ensures TrailFits(trail + [e.kind], PostReport(s, key, q, now).escrow[key])
  {
    ReportExtends(trail, s.escrow[key].status, e.kind, q.outcome);
  }

  lemma RefundTrailFits(s: State, key: string, now: int, trail: seq<EventKind>)
    requires key in s.escrow && s.escrow[key].status.Reserved? && TrailFits(trail, s.escrow[key])
    ensures TrailFits(trail + [ExpiredSweep], PostRefund(s, key, now).escrow[key])
  {
    assert (trail + [ExpiredSweep])[1..] == trail[1..] + [ExpiredSweep];
  }

  lemma OwnTrailFits(cfg: Settings, s: State, p: Posting)
    requires Wellformed(s) && TrailsFit(s) && Fires(cfg, s, p)
    ensures TrailFits(Trail(s.events, KeyOf(p)) + Trail(NewEvents(cfg, s, p), KeyOf(p)),
            Post(cfg, s, p).escrow[KeyOf(p)])
  {
    var key, more := KeyOf(p), NewEvents(cfg, s, p);
    var trail := Trail(s.events, key);
    if key in s.escrow {
      assert OperationFits(s, s.escrow[key]) && TrailFits(trail, s.escrow[key]);
    } else {
      NoTrail(s.events, key);
    }
    if p.StrandPosting? { StrandsOnlyDispatched(s, key); }
    if !p.SettlePosting? { TrailOfOne(more[0]); }
    hide Trail, TrailsFit, Wellformed, ScopesFit, ChargeScopes, ClosingEvents, AttemptIdTaken, OperationIdTaken,
    AttemptRefused, LoopTripped,
         AttemptsAfter, LoopsAfter, LocksWallet, OpenAttempts, LiveTrail, ClosingTrail, SettledTrace, SettledWallet,
         OperationFits, SettledTrail,
         TrailFits, PostReport, PostRefund;
    match p
    case ReservePosting(r, now) =>
      NewTrailFits(cfg, s, r, now, trail, more[0]);
    case SettlePosting(key, q) =>
      SettleTrailFits(cfg, s, key, q, trail);
    case ReportPosting(key, q, now) =>
      ReportTrailFits(s, key, q, now, trail, more[0]);
    case StrandPosting(key, now) =>
      StrandTrailFits(s, key, now, trail);
    case RefundPosting(key, now) =>
      RefundTrailFits(s, key, now, trail);
  }

  lemma NewTrailFits(cfg: Settings, s: State, r: ReserveRequest, now: int, trail: seq<EventKind>, e: Event)
    requires r.user in s.wallets && trail == [] && e.kind.ReserveCreated?
    ensures TrailFits(trail + [e.kind], PostReserve(cfg, s, r, now).escrow[r.key])
  {
  }

  lemma SettleTrailFits(cfg: Settings, s: State, key: string, q: SettleRequest, trail: seq<EventKind>)
    requires key in s.escrow && !s.escrow[key].status.Settled? && StampsFit(s.escrow[key]) &&
             TrailFits(trail, s.escrow[key])
    ensures TrailFits(trail + Trail(ClosingEvents(cfg, key, s.escrow[key], q.cost), key),
            PostSettle(cfg, s, key, q).escrow[key])
  {
    ClosingFits(cfg, key, s.escrow[key], PostSettle(cfg, s, key, q).escrow[key]);
    hide ClosingEvents, ClosingTrail, Trail, LiveTrail;
    SettleExtends(trail, s.escrow[key], Trail(ClosingEvents(cfg, key, s.escrow[key], q.cost), key),
      PostSettle(cfg, s, key, q).escrow[key]);
  }

  lemma StrandTrailFits(s: State, key: string, now: int, trail: seq<EventKind>)
    requires key in s.escrow && TrailFits(trail, s.escrow[key])
    requires s.escrow[key].status.InFlight? || s.escrow[key].status.ProviderTimeout?
    ensures TrailFits(trail + [StrandedHold], PostStrand(s, key, now).escrow[key])
  {
    ReportExtends(trail, s.escrow[key].status, StrandedHold, Stranded);
  }

  lemma PostTrail(cfg: Settings, s: State, p: Posting)
    requires Wellformed(s) && TrailsFit(s) && Fires(cfg, s, p)
    ensures TrailFits(Trail(s.events + NewEvents(cfg, s, p), KeyOf(p)), Post(cfg, s, p).escrow[KeyOf(p)])
  {
    TrailAppend(s.events, NewEvents(cfg, s, p), KeyOf(p));
    OwnTrailFits(cfg, s, p);
  }

  lemma PostTrailsFit(cfg: Settings, s: State, p: Posting)
    requires Wellformed(s) && TrailsFit(s) && Fires(cfg, s, p)
    ensures TrailsFit(Post(cfg, s, p))
  {
    var t, key, more := Post(cfg, s, p), KeyOf(p), NewEvents(cfg, s, p);
    hide Fires, Post, KeyOf, NewEvents, TrailFits, Trail, Wellformed, OperationFits;
    PostWritesOneRow(cfg, s, p);
    PostAppends(cfg, s, p);
    PostTrail(cfg, s, p);
    forall k | k in t.escrow
      ensures TrailFits(Trail(t.events, k), t.escrow[k])
    {
      if k != key {
        TrailAppend(s.events, more, k);
        NoTrail(more, k);
        assert Trail(s.events, k) + [] == Trail(s.events, k);
      }
    }
  }

  // ---------- locked wallets ----------

  ghost predicate Locked(events: seq<Event>, user: string) {
    exists i :: 0 <= i < |events| && events[i].kind.DriftEnforced? && events[i].user == user
  }

  /** A wallet is active exactly when it was seeded so and no drift enforcement of its user is logged. */
  ghost predicate LocksFit(seed: map<string, Wallet>, s: State) {
    forall u | u in s.wallets && u in seed :: s.wallets[u].active == (seed[u].active && !Locked(s.events, u))
  }

  predicate NoReserveAfterLock(events: seq<Event>) {
    forall i, j | 0 <= i < j < |events| && events[i].kind.DriftEnforced? && events[j].kind.ReserveCreated? ::
      events[i].user != events[j].user
  }

  lemma LockedAppend(events: seq<Event>, more: seq<Event>, u: string)
    ensures Locked(events + more, u) <==> Locked(events, u) || Locked(more, u)
  {
    var all := events + more;
    if Locked(more, u) {
      var i :| 0 <= i < |more| && more[i].kind.DriftEnforced? && more[i].user == u;
      assert all[|events| + i] == more[i];
    }
    if Locked(events, u) {
      var i :| 0 <= i < |events| && events[i].kind.DriftEnforced? && events[i].user == u;
      assert all[i] == events[i];
    }
  }

  lemma LockOfPosting(cfg: Settings, s: State, p: Posting, u: string)
    requires Wellformed(s) && Fires(cfg, s, p) && u in s.wallets
    ensures u in Post(cfg, s, p).wallets
    ensures Post(cfg, s, p).wallets[u].active == (s.wallets[u].active && !Locked(NewEvents(cfg, s, p), u))
  {
    hide ScopesFit, ChargeScopes, AttemptIdTaken, OperationIdTaken, LoopTripped, DriftExcessive, OpenAttempts,
         AttemptFits, IdsUnique;
    var more := NewEvents(cfg, s, p);
    if p.SettlePosting? {
      var op := s.escrow[p.key];
      if LocksWallet(cfg, op, p.q.cost) { assert more[|more| - 1] == Event(p.key, op.user, DriftEnforced, 0); }
    }
  }

  /** A posting that logs a reserve logs nothing else and needs an active wallet. */
  lemma ReservesAlone(cfg: Settings, s: State, p: Posting)
    requires Fires(cfg, s, p)
    ensures forall e | e in NewEvents(cfg, s, p) && e.kind.ReserveCreated? ::
              NewEvents(cfg, s, p) == [e] && e.user in s.wallets && s.wallets[e.user].active
  {
    hide ScopesFit, ChargeScopes, AttemptIdTaken, OperationIdTaken, LoopTripped, DriftExcessive, OpenAttempts,
         AttemptFits, IdsUnique;
  }

  lemma PostLocks(cfg: Settings, seed: map<string, Wallet>, s: State, p: Posting)
    requires Wellformed(s) && LocksFit(seed, s) && NoReserveAfterLock(s.events) && s.wallets.Keys == seed.Keys &&
             Fires(cfg, s, p)
    ensures LocksFit(seed, Post(cfg, s, p)) && NoReserveAfterLock(Post(cfg, s, p).events)
  {
    var t, more := Post(cfg, s, p), NewEvents(cfg, s, p);
    PostAppends(cfg, s, p);
    PostWritesOneRow(cfg, s, p);
    ReservesAlone(cfg, s, p);
    hide Locked;
    forall u | u in t.wallets
      ensures t.wallets[u].active == (seed[u].active && !Locked(t.events, u))
    {
      hide Fires, Post, NewEvents;
      LockedAppend(s.events, more, u);
      LockOfPosting(cfg, s, p, u);
    }
    hide Fires, Post, NewEvents, Wellformed;
    forall i, j | 0 <= i < j < |t.events| && t.events[i].kind.DriftEnforced? && t.events[j].kind.ReserveCreated?
      ensures t.events[i].user != t.events[j].user
    {
      if j >= |s.events| {
        assert more[j - |s.events|] in more && |more| == 1;
        LockedIntro(s.events, i);
      }
    }
  }

  lemma LockedIntro(events: seq<Event>, i: nat)
    requires i < |events| && events[i].kind.DriftEnforced?
    ensures Locked(events, events[i].user)
  {
  }

  // ---------- all of it, in every reachable state ----------

  ghost predicate LogFits(seed: map<string, Wallet>, s: State) {
    TrailsFit(s) && LocksFit(seed, s) && NoReserveAfterLock(s.events)
  }

  lemma {:induction false} LeadsFits(cfg: Settings, seed: map<string, Wallet>, s: State, ps: seq<Posting>, t: State)
    requires BooksBalance(seed, s) && LogFits(seed, s) && Leads(cfg, s, ps, t)
    ensures BooksBalance(seed, t) && LogFits(seed, t)
    decreases |ps|
  {
    if ps != [] {
      PostTrailsFit(cfg, s, ps[0]);
      PostLocks(cfg, seed, s, ps[0]);
      PostBalances(cfg, seed, s, ps[0]);
      hide Fires, Post, BooksBalance, LogFits;
      LeadsFits(cfg, seed, Post(cfg, s, ps[0]), ps[1..], t);
    }
  }
}
