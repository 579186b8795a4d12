/** The reconciler's finance audit: five probes that find nothing in any reachable database. */
module LedgerAudit {
  import opened LedgerTypes
  import opened LedgerRuns
  import opened LedgerBooks
  import opened LedgerTrail
  import opened LedgerReplay

  // ---------- the five probes ----------

  function NegativeWallets(s: State): set<string> {
    set u | u in s.wallets && s.wallets[u].balance < 0
  }

  function CapOverruns(s: State): set<string> {
    set t | t in s.traces && s.traces[t].reservedTotal > s.traces[t].cap
  }

  predicate IsRefundKind(kind: EventKind) {
    kind.ExpiredSweep?
  }

  predicate IsFinalKind(kind: EventKind) {
    kind.SettledFinal? || kind.LateSettle?
  }

  function DuplicateRefunds(s: State): set<string> {
    set i, j | 0 <= i < j < |s.events| && s.events[i].key == s.events[j].key &&
      IsRefundKind(s.events[i].kind) && IsRefundKind(s.events[j].kind) :: s.events[i].key
  }

  function DuplicateSettlements(s: State): set<string> {
    set i, j | 0 <= i < j < |s.events| && s.events[i].key == s.events[j].key &&
      IsFinalKind(s.events[i].kind) && IsFinalKind(s.events[j].kind) :: s.events[i].key
  }

  predicate HasHoldEvent(events: seq<Event>, key: string) {
    exists i | 0 <= i < |events| :: events[i].key == key && events[i].kind.StrandedHold?
  }

  function StrandedWithoutHold(s: State): set<string> {
    set k | k in s.escrow && s.escrow[k].status.Stranded? && !HasHoldEvent(s.events, k)
  }

  predicate AuditClean(s: State) {
    NegativeWallets(s) == {} && CapOverruns(s) == {} && DuplicateRefunds(s) == {} && DuplicateSettlements(s) == {} &&
    StrandedWithoutHold(s) == {}
  }

  /** What an audit that finds nothing says about the tables and the log. */
  lemma AuditMeans(s: State)
    ensures AuditClean(s) <==>
              (forall u | u in s.wallets :: s.wallets[u].balance >= 0) &&
              (forall t | t in s.traces :: s.traces[t].reservedTotal <= s.traces[t].cap) &&
              (forall i, j | 0 <= i < j < |s.events| && s.events[i].key == s.events[j].key ::
                !(s.events[i].kind.ExpiredSweep? && s.events[j].kind.ExpiredSweep?) &&
                !(s.events[i].kind in {SettledFinal, LateSettle} && s.events[j].kind in {SettledFinal, LateSettle})) &&
              (forall k | k in s.escrow && s.escrow[k].status.Stranded? ::
                exists e | e in s.events :: e.key == k && e.kind.StrandedHold?)
  {
    WalletProbes(s);
    LogProbes(s);
    HoldProbe(s);
    hide NegativeWallets, CapOverruns, DuplicateRefunds, DuplicateSettlements, StrandedWithoutHold;
  }

  lemma WalletProbes(s: State)
    ensures NegativeWallets(s) == {} <==> forall u | u in s.wallets :: s.wallets[u].balance >= 0
    ensures CapOverruns(s) == {} <==> forall t | t in s.traces :: s.traces[t].reservedTotal <= s.traces[t].cap
  {
    forall u | u in s.wallets && s.wallets[u].balance < 0
      ensures u in NegativeWallets(s)
    {
    }
    forall t | t in s.traces && s.traces[t].reservedTotal > s.traces[t].cap
      ensures t in CapOverruns(s)
    {
    }
  }

  lemma LogProbes(s: State)
    ensures DuplicateRefunds(s) == {} <==>
              forall i, j | 0 <= i < j < |s.events| && s.events[i].key == s.events[j].key ::
                !(s.events[i].kind.ExpiredSweep? && s.events[j].kind.ExpiredSweep?)
    ensures DuplicateSettlements(s) == {} <==>
              forall i, j | 0 <= i < j < |s.events| && s.events[i].key == s.events[j].key ::
                !(s.events[i].kind in {SettledFinal, LateSettle} && s.events[j].kind in {SettledFinal, LateSettle})
  {
    forall i, j | 0 <= i < j < |s.events| && s.events[i].key == s.events[j].key
      ensures s.events[i].kind.ExpiredSweep? && s.events[j].kind.ExpiredSweep? ==>
                s.events[i].key in DuplicateRefunds(s)
      ensures s.events[i].kind in {SettledFinal, LateSettle} && s.events[j].kind in {SettledFinal, LateSettle} ==>
                s.events[i].key in DuplicateSettlements(s)
    {
    }
  }

  lemma HoldProbe(s: State)
    ensures StrandedWithoutHold(s) == {} <==>
              forall k | k in s.escrow && s.escrow[k].status.Stranded? ::
                exists e | e in s.events :: e.key == k && e.kind.StrandedHold?
  {
    forall k | k in s.escrow && s.escrow[k].status.Stranded?
      ensures k !in StrandedWithoutHold(s) <==> exists e | e in s.events :: e.key == k && e.kind.StrandedHold?
    {
      if e :| e in s.events && e.key == k && e.kind.StrandedHold? {
        var i :| 0 <= i < |s.events| && s.events[i] == e;
        assert s.events[i].key == k;
      }
    }
  }

  // ---------- from the log back to trails ----------

  lemma TrailAt(events: seq<Event>, i: nat)
    requires i < |events|
    ensures Trail(events, events[i].key)
         == Trail(events[..i], events[i].key) + [events[i].kind] + Trail(events[i + 1..], events[i].key)
  {
    var key, upTo := events[i].key, events[..i + 1];
    assert events == upTo + events[i + 1..];
    TrailAppend(upTo, events[i + 1..], key);
    assert upTo[..|upTo| - 1] == events[..i] && upTo[|upTo| - 1] == events[i];
    assert Trail(upTo, key) == Trail(events[..i], key) + [events[i].kind];
    hide Trail;
  }

  /** Two events of one key sit at two positions of its trail. */
  lemma TrailHasBoth(events: seq<Event>, i: nat, j: nat) returns (a: nat, b: nat)
    requires i < j < |events| && events[i].key == events[j].key
    ensures a < b < |Trail(events, events[i].key)|
    ensures Trail(events, events[i].key)[a] == events[i].kind && Trail(events, events[i].key)[b] == events[j].kind
  {
    var key := events[i].key;
    TrailAt(events, j);
    TrailAt(events[..j], i);
    assert events[..j][..i] == events[..i] && events[..j][i] == events[i];
    a, b := |Trail(events[..i], key)|, |Trail(events[..j], key)|;
  }

  lemma {:induction false} TrailInLog(events: seq<Event>, key: string, a: nat)
    requires a < |Trail(events, key)|
    ensures exists i | 0 <= i < |events| :: events[i].key == key && events[i].kind == Trail(events, key)[a]
    decreases |events|
  {
    var n := |events| - 1;
    if a < |Trail(events[..n], key)| {
      TrailInLog(events[..n], key, a);
      var i :| 0 <= i < n && events[..n][i].key == key && events[..n][i].kind == Trail(events[..n], key)[a];
      assert events[i].key == key && events[i].kind == Trail(events, key)[a];
    } else {
      assert events[n].key == key && events[n].kind == Trail(events, key)[a];
    }
  }

  lemma UnsettledKinds(trail: seq<EventKind>, status: Status)
    requires UnsettledTrail(trail, status)
    ensures forall i | 0 <= i < |trail| :: !IsFinalKind(trail[i]) && (trail[i].ReserveCreated? <==> i == 0)
    ensures forall i | 0 <= i < |trail| :: IsRefundKind(trail[i]) <==> status.Expired? && i == 1
    ensures status.Expired? ==> forall i | 0 <= i < |trail| :: !IsReport(trail[i])
  {
    forall i | 0 <= i < |trail|
      ensures !IsFinalKind(trail[i]) && (trail[i].ReserveCreated? <==> i == 0)
      ensures IsRefundKind(trail[i]) <==> status.Expired? && i == 1
      ensures status.Expired? ==> !IsReport(trail[i])
    {
      if i > 0 { assert trail[i] == trail[1..][i - 1]; }
    }
  }

  lemma ClosingKinds(kinds: seq<EventKind>, before: Status, op: Operation)
    requires ClosingTrail(kinds, before, op)
    ensures forall i | 0 <= i < |kinds| :: !IsRefundKind(kinds[i]) && !kinds[i].ReserveCreated? && !IsReport(kinds[i])
    ensures forall i, j | 0 <= i < j < |kinds| :: !(IsFinalKind(kinds[i]) && IsFinalKind(kinds[j]))
  {
  }

  /** What a trail in the language can hold where: the reserve opens it and never comes back, a sweep
      refund is second, excludes every dispatch, and marks exactly the refunded operations, and at most
      one marker closes it. */
  lemma TrailKinds(trail: seq<EventKind>, op: Operation)
    requires TrailFits(trail, op) && StampsFit(op)
    ensures forall i | 0 <= i < |trail| :: trail[i].ReserveCreated? <==> i == 0
    ensures forall i | 0 <= i < |trail| :: IsRefundKind(trail[i]) <==> Refunded(op) && i == 1
    ensures Refunded(op) ==> |trail| > 1 && forall i | 0 <= i < |trail| :: !IsReport(trail[i])
    ensures forall i, j | 0 <= i < j < |trail| :: !(IsFinalKind(trail[i]) && IsFinalKind(trail[j]))
  {
    if op.status.Settled? {
      var before, n: nat :| n <= |trail| && SettledFrom(trail, op, before, n);
      SettledKinds(trail, op, before, n);
    } else {
      UnsettledKinds(trail, op.status);
    }
  }

  lemma SettledKinds(trail: seq<EventKind>, op: Operation, before: Status, n: nat)
    requires n <= |trail| && SettledFrom(trail, op, before, n)
    ensures forall i | 0 <= i < |trail| :: trail[i].ReserveCreated? <==> i == 0
    ensures forall i | 0 <= i < |trail| :: IsRefundKind(trail[i]) <==> Refunded(op) && i == 1
    ensures Refunded(op) ==> |trail| > 1 && forall i | 0 <= i < |trail| :: !IsReport(trail[i])
    ensures forall i, j | 0 <= i < j < |trail| :: !(IsFinalKind(trail[i]) && IsFinalKind(trail[j]))
  {
    var head, tail := trail[..n], trail[n..];
    UnsettledKinds(head, before);
    ClosingKinds(tail, before, op);
    assert n > 0 && (before.Expired? ==> n == 2) by { assert before.Expired? ==> |head[1..]| == 1; }
    assert before.Expired? == Refunded(op);
    hide UnsettledTrail, ClosingTrail, SettledFrom, Refunded, IsFinalKind, IsRefundKind, IsReport;
    forall i | 0 <= i < |trail|
      ensures trail[i].ReserveCreated? <==> i == 0
      ensures IsRefundKind(trail[i]) <==> before.Expired? && i == 1
      ensures before.Expired? ==> !IsReport(trail[i])
    {
      assert trail[i] == if i < n then head[i] else tail[i - n];
    }
    forall i, j | 0 <= i < j < |trail|
      ensures !(IsFinalKind(trail[i]) && IsFinalKind(trail[j]))
    {
      assert trail[i] == if i < n then head[i] else tail[i - n];
      assert trail[j] == if j < n then head[j] else tail[j - n];
    }
  }

  lemma NoDuplicates(s: State)
    requires Wellformed(s) && TrailsFit(s)
    ensures DuplicateRefunds(s) == {} && DuplicateSettlements(s) == {}
  {
    forall i, j | 0 <= i < j < |s.events| && s.events[i].key == s.events[j].key
      ensures !(IsRefundKind(s.events[i].kind) && IsRefundKind(s.events[j].kind))
      ensures !(IsFinalKind(s.events[i].kind) && IsFinalKind(s.events[j].kind))
    {
      assert s.events[i] in s.events && OperationFits(s, s.escrow[s.events[i].key]);
      var key := s.events[i].key;
      var a, b := TrailHasBoth(s.events, i, j);
      hide Trail, TrailFits, Wellformed;
      TrailKinds(Trail(s.events, key), s.escrow[key]);
    }
    hide IsRefundKind, IsFinalKind, TrailsFit, Wellformed;
  }

  lemma NoStrandWithoutHold(s: State)
    requires TrailsFit(s)
    ensures StrandedWithoutHold(s) == {}
  {
    forall k | k in s.escrow && s.escrow[k].status.Stranded?
      ensures HasHoldEvent(s.events, k)
    {
      var trail := Trail(s.events, k);
      assert TrailFits(trail, s.escrow[k]);
      TrailInLog(s.events, k, |trail| - 1);
    }
  }

  /** In a state whose books balance and whose trails fit, no probe finds anything. */
  lemma AuditPasses(seed: map<string, Wallet>, s: State)
    requires BooksBalance(seed, s) && TrailsFit(s)
    ensures AuditClean(s)
  {
    NoDuplicates(s);
    NoStrandWithoutHold(s);
    hide Wellformed, TrailsFit, ScopesBalance, Total, DuplicateRefunds, DuplicateSettlements, StrandedWithoutHold;
  }

  // ---------- every run ----------

  ghost predicate SeedFits(seed: map<string, Wallet>) {
    forall u | u in seed :: seed[u].balance >= 0
  }

  /** Everything the project knows about reachable databases, in one predicate. */
  ghost predicate Sound(seed: map<string, Wallet>, s: State) {
    BooksBalance(seed, s) && LogFits(seed, s) && Replay(seed, s.events) == BooksOf(s)
  }

  lemma StartSound(seed: map<string, Wallet>)
    requires SeedFits(seed)
    ensures Sound(seed, Start(seed))
  {
    StartBalances(seed);
  }

  lemma LaterSound(cfg: Settings, seed: map<string, Wallet>, s: State, t: State)
    requires Sound(seed, s) && Later(cfg, s, t)
    ensures Sound(seed, t)
  {
    hide BooksBalance, LogFits, Replay, BooksOf;
    var ps :| Leads(cfg, s, ps, t);
    LeadsFits(cfg, seed, s, ps, t);
    LeadsReplays(cfg, seed, s, ps, t);
  }

  lemma ReachableSound(cfg: Settings, seed: map<string, Wallet>, s: State)
    requires SeedFits(seed) && Reachable(cfg, seed, s)
    ensures Sound(seed, s)
  {
    StartSound(seed);
    LaterSound(cfg, seed, Start(seed), s);
  }
}
