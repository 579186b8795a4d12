/** `crystallize_operation`, `commit_operation` and the horizon sweep as updates of the four tables. */
module CrystalSession {
  import opened Options
  import opened CrystalProtocol

  /** Resolving one crystal leaves every other crystal, its row and its eligibility as they were. */
  lemma ResolveKeepsOthers(s: Spine, id: string, other: string, now: int)
    requires Wellformed(s) && Sweepable(s, id, now) && other != id && other in s.crystals
    ensures var t := Resolve(s, id);
      Joined(t, other) && t.crystals[other] == s.crystals[other] && RowOf(t, other) == RowOf(s, other) &&
      Sweepable(t, other, now) == Sweepable(s, other, now)
  {
    assert Joined(s, other);
    if s.crystals[other].operation == s.crystals[id].operation { OneRowPerCrystal(s, other, id); }
    hide Wellformed, Strands;
  }

  lemma SelectedRest(s: Spine, ids: seq<string>, now: int)
    requires Wellformed(s) && Selected(s, ids, now) && ids != []
    ensures Selected(Resolve(s, ids[0]), ids[1..], now)
  {
    forall i | 0 <= i < |ids[1..]|
      ensures Sweepable(Resolve(s, ids[0]), ids[1..][i], now)
    {
      assert Sweepable(s, ids[i + 1], now);
      ResolveKeepsOthers(s, ids[0], ids[i + 1], now);
    }
    hide Wellformed, Sweepable, Resolve;
  }

  predicate SameRows(s: Spine, t: Spine, id: string) {
    Joined(s, id) && Joined(t, id) && t.crystals[id] == s.crystals[id] && RowOf(t, id) == RowOf(s, id)
  }

  /** The sweep resolves each selected crystal as one resolution on its snapshot would, touches no other
      crystal, and so does not depend on the order of the rows. */
  lemma {:induction false} SweepBySnapshot(s: Spine, ids: seq<string>, now: int, id: string)
    requires Wellformed(s) && Selected(s, ids, now) && id in s.crystals
    ensures id in ids ==> SameRows(Resolve(s, id), SweepAll(s, ids, now), id)
    ensures id !in ids ==> SameRows(s, SweepAll(s, ids, now), id)
    decreases |ids|
  {
    assert Joined(s, id);
    if ids != [] {
      var t := Resolve(s, ids[0]);
      ResolveKeeps(s, ids[0], now);
      SelectedRest(s, ids, now);
      assert Sweepable(s, ids[0], now) && ids == [ids[0]] + ids[1..];
      if id != ids[0] {
        ResolveKeepsOthers(s, ids[0], id, now);
        SweepBySnapshot(t, ids[1..], now, id);
        if id in ids { ResolveAlike(s, t, id); }
      } else {
        assert Joined(t, id);
        SweepBySnapshot(t, ids[1..], now, id);
      }
    }
    hide Wellformed, Resolve, Sweepable, Worth;
  }

  lemma ResolveAlike(s: Spine, t: Spine, id: string)
    requires SameRows(s, t, id)
    ensures SameRows(Resolve(s, id), Resolve(t, id), id)
  {
  }

  lemma SweepIteration(s: Spine, ids: seq<string>, k: nat, now: int)
    requires Wellformed(s) && k < |ids| && Selected(s, ids[k..], now)
    ensures Joined(s, ids[k]) && RowOf(s, ids[k]).reserved >= 0
    ensures Wellformed(Resolve(s, ids[k])) && Selected(Resolve(s, ids[k]), ids[k + 1..], now)
    ensures SweepAll(s, ids[k..], now) == SweepAll(Resolve(s, ids[k]), ids[k + 1..], now)
    ensures forall j | k < j < |ids| :: SameRows(s, Resolve(s, ids[k]), ids[j])
  {
    var rest := ids[k..];
    assert rest[0] == ids[k] && rest[1..] == ids[k + 1..];
    assert Sweepable(s, rest[0], now);
    assert PairFits(s.accounts, ids[k], s.crystals[ids[k]], RowOf(s, ids[k]));
    ResolveKeeps(s, ids[k], now);
    SelectedRest(s, rest, now);
    forall j | k < j < |ids|
      ensures SameRows(s, Resolve(s, ids[k]), ids[j])
    {
      assert rest[j - k] == ids[j] && Sweepable(s, rest[j - k], now);
      ResolveKeepsOthers(s, ids[k], ids[j], now);
    }
    hide Wellformed, Selected, Resolve, Worth;
  }

  class Session {
    var accounts: map<string, Account>
    var crystals: map<string, Crystal>
    var escrow: map<string, Escrow>
    var events: seq<Event>

    ghost function Db(): Spine
      reads this
    {
      Spine(accounts, crystals, escrow, events)
    }

    constructor (accounts: map<string, Account>)
      ensures Db() == Spine(accounts, map[], map[], [])
    {
      this.accounts, crystals, escrow, events := accounts, map[], map[], [];
    }

    method UpdateBalance(account: string, amount: int)
      modifies this`accounts
      ensures accounts == Credited(old(accounts), account, amount)
    {
      if account in accounts {
        accounts := accounts[account := accounts[account].(balance := accounts[account].balance + amount)];
      }
    }

    method AppendEvent(operation: string, crystal: string, account: string, kind: Kind, delta: int)
      modifies this`events
      ensures events == old(events) + [Event.Event(operation, crystal, account, kind, delta)]
    {
      events := events + [Event.Event(operation, crystal, account, kind, delta)];
    }

    /** The two inserts; a violated key, reference or check leaves the caller to roll back. */
    method InsertRows(policies: map<string, PolicyRow>, p: Proposal, freshId: string, horizon: int) returns (ok: bool)
      modifies this`crystals, this`escrow
      ensures ok == !(freshId in old(crystals) || p.operation in old(escrow) || p.reserved < 0 ||
              (p.policy.Some? && p.policy.value !in policies))
      ensures ok ==>
                crystals == old(crystals)[freshId := Crystal(p.platform, p.operation, p.riskTier, p.facets,
                                                             CommitPrint(p.platform, p.operation, p.facets), horizon,
                                                               None)] &&
                escrow == old(escrow)[p.operation := Escrow(freshId, p.account, p.platform, p.reserved, 0,
                  Crystallized)]
    {
      if freshId in crystals || (p.policy.Some? && p.policy.value !in policies) {
        return false;
      }
      crystals := crystals[freshId := Crystal(p.platform, p.operation, p.riskTier, p.facets,
                                              CommitPrint(p.platform, p.operation, p.facets), horizon, None)];
      if p.operation in escrow || p.reserved < 0 {
        return false;
      }
      escrow := escrow[p.operation := Escrow(freshId, p.account, p.platform, p.reserved, 0, Crystallized)];
      ok := true;
    }

    method CrystallizeOperation(policies: map<string, PolicyRow>, p: Proposal, freshId: string,
        now: int) returns (reply: Reply)
      requires Wellformed(Db())
      modifies this
      ensures (Db(), reply) == Crystallize(old(Db()), policies, p, freshId, now)
    {
      if id :| id in crystals && crystals[id].platform == p.platform && crystals[id].operation == p.operation {
        assert IsFor(Db(), id, p.platform, p.operation);
        OnlyOne(Db(), id, p.platform, p.operation);
        return Replay(id, crystals[id].horizon);
      }
      assert !Taken(Db(), p.platform, p.operation);
      hide Wellformed, Taken;
      var horizon := now + TierHorizon(p.riskTier);
      if Given(p.policy) {
        if p.policy.value !in policies || !policies[p.policy.value].enabled {
          return Reply.Refused(PolicyNotEnabled);
        }
        horizon := now + policies[p.policy.value].horizonMs;
        if p.reserved > policies[p.policy.value].maxBudget {
          return Reply.Refused(OverPolicyMax);
        }
      }
      var accountsBefore, crystalsBefore, escrowBefore := accounts, crystals, escrow;
      if p.reserved > 0 {
        if p.account !in accounts || !accounts[p.account].active {
          return Reply.Refused(NoActiveAccount);
        }
        if accounts[p.account].balance < p.reserved {
          return Reply.Refused(InsufficientReserve);
        }
        UpdateBalance(p.account, -p.reserved);
      }
      var ok := InsertRows(policies, p, freshId, horizon);
      if !ok {
        accounts, crystals, escrow := accountsBefore, crystalsBefore, escrowBefore;
        return Reply.Refused(SchemaViolation);
      }
      AppendEvent(p.operation, freshId, p.account, CrystalCreated, -p.reserved);
      reply := Done(freshId, horizon);
    }

    method CommitOperation(a: Attempt, now: int) returns (reply: Reply)
      modifies this
      ensures (Db(), reply) == Commit(old(Db()), a, now)
    {
      if a.crystal !in crystals || crystals[a.crystal].operation !in escrow ||
        escrow[crystals[a.crystal].operation].crystal != a.crystal {
        return Reply.Refused(UnknownCrystal);
      }
      var c := crystals[a.crystal];
      var e := escrow[c.operation];
      if c.terminal.Some? {
        return Replay(a.crystal, c.horizon);
      }
      if CommitPrint(c.platform, c.operation, a.facets) != c.fingerprint {
        return Reply.Refused(FingerprintMismatch);
      }
      if now >= c.horizon && !a.lateAuthority {
        if StrandsOnExpiry(c.riskTier) {
          return Reply.Refused(HorizonStranded);
        }
        return Reply.Refused(HorizonBlocked);
      }
      if a.meshBlocked {
        return Reply.Refused(MeshBlock);
      }
      var accountsBefore := accounts;
      var refund := e.reserved - a.committed;
      if refund > 0 {
        UpdateBalance(e.account, refund);
      }
      if a.committed < 0 {
        accounts := accountsBefore;
        return Reply.Refused(SchemaViolation);
      }
      escrow := escrow[c.operation := e.(committed := a.committed, status := Closed(Committed))];
      crystals := crystals[a.crystal := c.(terminal := Some(Committed))];
      AppendEvent(c.operation, a.crystal, e.account, CommittedFinal, a.committed);
      reply := Done(a.crystal, c.horizon);
    }

    /** One row of the sweep, from the values selected at its start. */
    method SweepRow(id: string, c: Crystal, e: Escrow)
      requires Joined(Db(), id) && crystals[id] == c && RowOf(Db(), id) == e && e.reserved >= 0
      modifies this
      ensures Db() == Resolve(old(Db()), id)
    {
      if StrandsOnExpiry(c.riskTier) || e.status != Crystallized {
        crystals := crystals[id := crystals[id].(terminal := Some(Stranded))];
        escrow := escrow[c.operation := escrow[c.operation].(status := Closed(Stranded))];
        AppendEvent(c.operation, id, e.account, StrandedHold, 0);
      } else {
        UpdateBalance(e.account, e.reserved);
        crystals := crystals[id := crystals[id].(terminal := Some(Expired))];
        escrow := escrow[c.operation := escrow[c.operation].(status := Closed(Expired))];
        AppendEvent(c.operation, id, e.account, HorizonExpired, e.reserved);
      }
    }

    method SweepExpiredHorizons(ids: seq<string>, now: int) returns (swept: nat)
      requires Wellformed(Db()) && Selected(Db(), ids, now)
      modifies this
      ensures Db() == SweepAll(old(Db()), ids, now) && swept == |ids|
      ensures Wellformed(Db())
    {
      var rows := seq(|ids|, i requires 0 <= i < |ids| reads this requires Sweepable(Db(), ids[i], now) =>
        (crystals[ids[i]], escrow[crystals[ids[i]].operation]));
      swept := 0;
      while swept < |ids|
        invariant 0 <= swept <= |ids|
        invariant Wellformed(Db()) && Selected(Db(), ids[swept..], now)
        invariant SweepAll(old(Db()), ids, now) == SweepAll(Db(), ids[swept..], now)
        invariant forall j | swept <= j < |ids| ::
                  Joined(Db(), ids[j]) && crystals[ids[j]] == rows[j].0 && RowOf(Db(), ids[j]) == rows[j].1
      {
        ghost var before := Db();
        SweepIteration(before, ids, swept, now);
        hide Wellformed, Selected, Sweepable, Resolve;
        SweepRow(ids[swept], rows[swept].0, rows[swept].1);
        swept := swept + 1;
      }
    }
  }

  lemma OnlyOne(s: Spine, id: string, platform: string, operation: string)
    requires Wellformed(s) && IsFor(s, id, platform, operation)
    ensures forall other | IsFor(s, other, platform, operation) :: other == id
    ensures Taken(s, platform, operation)
  {
    forall other | IsFor(s, other, platform, operation) ensures other == id {
      OneRowPerCrystal(s, other, id);
    }
  }
}
