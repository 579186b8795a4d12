/** What the Crystal Commit Protocol answers, told from the fields of the requests and the steps before. */
module CrystalAnswers {
  import opened Options
  import opened FiniteSums
  import opened CrystalProtocol
  import opened CrystalTheorems

  // ---------- a crystal by its history ----------

  /** The step is a proposal that is answered with a new crystal of this id. */
  ghost predicate Opens(s: Spine, step: Step, id: string) {
    step.Propose? && Crystallize(s, step.policies, step.p, step.freshId, step.now).1.Done? &&
    Crystallize(s, step.policies, step.p, step.freshId, step.now).1.crystal == id
  }

  /** The first proposal answered with this crystal. */
  ghost function Opening(seed: Spine, steps: seq<Step>, id: string): (first: Option<Step>)
    ensures first.Some? ==> first.value.Propose?
    decreases |steps|
  {
    if steps == [] then None
    else
      var n := |steps| - 1;
      var earlier := Opening(seed, steps[..n], id);
      if earlier.Some? then earlier
      else if Opens(Run(seed, steps[..n]), steps[n], id) then Some(steps[n])
      else None
  }

  /** A named policy sets the time to act; otherwise the risk tier does: five seconds, five minutes, or an hour. */
  predicate TimeToAct(policies: map<string, PolicyRow>, p: Proposal, ms: int) {
    if p.policy.Some? && p.policy.value != ""
    then p.policy.value in policies && ms == policies[p.policy.value].horizonMs
    else if p.riskTier == "critical" then ms == 5_000
    else if p.riskTier == "high" then ms == 300_000
    else ms == 3_600_000
  }

  /** What a proposal fixes about its crystal and its escrow row for good. */
  predicate Describes(c: Crystal, e: Escrow, step: Step)
    requires step.Propose?
  {
    c.platform == step.p.platform && c.operation == step.p.operation && c.riskTier == step.p.riskTier &&
    c.facets == step.p.facets && e.account == step.p.account && e.reserved == step.p.reserved &&
    TimeToAct(step.policies, step.p, c.horizon - step.now)
  }

  /** The escrow row of a crystal keeps its account and its reservation. */
  predicate RowLasts(s: Spine, t: Spine, id: string) {
    Joined(s, id) && Joined(t, id) ==>
      RowOf(t, id).account == RowOf(s, id).account && RowOf(t, id).reserved == RowOf(s, id).reserved
  }

  lemma CloseRowLasts(s: Spine, at: string, state: Terminal, committed: int, kind: Kind, refund: int, delta: int,
      id: string)
    requires Joined(s, at)
    ensures var t := Close(s, at, state, committed, kind, refund, delta);
      RowLasts(s, t, id) && t.crystals.Keys == s.crystals.Keys && t.accounts.Keys == s.accounts.Keys &&
      (Joined(s, id) ==> Joined(t, id)) && forall a | a in s.accounts :: t.accounts[a].active == s.accounts[a].active
  {
  }

  lemma {:induction false} SweepRowLasts(s: Spine, ids: seq<string>, now: int, id: string)
    requires Wellformed(s)
    ensures var t := SweepAll(s, ids, now);
      RowLasts(s, t, id) && t.crystals.Keys == s.crystals.Keys && t.accounts.Keys == s.accounts.Keys &&
      forall a | a in s.accounts :: t.accounts[a].active == s.accounts[a].active
    decreases |ids|
  {
    if ids != [] && Sweepable(s, ids[0], now) {
      var t, e := Resolve(s, ids[0]), RowOf(s, ids[0]);
      CloseRowLasts(s, ids[0], Stranded, e.committed, StrandedHold, 0, 0, id);
      CloseRowLasts(s, ids[0], Expired, e.committed, HorizonExpired, e.reserved, e.reserved, id);
      ResolveKeeps(s, ids[0], now);
      hide Resolve, Close, Worth, Wellformed, Strands;
      SweepRowLasts(t, ids[1..], now, id);
    }
  }

  lemma ProposeAnswers(s: Spine, policies: map<string, PolicyRow>, p: Proposal, freshId: string, now: int, id: string)
    requires Wellformed(s)
    ensures var t, step := Crystallize(s, policies, p, freshId, now).0, Propose(policies, p, freshId, now);
      RowLasts(s, t, id) && t.accounts.Keys == s.accounts.Keys &&
      (forall a | a in s.accounts :: t.accounts[a].active == s.accounts[a].active) &&
      (id !in s.crystals ==> (id in t.crystals <==> Opens(s, step, id))) &&
      (id !in s.crystals && id in t.crystals ==>
        Joined(t, id) && t.crystals[id].terminal.None? && Describes(t.crystals[id], RowOf(t, id), step))
  {
    hide PairFits;
    if id in s.crystals { assert Joined(s, id); }
  }

  lemma StepAnswers(s: Spine, step: Step, id: string)
    requires Wellformed(s)
    ensures var t := Take(s, step);
      RowLasts(s, t, id) && t.accounts.Keys == s.accounts.Keys &&
      (forall a | a in s.accounts :: t.accounts[a].active == s.accounts[a].active) &&
      (id !in s.crystals ==> (id in t.crystals <==> Opens(s, step, id))) &&
      (id !in s.crystals && id in t.crystals ==>
        Joined(t, id) && t.crystals[id].terminal.None? && Describes(t.crystals[id], RowOf(t, id), step))
  {
    match step
    case Propose(policies, p, freshId, now) => ProposeAnswers(s, policies, p, freshId, now, id);
    case TryCommit(a, now) =>
      hide Wellformed, Close;
      if Effective(s, a, now) {
        CloseRowLasts(s, a.crystal, Committed, a.committed, CommittedFinal, RowOf(s, a.crystal).reserved - a.committed,
          a.committed, id);
      }
    case Sweep(ids, now) => SweepRowLasts(s, ids, now, id); hide Wellformed, SweepAll;
    case Mark(at, timedOut) =>
  }

  /** A crystal exists exactly when some proposal was answered with it, and is what that proposal asked for. */
  lemma {:induction false} CrystalHistory(seed: Spine, steps: seq<Step>, id: string)
    requires Seeded(seed)
    ensures var t := Run(seed, steps);
      (id in t.crystals <==> Opening(seed, steps, id).Some?) &&
      (id in t.crystals ==>
        Joined(t, id) && Describes(t.crystals[id], RowOf(t, id), Opening(seed, steps, id).value))
    ensures var t := Run(seed, steps);
      t.accounts.Keys == seed.accounts.Keys &&
      forall a | a in seed.accounts :: t.accounts[a].active == seed.accounts[a].active
    decreases |steps|
  {
    if steps != [] {
      var n := |steps| - 1;
      var m := Run(seed, steps[..n]);
      CrystalHistory(seed, steps[..n], id);
      RunKeeps(seed, steps[..n]);
      StepAnswers(m, steps[n], id);
      StepLasts(m, steps[n], id);
      hide Wellformed, Worth, Take, Opens, TimeToAct;
    }
  }

  /** The log holds an event of the crystal besides its creation. */
  ghost predicate ClosedInLog(events: seq<Event>, id: string) {
    exists e | e in events :: e.crystal == id && !e.kind.CrystalCreated?
  }

  lemma {:induction false} ClosedInTrail(events: seq<Event>, id: string)
    ensures ClosedInLog(events, id) <==> exists k | k in Trail(events, id) :: !k.0.CrystalCreated?
    decreases |events|
  {
    if events != [] {
      var n := |events| - 1;
      ClosedInTrail(events[..n], id);
      var more := if events[n].crystal == id then [(events[n].kind, events[n].delta)] else [];
      assert Trail(events, id) == Trail(events[..n], id) + more;
      assert events == events[..n] + [events[n]];
      assert forall k :: k in Trail(events, id) <==> k in Trail(events[..n], id) || k in more;
      assert forall e :: e in events <==> e in events[..n] || e == events[n];
      hide Trail;
    }
  }

  /** A crystal is closed exactly when the log says so. */
  lemma ClosedByLog(seed: Spine, steps: seq<Step>, id: string)
    requires Seeded(seed) && id in Run(seed, steps).crystals
    ensures var t := Run(seed, steps);
      t.crystals[id].terminal.Some? <==> ClosedInLog(t.events, id)
  {
    var t := Run(seed, steps);
    RunKeeps(seed, steps);
    assert Joined(t, id) && PairFits(t.accounts, id, t.crystals[id], RowOf(t, id));
    TrailTellsAll(seed, steps, id);
    ClosedInTrail(t.events, id);
    assert Closing(RowOf(t, id)) != [] ==> Told(t, id)[1] in Told(t, id);
    hide Run, Trail, Worth, Wellformed;
  }

  // ---------- commit ----------

  /** The reasons to refuse the commit of an open crystal, the first that holds. */
  function CommitVerdict(p: Proposal, horizon: int, a: Attempt, now: int): Reply {
    if a.facets != p.facets then Refused(FingerprintMismatch)
    else if now >= horizon && !a.lateAuthority
    then Refused(if p.riskTier in {"critical", "high"} then HorizonStranded else HorizonBlocked)
    else if a.meshBlocked then Refused(MeshBlock)
    else if a.committed < 0 then Refused(SchemaViolation)
    else Done(a.crystal, horizon)
  }

  lemma CommitParts(s: Spine, a: Attempt, now: int, step: Step)
    requires Wellformed(s) && step.Propose?
    requires a.crystal in s.crystals && Describes(s.crystals[a.crystal], RowOf(s, a.crystal), step)
    ensures var horizon := s.crystals[a.crystal].horizon;
      Commit(s, a, now).1 ==
        if s.crystals[a.crystal].terminal.Some? then Replay(a.crystal, horizon)
        else CommitVerdict(step.p, horizon, a, now)
    ensures !Commit(s, a, now).1.Done? ==> Commit(s, a, now).0 == s
  {
    assert PairFits(s.accounts, a.crystal, s.crystals[a.crystal], RowOf(s, a.crystal));
    hide Wellformed, Close;
  }

  /** The whole answer to a commit, by what the crystal was proposed with: unknown, a replay once the log has it
      closed, the first reason that refuses it, or done. Anything but done changes nothing. */
  lemma CommitAnswer(seed: Spine, steps: seq<Step>, a: Attempt, now: int)
    requires Seeded(seed)
    ensures var t, first := Run(seed, steps), Opening(seed, steps, a.crystal);
      (first.None? ==> Commit(t, a, now).1 == Refused(UnknownCrystal)) &&
      (first.Some? ==>
        a.crystal in t.crystals &&
        var horizon := t.crystals[a.crystal].horizon;
        TimeToAct(first.value.policies, first.value.p, horizon - first.value.now) &&
        Commit(t, a, now).1 ==
          if ClosedInLog(t.events, a.crystal) then Replay(a.crystal, horizon)
          else CommitVerdict(first.value.p, horizon, a, now)) &&
      (!Commit(t, a, now).1.Done? ==> Commit(t, a, now).0 == t)
  {
    CrystalHistory(seed, steps, a.crystal);
    RunKeeps(seed, steps);
    var t := Run(seed, steps);
    if a.crystal in t.crystals {
      ClosedByLog(seed, steps, a.crystal);
      CommitParts(t, a, now, Opening(seed, steps, a.crystal).value);
    }
    hide Run, Worth, Wellformed, TimeToAct, ClosedInLog, CommitVerdict, CommitRefusal, Opening;
  }

  /** A commit of an open crystal takes effect exactly when its facets are the crystal's, it comes before the horizon
      or with late authority, the mesh does not block it, and its amount is not negative. */
  lemma CommitsExactly(s: Spine, a: Attempt, now: int)
    requires Wellformed(s) && Joined(s, a.crystal) && s.crystals[a.crystal].terminal.None?
    ensures var c := s.crystals[a.crystal];
      (Effective(s, a, now) <==>
        a.facets == c.facets && (now < c.horizon || a.lateAuthority) && !a.meshBlocked && a.committed >= 0) &&
      (Effective(s, a, now) <==> Commit(s, a, now).1 == Done(a.crystal, c.horizon)) &&
      (!Effective(s, a, now) ==> Commit(s, a, now).0 == s && Commit(s, a, now).1.Refused?)
  {
    assert PairFits(s.accounts, a.crystal, s.crystals[a.crystal], RowOf(s, a.crystal));
    hide Wellformed, Close;
  }

  /** A commit that takes effect records the amount it names and gives back what the reservation had above it; no
      other crystal, row or account moves. */
  lemma CommitWrites(s: Spine, a: Attempt, now: int)
    requires Wellformed(s) && Effective(s, a, now)
    ensures var t, e := Commit(s, a, now).0, RowOf(s, a.crystal);
      t.crystals == s.crystals[a.crystal := s.crystals[a.crystal].(terminal := Some(Committed))] &&
      t.escrow ==
        s.escrow[s.crystals[a.crystal].operation := e.(committed := a.committed, status := Closed(Committed))] &&
      t.accounts.Keys == s.accounts.Keys &&
      forall x | x in s.accounts ::
        t.accounts[x].active == s.accounts[x].active &&
        t.accounts[x].balance ==
          s.accounts[x].balance + if x == e.account && e.reserved > a.committed then e.reserved - a.committed else 0
  {
    assert PairFits(s.accounts, a.crystal, s.crystals[a.crystal], RowOf(s, a.crystal));
    hide Wellformed, CommitRefusal;
  }

  /** A commit that comes too late is refused as stranded exactly when a sweep of the crystal, no agent having
      reported on it, would strand it; otherwise the sweep would expire it. */
  lemma LateRefusalForetellsSweep(s: Spine, a: Attempt, now: int)
    requires Wellformed(s) && Joined(s, a.crystal) && s.crystals[a.crystal].terminal.None?
    requires RowOf(s, a.crystal).status.Crystallized? && s.crystals[a.crystal].horizon <= now
    requires a.facets == s.crystals[a.crystal].facets && !a.lateAuthority
    ensures Sweepable(s, a.crystal, now)
    ensures Commit(s, a, now).1 == Refused(HorizonStranded) <==>
              Resolve(s, a.crystal).crystals[a.crystal].terminal == Some(Stranded)
    ensures Commit(s, a, now).1 == Refused(HorizonBlocked) <==>
              Resolve(s, a.crystal).crystals[a.crystal].terminal == Some(Expired)
  {
    assert PairFits(s.accounts, a.crystal, s.crystals[a.crystal], RowOf(s, a.crystal));
    hide Wellformed;
  }

  // ---------- the horizon sweep ----------

  /** The sweep strands a crystal, keeping its reservation, when its tier is critical or high or an agent reported on
      it, and otherwise expires it and gives all of the reservation back; no other crystal, row or account moves. */
  lemma SweepResolves(s: Spine, id: string, now: int)
    requires Wellformed(s) && Sweepable(s, id, now)
    ensures var t, e := Resolve(s, id), RowOf(s, id);
      var stranded := s.crystals[id].riskTier in {"critical", "high"} || e.status != Crystallized;
      t.crystals == s.crystals[id := s.crystals[id].(terminal := Some(if stranded then Stranded else Expired))] &&
      t.escrow.Keys == s.escrow.Keys && t.accounts.Keys == s.accounts.Keys &&
      (forall op | op in s.escrow && op != s.crystals[id].operation :: t.escrow[op] == s.escrow[op]) &&
      (forall a | a in s.accounts ::
        t.accounts[a].active == s.accounts[a].active &&
        t.accounts[a].balance == s.accounts[a].balance + if a == e.account && !stranded then e.reserved else 0)
  {
    assert PairFits(s.accounts, id, s.crystals[id], RowOf(s, id));
    hide Wellformed;
  }

  // ---------- crystallize ----------

  /** A proposal of a platform and operation already crystallized changes nothing, whatever else it asks for: it is
      answered with the crystal of the first one and its horizon. */
  lemma ReproposalReplays(seed: Spine, steps: seq<Step>, id: string, policies: map<string, PolicyRow>, p: Proposal,
      freshId: string, now: int)
    requires Seeded(seed) && Opening(seed, steps, id).Some?
    requires p.platform == Opening(seed, steps, id).value.p.platform
    requires p.operation == Opening(seed, steps, id).value.p.operation
    ensures var t := Run(seed, steps);
      id in t.crystals && Crystallize(t, policies, p, freshId, now) == (t, Replay(id, t.crystals[id].horizon))
  {
    var t := Run(seed, steps);
    CrystalHistory(seed, steps, id);
    RunKeeps(seed, steps);
    assert IsFor(t, id, p.platform, p.operation);
    forall other | other in t.crystals && IsFor(t, other, p.platform, p.operation)
      ensures other == id
    {
      OneRowPerCrystal(t, other, id);
    }
    hide Run, Opening, Worth, Wellformed, TimeToAct, CrystallizeRefusal, PostCrystallize;
  }

  /** Some proposal of this platform and operation was answered with a crystal. */
  ghost predicate Proposed(seed: Spine, steps: seq<Step>, platform: string, operation: string) {
    exists id ::
      Opening(seed, steps, id).Some? && Opening(seed, steps, id).value.p.platform == platform &&
      Opening(seed, steps, id).value.p.operation == operation
  }

  /** What the seed left the account, after every claim on it, covers the amount. */
  ghost predicate Covered(seed: Spine, t: Spine, account: string, amount: int) {
    account in seed.accounts && seed.accounts[account].balance - Sum(Claims(t.escrow, account)) >= amount
  }

  /** The reasons to refuse a new proposal, the first that holds; a zero reservation asks nothing of the account. */
  ghost function ProposalVerdict(seed: Spine, t: Spine, policies: map<string, PolicyRow>, p: Proposal,
      freshId: string): Option<Refusal> {
    var named := p.policy.Some? && p.policy.value != "";
    if named && (p.policy.value !in policies || !policies[p.policy.value].enabled) then Some(PolicyNotEnabled)
    else if named && p.reserved > policies[p.policy.value].maxBudget then Some(OverPolicyMax)
    else if p.reserved > 0 && (p.account !in seed.accounts || !seed.accounts[p.account].active)
    then Some(NoActiveAccount)
    else if p.reserved > 0 && !Covered(seed, t, p.account, p.reserved) then Some(InsufficientReserve)
    else if freshId in t.crystals || p.operation in t.escrow || p.reserved < 0 ||
            (p.policy.Some? && p.policy.value !in policies)
    then Some(SchemaViolation)
    else None
  }

  lemma AccountTold(seed: Spine, steps: seq<Step>, account: string)
    requires Seeded(seed)
    ensures var t := Run(seed, steps);
      (account in t.accounts <==> account in seed.accounts) &&
      (account in seed.accounts ==>
        t.accounts[account].active == seed.accounts[account].active &&
        t.accounts[account].balance == seed.accounts[account].balance - Sum(Claims(t.escrow, account)))
  {
    CrystalHistory(seed, steps, "");
    if account in seed.accounts { BudgetConserved(seed, steps, account); }
  }

  lemma RefusalTold(seed: Spine, steps: seq<Step>, policies: map<string, PolicyRow>, p: Proposal, freshId: string)
    requires Seeded(seed)
    ensures CrystallizeRefusal(Run(seed, steps), policies, p, freshId) ==
            ProposalVerdict(seed, Run(seed, steps), policies, p, freshId)
  {
    AccountTold(seed, steps, p.account);
    hide Run, Seeded, Claims;
  }

  lemma ProposedExactly(seed: Spine, steps: seq<Step>, platform: string, operation: string)
    requires Seeded(seed)
    ensures Proposed(seed, steps, platform, operation) <==> Taken(Run(seed, steps), platform, operation)
  {
    var t := Run(seed, steps);
    forall id
      ensures IsFor(t, id, platform, operation) <==>
                Opening(seed, steps, id).Some? && Opening(seed, steps, id).value.p.platform == platform &&
                Opening(seed, steps, id).value.p.operation == operation
    {
      CrystalHistory(seed, steps, id);
      hide Run, Opening, TimeToAct;
    }
    hide Run, Opening, IsFor;
    if Taken(t, platform, operation) {
      var id :| id in t.crystals && IsFor(t, id, platform, operation);
      assert Opening(seed, steps, id).Some?;
    }
    if Proposed(seed, steps, platform, operation) {
      var id :| Opening(seed, steps, id).Some? && Opening(seed, steps, id).value.p.platform == platform &&
        Opening(seed, steps, id).value.p.operation == operation;
      assert IsFor(t, id, platform, operation);
      CrystalHistory(seed, steps, id);
    }
  }

  /** The whole answer to a proposal of a platform and operation not crystallized before: the first reason that
      refuses it, or the new crystal with the horizon its policy or its tier gives. */
  lemma ProposalAnswer(seed: Spine, steps: seq<Step>, policies: map<string, PolicyRow>, p: Proposal, freshId: string,
      now: int)
    requires Seeded(seed) && !Proposed(seed, steps, p.platform, p.operation)
    ensures var t := Run(seed, steps);
      var reply, why := Crystallize(t, policies, p, freshId, now).1, ProposalVerdict(seed, t, policies, p, freshId);
      (why.Some? ==> reply == Refused(why.value) && Crystallize(t, policies, p, freshId, now).0 == t) &&
      (why.None? ==> reply.Done? && reply.crystal == freshId && TimeToAct(policies, p, reply.horizon - now))
  {
    var t := Run(seed, steps);
    ProposedExactly(seed, steps, p.platform, p.operation);
    RefusalTold(seed, steps, policies, p, freshId);
    if CrystallizeRefusal(t, policies, p, freshId).None? {
      assert TimeToAct(policies, p, HorizonOf(policies, p, now) - now);
    }
    hide Run, Proposed, ProposalVerdict, CrystallizeRefusal, TimeToAct, HorizonOf, Taken;
  }

  // ---------- the events ----------

  /** Every event names the operation and the account of its crystal. */
  ghost predicate EventsNamed(s: Spine) {
    forall e | e in s.events ::
      Joined(s, e.crystal) && e.operation == s.crystals[e.crystal].operation && e.account == RowOf(s, e.crystal).account
  }

  lemma CloseNamed(s: Spine, at: string, state: Terminal, committed: int, kind: Kind, refund: int, delta: int)
    requires Joined(s, at) && EventsNamed(s)
    ensures EventsNamed(Close(s, at, state, committed, kind, refund, delta))
  {
  }

  lemma {:induction false} SweepNamed(s: Spine, ids: seq<string>, now: int)
    requires EventsNamed(s)
    ensures EventsNamed(SweepAll(s, ids, now))
    decreases |ids|
  {
    if ids != [] && Sweepable(s, ids[0], now) {
      var e := RowOf(s, ids[0]);
      CloseNamed(s, ids[0], Stranded, e.committed, StrandedHold, 0, 0);
      CloseNamed(s, ids[0], Expired, e.committed, HorizonExpired, e.reserved, e.reserved);
      hide Close, EventsNamed;
      SweepNamed(Resolve(s, ids[0]), ids[1..], now);
    }
  }

  lemma StepNamed(s: Spine, step: Step)
    requires EventsNamed(s)
    ensures EventsNamed(Take(s, step))
  {
    match step
    case Propose(policies, p, freshId, now) => hide HorizonOf, Credited;
    case TryCommit(a, now) =>
      if Effective(s, a, now) {
        CloseNamed(s, a.crystal, Committed, a.committed, CommittedFinal, RowOf(s, a.crystal).reserved - a.committed,
          a.committed);
      }
      hide Close, EventsNamed;
    case Sweep(ids, now) => SweepNamed(s, ids, now);
    case Mark(at, timedOut) =>
  }

  lemma {:induction false} RunNamed(seed: Spine, steps: seq<Step>)
    requires Seeded(seed)
    ensures EventsNamed(Run(seed, steps))
    decreases |steps|
  {
    if steps != [] {
      RunNamed(seed, steps[..|steps| - 1]);
      StepNamed(Run(seed, steps[..|steps| - 1]), steps[|steps| - 1]);
      hide EventsNamed, Take;
    }
  }
}
