/** What the Crystal Commit Protocol promises over every run. */
module CrystalTheorems {
  import opened Options
  import opened FiniteSums
  import opened CrystalProtocol

  // ---------- conservation ----------

  lemma {:induction false} RunKeeps(s: Spine, steps: seq<Step>)
    requires Wellformed(s)
    ensures Keeps(s, Run(s, steps))
    decreases |steps|
  {
    hide Wellformed, Worth, Take;
    if steps != [] {
      RunKeeps(s, steps[..|steps| - 1]);
      TakeKeeps(Run(s, steps[..|steps| - 1]), steps[|steps| - 1]);
    }
  }

  /** Each account's balance, plus the reservations of its open and stranded crystals, plus what its
      committed ones were charged (never more than they reserved), is its seed; no balance is negative. */
  lemma BudgetConserved(seed: Spine, steps: seq<Step>, account: string)
    requires Seeded(seed) && account in seed.accounts
    ensures var t := Run(seed, steps);
      account in t.accounts && t.accounts[account].balance >= 0 &&
      t.accounts[account].balance + Sum(Claims(t.escrow, account)) == seed.accounts[account].balance
  {
    RunKeeps(seed, steps);
    SumZero(Claims(seed.escrow, account));
  }

  /** A crystal is open or in one terminal state, and its escrow row says the same; only tiers that never
      strand expire with a refund. */
  lemma StatesAgree(seed: Spine, steps: seq<Step>, id: string)
    requires Seeded(seed) && id in Run(seed, steps).crystals
    ensures var t := Run(seed, steps);
      Joined(t, id) &&
      (forall state :: t.crystals[id].terminal == Some(state) <==> RowOf(t, id).status == Closed(state)) &&
      (StrandsOnExpiry(t.crystals[id].riskTier) ==> t.crystals[id].terminal != Some(Expired))
  {
    RunKeeps(seed, steps);
    var t := Run(seed, steps);
    assert Joined(t, id) && PairFits(t.accounts, id, t.crystals[id], RowOf(t, id));
  }

  // ---------- what never changes again ----------

  /** A crystal keeps everything but its open state; once closed, its row too is final. */
  predicate Lasts(s: Spine, t: Spine, id: string) {
    id in s.crystals ==>
      Joined(s, id) && Joined(t, id) && t.crystals[id] == s.crystals[id].(terminal := t.crystals[id].terminal) &&
      (s.crystals[id].terminal.Some? ==> t.crystals[id] == s.crystals[id] && RowOf(t, id) == RowOf(s, id))
  }

  lemma CloseLasts(s: Spine, at: string, state: Terminal, committed: int, kind: Kind, refund: int, delta: int,
      id: string)
    requires Wellformed(s) && Joined(s, at) && s.crystals[at].terminal.None?
    ensures Lasts(s, Close(s, at, state, committed, kind, refund, delta), id)
  {
    if id in s.crystals && id != at && s.crystals[id].operation == s.crystals[at].operation {
      OneRowPerCrystal(s, id, at);
    }
    hide PairFits;
  }

  lemma {:induction false} SweepLasts(s: Spine, ids: seq<string>, now: int, id: string)
    requires Wellformed(s)
    ensures Lasts(s, SweepAll(s, ids, now), id)
    decreases |ids|
  {
    hide PairFits;
    if ids != [] && Sweepable(s, ids[0], now) {
      var t := Resolve(s, ids[0]);
      ResolveKeeps(s, ids[0], now);
      assert Lasts(s, t, id) by {
        var e := RowOf(s, ids[0]);
        CloseLasts(s, ids[0], Stranded, e.committed, StrandedHold, 0, 0, id);
        CloseLasts(s, ids[0], Expired, e.committed, HorizonExpired, e.reserved, e.reserved, id);
        hide Wellformed, Close, Strands;
      }
      hide Wellformed, Resolve, Worth;
      SweepLasts(t, ids[1..], now, id);
    }
  }

  lemma ProposeLasts(s: Spine, policies: map<string, PolicyRow>, p: Proposal, freshId: string, now: int, id: string)
    requires Wellformed(s)
    ensures Lasts(s, Crystallize(s, policies, p, freshId, now).0, id)
  {
    hide PairFits, HorizonOf, Credited;
    if id in s.crystals { assert Joined(s, id); }
  }

  lemma MarkLasts(s: Spine, at: string, timedOut: bool, id: string)
    requires Wellformed(s)
    ensures Lasts(s, MarkOpen(s, at, timedOut), id)
  {
    if id in s.crystals {
      assert Joined(s, id) && PairFits(s.accounts, id, s.crystals[id], RowOf(s, id));
    }
  }

  lemma StepLasts(s: Spine, step: Step, id: string)
    requires Wellformed(s)
    ensures Lasts(s, Take(s, step), id)
  {
    if id in s.crystals { assert Joined(s, id); }
    match step
    case Propose(policies, p, freshId, now) => ProposeLasts(s, policies, p, freshId, now, id);
    case TryCommit(a, now) =>
      hide Wellformed, Close;
      if Effective(s, a, now) {
        CloseLasts(s, a.crystal, Committed, a.committed, CommittedFinal, RowOf(s, a.crystal).reserved - a.committed,
          a.committed, id);
      }
    case Sweep(ids, now) => SweepLasts(s, ids, now, id);
    case Mark(at, timedOut) => MarkLasts(s, at, timedOut, id);
  }

  /** Over any run a crystal keeps its fields, its first terminal state is its last, and the escrow row of
      a closed crystal, the withheld amount of a stranded one included, never changes. */
  lemma {:induction false} TerminalIsFinal(s: Spine, steps: seq<Step>, id: string)
    requires Wellformed(s) && id in s.crystals
    ensures Lasts(s, Run(s, steps), id)
    decreases |steps|
  {
    if steps == [] {
      assert Joined(s, id);
    } else {
      var m := Run(s, steps[..|steps| - 1]);
      TerminalIsFinal(s, steps[..|steps| - 1], id);
      RunKeeps(s, steps[..|steps| - 1]);
      StepLasts(m, steps[|steps| - 1], id);
    }
    hide Wellformed, Take, Worth;
  }

  /** A commit that takes effect at any later time carries the facets its crystal was first proposed with. */
  lemma CommitMatchesProposal(s: Spine, policies: map<string, PolicyRow>, p: Proposal, freshId: string, at: int,
                              steps: seq<Step>, a: Attempt, now: int)
    requires Wellformed(s) && !Taken(s, p.platform, p.operation) && CrystallizeRefusal(s, policies, p, freshId).None?
    requires var t := Run(PostCrystallize(s, policies, p, freshId, at), steps);
      a.crystal == freshId && Effective(t, a, now)
    ensures a.facets == p.facets
  {
    var first := PostCrystallize(s, policies, p, freshId, at);
    PostCrystallizeKeeps(s, policies, p, freshId, at);
    TerminalIsFinal(first, steps, freshId);
    hide Wellformed, Run, CrystallizeRefusal, Taken;
  }

  // ---------- the horizon decides who may act ----------

  /** Without late authority, at every instant exactly one of the two may close an open crystal: a commit
      with its facets, or the sweeper. */
  lemma ClockDecides(s: Spine, a: Attempt, now: int)
    requires Wellformed(s) && Joined(s, a.crystal) && s.crystals[a.crystal].terminal.None?
    requires a.facets == s.crystals[a.crystal].facets && !a.lateAuthority && !a.meshBlocked && a.committed >= 0
    ensures Effective(s, a, now) <==> !Sweepable(s, a.crystal, now)
  {
    assert PairFits(s.accounts, a.crystal, s.crystals[a.crystal], RowOf(s, a.crystal));
  }

  /** Past the horizon both may act, with late authority. The later of the two finds the crystal closed
      and changes nothing. */
  lemma FirstCloserWins(s: Spine, a: Attempt, now: int)
    requires Wellformed(s) && Effective(s, a, now) && Sweepable(s, a.crystal, now)
    ensures !Sweepable(Commit(s, a, now).0, a.crystal, now)
    ensures Commit(Resolve(s, a.crystal), a, now) ==
            (Resolve(s, a.crystal), Replay(a.crystal, s.crystals[a.crystal].horizon))
  {
  }

  // ---------- the event trail ----------

  function Trail(events: seq<Event>, id: string): seq<(Kind, int)>
    decreases |events|
  {
    if events == [] then []
    else
      var last := events[|events| - 1];
      Trail(events[..|events| - 1], id) + if last.crystal == id then [(last.kind, last.delta)] else []
  }

  function Closing(e: Escrow): seq<(Kind, int)> {
    match e.status
    case Closed(Committed) => [(CommittedFinal, e.committed)]
    case Closed(Stranded) => [(StrandedHold, 0)]
    case Closed(Expired) => [(HorizonExpired, e.reserved)]
    case _ => []
  }

  function Told(s: Spine, id: string): seq<(Kind, int)> {
    if Joined(s, id) then [(CrystalCreated, -RowOf(s, id).reserved)] + Closing(RowOf(s, id)) else []
  }

  ghost predicate TrailFits(s: Spine, id: string) {
    Trail(s.events, id) == Told(s, id)
  }

  lemma TrailOn(events: seq<Event>, e: Event, id: string)
    ensures Trail(events + [e], id) == Trail(events, id) + if e.crystal == id then [(e.kind, e.delta)] else []
  {
    assert (events + [e])[..|events|] == events;
  }

  lemma CloseTold(s: Spine, at: string, state: Terminal, committed: int, kind: Kind, refund: int, delta: int,
      id: string)
    requires Wellformed(s) && TrailFits(s, id) && Joined(s, at) && s.crystals[at].terminal.None? &&
             !RowOf(s, at).status.Closed?
    requires [(kind, delta)] == Closing(RowOf(s, at).(committed := committed, status := Closed(state)))
    ensures TrailFits(Close(s, at, state, committed, kind, refund, delta), id)
  {
    var e := Event.Event(s.crystals[at].operation, at, RowOf(s, at).account, kind, delta);
    TrailOn(s.events, e, id);
    if id == at {
      assert Closing(RowOf(s, at)) == [];
      assert Told(s, id) + [(kind, delta)] == [(CrystalCreated, -RowOf(s, at).reserved)] + [(kind, delta)];
    } else if id in s.crystals {
      assert Joined(s, id);
      if s.crystals[id].operation == s.crystals[at].operation { OneRowPerCrystal(s, id, at); }
    }
    hide PairFits, Wellformed, Trail;
  }

  lemma {:induction false} SweepTold(s: Spine, ids: seq<string>, now: int, id: string)
    requires Wellformed(s) && TrailFits(s, id)
    ensures TrailFits(SweepAll(s, ids, now), id)
    decreases |ids|
  {
    if ids != [] && Sweepable(s, ids[0], now) {
      var e := RowOf(s, ids[0]);
      ResolveKeeps(s, ids[0], now);
      hide Wellformed, TrailFits, Close, Worth;
      if Strands(s, ids[0]) {
        CloseTold(s, ids[0], Stranded, e.committed, StrandedHold, 0, 0, id);
      } else {
        CloseTold(s, ids[0], Expired, e.committed, HorizonExpired, e.reserved, e.reserved, id);
      }
      SweepTold(Resolve(s, ids[0]), ids[1..], now, id);
    }
  }

  lemma ToldOnPropose(s: Spine, policies: map<string, PolicyRow>, p: Proposal, freshId: string, now: int, id: string)
    requires Wellformed(s) && freshId !in s.crystals && p.operation !in s.escrow
    ensures Told(PostCrystallize(s, policies, p, freshId, now), id) ==
              Told(s, id) + if id == freshId then [(CrystalCreated, -p.reserved)] else []
  {
    if id in s.crystals { assert Joined(s, id) && s.crystals[id].operation != p.operation; }
    hide Wellformed, HorizonOf, Credited;
  }

  lemma ProposeTold(s: Spine, policies: map<string, PolicyRow>, p: Proposal, freshId: string, now: int, id: string)
    requires Wellformed(s) && TrailFits(s, id) && CrystallizeRefusal(s, policies, p, freshId).None?
    ensures TrailFits(PostCrystallize(s, policies, p, freshId, now), id)
  {
    hide Wellformed, Told, Trail, HorizonOf, Credited;
    TrailOn(s.events, Event.Event(p.operation, freshId, p.account, CrystalCreated, -p.reserved), id);
    ToldOnPropose(s, policies, p, freshId, now, id);
  }

  lemma CommitTold(s: Spine, a: Attempt, now: int, id: string)
    requires Wellformed(s) && TrailFits(s, id) && Effective(s, a, now)
    ensures TrailFits(PostCommit(s, a), id)
  {
    assert PairFits(s.accounts, a.crystal, s.crystals[a.crystal], RowOf(s, a.crystal));
    hide Wellformed, TrailFits, Close;
    CloseTold(s, a.crystal, Committed, a.committed, CommittedFinal, RowOf(s, a.crystal).reserved - a.committed,
      a.committed, id);
  }

  lemma MarkTold(s: Spine, at: string, timedOut: bool, id: string)
    requires Wellformed(s) && TrailFits(s, id)
    ensures TrailFits(MarkOpen(s, at, timedOut), id)
  {
    hide PairFits, Trail;
  }

  lemma StepTold(s: Spine, step: Step, id: string)
    requires Wellformed(s) && TrailFits(s, id)
    ensures TrailFits(Take(s, step), id)
  {
    hide Wellformed, TrailFits, CrystallizeRefusal, PostCrystallize, PostCommit;
    match step
    case Propose(policies, p, freshId, now) =>
      if CrystallizeRefusal(s, policies, p, freshId).None? { ProposeTold(s, policies, p, freshId, now, id); }
    case TryCommit(a, now) => if Effective(s, a, now) { CommitTold(s, a, now, id); }
    case Sweep(ids, now) => SweepTold(s, ids, now, id);
    case Mark(at, timedOut) => MarkTold(s, at, timedOut, id);
  }

  /** Each crystal's events are its creation with the reserved amount and, once it is closed, exactly one
      closing event that names its terminal state and amount; unknown crystals have none. */
  lemma {:induction false} TrailTellsAll(seed: Spine, steps: seq<Step>, id: string)
    requires Seeded(seed)
    ensures Trail(Run(seed, steps).events, id) == Told(Run(seed, steps), id)
    decreases |steps|
  {
    if steps != [] {
      TrailTellsAll(seed, steps[..|steps| - 1], id);
      RunKeeps(seed, steps[..|steps| - 1]);
      StepTold(Run(seed, steps[..|steps| - 1]), steps[|steps| - 1], id);
      hide Wellformed, Take, Worth, Told, Trail;
    }
  }
}
