/** The Crystal Commit Protocol: crystallize reserves budget behind a fingerprint and a horizon; then a
    commit and the horizon sweeper race to close the crystal. Times are milliseconds on one clock. */
module CrystalProtocol {
  import opened Options
  import opened FiniteSums

  datatype Terminal = Committed | Stranded | Expired

  datatype EscrowStatus = Crystallized | InFlight | ActionTimeout | Closed(state: Terminal)

  /** The request digest, taken as ideal: equal digests mean equal fields. */
  datatype CommitPrint = CommitPrint(platform: string, operation: string, facets: string)

  datatype Crystal = Crystal(
    platform: string,
    operation: string,
    riskTier: string,
    facets: string,
    fingerprint: CommitPrint,
    horizon: int,
    terminal: Option<Terminal>)

  datatype Escrow = Escrow(crystal: string, account: string, platform: string, reserved: int, committed: int,
      status: EscrowStatus)

  datatype Account = Account(balance: int, active: bool)

  datatype Kind = CrystalCreated | CommittedFinal | StrandedHold | HorizonExpired

  datatype Event = Event(operation: string, crystal: string, account: string, kind: Kind, delta: int)

  /** Escrow rows are keyed by operation id, crystals by crystal id. */
  datatype Spine = Spine(
    accounts: map<string, Account>,
    crystals: map<string, Crystal>,
    escrow: map<string, Escrow>,
    events: seq<Event>)

  datatype PolicyRow = PolicyRow(horizonMs: int, maxBudget: int, enabled: bool)

  datatype Proposal = Proposal(
    platform: string,
    operation: string,
    account: string,
    riskTier: string,
    facets: string,
    policy: Option<string>,
    reserved: int)

  datatype Attempt = Attempt(crystal: string, facets: string, committed: int, lateAuthority: bool, meshBlocked: bool)

  datatype Refusal =
    | PolicyNotEnabled
    | OverPolicyMax
    | NoActiveAccount
    | InsufficientReserve
    | SchemaViolation
    | UnknownCrystal
    | FingerprintMismatch
    | HorizonStranded
    | HorizonBlocked
    | MeshBlock

  datatype Reply = Done(crystal: string, horizon: int) | Replay(crystal: string, horizon: int) | Refused(why: Refusal)

  // ---------- crystals ----------

  const CRITICAL_MS := 5_000
  const HIGH_MS := 300_000
  const STANDARD_MS := 3_600_000

  function TierHorizon(riskTier: string): int {
    if riskTier == "critical" then CRITICAL_MS else if riskTier == "high" then HIGH_MS else STANDARD_MS
  }

  predicate StrandsOnExpiry(riskTier: string) {
    riskTier == "critical" || riskTier == "high"
  }

  predicate HorizonPassed(c: Crystal, now: int) {
    now >= c.horizon
  }

  predicate PrintMatches(c: Crystal, facets: string) {
    CommitPrint(c.platform, c.operation, facets) == c.fingerprint
  }

  // ---------- crystallize ----------

  predicate IsFor(s: Spine, id: string, platform: string, operation: string) {
    id in s.crystals && s.crystals[id].platform == platform && s.crystals[id].operation == operation
  }

  predicate Taken(s: Spine, platform: string, operation: string) {
    exists id | id in s.crystals :: IsFor(s, id, platform, operation)
  }

  /** A policy id that is not the empty text is looked up; an unusable one refuses the request. */
  function CrystallizeRefusal(s: Spine, policies: map<string, PolicyRow>, p: Proposal,
      freshId: string): Option<Refusal> {
    if Given(p.policy) && (p.policy.value !in policies || !policies[p.policy.value].enabled) then Some(PolicyNotEnabled)
    else if Given(p.policy) && p.reserved > policies[p.policy.value].maxBudget then Some(OverPolicyMax)
    else if p.reserved > 0 && (p.account !in s.accounts || !s.accounts[p.account].active) then Some(NoActiveAccount)
    else if p.reserved > 0 && s.accounts[p.account].balance < p.reserved then Some(InsufficientReserve)
    else if freshId in s.crystals || p.operation in s.escrow || p.reserved < 0 ||
      (p.policy.Some? && p.policy.value !in policies) then
      Some(SchemaViolation)
    else None
  }

  function HorizonOf(policies: map<string, PolicyRow>, p: Proposal, now: int): int {
    now +
    if Given(p.policy) && p.policy.value in policies then policies[p.policy.value].horizonMs
    else TierHorizon(p.riskTier)
  }

  function Credited(accounts: map<string, Account>, account: string, amount: int): map<string, Account> {
    if account in accounts then accounts[account := accounts[account].(balance := accounts[account].balance + amount)]
    else accounts
  }

  function PostCrystallize(s: Spine, policies: map<string, PolicyRow>, p: Proposal, freshId: string, now: int): Spine {
    Spine(
      if p.reserved > 0 then Credited(s.accounts, p.account, -p.reserved) else s.accounts,
      s.crystals[freshId := Crystal(p.platform, p.operation, p.riskTier, p.facets,
        CommitPrint(p.platform, p.operation, p.facets),
                                    HorizonOf(policies, p, now), None)],
      s.escrow[p.operation := Escrow(freshId, p.account, p.platform, p.reserved, 0, Crystallized)],
      s.events + [Event(p.operation, freshId, p.account, CrystalCreated, -p.reserved)])
  }

  ghost function Crystallize(s: Spine, policies: map<string, PolicyRow>, p: Proposal, freshId: string,
      now: int): (Spine, Reply) {
    if Taken(s, p.platform, p.operation) then
      var id :| id in s.crystals && IsFor(s, id, p.platform, p.operation);
      (s, Replay(id, s.crystals[id].horizon))
    else if CrystallizeRefusal(s, policies, p, freshId).Some?
      then (s, Refused(CrystallizeRefusal(s, policies, p, freshId).value))
    else (PostCrystallize(s, policies, p, freshId, now), Done(freshId, HorizonOf(policies, p, now)))
  }

  // ---------- commit ----------

  /** The crystal and its escrow row, which carries the same operation id. */
  predicate Joined(s: Spine, id: string) {
    id in s.crystals && s.crystals[id].operation in s.escrow && s.escrow[s.crystals[id].operation].crystal == id
  }

  function RowOf(s: Spine, id: string): Escrow
    requires Joined(s, id)
  {
    s.escrow[s.crystals[id].operation]
  }

  function CommitRefusal(s: Spine, a: Attempt, now: int): Option<Refusal>
    requires Joined(s, a.crystal)
  {
    var c := s.crystals[a.crystal];
    if !PrintMatches(c, a.facets) then Some(FingerprintMismatch)
    else if HorizonPassed(c, now) && !a.lateAuthority
      then Some(if StrandsOnExpiry(c.riskTier) then HorizonStranded else HorizonBlocked)
    else if a.meshBlocked then Some(MeshBlock)
    else if a.committed < 0 then Some(SchemaViolation)
    else None
  }

  function Close(s: Spine, id: string, state: Terminal, committed: int, kind: Kind, refund: int, delta: int): Spine
    requires Joined(s, id)
  {
    var e := RowOf(s, id);
    Spine(
      if refund > 0 then Credited(s.accounts, e.account, refund) else s.accounts,
      s.crystals[id := s.crystals[id].(terminal := Some(state))],
      s.escrow[s.crystals[id].operation := e.(committed := committed, status := Closed(state))],
      s.events + [Event(s.crystals[id].operation, id, e.account, kind, delta)])
  }

  function PostCommit(s: Spine, a: Attempt): Spine
    requires Joined(s, a.crystal)
  {
    Close(s, a.crystal, Committed, a.committed, CommittedFinal, RowOf(s, a.crystal).reserved - a.committed, a.committed)
  }

  /** A crystal with any terminal state answers as a replay, before its fingerprint is looked at. */
  function Commit(s: Spine, a: Attempt, now: int): (Spine, Reply) {
    if !Joined(s, a.crystal) then (s, Refused(UnknownCrystal))
    else if s.crystals[a.crystal].terminal.Some? then (s, Replay(a.crystal, s.crystals[a.crystal].horizon))
    else if CommitRefusal(s, a, now).Some? then (s, Refused(CommitRefusal(s, a, now).value))
    else (PostCommit(s, a), Done(a.crystal, s.crystals[a.crystal].horizon))
  }

  // ---------- the horizon sweep ----------

  predicate Sweepable(s: Spine, id: string, now: int) {
    Joined(s, id) && s.crystals[id].terminal.None? && s.crystals[id].horizon <= now && !RowOf(s, id).status.Closed?
  }

  predicate Strands(s: Spine, id: string)
    requires Joined(s, id)
  {
    StrandsOnExpiry(s.crystals[id].riskTier) || RowOf(s, id).status != Crystallized
  }

  function Resolve(s: Spine, id: string): Spine
    requires Joined(s, id)
  {
    var e := RowOf(s, id);
    if Strands(s, id) then Close(s, id, Stranded, e.committed, StrandedHold, 0, 0)
    else Close(s, id, Expired, e.committed, HorizonExpired, e.reserved, e.reserved)
  }

  /** The crystals one sweep selected: each once, each past its horizon. */
  predicate Selected(s: Spine, ids: seq<string>, now: int) {
    (forall i | 0 <= i < |ids| :: Sweepable(s, ids[i], now)) && (forall i, j | 0 <= i < j < |ids| :: ids[i] != ids[j])
  }

  function SweepAll(s: Spine, ids: seq<string>, now: int): Spine
    decreases |ids|
  {
    if ids == [] || !Sweepable(s, ids[0], now) then s else SweepAll(Resolve(s, ids[0]), ids[1..], now)
  }

  // ---------- runs ----------

  datatype Step =
    | Propose(policies: map<string, PolicyRow>, p: Proposal, freshId: string, now: int)
    | TryCommit(a: Attempt, now: int)
    | Sweep(ids: seq<string>, now: int)
    // an agent outside this code reports the action as started or timed out
    | Mark(id: string, timedOut: bool)

  function MarkOpen(s: Spine, id: string, timedOut: bool): Spine {
    if Joined(s, id) && !RowOf(s, id).status.Closed? then
      var status := if timedOut then ActionTimeout else InFlight;
      s.(escrow := s.escrow[s.crystals[id].operation := RowOf(s, id).(status := status)])
    else s
  }

  ghost function Take(s: Spine, step: Step): Spine {
    match step
    case Propose(policies, p, freshId, now) => Crystallize(s, policies, p, freshId, now).0
    case TryCommit(a, now) => Commit(s, a, now).0
    case Sweep(ids, now) => if Selected(s, ids, now) then SweepAll(s, ids, now) else s
    case Mark(id, timedOut) => MarkOpen(s, id, timedOut)
  }

  ghost function Run(s: Spine, steps: seq<Step>): Spine
    decreases |steps|
  {
    if steps == [] then s else Take(Run(s, steps[..|steps| - 1]), steps[|steps| - 1])
  }

  ghost predicate Seeded(s: Spine) {
    s.crystals == map[] && s.escrow == map[] && s.events == [] &&
      forall a | a in s.accounts :: s.accounts[a].balance >= 0
  }

  // ---------- the invariant ----------

  /** A crystal and its row agree, and only tiers that never strand expire with a refund. */
  predicate PairFits(accounts: map<string, Account>, id: string, c: Crystal, e: Escrow) {
    e.crystal == id && e.platform == c.platform && e.reserved >= 0 && e.committed >= 0 &&
    (e.reserved > 0 ==> e.account in accounts) &&
    c.fingerprint == CommitPrint(c.platform, c.operation, c.facets) &&
    (match e.status case Closed(state) => c.terminal == Some(state) case _ => c.terminal.None?) &&
    (c.terminal == Some(Expired) ==> !StrandsOnExpiry(c.riskTier))
  }

  ghost predicate Wellformed(s: Spine) {
    (forall id | id in s.crystals :: Joined(s, id) && PairFits(s.accounts, id, s.crystals[id], RowOf(s, id))) &&
    (forall op | op in s.escrow :: s.escrow[op].crystal in s.crystals &&
      s.crystals[s.escrow[op].crystal].operation == op) &&
    (forall a | a in s.accounts :: s.accounts[a].balance >= 0)
  }

  function Min(a: int, b: int): int {
    if a <= b then a else b
  }

  /** What an escrow row still withholds from its account. */
  function Claim(e: Escrow): int {
    match e.status
    case Closed(Committed) => Min(e.reserved, e.committed)
    case Closed(Expired) => 0
    case _ => e.reserved
  }

  ghost function Claims(escrow: map<string, Escrow>, account: string): map<string, int> {
    map op | op in escrow && escrow[op].account == account :: Claim(escrow[op])
  }

  ghost function Worth(s: Spine, account: string): int
    requires account in s.accounts
  {
    s.accounts[account].balance + Sum(Claims(s.escrow, account))
  }

  // ---------- every step keeps it ----------

  lemma ClaimSet(escrow: map<string, Escrow>, op: string, e: Escrow, account: string)
    requires op in escrow ==> escrow[op].account == e.account
    ensures Sum(Claims(escrow[op := e], account)) ==
              Sum(Claims(escrow, account)) +
              if e.account == account then Claim(e) - (if op in escrow then Claim(escrow[op]) else 0) else 0
  {
    var before, after := Claims(escrow, account), Claims(escrow[op := e], account);
    if e.account == account {
      assert after == before[op := Claim(e)];
      SumSet(before, op, Claim(e));
    } else {
      assert after == before;
    }
  }

  /** Rows with different operations never share a crystal. */
  lemma OneRowPerCrystal(s: Spine, a: string, b: string)
    requires Wellformed(s) && a in s.crystals && b in s.crystals && s.crystals[a].operation == s.crystals[b].operation
    ensures a == b
  {
    assert RowOf(s, a) == RowOf(s, b);
  }

  lemma PostCrystallizeKeeps(s: Spine, policies: map<string, PolicyRow>, p: Proposal, freshId: string, now: int)
    requires Wellformed(s) && CrystallizeRefusal(s, policies, p, freshId).None?
    ensures Wellformed(PostCrystallize(s, policies, p, freshId, now))
  {
    var t := PostCrystallize(s, policies, p, freshId, now);
    forall id | id in t.crystals
      ensures Joined(t, id) && PairFits(t.accounts, id, t.crystals[id], RowOf(t, id))
    {
      if id != freshId {
        assert Joined(s, id) && PairFits(s.accounts, id, s.crystals[id], RowOf(s, id));
        assert s.crystals[id].operation != p.operation;
      }
    }
    hide HorizonOf;
  }

  lemma PostCrystallizeWorth(s: Spine, policies: map<string, PolicyRow>, p: Proposal, freshId: string, now: int,
      account: string)
    requires CrystallizeRefusal(s, policies, p, freshId).None? && account in s.accounts
    ensures var t := PostCrystallize(s, policies, p, freshId, now);
      account in t.accounts && Worth(t, account) == Worth(s, account)
  {
    ClaimSet(s.escrow, p.operation, Escrow(freshId, p.account, p.platform, p.reserved, 0, Crystallized), account);
    hide HorizonOf, Claims;
  }

  predicate Closes(s: Spine, id: string, state: Terminal, committed: int, refund: int) {
    Joined(s, id) && s.crystals[id].terminal.None? && !RowOf(s, id).status.Closed? && committed >= 0 &&
    (state.Expired? ==> !StrandsOnExpiry(s.crystals[id].riskTier) && refund == RowOf(s, id).reserved) &&
    (state.Committed? ==> refund == RowOf(s, id).reserved - committed) &&
    (state.Stranded? ==> refund == 0)
  }

  lemma CloseKeeps(s: Spine, id: string, state: Terminal, committed: int, kind: Kind, refund: int, delta: int)
    requires Wellformed(s) && Closes(s, id, state, committed, refund)
    ensures Wellformed(Close(s, id, state, committed, kind, refund, delta))
  {
    var t := Close(s, id, state, committed, kind, refund, delta);
    forall other | other in t.crystals
      ensures Joined(t, other) && PairFits(t.accounts, other, t.crystals[other], RowOf(t, other))
    {
      assert Joined(s, other) && PairFits(s.accounts, other, s.crystals[other], RowOf(s, other));
      if other != id && s.crystals[other].operation == s.crystals[id].operation { OneRowPerCrystal(s, other, id); }
    }
  }

  lemma CloseWorth(s: Spine, id: string, state: Terminal, committed: int, kind: Kind, refund: int, delta: int,
      account: string)
    requires Wellformed(s) && Closes(s, id, state, committed, refund) && account in s.accounts
    ensures var t := Close(s, id, state, committed, kind, refund, delta);
      account in t.accounts && Worth(t, account) == Worth(s, account)
  {
    var e := RowOf(s, id);
    assert PairFits(s.accounts, id, s.crystals[id], e);
    ClaimSet(s.escrow, s.crystals[id].operation, e.(committed := committed, status := Closed(state)), account);
    hide Claims, Wellformed;
  }

  lemma SweptCloses(s: Spine, id: string, now: int)
    requires Wellformed(s) && Sweepable(s, id, now)
    ensures Strands(s, id) ==> Closes(s, id, Stranded, RowOf(s, id).committed, 0)
    ensures !Strands(s, id) ==> Closes(s, id, Expired, RowOf(s, id).committed, RowOf(s, id).reserved)
  {
    assert PairFits(s.accounts, id, s.crystals[id], RowOf(s, id));
  }

  ghost predicate Keeps(s: Spine, t: Spine) {
    Wellformed(t) && t.accounts.Keys == s.accounts.Keys && forall a | a in s.accounts :: Worth(t, a) == Worth(s, a)
  }

  /** Closing a crystal in any of the three ways keeps the tables in agreement and every account's worth. */
  lemma ClosingKeeps(s: Spine, id: string, state: Terminal, committed: int, kind: Kind, refund: int, delta: int)
    requires Wellformed(s) && Closes(s, id, state, committed, refund)
    ensures Keeps(s, Close(s, id, state, committed, kind, refund, delta))
  {
    CloseKeeps(s, id, state, committed, kind, refund, delta);
    assert Joined(s, id);
    hide Wellformed, Worth, Closes;
    forall a | a in s.accounts ensures Worth(Close(s, id, state, committed, kind, refund, delta), a) == Worth(s, a) {
      CloseWorth(s, id, state, committed, kind, refund, delta, a);
    }
  }

  lemma ResolveKeeps(s: Spine, id: string, now: int)
    requires Wellformed(s) && Sweepable(s, id, now)
    ensures Keeps(s, Resolve(s, id))
  {
    var e := RowOf(s, id);
    SweptCloses(s, id, now);
    hide Wellformed, Keeps, Closes, Close;
    if Strands(s, id) {
      ClosingKeeps(s, id, Stranded, e.committed, StrandedHold, 0, 0);
    } else {
      ClosingKeeps(s, id, Expired, e.committed, HorizonExpired, e.reserved, e.reserved);
    }
  }

  lemma {:induction false} SweepKeeps(s: Spine, ids: seq<string>, now: int)
    requires Wellformed(s)
    ensures Keeps(s, SweepAll(s, ids, now))
    decreases |ids|
  {
    hide Wellformed, Worth, Resolve;
    if ids != [] && Sweepable(s, ids[0], now) {
      ResolveKeeps(s, ids[0], now);
      SweepKeeps(Resolve(s, ids[0]), ids[1..], now);
    }
  }

  lemma MarkWellformed(s: Spine, id: string, timedOut: bool)
    requires Wellformed(s)
    ensures Wellformed(MarkOpen(s, id, timedOut))
  {
    var t := MarkOpen(s, id, timedOut);
    if Joined(s, id) && !RowOf(s, id).status.Closed? {
      forall other | other in t.crystals
        ensures Joined(t, other) && PairFits(t.accounts, other, t.crystals[other], RowOf(t, other))
      {
        assert Joined(s, other) && PairFits(s.accounts, other, s.crystals[other], RowOf(s, other));
      }
    }
  }

  lemma MarkWorth(s: Spine, id: string, timedOut: bool, account: string)
    requires account in s.accounts
    ensures Worth(MarkOpen(s, id, timedOut), account) == Worth(s, account)
  {
    if Joined(s, id) && !RowOf(s, id).status.Closed? {
      var marked := RowOf(s, id).(status := if timedOut then ActionTimeout else InFlight);
      ClaimSet(s.escrow, s.crystals[id].operation, marked, account);
    }
    hide Claims;
  }

  lemma MarkKeeps(s: Spine, id: string, timedOut: bool)
    requires Wellformed(s)
    ensures Keeps(s, MarkOpen(s, id, timedOut))
  {
    MarkWellformed(s, id, timedOut);
    hide Wellformed, Worth;
    forall a | a in s.accounts ensures Worth(MarkOpen(s, id, timedOut), a) == Worth(s, a) {
      MarkWorth(s, id, timedOut, a);
    }
  }

  /** The commit changes something: it is neither refused nor a replay. */
  predicate Effective(s: Spine, a: Attempt, now: int) {
    Joined(s, a.crystal) && s.crystals[a.crystal].terminal.None? && CommitRefusal(s, a, now).None?
  }

  lemma PostCommitKeeps(s: Spine, a: Attempt, now: int)
    requires Wellformed(s) && Effective(s, a, now)
    ensures Keeps(s, PostCommit(s, a))
  {
    var e := RowOf(s, a.crystal);
    assert PairFits(s.accounts, a.crystal, s.crystals[a.crystal], e);
    assert Closes(s, a.crystal, Committed, a.committed, e.reserved - a.committed);
    hide Wellformed, Keeps, Closes, Close, Effective, CommitRefusal, PairFits;
    ClosingKeeps(s, a.crystal, Committed, a.committed, CommittedFinal, e.reserved - a.committed, a.committed);
  }

  lemma CommitKeeps(s: Spine, a: Attempt, now: int)
    requires Wellformed(s)
    ensures Keeps(s, Commit(s, a, now).0)
  {
    if Effective(s, a, now) { PostCommitKeeps(s, a, now); }
    hide Wellformed, Worth, CommitRefusal;
  }

  lemma CrystallizeKeeps(s: Spine, policies: map<string, PolicyRow>, p: Proposal, freshId: string, now: int)
    requires Wellformed(s)
    ensures Keeps(s, Crystallize(s, policies, p, freshId, now).0)
  {
    if !Taken(s, p.platform, p.operation) && CrystallizeRefusal(s, policies, p, freshId).None? {
      PostCrystallizeKeeps(s, policies, p, freshId, now);
      forall a | a in s.accounts ensures Worth(PostCrystallize(s, policies, p, freshId, now), a) == Worth(s, a) {
        PostCrystallizeWorth(s, policies, p, freshId, now, a);
      }
    }
    hide Wellformed, Worth, CrystallizeRefusal;
  }

  lemma TakeKeeps(s: Spine, step: Step)
    requires Wellformed(s)
    ensures Keeps(s, Take(s, step))
  {
    hide Wellformed, Worth;
    match step
    case Propose(policies, p, freshId, now) => CrystallizeKeeps(s, policies, p, freshId, now);
    case TryCommit(a, now) => CommitKeeps(s, a, now);
    case Sweep(ids, now) => SweepKeeps(s, ids, now);
    case Mark(id, timedOut) => MarkKeeps(s, id, timedOut);
  }
}
