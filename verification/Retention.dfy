/** Retention tiers and archival, and what archival does to the incremental verification of the log. */
module Retention {
  import opened Options
  import opened HashChain
  import opened Checkpoints
  import opened ChainVerify

  datatype Policy = Policy(hotDays: int, warmDays: int, archiveEnabled: bool)

  const DAY := 86400

  /** Used when the policy table or its default row is missing. */
  const DEFAULT_POLICY := Policy(90, 365, false)

  datatype Skip = NoVerifyCheckpoint | NoColdTierEvents | ArchiveDisabled

  datatype Report = Report(total: nat, hot: nat, warm: nat, cold: nat, archived: nat, skipped: Option<Skip>)

  datatype Store = Store(table: seq<Row>, stored: Option<Checkpoint>)

  function HotCutoff(policy: Policy, now: int): int {
    now - policy.hotDays * DAY
  }

  function WarmCutoff(policy: Policy, now: int): int {
    now - policy.warmDays * DAY
  }

  // ---------- tiers ----------

  function Older(table: seq<Row>, cutoff: int): nat
    decreases |table|
  {
    if table == [] then 0 else (if table[0].recordedAt < cutoff then 1 else 0) + Older(table[1..], cutoff)
  }

  /** Rows recorded in [from, to). */
  function Between(table: seq<Row>, from: int, to: int): nat
    decreases |table|
  {
    if table == [] then 0
    else (if from <= table[0].recordedAt < to then 1 else 0) + Between(table[1..], from, to)
  }

  function NotOlder(table: seq<Row>, cutoff: int): nat
    decreases |table|
  {
    if table == [] then 0 else (if table[0].recordedAt >= cutoff then 1 else 0) + NotOlder(table[1..], cutoff)
  }

  /** The three tiers add up to the table, except that rows older than the warm cutoff and not older than
      the hot one are counted twice; there are none of those when hot days do not exceed warm days. */
  lemma {:induction false} TiersAddUp(table: seq<Row>, hot: int, warm: int)
    ensures NotOlder(table, hot) + Between(table, warm, hot) + Older(table, warm) == |table| + Between(table, hot, warm)
    ensures warm <= hot ==> Between(table, hot, warm) == 0
    decreases |table|
  {
    if table != [] { TiersAddUp(table[1..], hot, warm); }
  }

  lemma {:induction false} BetweenCounts(table: seq<Row>, from: int, to: int)
    ensures Between(table, from, to) == 0 <==> forall i | 0 <= i < |table| :: !(from <= table[i].recordedAt < to)
    decreases |table|
  {
    if table != [] {
      BetweenCounts(table[1..], from, to);
      assert forall i | 0 < i < |table| :: table[i] == table[1..][i - 1];
    }
  }

  /** Hot, warm and cold partition the table exactly when no row lies in the overlap of hot and cold. */
  lemma TiersPartition(table: seq<Row>, policy: Policy, now: int)
    ensures var hot, warm := HotCutoff(policy, now), WarmCutoff(policy, now);
      NotOlder(table, hot) + Between(table, warm, hot) + Older(table, warm) == |table| <==>
      forall i | 0 <= i < |table| :: !(hot <= table[i].recordedAt < warm)
    ensures policy.hotDays <= policy.warmDays ==>
              forall i | 0 <= i < |table| :: !(HotCutoff(policy, now) <= table[i].recordedAt < WarmCutoff(policy, now))
  {
    TiersAddUp(table, HotCutoff(policy, now), WarmCutoff(policy, now));
    BetweenCounts(table, HotCutoff(policy, now), WarmCutoff(policy, now));
  }

  // ---------- archival ----------

  predicate Archivable(row: Row, cutoff: int, lastId: nat) {
    row.recordedAt < cutoff && row.id <= lastId
  }

  function Archive(table: seq<Row>, cutoff: int, lastId: nat): (kept: seq<Row>)
    ensures |kept| <= |table|
    decreases |table|
  {
    if table == [] then []
    else (if Archivable(table[0], cutoff, lastId) then [] else [table[0]]) + Archive(table[1..], cutoff, lastId)
  }

  predicate Archives(store: Store, policy: Policy, now: int) {
    policy.archiveEnabled && store.stored.Some? && Older(store.table, WarmCutoff(policy, now)) > 0
  }

  function Retained(store: Store, policy: Policy, now: int): Store {
    if Archives(store, policy, now) then store.(table := Archive(store.table, WarmCutoff(policy, now),
      store.stored.value.lastId))
    else store
  }

  /** What archival leaves: exactly the rows it does not select. */
  lemma {:induction false} ArchiveKeeps(table: seq<Row>, cutoff: int, lastId: nat)
    ensures forall row :: row in Archive(table, cutoff, lastId) <==>
              row in table && !(row.recordedAt < cutoff && row.id <= lastId)
    decreases |table|
  {
    if table != [] {
      ArchiveKeeps(table[1..], cutoff, lastId);
      assert table == [table[0]] + table[1..];
    }
  }

  lemma OrderedAppend(table: seq<Row>, rows: seq<Row>)
    ensures Ordered(table + rows) <==>
              Ordered(table) && Ordered(rows) && (table != [] && rows != [] ==> table[|table| - 1].id < rows[0].id)
  {
    var all := table + rows;
    assert forall i | 0 <= i < |table| :: all[i] == table[i];
    assert forall i | 0 <= i < |rows| :: all[|table| + i] == rows[i];
    if Ordered(all) {
      forall i, j | 0 <= i < j < |rows|
        ensures rows[i].id < rows[j].id
      {
        assert all[|table| + i].id < all[|table| + j].id;
      }
    }
  }

  lemma OrderedCons(row: Row, rest: seq<Row>)
    ensures Ordered([row] + rest) <==> Ordered(rest) && row.id > 0 && forall other | other in rest :: other.id > row.id
  {
    OrderedAppend([row], rest);
    assert Ordered([row]) == (row.id > 0);
    if Ordered(rest) && rest != [] && row.id < rest[0].id {
      forall other | other in rest
        ensures other.id > row.id
      {
        var i :| 0 <= i < |rest| && rest[i] == other;
      }
    }
  }

  /** And it leaves them in their order. */
  lemma {:induction false} ArchiveKeepsOrder(table: seq<Row>, cutoff: int, lastId: nat)
    requires Ordered(table)
    ensures Ordered(Archive(table, cutoff, lastId))
    decreases |table|
  {
    if table != [] {
      var row, rest := table[0], table[1..];
      assert table == [row] + rest;
      OrderedCons(row, rest);
      ArchiveKeepsOrder(rest, cutoff, lastId);
      ArchiveKeeps(rest, cutoff, lastId);
      hide Ordered;
      OrderedCons(row, Archive(rest, cutoff, lastId));
    }
  }

  lemma {:induction false} ArchiveSplit(table: seq<Row>, more: seq<Row>, cutoff: int, lastId: nat)
    requires forall i | 0 <= i < |more| :: !Archivable(more[i], cutoff, lastId)
    ensures Archive(table + more, cutoff, lastId) == Archive(table, cutoff, lastId) + more
    decreases |table| + |more|
  {
    var all := table + more;
    hide Archivable;
    if table != [] {
      assert all[1..] == table[1..] + more && all[0] == table[0];
      ArchiveSplit(table[1..], more, cutoff, lastId);
      var first := if Archivable(table[0], cutoff, lastId) then [] else [table[0]];
      var rest := Archive(table[1..], cutoff, lastId);
      assert Archive(table, cutoff, lastId) == first + rest && Archive(all, cutoff, lastId) == first + (rest + more);
      assert first + (rest + more) == first + rest + more;
      hide *;
    } else if more != [] {
      assert all == more;
      ArchiveSplit(table, more[1..], cutoff, lastId);
      assert table + more[1..] == more[1..] && more == [more[0]] + more[1..];
    } else {
      assert all == [];
    }
  }

  lemma {:induction false} NothingCold(table: seq<Row>, cutoff: int, lastId: nat)
    requires Older(table, cutoff) == 0
    ensures Archive(table, cutoff, lastId) == table
    decreases |table|
  {
    if table != [] {
      NothingCold(table[1..], cutoff, lastId);
      assert table == [table[0]] + table[1..];
    }
  }

  /** The retention run over an event table it updates in place. */
  class RetentionStore {
    var table: seq<Row>
    const checkpoints: CheckpointTable

    constructor (table: seq<Row>, checkpoints: CheckpointTable)
      ensures this.table == table && this.checkpoints == checkpoints
    {
      this.table, this.checkpoints := table, checkpoints;
    }

    method TierCounts(hotCutoff: int, warmCutoff: int) returns (total: nat, hot: nat, warm: nat, cold: nat)
      ensures total == |table| && hot == NotOlder(table, hotCutoff)
      ensures warm == Between(table, warmCutoff, hotCutoff) && cold == Older(table, warmCutoff)
    {
      total, hot := |table|, NotOlder(table, hotCutoff);
      warm, cold := Between(table, warmCutoff, hotCutoff), Older(table, warmCutoff);
    }

    /** Counts are those of the table before archival; a reason is given only when nothing was archived. The
        checkpoint looked up by key is the one a verifier loads. */
    method RunRetention(configured: Option<Policy>, now: int) returns (report: Report)
      requires checkpoints.Valid()
      modifies this`table
      ensures var policy := if configured.Some? then configured.value else DEFAULT_POLICY;
        var before := Store(old(table), checkpoints.Loaded());
        table == Retained(before, policy, now).table &&
        table == (if policy.archiveEnabled && checkpoints.Loaded().Some?
                  then Archive(old(table), now - policy.warmDays * DAY, checkpoints.Loaded().value.lastId)
                  else old(table)) &&
        report.total == |old(table)| && report.hot == NotOlder(old(table), now - policy.hotDays * DAY) &&
        report.warm == Between(old(table), now - policy.warmDays * DAY, now - policy.hotDays * DAY) &&
        report.cold == Older(old(table), now - policy.warmDays * DAY) &&
        report.archived == |old(table)| - |table| &&
        (policy.hotDays <= policy.warmDays ==> report.hot + report.warm + report.cold == report.total) &&
        (report.skipped == Some(ArchiveDisabled) <==> !policy.archiveEnabled) &&
        (report.skipped == Some(NoVerifyCheckpoint) <==> policy.archiveEnabled && checkpoints.Loaded().None?) &&
        (report.skipped == Some(NoColdTierEvents) <==>
          policy.archiveEnabled && checkpoints.Loaded().Some? && report.cold == 0)
    {
      var policy := if configured.Some? then configured.value else DEFAULT_POLICY;
      var total, hot, warm, cold := TierCounts(HotCutoff(policy, now), WarmCutoff(policy, now));
      TiersAddUp(table, HotCutoff(policy, now), WarmCutoff(policy, now));
      var archived := 0;
      var reason := None;
      if policy.archiveEnabled {
        var lastId := checkpoints.LoadCheckpointEventId();
        if lastId.None? {
          reason := Some(NoVerifyCheckpoint);
        } else if cold == 0 {
          NothingCold(table, WarmCutoff(policy, now), lastId.value);
          reason := Some(NoColdTierEvents);
        } else {
          var kept := Archive(table, WarmCutoff(policy, now), lastId.value);
          archived := |table| - |kept|;
          table := kept;
        }
      } else {
        reason := Some(ArchiveDisabled);
      }
      report := Report(total, hot, warm, cold, archived, if archived == 0 then reason else None);
    }
  }

  // ---------- runs with and without deletion ----------

  datatype Event =
    | Append(rows: seq<Row>)
    | Check
    | Retain(policy: Policy, now: int)

  /** The incremental verification of a store, on one snapshot. */
  function Outcome(store: Store): Result {
    Verify(OneView(store.table), store.stored, true).0
  }

  function Checked(store: Store): Store {
    var saves := Verify(OneView(store.table), store.stored, true).1;
    if saves.Some? then store.(stored := saves) else store
  }

  /** Appended rows of any kind, with larger ids. */
  function Play(store: Store, event: Event, deleting: bool): Store {
    match event
    case Append(rows) => if Ordered(store.table + rows) then store.(table := store.table + rows) else store
    case Check => Checked(store)
    case Retain(policy, now) => if deleting then Retained(store, policy, now) else store
  }

  function PlayAll(start: Store, events: seq<Event>, deleting: bool): Store
    decreases |events|
  {
    if events == [] then start
    else Play(PlayAll(start, events[..|events| - 1], deleting), events[|events| - 1], deleting)
  }

  predicate AnchorIsWarm(store: Store, cutoff: int) {
    store.stored.Some? ==> forall i | 0 <= i < |store.table| :: store.table[i].id == store.stored.value.lastId ==>
      store.table[i].recordedAt >= cutoff
  }

  /** Every archival of the run finds the checkpointed event not older than its warm cutoff. */
  predicate SafeRun(start: Store, events: seq<Event>)
    decreases |events|
  {
    events == [] ||
    var before := events[..|events| - 1];
    var last := events[|events| - 1];
    SafeRun(start, before) &&
    (last.Retain? && Archives(PlayAll(start, before, true), last.policy, last.now) ==>
       AnchorIsWarm(PlayAll(start, before, true), WarmCutoff(last.policy, last.now)))
  }

  /** The table keeps everything from row `n - 1` of the full one on, and before it some of its rows. */
  predicate Trimmed(table: seq<Row>, full: seq<Row>, n: nat)
    requires 0 < n <= |full|
  {
    var cut := |table| - (|full| - (n - 1));
    Ordered(table) && cut >= 0 && table[cut..] == full[n - 1..] && forall i | 0 <= i < cut :: table[i] in full[..n - 1]
  }

  /** The two runs' stores: same checkpoint up to the total it stores, and a table trimmed only before it. */
  ghost predicate Mirrors(trimmed: Store, whole: Store) {
    Ordered(whole.table) &&
    match whole.stored
    case None => trimmed == whole
    case Some(cp) =>
      Describes(cp, whole.table, cp.sealedCount) && trimmed.stored == Some(cp.(totalEvents := Total(trimmed))) &&
      Trimmed(trimmed.table, whole.table, cp.sealedCount)
  }

  function Total(store: Store): nat {
    if store.stored.Some? then store.stored.value.totalEvents else 0
  }

  /** The shortcut fires on stored counts although rows follow the checkpoint. */
  predicate StaleShortcut(store: Store) {
    store.stored.Some? && HasText(TableHead(store.table)) && FastPath(OneView(store.table), store.stored.value) &&
    After(store.table, store.stored.value.lastId) != []
  }

  // ---------- the two tables look alike from the checkpoint on ----------

  /** The newest stored hash is found in any final part that starts with a sealed row. */
  lemma {:induction false} HeadInFinalPart(before: seq<Row>, rows: seq<Row>)
    requires rows != [] && rows[0].rowHash.Some? && rows[0].rowHash != Some(Genesis)
    ensures TableHead(before + rows) == TableHead(rows) && TableHead(rows).Some?
    ensures exists i | 0 <= i < |rows| :: rows[i].rowHash == TableHead(rows)
    decreases |rows|
  {
    var n := |rows| - 1;
    var all := before + rows;
    assert all[|all| - 1] == rows[n] && all[..|all| - 1] == before + rows[..n];
    if rows[n].rowHash.Some? && rows[n].rowHash != Some(Genesis) {
    } else {
      HeadInFinalPart(before, rows[..n]);
      var i :| 0 <= i < n && rows[..n][i].rowHash == TableHead(rows[..n]);
      assert rows[i].rowHash == TableHead(rows);
    }
  }

  /** The rows from the checkpointed one on. */
  function FromAnchor(full: seq<Row>, n: nat): seq<Row>
    requires 0 < n <= |full|
  {
    full[n - 1..]
  }

  lemma TrimmedParts(table: seq<Row>, full: seq<Row>, n: nat)
    requires 0 < n <= |full| && Trimmed(table, full, n)
    ensures var m := |table| - (|full| - n);
      0 < m <= |table| && table[m - 1] == full[n - 1] && table[m..] == full[n..] &&
      table == table[..m] + full[n..] && table == table[..m - 1] + FromAnchor(full, n) &&
        full == full[..n - 1] + FromAnchor(full, n)
  {
    hide Ordered;
    var cut := |table| - (|full| - (n - 1));
    var last := FromAnchor(full, n);
    assert table == table[..cut] + table[cut..] && full == full[..n - 1] + full[n - 1..];
    assert table[cut..][0] == full[n - 1..][0];
    assert last[1..] == full[n..] && table[cut..][1..] == table[cut + 1..];
    assert table == table[..cut + 1] + table[cut + 1..];
  }

  /** Both tables have the same head and the same scan after the checkpoint. */
  lemma SameViewFromAnchor(trimmed: Store, whole: Store)
    requires Mirrors(trimmed, whole) && whole.stored.Some?
    ensures var a, b := OneView(trimmed.table), OneView(whole.table);
      TableHead(trimmed.table) == TableHead(whole.table) && TableHead(whole.table).Some? &&
      TailScan(a, trimmed.stored.value) == TailScan(b, whole.stored.value) &&
      After(trimmed.table, whole.stored.value.lastId) == whole.table[whole.stored.value.sealedCount..]
  {
    var cp, a, b := whole.stored.value, trimmed.table, whole.table;
    var n := cp.sealedCount;
    TrimmedParts(a, b, n);
    var m := |a| - (|b| - n);
    assert b[..n][n - 1] == b[n - 1];
    SealedInLog(b[..n], n - 1);
    HeadInFinalPart(a[..m - 1], FromAnchor(b, n));
    HeadInFinalPart(b[..n - 1], FromAnchor(b, n));
    AfterIsSuffix(a, m);
    AfterIsSuffix(b, n);
    AnchorFound(a, m - 1);
    AnchorFound(b, n - 1);
    hide Ordered, Chained, TableHead, ScanFrom, After, RowHashAt, HasId;
  }

  // ---------- one verification ----------

  predicate SameFindings(a: Result, b: Result) {
    a.valid == b.valid && (b.valid ==>
      a.sealedCount == b.sealedCount && a.unsealedCount == b.unsealedCount && a.head == b.head)
  }

  /** A trimmed table that chains from genesis, or from its checkpoint, continues a correct whole one. */
  lemma TrimmedChain(table: seq<Row>, full: seq<Row>, n: nat)
    requires 0 < n <= |full| && Trimmed(table, full, n) && Chained(full[..n], Genesis) && Chained(table, Genesis)
    ensures Chained(full, Genesis)
  {
    TrimmedParts(table, full, n);
    var m := |table| - (|full| - n);
    assert full == full[..n] + full[n..];
    assert HeadOf(table[..m], Genesis) == StoredHash(full[n - 1]) == HeadOf(full[..n], Genesis);
    ChainedSplit(table[..m], full[n..], Genesis);
    ChainedSplit(full[..n], full[n..], Genesis);
  }

  /** In a correct whole log, the checkpoint's hash is the newest one only when no row follows it. */
  lemma HeadAtCheckpoint(full: seq<Row>, n: nat)
    requires 0 < n <= |full| && Chained(full, Genesis) && TableHead(full) == full[n - 1].rowHash
    ensures n == |full|
  {
    ChainedHead(full);
    SealedInLog(full, n - 1);
    HashesDistinct(full, n, |full|);
    hide Chained, TableHead;
  }

  lemma MirrorsFacts(trimmed: Store, whole: Store)
    requires Mirrors(trimmed, whole) && whole.stored.Some?
    ensures var cp := whole.stored.value;
      Ordered(whole.table) && Describes(cp, whole.table, cp.sealedCount) && trimmed.table != [] &&
      trimmed.stored == Some(cp.(totalEvents := Total(trimmed)))
  {
    hide Ordered, Chained;
  }

  /** On a correct log, the newest hash is usable, and it is the checkpoint's only at the log's end. */
  lemma CorrectHead(table: seq<Row>, cp: Checkpoint, n: nat)
    requires Describes(cp, table, n) && Chained(table, Genesis)
    ensures TableHead(table) == Some(HeadOf(table, Genesis)) && HasText(TableHead(table))
    ensures TableHead(table) == Some(cp.head) ==> n == |table|
  {
    ChainedHead(table);
    assert Linked(table, Genesis, |table| - 1);
    if TableHead(table) == Some(cp.head) { HeadAtCheckpoint(table, n); }
    hide Chained, TableHead;
  }

  lemma CorrectOutcome(trimmed: Store, whole: Store)
    requires Mirrors(trimmed, whole) && whole.stored.Some? && Chained(whole.table, Genesis)
    ensures Outcome(trimmed).valid && Outcome(trimmed).sealedCount == |whole.table| &&
            Outcome(trimmed).unsealedCount == 0
    ensures Outcome(trimmed).head == Some(HeadOf(whole.table, Genesis))
    ensures !StaleShortcut(trimmed)
  {
    hide Mirrors, Describes, Ordered, Chained, TableHead, ScanFrom, After, TailScan, HeadOf, HasText;
    var cp := whole.stored.value;
    MirrorsFacts(trimmed, whole);
    SameViewFromAnchor(trimmed, whole);
    TailAccepts(whole.table, cp, cp.sealedCount);
    CorrectHead(whole.table, cp, cp.sealedCount);
  }

  lemma WrongOutcome(trimmed: Store, whole: Store)
    requires Mirrors(trimmed, whole) && whole.stored.Some? && !Chained(whole.table, Genesis)
    ensures Outcome(trimmed).valid <==> StaleShortcut(trimmed)
  {
    var cp := whole.stored.value;
    SameViewFromAnchor(trimmed, whole);
    TailAccepts(whole.table, cp, cp.sealedCount);
    assert whole.table[..|whole.table|] == whole.table;
    assert cp.sealedCount < |whole.table|;
    if Chained(trimmed.table, Genesis) { TrimmedChain(trimmed.table, whole.table, cp.sealedCount); }
    FullPassAccepts(trimmed.table);
    assert trimmed.table != [];
    hide Mirrors, Chained, TableHead, ScanFrom, After, TailScan, HasText;
  }

  /** The verdicts of the two stores agree, with counts and head, unless the shortcut fires on stale
      counts; and then the whole table is not a correct chain. */
  lemma OutcomesAgree(trimmed: Store, whole: Store)
    requires Mirrors(trimmed, whole)
    ensures SameFindings(Outcome(trimmed), Outcome(whole)) <==> !StaleShortcut(trimmed)
    ensures Outcome(whole).valid <==> Chained(whole.table, Genesis)
    ensures StaleShortcut(trimmed) ==> !Outcome(whole).valid
  {
    FullPassAccepts(whole.table);
    if whole.stored.Some? {
      IncrementalEqualsFull(whole.table, whole.stored.value);
      if Chained(whole.table, Genesis) { CorrectOutcome(trimmed, whole); } else { WrongOutcome(trimmed, whole); }
    }
    hide Mirrors, Chained, Outcome, StaleShortcut;
  }

  // ---------- every step keeps the two stores alike ----------

  lemma AppendOrders(table: seq<Row>, full: seq<Row>, n: nat, rows: seq<Row>)
    requires 0 < n <= |full| && Ordered(full) && Trimmed(table, full, n)
    ensures Ordered(table + rows) <==> Ordered(full + rows)
  {
    LastRows(table, full, n);
    OrderedAppend(table, rows);
    OrderedAppend(full, rows);
    hide Ordered, HeadOf;
  }

  lemma AppendTrims(table: seq<Row>, full: seq<Row>, n: nat, rows: seq<Row>)
    requires 0 < n <= |full| && Ordered(full) && Trimmed(table, full, n) && Ordered(full + rows)
    ensures Trimmed(table + rows, full + rows, n)
  {
    AppendOrders(table, full, n, rows);
    hide Ordered;
    var cut := |table| - (|full| - (n - 1));
    assert (full + rows)[..n - 1] == full[..n - 1];
    assert (table + rows)[cut..] == table[cut..] + rows && (full + rows)[n - 1..] == full[n - 1..] + rows;
  }

  lemma AppendMirrors(trimmed: Store, whole: Store, rows: seq<Row>)
    requires Mirrors(trimmed, whole)
    ensures Mirrors(Play(trimmed, Append(rows), true), Play(whole, Append(rows), false))
  {
    if whole.stored.Some? {
      var cp := whole.stored.value;
      var n := cp.sealedCount;
      AppendOrders(trimmed.table, whole.table, n, rows);
      if Ordered(whole.table + rows) { AppendTrims(trimmed.table, whole.table, n, rows); }
      assert (whole.table + rows)[..n] == whole.table[..n];
      hide Ordered, Chained, Trimmed;
    }
  }

  lemma RetainTrims(table: seq<Row>, full: seq<Row>, n: nat, cutoff: int)
    requires 0 < n <= |full| && Ordered(full) && Trimmed(table, full, n) && full[n - 1].recordedAt >= cutoff
    ensures Trimmed(Archive(table, cutoff, full[n - 1].id), full, n)
  {
    var lastId := full[n - 1].id;
    TrimmedParts(table, full, n);
    var m := |table| - (|full| - n);
    var early, late := table[..m - 1], FromAnchor(full, n);
    forall i | 0 <= i < |late| ensures !Archivable(late[i], cutoff, lastId) {
      assert late[i] == full[n - 1 + i];
    }
    ArchiveSplit(early, late, cutoff, lastId);
    ArchiveKeepsOrder(table, cutoff, lastId);
    ArchiveKeeps(early, cutoff, lastId);
    hide Ordered, Archivable;
    var kept := Archive(early, cutoff, lastId);
    forall i | 0 <= i < |kept|
      ensures (kept + late)[i] in full[..n - 1]
    {
      assert kept[i] in early;
      assert forall j | 0 <= j < |early| :: early[j] == table[j] && table[j] in full[..n - 1];
    }
    assert (kept + late)[|kept|..] == late;
  }

  lemma RetainMirrors(trimmed: Store, whole: Store, policy: Policy, now: int)
    requires Mirrors(trimmed, whole)
    requires Archives(trimmed, policy, now) ==> AnchorIsWarm(trimmed, WarmCutoff(policy, now))
    ensures Mirrors(Retained(trimmed, policy, now), whole)
  {
    if Archives(trimmed, policy, now) {
      var cp := whole.stored.value;
      TrimmedParts(trimmed.table, whole.table, cp.sealedCount);
      RetainTrims(trimmed.table, whole.table, cp.sealedCount, WarmCutoff(policy, now));
      hide Ordered, Chained, Trimmed;
    }
  }

  /** A checkpoint saved for a correct whole table describes all of it. */
  lemma SavedDescribesAll(table: seq<Row>, cp: Checkpoint)
    requires table != [] && Chained(table, Genesis)
    requires cp.lastId == table[|table| - 1].id && Some(cp.head) == Some(HeadOf(table, Genesis)) &&
             cp.sealedCount == |table|
    ensures Describes(cp, table, |table|)
  {
    SealedInLog(table, |table| - 1);
    assert table[..|table|] == table;
  }

  lemma TrimsToEnd(table: seq<Row>, full: seq<Row>, n: nat)
    requires 0 < n <= |full| && Trimmed(table, full, n)
    ensures Trimmed(table, full, |full|)
  {
    TrimmedParts(table, full, n);
    hide Ordered;
    var m := |table| - (|full| - n);
    var last := |full| - 1;
    forall i | 0 <= i < |table| - 1
      ensures table[i] in full[..last]
    {
      if i >= m - 1 {
        assert table[i] == FromAnchor(full, n)[i - (m - 1)] == full[n - 1 + (i - (m - 1))];
        assert full[..last][n - 1 + (i - (m - 1))] == table[i];
      } else {
        assert table[i] in full[..n - 1];
        assert full[..n - 1] <= full[..last];
        PrefixHas(full, n - 1, last, table[i]);
      }
    }
    assert table[|table| - 1] == FromAnchor(full, n)[|full| - n] == full[last];
    assert table[|table| - 1..] == full[last..];
  }

  lemma PrefixHas(rows: seq<Row>, m: nat, n: nat, row: Row)
    requires m <= n <= |rows| && row in rows[..m]
    ensures row in rows[..n]
  {
    var i :| 0 <= i < m && rows[..m][i] == row;
    assert rows[..n][i] == row;
  }

  lemma TrimmedSelf(full: seq<Row>, n: nat)
    requires 0 < n <= |full| && Ordered(full)
    ensures Trimmed(full, full, n)
  {
    assert forall i | 0 <= i < n - 1 :: full[..n - 1][i] == full[i];
  }

  lemma MirrorsSelf(trimmed: Store, whole: Store)
    requires Mirrors(trimmed, whole)
    ensures Mirrors(whole, whole)
  {
    if whole.stored.Some? {
      var cp := whole.stored.value;
      TrimmedSelf(whole.table, cp.sealedCount);
      assert cp == cp.(totalEvents := Total(whole));
      hide Trimmed, Ordered, Chained;
    }
  }

  /** Verifying a correct log moves the checkpoint to its end. */
  lemma CheckMovesToEnd(trimmed: Store, whole: Store)
    requires Mirrors(trimmed, whole) && whole.stored.Some? && Chained(whole.table, Genesis)
    ensures whole.table != []
    ensures var last, cp := whole.table[|whole.table| - 1], Checked(trimmed).stored;
      cp == Some(Checkpoint(last.id, HeadOf(whole.table, Genesis), |whole.table|, Total(Checked(trimmed))))
  {
    var cp := whole.stored.value;
    assert cp.lastId == whole.table[cp.sealedCount - 1].id;
    hide Mirrors, Describes, Ordered, Chained, TableHead, ScanFrom, After, TailScan, HeadOf, HasText;
    MirrorsFacts(trimmed, whole);
    SameViewFromAnchor(trimmed, whole);
    TailAccepts(whole.table, cp, cp.sealedCount);
    CorrectHead(whole.table, cp, cp.sealedCount);
  }

  lemma CheckKeepsWrong(trimmed: Store, whole: Store)
    requires Mirrors(trimmed, whole) && whole.stored.Some? && !Chained(whole.table, Genesis)
    ensures Checked(trimmed) == trimmed
  {
    var cp := whole.stored.value;
    SameViewFromAnchor(trimmed, whole);
    TailAccepts(whole.table, cp, cp.sealedCount);
    if Chained(trimmed.table, Genesis) { TrimmedChain(trimmed.table, whole.table, cp.sealedCount); }
    FullPassAccepts(trimmed.table);
    assert trimmed.table != [];
    hide Mirrors, Chained, TableHead, ScanFrom, After, TailScan, HasText;
  }

  lemma FirstCheck(store: Store)
    requires Ordered(store.table) && store.stored.None?
    ensures Mirrors(Checked(store), Checked(store))
  {
    var table := store.table;
    ScanAccepts(table, Genesis, 0, None, 0);
    if Checked(store).stored.Some? {
      SavedDescribesAll(table, Checked(store).stored.value);
      TrimmedSelf(table, |table|);
      hide Ordered, Chained, Trimmed, TableHead, ScanFrom, HeadOf;
    }
  }

  lemma CheckMirrors(trimmed: Store, whole: Store)
    requires Mirrors(trimmed, whole)
    ensures Mirrors(Checked(trimmed), Checked(whole))
  {
    MirrorsSelf(trimmed, whole);
    if whole.stored.None? {
      FirstCheck(whole);
    } else if Chained(whole.table, Genesis) {
      CheckMovesToEnd(trimmed, whole);
      CheckMovesToEnd(whole, whole);
      TrimsToEnd(trimmed.table, whole.table, whole.stored.value.sealedCount);
      SavedDescribesAll(whole.table, Checked(whole).stored.value);
      hide Ordered, Chained, Trimmed, Verify, HeadOf;
    } else {
      CheckKeepsWrong(trimmed, whole);
      CheckKeepsWrong(whole, whole);
    }
  }

  /** A run may start from any table in id order, with no checkpoint or one that fits it. */
  ghost predicate Start(store: Store) {
    Ordered(store.table) && (store.stored.Some? ==> Fits(store.stored.value, store.table))
  }

  lemma {:induction false} RunsMirror(start: Store, events: seq<Event>)
    requires Start(start) && SafeRun(start, events)
    ensures Mirrors(PlayAll(start, events, true), PlayAll(start, events, false))
    decreases |events|
  {
    if events == [] {
      if start.stored.Some? {
        var cp := start.stored.value;
        TrimmedSelf(start.table, cp.sealedCount);
        assert cp == cp.(totalEvents := Total(start));
      }
    } else {
      var prior := events[..|events| - 1];
      RunsMirror(start, prior);
      var a, b := PlayAll(start, prior, true), PlayAll(start, prior, false);
      match events[|events| - 1]
      case Append(rows) => AppendMirrors(a, b, rows);
      case Check => CheckMirrors(a, b);
      case Retain(policy, now) => RetainMirrors(a, b, policy, now);
    }
    hide Mirrors, Start, Retained, Checked, Archives, AnchorIsWarm;
  }

  // ---------- what archival does to verification ----------

  /** Over any run in which every archival finds the checkpointed event not older than the warm cutoff,
      incremental verification finds what it finds in the same run without deletion, exactly unless its
      shortcut fires on stale counts. It never does so on a correct log. */
  lemma ArchivalKeepsFindings(start: Store, events: seq<Event>)
    requires Start(start) && SafeRun(start, events)
    ensures var a, b := PlayAll(start, events, true), PlayAll(start, events, false);
      (SameFindings(Outcome(a), Outcome(b)) <==> !StaleShortcut(a)) &&
      (FullPass(b.table).valid ==> SameFindings(Outcome(a), Outcome(b)))
  {
    RunsMirror(start, events);
    OutcomesAgree(PlayAll(start, events, true), PlayAll(start, events, false));
    FullPassAccepts(PlayAll(start, events, false).table);
    hide Mirrors, Outcome, StaleShortcut, PlayAll, FullPass;
  }

  lemma TrimmedRows(table: seq<Row>, full: seq<Row>, n: nat)
    requires 0 < n <= |full| && Trimmed(table, full, n)
    ensures forall row | row in table :: row in full
  {
    TrimmedParts(table, full, n);
    hide Ordered;
    var m := |table| - (|full| - n);
    forall i | 0 <= i < |table|
      ensures table[i] in full
    {
      if i < m - 1 {
        assert table[i] in full[..n - 1];
        assert full[..|full|] == full;
        PrefixHas(full, n - 1, |full|, table[i]);
      } else {
        assert table[i] == FromAnchor(full, n)[i - (m - 1)] == full[n - 1 + i - (m - 1)];
      }
    }
  }

  /** Equal ids in an ordered table are one row. */
  lemma RowsById(full: seq<Row>, a: Row, b: Row)
    requires Ordered(full) && a in full && b in full && a.id == b.id
    ensures a == b
  {
    var i :| 0 <= i < |full| && full[i] == a;
    var j :| 0 <= j < |full| && full[j] == b;
    assert i == j;
  }

  /** After an archival, the full pass from genesis accepts a correct log only if nothing is missing. */
  lemma FullPassAfterArchival(trimmed: Store, whole: Store)
    requires Mirrors(trimmed, whole) && whole.stored.Some? && Chained(whole.table, Genesis)
    ensures FullPass(trimmed.table).valid <==> trimmed.table == whole.table
  {
    var a, b, n := trimmed.table, whole.table, whole.stored.value.sealedCount;
    FullPassAccepts(a);
    if Chained(a, Genesis) {
      TrimmedRows(a, b, n);
      LastRows(a, b, n);
      SameHeadSameRows(a, b);
    }
    hide Chained, Mirrors, Trimmed, FullPass, HeadOf;
  }

  /** A chain of some of a log's rows that ends in the log's head is the whole log. */
  lemma SameHeadSameRows(rows: seq<Row>, full: seq<Row>)
    requires Ordered(full) && Chained(rows, Genesis) && Chained(full, Genesis) &&
             HeadOf(rows, Genesis) == HeadOf(full, Genesis)
    requires forall row | row in rows :: row in full
    ensures rows == full
  {
    HeadFixesHistory(rows, full);
    hide Chained, HeadOf;
    forall i | 0 <= i < |rows|
      ensures rows[i] == full[i]
    {
      assert SameRow(rows[i], full[i]) && rows[i] in rows && full[i] in full;
      RowsById(full, rows[i], full[i]);
    }
  }

  lemma LastRows(table: seq<Row>, full: seq<Row>, n: nat)
    requires 0 < n <= |full| && Trimmed(table, full, n)
    ensures table != [] && table[|table| - 1] == full[|full| - 1]
    ensures HeadOf(table, Genesis) == HeadOf(full, Genesis)
  {
    TrimmedParts(table, full, n);
    hide Ordered;
    var m := |table| - (|full| - n);
    if n < |full| { assert table[m..][|full| - 1 - n] == full[n..][|full| - 1 - n]; }
  }

  // ---------- when the checkpointed event itself is archived ----------

  /** Some rows of a correct log, without its row `n - 1`: no hash of theirs is that row's, and the scan
      from genesis does not end at the log's head. */
  lemma WithoutAnchor(table: seq<Row>, full: seq<Row>, n: nat)
    requires 0 < n <= |full| && Ordered(full) && Chained(full, Genesis)
    requires forall row | row in table :: row in full && row != full[n - 1]
    ensures !HasId(table, full[n - 1].id)
    ensures forall row | row in table :: row.rowHash != full[n - 1].rowHash
    ensures Chained(table, Genesis) ==> table == [] || HeadOf(table, Genesis) != HeadOf(full, Genesis)
  {
    var anchor := full[n - 1];
    forall i | 0 <= i < |table| ensures table[i].id != anchor.id {
      assert table[i] in table;
      if table[i].id == anchor.id { RowsById(full, table[i], anchor); }
    }
    forall row | row in table ensures row.rowHash != anchor.rowHash {
      var j :| 0 <= j < |full| && full[j] == row;
      SealedInLog(full, n - 1);
      SealedInLog(full, j);
      if row.rowHash == anchor.rowHash { HashesDistinct(full, j + 1, n); }
    }
    if Chained(table, Genesis) && table != [] && HeadOf(table, Genesis) == HeadOf(full, Genesis) {
      SameHeadHasAll(table, full, n);
    }
  }

  lemma SameHeadHasAll(table: seq<Row>, full: seq<Row>, n: nat)
    requires 0 < n <= |full| && Chained(table, Genesis) && Chained(full, Genesis) &&
             HeadOf(table, Genesis) == HeadOf(full, Genesis)
    ensures HasId(table, full[n - 1].id)
  {
    HeadFixesHistory(table, full);
    assert SameRow(table[n - 1], full[n - 1]);
  }

  lemma {:induction false} HeadIsOfARow(table: seq<Row>)
    requires TableHead(table).Some?
    ensures exists row :: row in table && row.rowHash == TableHead(table)
    decreases |table|
  {
    var last := |table| - 1;
    if table[last].rowHash.Some? && table[last].rowHash != Some(Genesis) {
      assert table[last] in table;
    } else {
      HeadIsOfARow(table[..last]);
      var row :| row in table[..last] && row.rowHash == TableHead(table[..last]);
      assert row in table;
    }
  }

  lemma OutcomeWithoutAnchor(table: seq<Row>, full: seq<Row>, cp: Checkpoint, n: nat)
    requires Ordered(full) && Chained(full, Genesis) && Describes(cp, full, n)
    requires forall row | row in table :: row in full && row != full[n - 1]
    ensures Outcome(Store(table, Some(cp))).valid ==>
            Outcome(Store(table, Some(cp))).head != Some(HeadOf(full, Genesis))
  {
    WithoutAnchor(table, full, n);
    if TableHead(table).Some? { HeadIsOfARow(table); }
    assert !FastPath(OneView(table), cp);
    ScanAccepts(table, Genesis, 0, None, 0);
    hide Chained, TableHead, ScanFrom, HeadOf, HasId, Ordered;
  }

  /** An archival leaves the findings on a correct log unchanged if and only if the checkpointed event is
      not older than its warm cutoff. */
  lemma ArchivalSafeExactly(trimmed: Store, whole: Store, policy: Policy, now: int)
    requires Mirrors(trimmed, whole) && Chained(whole.table, Genesis) && Archives(trimmed, policy, now)
    ensures SameFindings(Outcome(Retained(trimmed, policy, now)), Outcome(whole)) <==>
            AnchorIsWarm(trimmed, WarmCutoff(policy, now))
  {
    var after, cutoff := Retained(trimmed, policy, now), WarmCutoff(policy, now);
    if AnchorIsWarm(trimmed, cutoff) {
      RetainMirrors(trimmed, whole, policy, now);
      OutcomesAgree(after, whole);
      CorrectOutcome(after, whole);
    } else {
      var cp, n := whole.stored.value, whole.stored.value.sealedCount;
      MirrorsSelf(trimmed, whole);
      CorrectOutcome(whole, whole);
      ColdAnchorGone(trimmed, whole, cutoff);
      OutcomeWithoutAnchor(after.table, whole.table, trimmed.stored.value, n);
    }
    hide Mirrors, Chained, Outcome, StaleShortcut, AnchorIsWarm;
  }

  lemma ColdAnchorGone(trimmed: Store, whole: Store, cutoff: int)
    requires Mirrors(trimmed, whole) && whole.stored.Some? && !AnchorIsWarm(trimmed, cutoff)
    ensures var cp := whole.stored.value;
      forall row | row in Archive(trimmed.table, cutoff, cp.lastId) :: row in whole.table &&
        row != whole.table[cp.sealedCount - 1]
  {
    var cp, n := whole.stored.value, whole.stored.value.sealedCount;
    ArchiveKeeps(trimmed.table, cutoff, cp.lastId);
    TrimmedRows(trimmed.table, whole.table, n);
    var i :| 0 <= i < |trimmed.table| && trimmed.table[i].id == cp.lastId && trimmed.table[i].recordedAt < cutoff;
    assert trimmed.table[i] in trimmed.table;
    RowsById(whole.table, trimmed.table[i], whole.table[n - 1]);
    hide Ordered, Chained, Trimmed;
  }

  // ---------- short runs on which the findings differ ----------

  function FirstHash(c: Content): Digest {
    Seal(1, c, 0, Genesis)
  }

  function SecondHash(c: Content): Digest {
    Seal(2, c, DAY, FirstHash(c))
  }

  function FirstRow(c: Content): Row {
    Row(1, c, 0, Some(Genesis), Some(FirstHash(c)))
  }

  function SecondRow(c: Content): Row {
    Row(2, c, DAY, Some(FirstHash(c)), Some(SecondHash(c)))
  }

  function BothRows(c: Content): Checkpoint {
    Checkpoint(2, SecondHash(c), 2, 2)
  }

  /** Two sealed rows a day apart, verified to the end. */
  function TwoRows(c: Content): Store {
    Store([FirstRow(c), SecondRow(c)], Some(BothRows(c)))
  }

  /** An archival that takes what is older than the second row. */
  const ARCHIVAL := Retain(Policy(1, 1, true), 2 * DAY)

  lemma RowsLink(c: Content)
    ensures Chained([FirstRow(c)], Genesis) && Chained([FirstRow(c), SecondRow(c)], Genesis)
    ensures HeadOf([FirstRow(c)], Genesis) == FirstHash(c)
    ensures !Chained([SecondRow(c)], Genesis)
  {
    assert !Linked([SecondRow(c)], Genesis, 0);
  }

  lemma TwoRowsStart(c: Content, more: seq<Row>)
    ensures Describes(BothRows(c), TwoRows(c).table + more, 2) && Start(TwoRows(c))
  {
    RowsLink(c);
    assert (TwoRows(c).table + more)[..2] == TwoRows(c).table;
    assert TwoRows(c).table + [] == TwoRows(c).table && TwoRows(c).table[..2] == TwoRows(c).table;
    assert Describes(BothRows(c), TwoRows(c).table, 2);
    hide Chained;
  }

  lemma ArchivesFirstRow(c: Content)
    ensures Older(TwoRows(c).table, DAY) == 1 && Archive(TwoRows(c).table, DAY, 2) == [SecondRow(c)]
    ensures AnchorIsWarm(TwoRows(c), DAY)
  {
    var table := TwoRows(c).table;
    assert table[1..] == [SecondRow(c)] && [SecondRow(c)][1..] == [];
    assert Older([SecondRow(c)], DAY) == 0;
  }

  /** Archiving the first row and appending a third leaves these two tables. */
  lemma ArchiveThenAppend(c: Content, third: Row)
    requires third.id == 3
    ensures SafeRun(TwoRows(c), [ARCHIVAL, Append([third])])
    ensures PlayAll(TwoRows(c), [ARCHIVAL, Append([third])], true) == Store([SecondRow(c), third], Some(BothRows(c)))
    ensures PlayAll(TwoRows(c), [ARCHIVAL, Append([third])], false) ==
              Store([FirstRow(c), SecondRow(c), third], Some(BothRows(c)))
  {
    var start, events := TwoRows(c), [ARCHIVAL, Append([third])];
    ArchivesFirstRow(c);
    assert events[..1] == [ARCHIVAL] && [ARCHIVAL][..0] == [];
    hide Archive, Older;
    assert PlayAll(start, [ARCHIVAL], true) == Store([SecondRow(c)], start.stored) &&
           PlayAll(start, [ARCHIVAL], false) == start;
    assert SafeRun(start, []) && SafeRun(start, [ARCHIVAL]);
    assert [SecondRow(c)] + [third] == [SecondRow(c), third] &&
           start.table + [third] == [FirstRow(c), SecondRow(c), third];
  }

  /** One archived event and one unsealed event later, the row count is again the one the checkpoint
      stored: the verification after archival passes, the one without archival does not. */
  lemma StaleShortcutHappens(c: Content)
    ensures var events := [ARCHIVAL, Append([Row(3, c, DAY, None, None)])];
      Start(TwoRows(c)) && SafeRun(TwoRows(c), events) &&
      Outcome(PlayAll(TwoRows(c), events, true)).valid && !Outcome(PlayAll(TwoRows(c), events, false)).valid
  {
    var third := Row(3, c, DAY, None, None);
    TwoRowsStart(c, []);
    ArchiveThenAppend(c, third);
    hide PlayAll, SafeRun, Start, Outcome;
    UnsealedRejected(c);
    UnsealedAccepted(c);
  }

  lemma UnsealedRejected(c: Content)
    ensures !Outcome(Store([FirstRow(c), SecondRow(c), Row(3, c, DAY, None, None)], Some(BothRows(c)))).valid
  {
    var third := Row(3, c, DAY, None, None);
    var table := [FirstRow(c), SecondRow(c), third];
    TwoRowsStart(c, [third]);
    assert TwoRows(c).table + [third] == table;
    assert !Linked(table, Genesis, 2);
    hide ScanFrom, Linked, TableHead;
    IncrementalEqualsFull(table, BothRows(c));
    FullPassAccepts(table);
  }

  lemma UnsealedAccepted(c: Content)
    ensures Outcome(Store([SecondRow(c), Row(3, c, DAY, None, None)], Some(BothRows(c)))).valid
  {
    var third := Row(3, c, DAY, None, None);
    assert [SecondRow(c), third][..1] == [SecondRow(c)];
    assert TableHead([SecondRow(c)]) == Some(SecondHash(c)) && TableHead([SecondRow(c), third]) == Some(SecondHash(c));
    hide ScanFrom;
  }

  /** The log that archival left of two correct rows is rejected by the full pass from genesis. */
  lemma TrimmedLogRejected(c: Content)
    ensures Archives(TwoRows(c), ARCHIVAL.policy, ARCHIVAL.now) && FullPass(TwoRows(c).table).valid
    ensures !FullPass(Retained(TwoRows(c), ARCHIVAL.policy, ARCHIVAL.now).table).valid
  {
    ArchivesFirstRow(c);
    RowsLink(c);
    FullPassAccepts(TwoRows(c).table);
    FullPassAccepts([SecondRow(c)]);
    hide ScanFrom, Archive, Older, Chained, FullPass;
  }

  /** One sealed row, the checkpoint itself and older than the warm cutoff: archived, its log verifies as
      empty, without the head it had. */
  lemma ColdCheckpointArchived(c: Content)
    ensures var start := Store([FirstRow(c)], Some(Checkpoint(1, FirstHash(c), 1, 1)));
      Start(start) && Archives(start, ARCHIVAL.policy, ARCHIVAL.now) &&
      !AnchorIsWarm(start, WarmCutoff(ARCHIVAL.policy, ARCHIVAL.now)) &&
      Outcome(start).valid && Outcome(start).head == Some(FirstHash(c)) &&
      !SameFindings(Outcome(Retained(start, ARCHIVAL.policy, ARCHIVAL.now)), Outcome(start))
  {
    var cp := Checkpoint(1, FirstHash(c), 1, 1);
    var start := Store([FirstRow(c)], Some(cp));
    RowsLink(c);
    assert start.table[..1] == start.table && start.table[1..] == [];
    assert Describes(cp, start.table, 1);
    IncrementalEqualsFull(start.table, cp);
    FullPassAccepts(start.table);
    assert Retained(start, ARCHIVAL.policy, ARCHIVAL.now).table == [];
    assert start.table[0].recordedAt == 0;
    hide ScanFrom, Chained, FullPass;
  }
}
