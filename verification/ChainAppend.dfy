/** The append protocol of the event log: transactions take the transaction-scoped append lock, insert
    rows, seal each one against the newest hash they can see, then commit or roll back, interleaved in
    any way with each other and with verifications. */
module ChainAppend {
  import opened Options
  import opened HashChain
  import opened Checkpoints
  import opened ChainVerify

  /** One transaction's own rows, and the event it inserted last while that one is still unsealed. */
  datatype Writer = Writer(rows: seq<Row>, unsealed: Option<Content>)

  /** `snapshots` are the committed tables of all times so far, `saved` every checkpoint ever written. */
  datatype System = System(
    committed: seq<Row>,
    lock: Option<nat>,
    nextId: nat,
    writers: map<nat, Writer>,
    snapshots: seq<seq<Row>>,
    saved: seq<Checkpoint>)

  datatype Step =
    | Acquire(tx: nat)
    | Insert(tx: nat, content: Content, recordedAt: int)
    | SealLast(tx: nat)
    | Commit(tx: nat)
    | Rollback(tx: nat)
    | Burn
    | VerifyChain(views: Views, loaded: Option<Checkpoint>, incremental: bool)

  const Initial := System([], None, 1, map[], [[]], [])

  // ---------- one table ordered by id ----------

  function Place(table: seq<Row>, row: Row): seq<Row>
    decreases |table|
  {
    var n := |table|;
    if n == 0 || table[n - 1].id < row.id then table + [row] else Place(table[..n - 1], row) + [table[n - 1]]
  }

  function Merged(table: seq<Row>, rows: seq<Row>): seq<Row>
    decreases |rows|
  {
    if rows == [] then table else Merged(Place(table, rows[0]), rows[1..])
  }

  /** The rows with a smaller id, in order. */
  function Before(table: seq<Row>, id: nat): seq<Row>
    decreases |table|
  {
    if table == [] then [] else (if table[0].id < id then [table[0]] else []) + Before(table[1..], id)
  }

  predicate OfKey(row: Row, key: string) {
    row.content.LedgerContent? && row.content.key == key
  }

  function NewestOfKey(table: seq<Row>, key: string): Option<nat>
    decreases |table|
  {
    var n := |table|;
    if n == 0 then None
    else if OfKey(table[n - 1], key) then Some(table[n - 1].id)
    else NewestOfKey(table[..n - 1], key)
  }

  function HashOrGenesis(hash: Option<Digest>): Digest {
    if HasText(hash) then hash.value else Genesis
  }

  // ---------- the steps ----------

  function WriterOf(s: System, tx: nat): Writer {
    if tx in s.writers then s.writers[tx] else Writer([], None)
  }

  /** Committed rows and the transaction's own. */
  function Visible(s: System, tx: nat): seq<Row> {
    Merged(s.committed, WriterOf(s, tx).rows)
  }

  /** Ledger events go in without hashes, security events with the current head in both columns. */
  function Inserted(s: System, tx: nat, content: Content, recordedAt: int): Row {
    var placeholder := if content.LedgerContent? then None else Some(HashOrGenesis(TableHead(Visible(s, tx))));
    Row(s.nextId, content, recordedAt, placeholder, placeholder)
  }

  /** The row to seal: the newest of the ledger event's key, or the id the insert returned. */
  function Target(visible: seq<Row>, w: Writer): Option<nat>
    requires w.unsealed.Some?
  {
    match w.unsealed.value
    case LedgerContent(key, _, _, _, _) => NewestOfKey(visible, key)
    case SecurityContent(_, _, _, _, _, _) => if w.rows == [] then None else Some(w.rows[|w.rows| - 1].id)
  }

  /** The amount and metadata hashed are those read back from the row found, the rest is the caller's. */
  function Hashed(found: Content, given: Content): Content {
    if found.LedgerContent? && given.LedgerContent? then
      LedgerContent(given.key, given.user, given.kind, found.delta, found.metadata)
    else given
  }

  function SealRow(row: Row, given: Content, prev: Digest): Row {
    row.(prevHash := Some(prev), rowHash := Some(Seal(row.id, Hashed(row.content, given), row.recordedAt, prev)))
  }

  function SealAt(rows: seq<Row>, id: nat, given: Content, prev: Digest): seq<Row>
    decreases |rows|
  {
    if rows == [] then []
    else [if rows[0].id == id then SealRow(rows[0], given, prev) else rows[0]] + SealAt(rows[1..], id, given, prev)
  }

  function SealWriter(visible: seq<Row>, w: Writer): Writer
    requires w.unsealed.Some?
  {
    var target := Target(visible, w);
    if target.None? then w.(unsealed := None)
    else
      var prev := HashOrGenesis(TableHead(Before(visible, target.value)));
      Writer(SealAt(w.rows, target.value, w.unsealed.value, prev), None)
  }

  predicate Holds(s: System, tx: nat) {
    s.lock == Some(tx)
  }

  function Release(s: System, tx: nat): System {
    s.(writers := s.writers - {tx}, lock := if Holds(s, tx) then None else s.lock)
  }

  predicate Enabled(s: System, step: Step) {
    match step
    case Acquire(tx) => s.lock.None? || Holds(s, tx)
    case Insert(tx, _, _) => Holds(s, tx) && WriterOf(s, tx).unsealed.None?
    case SealLast(tx) => WriterOf(s, tx).unsealed.Some?
    case Commit(tx) => WriterOf(s, tx).unsealed.None?
    case VerifyChain(v, loaded, _) =>
      v.counted in s.snapshots && v.headed in s.snapshots && v.anchored in s.snapshots && v.tailed in s.snapshots &&
      v.rescanned in s.snapshots && (loaded.Some? ==> loaded.value in s.saved)
    case _ => true
  }

  /** The ids drawn by a transaction that rolls back are not drawn again. */
  function Effect(s: System, step: Step): System
    requires Enabled(s, step)
  {
    match step
    case Acquire(tx) => s.(lock := Some(tx))
    case Insert(tx, content, recordedAt) =>
      var row := Inserted(s, tx, content, recordedAt);
      s.(writers := s.writers[tx := Writer(WriterOf(s, tx).rows + [row], Some(content))], nextId := s.nextId + 1)
    case SealLast(tx) => s.(writers := s.writers[tx := SealWriter(Visible(s, tx), WriterOf(s, tx))])
    case Commit(tx) =>
      var table := Visible(s, tx);
      Release(s, tx).(committed := table, snapshots := s.snapshots + [table])
    case Rollback(tx) => Release(s, tx)
    case Burn => s.(nextId := s.nextId + 1)
    case VerifyChain(v, loaded, incremental) =>
      var saves := Verify(v, loaded, incremental).1;
      if saves.Some? then s.(saved := s.saved + [saves.value]) else s
  }

  /** A blocked step waits: it leaves everything as it is. */
  function Take(s: System, step: Step): System {
    if Enabled(s, step) then Effect(s, step) else s
  }

  function Run(steps: seq<Step>): System
    decreases |steps|
  {
    if steps == [] then Initial else Take(Run(steps[..|steps| - 1]), steps[|steps| - 1])
  }

  // ---------- the invariant ----------

  predicate IdsBelow(rows: seq<Row>, bound: nat) {
    forall i | 0 <= i < |rows| :: rows[i].id < bound
  }

  predicate IsLog(rows: seq<Row>) {
    Ordered(rows) && Chained(rows, Genesis)
  }

  /** A writer's rows follow the committed ones, all sealed in one chain except the one it works on. */
  predicate WriterFits(committed: seq<Row>, nextId: nat, w: Writer) {
    var rows := committed + w.rows;
    Ordered(rows) && IdsBelow(rows, nextId) &&
    match w.unsealed
    case None => Chained(rows, Genesis)
    case Some(content) =>
      w.rows != [] && w.rows[|w.rows| - 1].content == content && Chained(rows[..|rows| - 1], Genesis)
  }

  predicate Growing(snapshots: seq<seq<Row>>) {
    forall i, j | 0 <= i <= j < |snapshots| :: snapshots[i] <= snapshots[j]
  }

  ghost predicate AllFit(saved: seq<Checkpoint>, table: seq<Row>) {
    forall i | 0 <= i < |saved| :: Fits(saved[i], table)
  }

  ghost predicate Inv(s: System) {
    s.nextId > 0 && IsLog(s.committed) && IdsBelow(s.committed, s.nextId) &&
    (forall tx | tx in s.writers :: Holds(s, tx) && WriterFits(s.committed, s.nextId, s.writers[tx])) &&
    Growing(s.snapshots) && s.snapshots != [] && s.snapshots[|s.snapshots| - 1] == s.committed &&
    AllFit(s.saved, s.committed)
  }

  // ---------- tables that grow at the end ----------

  lemma {:induction false} MergedAppends(table: seq<Row>, rows: seq<Row>)
    requires Ordered(table + rows)
    ensures Merged(table, rows) == table + rows
    decreases |rows|
  {
    if rows == [] {
      assert table + rows == table;
    } else {
      assert (table + rows)[|table|] == rows[0];
      assert |table| > 0 ==> (table + rows)[|table| - 1] == table[|table| - 1];
      assert (table + [rows[0]]) + rows[1..] == table + rows;
      MergedAppends(table + [rows[0]], rows[1..]);
    }
  }

  lemma {:induction false} BeforeLast(rows: seq<Row>, last: Row)
    requires forall i | 0 <= i < |rows| :: rows[i].id < last.id
    ensures Before(rows + [last], last.id) == rows
    decreases |rows|
  {
    var all := rows + [last];
    if rows == [] {
      assert all[1..] == [];
    } else {
      assert all[1..] == rows[1..] + [last] && all[0] == rows[0];
      BeforeLast(rows[1..], last);
      assert rows == [rows[0]] + rows[1..];
    }
  }

  lemma {:induction false} SealAtLast(rows: seq<Row>, last: Row, given: Content, prev: Digest)
    requires forall i | 0 <= i < |rows| :: rows[i].id < last.id
    ensures SealAt(rows + [last], last.id, given, prev) == rows + [SealRow(last, given, prev)]
    decreases |rows|
  {
    var all := rows + [last];
    if rows == [] {
      assert all[1..] == [];
    } else {
      assert all[1..] == rows[1..] + [last] && all[0] == rows[0];
      SealAtLast(rows[1..], last, given, prev);
      assert rows == [rows[0]] + rows[1..];
    }
  }

  lemma ChainedPush(rows: seq<Row>, last: Row)
    requires Chained(rows, Genesis)
    ensures Chained(rows + [SealRow(last, last.content, HashOrGenesis(TableHead(rows)))], Genesis)
  {
    ChainedHead(rows);
    var row := SealRow(last, last.content, HashOrGenesis(TableHead(rows)));
    if rows != [] { assert Linked(rows, Genesis, |rows| - 1); }
    assert Linked([row], HeadOf(rows, Genesis), 0);
    ChainedSplit(rows, [row], Genesis);
  }

  lemma OrderedPush(rows: seq<Row>, last: Row)
    ensures Ordered(rows + [last]) <==>
              Ordered(rows) && last.id > 0 && forall i | 0 <= i < |rows| :: rows[i].id < last.id
  {
    var all := rows + [last];
    assert forall i | 0 <= i < |rows| :: all[i] == rows[i];
    assert all[|rows|] == last;
  }

  /** The seal goes to the writer's own newest row and takes the newest hash before it. */
  lemma SealsOwnRow(committed: seq<Row>, own: seq<Row>, last: Row)
    requires Ordered(committed + own + [last])
    ensures Merged(committed, own + [last]) == committed + own + [last]
    ensures SealWriter(committed + own + [last], Writer(own + [last], Some(last.content))) ==
              Writer(own + [SealRow(last, last.content, HashOrGenesis(TableHead(committed + own)))], None)
  {
    var before := committed + own;
    var w := Writer(own + [last], Some(last.content));
    assert committed + (own + [last]) == before + [last];
    MergedAppends(committed, own + [last]);
    OrderedPush(before, last);
    assert forall i | 0 <= i < |own| :: own[i] == before[|committed| + i];
    BeforeLast(before, last);
    assert Target(before + [last], w) == Some(last.id);
    SealAtLast(own, last, last.content, HashOrGenesis(TableHead(before)));
    hide Ordered, TableHead, SealAt, Before, Target, SealRow;
  }

  lemma SealedRowFits(committed: seq<Row>, own: seq<Row>, last: Row, nextId: nat)
    requires Ordered(committed + own + [last]) && Chained(committed + own, Genesis) &&
             IdsBelow(committed + own + [last], nextId)
    ensures var row := SealRow(last, last.content, HashOrGenesis(TableHead(committed + own)));
      WriterFits(committed, nextId, Writer(own + [row], None))
  {
    var before := committed + own;
    var row := SealRow(last, last.content, HashOrGenesis(TableHead(before)));
    ChainedPush(before, last);
    OrderedPush(before, last);
    OrderedPush(before, row);
    assert committed + (own + [row]) == before + [row];
    hide Ordered, Chained, TableHead, HashOrGenesis;
    assert (before + [last])[|before|] == last;
    assert forall i | 0 <= i < |before| :: before[i] == (before + [last])[i];
  }

  /** The seal of a writer that fits continues the log it can see. */
  lemma SealContinues(committed: seq<Row>, nextId: nat, w: Writer)
    requires WriterFits(committed, nextId, w) && w.unsealed.Some?
    ensures var n := |w.rows| - 1;
      Merged(committed, w.rows) == committed + w.rows &&
      SealWriter(committed + w.rows, w) ==
        Writer(w.rows[..n] + [SealRow(w.rows[n], w.rows[n].content, HashOrGenesis(TableHead(committed + w.rows[..n])))],
          None)
    ensures WriterFits(committed, nextId, SealWriter(committed + w.rows, w))
  {
    hide Ordered, Chained, IdsBelow, SealWriter, SealRow, TableHead, Merged, HashOrGenesis;
    var n := |w.rows| - 1;
    var own, last := w.rows[..n], w.rows[n];
    assert w.rows == own + [last];
    assert committed + w.rows == committed + own + [last] && (committed + w.rows)[..|committed| + n] == committed + own;
    SealsOwnRow(committed, own, last);
    SealedRowFits(committed, own, last, nextId);
  }

  lemma WriterKnown(s: System, tx: nat)
    requires Inv(s)
    ensures WriterFits(s.committed, s.nextId, WriterOf(s, tx))
  {
    assert s.committed + [] == s.committed;
    hide Ordered, Chained, AllFit, Growing;
  }

  lemma InsertedRow(s: System, tx: nat, content: Content, recordedAt: int)
    ensures var row := Inserted(s, tx, content, recordedAt);
      row.id == s.nextId && row.content == content && row.recordedAt == recordedAt
  {
  }

  lemma PushUnsealed(committed: seq<Row>, nextId: nat, own: seq<Row>, row: Row)
    requires WriterFits(committed, nextId, Writer(own, None)) && row.id == nextId > 0
    ensures WriterFits(committed, nextId + 1, Writer(own + [row], Some(row.content)))
  {
    var rows := committed + own;
    OrderedPush(rows, row);
    assert committed + (own + [row]) == rows + [row] && (rows + [row])[..|rows|] == rows;
    hide Ordered, Chained;
  }

  lemma InsertFits(s: System, tx: nat, content: Content, recordedAt: int)
    requires Inv(s) && WriterOf(s, tx).unsealed.None?
    ensures WriterFits(s.committed, s.nextId + 1,
                       Writer(WriterOf(s, tx).rows + [Inserted(s, tx, content, recordedAt)], Some(content)))
  {
    InsertedRow(s, tx, content, recordedAt);
    assert s.nextId > 0;
    WriterKnown(s, tx);
    hide Inv, WriterFits, Inserted;
    PushUnsealed(s.committed, s.nextId, WriterOf(s, tx).rows, Inserted(s, tx, content, recordedAt));
  }

  lemma CommitGrows(s: System, tx: nat)
    requires Inv(s) && WriterOf(s, tx).unsealed.None?
    ensures Visible(s, tx) == s.committed + WriterOf(s, tx).rows
    ensures IsLog(Visible(s, tx)) && IdsBelow(Visible(s, tx), s.nextId)
    ensures AllFit(s.saved, Visible(s, tx))
    ensures Growing(s.snapshots + [Visible(s, tx)])
  {
    var rows := WriterOf(s, tx).rows;
    assert s.committed + [] == s.committed;
    MergedAppends(s.committed, rows);
    forall i | 0 <= i < |s.saved| ensures Fits(s.saved[i], s.committed + rows) {
      DescribesMore(s.saved[i], s.committed, rows);
    }
    GrowsBy(s.snapshots, s.committed, s.committed + rows);
    hide Chained, Fits, Ordered;
  }

  lemma GrowsBy(snapshots: seq<seq<Row>>, current: seq<Row>, next: seq<Row>)
    requires Growing(snapshots) && snapshots != [] && snapshots[|snapshots| - 1] == current && current <= next
    ensures Growing(snapshots + [next])
  {
    forall i | 0 <= i < |snapshots| ensures snapshots[i] <= next {
      assert snapshots[i] <= snapshots[|snapshots| - 1];
    }
  }

  lemma VerifySaves(s: System, v: Views, loaded: Option<Checkpoint>, incremental: bool)
    requires Inv(s) && Enabled(s, VerifyChain(v, loaded, incremental))
    ensures Verify(v, loaded, incremental).0.valid
    ensures Verify(v, loaded, incremental).1.Some? ==> Fits(Verify(v, loaded, incremental).1.value, s.committed)
  {
    SnapshotsArePrefixes(s);
    VerifyOfPrefixes(s.committed, v, loaded, incremental);
  }

  lemma SnapshotsArePrefixes(s: System)
    requires Inv(s)
    ensures forall table | table in s.snapshots :: table <= s.committed
  {
    forall table | table in s.snapshots
      ensures table <= s.committed
    {
      var i :| 0 <= i < |s.snapshots| && s.snapshots[i] == table;
      assert s.snapshots[i] <= s.snapshots[|s.snapshots| - 1];
    }
  }

  lemma InsertKeepsInv(s: System, tx: nat, content: Content, recordedAt: int)
    requires Inv(s) && Enabled(s, Insert(tx, content, recordedAt))
    ensures Inv(Effect(s, Insert(tx, content, recordedAt)))
  {
    InsertFits(s, tx, content, recordedAt);
    hide Ordered, Chained, AllFit, Growing, Inserted, WriterFits;
  }

  lemma SealKeepsInv(s: System, tx: nat)
    requires Inv(s) && Enabled(s, SealLast(tx))
    ensures Inv(Effect(s, SealLast(tx)))
  {
    WriterKnown(s, tx);
    hide Ordered, Chained, AllFit, Growing, IdsBelow, SealWriter, Merged, WriterFits, TableHead, HashOrGenesis;
    SealContinues(s.committed, s.nextId, WriterOf(s, tx));
  }

  lemma CommitKeepsInv(s: System, tx: nat)
    requires Inv(s) && Enabled(s, Commit(tx))
    ensures Inv(Effect(s, Commit(tx)))
  {
    CommitGrows(s, tx);
    hide Ordered, Chained, AllFit, Growing, IdsBelow, Merged, WriterFits;
  }

  lemma VerifyKeepsInv(s: System, v: Views, loaded: Option<Checkpoint>, incremental: bool)
    requires Inv(s) && Enabled(s, VerifyChain(v, loaded, incremental))
    ensures Inv(Effect(s, VerifyChain(v, loaded, incremental)))
  {
    VerifySaves(s, v, loaded, incremental);
    hide Ordered, Chained, Fits, Growing, IdsBelow, Verify, WriterFits;
  }

  lemma StepKeepsInv(s: System, step: Step)
    requires Inv(s)
    ensures Inv(Take(s, step))
  {
    if Enabled(s, step) {
      match step
      case Insert(tx, content, recordedAt) => InsertKeepsInv(s, tx, content, recordedAt);
      case SealLast(tx) => SealKeepsInv(s, tx);
      case Commit(tx) => CommitKeepsInv(s, tx);
      case VerifyChain(v, loaded, incremental) => VerifyKeepsInv(s, v, loaded, incremental);
      case _ =>
        hide IsLog, IdsBelow, WriterFits, Growing, AllFit;
        assert Inv(Effect(s, step));
    }
    hide Inv, Effect;
  }

  lemma {:induction false} RunInv(steps: seq<Step>)
    ensures Inv(Run(steps))
    decreases |steps|
  {
    if steps != [] {
      RunInv(steps[..|steps| - 1]);
      StepKeepsInv(Run(steps[..|steps| - 1]), steps[|steps| - 1]);
    }
  }

  // ---------- every run ----------

  /** Whatever interleaving produced it, the full verifier accepts the committed log. */
  lemma CommittedLogIsChain(steps: seq<Step>)
    ensures Ordered(Run(steps).committed) && Chained(Run(steps).committed, Genesis)
    ensures FullPass(Run(steps).committed).valid
  {
    RunInv(steps);
    FullPassAccepts(Run(steps).committed);
  }

  /** Every committed snapshot is a prefix of every later one, and of the log. */
  lemma SnapshotsOnlyGrow(steps: seq<Step>, i: nat, j: nat)
    requires i <= j < |Run(steps).snapshots|
    ensures Run(steps).snapshots[i] <= Run(steps).snapshots[j] <= Run(steps).committed
  {
    RunInv(steps);
    assert Run(steps).snapshots[j] <= Run(steps).snapshots[|Run(steps).snapshots| - 1];
  }

  /** Rows that are not committed belong to the transaction that holds the lock. */
  lemma OnlyHolderWrites(steps: seq<Step>, tx: nat)
    requires WriterOf(Run(steps), tx).rows != []
    ensures Run(steps).lock == Some(tx)
  {
    RunInv(steps);
  }

  /** No verification of a log written this way reports a break, even when its statements read
      different, older snapshots and an outdated checkpoint. */
  lemma NoFalseAlarm(steps: seq<Step>, v: Views, loaded: Option<Checkpoint>, incremental: bool)
    requires Enabled(Run(steps), VerifyChain(v, loaded, incremental))
    ensures Verify(v, loaded, incremental).0.valid
  {
    RunInv(steps);
    VerifySaves(Run(steps), v, loaded, incremental);
  }

  /** Every checkpoint ever saved describes a correct prefix of the log. Resuming from it on the log with
      any further rows, good, wrong or unsealed, gives the full pass's verdict, and its counts and head
      when the table is valid. */
  lemma EveryCheckpointResumes(steps: seq<Step>, cp: Checkpoint, tail: seq<Row>)
    requires cp in Run(steps).saved && Ordered(Run(steps).committed + tail)
    ensures Fits(cp, Run(steps).committed)
    ensures var table := Run(steps).committed + tail;
      var resumed, full := Verify(OneView(table), Some(cp), true).0, FullPass(table);
      resumed.valid == full.valid &&
      (full.valid ==>
        resumed.sealedCount == full.sealedCount && resumed.unsealedCount == full.unsealedCount &&
        resumed.head == full.head)
  {
    RunInv(steps);
    var i :| 0 <= i < |Run(steps).saved| && Run(steps).saved[i] == cp;
    assert Fits(cp, Run(steps).committed);
    DescribesMore(cp, Run(steps).committed, tail);
    IncrementalEqualsFull(Run(steps).committed + tail, cp);
  }

  /** The ids drawn so far: one by every insert and every burnt one, whatever became of the transaction. */
  function Drawn(steps: seq<Step>): nat
    decreases |steps|
  {
    if steps == [] then 0
    else
      var last := steps[|steps| - 1];
      Drawn(steps[..|steps| - 1]) + if last.Burn? || (last.Insert? && Taken(steps)) then 1 else 0
  }

  /** The next id is past all of them: no id is drawn twice, and a rollback leaves a gap. */
  lemma {:induction false} NextIdCounts(steps: seq<Step>)
    ensures Run(steps).nextId == Drawn(steps) + 1
    decreases |steps|
  {
    if steps != [] { NextIdCounts(steps[..|steps| - 1]); }
    hide Verify, SealWriter, Inserted, Merged;
  }

  /** A row before its seal: the next id, and hash columns that are NULL for a ledger event and the head of
      all the transaction sees for a security event. */
  lemma InsertedUnsealed(s: System, tx: nat, content: Content, recordedAt: int)
    requires Inv(s) && WriterOf(s, tx).unsealed.None?
    ensures var row := Inserted(s, tx, content, recordedAt);
      var seen := s.committed + WriterOf(s, tx).rows;
      row.id == s.nextId && row.content == content && row.recordedAt == recordedAt && row.prevHash == row.rowHash &&
      row.rowHash == if content.LedgerContent? then None else Some(HeadOf(seen, Genesis))
  {
    CommitGrows(s, tx);
    var seen := s.committed + WriterOf(s, tx).rows;
    hide Inv;
    ChainedHead(seen);
    if seen != [] { assert Linked(seen, Genesis, |seen| - 1); }
    hide Chained, Merged, TableHead;
  }

  // ---------- nothing is lost, nothing is invented ----------

  function Contents(rows: seq<Row>): seq<Content> {
    seq(|rows|, i requires 0 <= i < |rows| => rows[i].content)
  }

  predicate Taken(steps: seq<Step>)
    requires steps != []
  {
    Enabled(Run(steps[..|steps| - 1]), steps[|steps| - 1])
  }

  function NextDrafts(before: seq<Content>, step: Step, tx: nat, taken: bool): seq<Content> {
    match step
    case Insert(who, content, _) => if who == tx && taken then before + [content] else before
    case Commit(who) => if who == tx && taken then [] else before
    case Rollback(who) => if who == tx then [] else before
    case _ => before
  }

  /** The events a transaction has inserted since it began. */
  function Drafts(steps: seq<Step>, tx: nat): seq<Content>
    decreases |steps|
  {
    if steps == [] then [] else NextDrafts(Drafts(steps[..|steps| - 1], tx), steps[|steps| - 1], tx, Taken(steps))
  }

  /** The events of the committed transactions, in the order of their commits. */
  function Posted(steps: seq<Step>): seq<Content>
    decreases |steps|
  {
    if steps == [] then []
    else
      var before := Posted(steps[..|steps| - 1]);
      var last := steps[|steps| - 1];
      if last.Commit? && Taken(steps) then before + Drafts(steps[..|steps| - 1], last.tx) else before
  }

  lemma SealKeepsContents(committed: seq<Row>, nextId: nat, w: Writer)
    requires WriterFits(committed, nextId, w) && w.unsealed.Some?
    ensures Contents(SealWriter(Merged(committed, w.rows), w).rows) == Contents(w.rows)
  {
    assert w.rows != [];
    hide WriterFits, SealWriter, Merged, TableHead, HashOrGenesis;
    var n := |w.rows| - 1;
    SealContinues(committed, nextId, w);
    assert w.rows == w.rows[..n] + [w.rows[n]];
  }

  lemma StepDrafts(s: System, step: Step, tx: nat)
    requires Inv(s)
    ensures Contents(WriterOf(Take(s, step), tx).rows) ==
            NextDrafts(Contents(WriterOf(s, tx).rows), step, tx, Enabled(s, step))
  {
    WriterKnown(s, tx);
    hide Inv, WriterFits, SealWriter, Inserted, Merged, Verify;
    if step.Insert? { InsertedRow(s, step.tx, step.content, step.recordedAt); }
    if step == SealLast(tx) && Enabled(s, step) { SealKeepsContents(s.committed, s.nextId, WriterOf(s, tx)); }
  }

  lemma {:induction false} DraftsAreRows(steps: seq<Step>, tx: nat)
    ensures Contents(WriterOf(Run(steps), tx).rows) == Drafts(steps, tx)
    decreases |steps|
  {
    if steps != [] {
      var prior := steps[..|steps| - 1];
      DraftsAreRows(prior, tx);
      RunInv(prior);
      hide Inv, Take, Enabled, NextDrafts, WriterOf, Contents;
      StepDrafts(Run(prior), steps[|steps| - 1], tx);
    } else {
      assert Contents(WriterOf(Initial, tx).rows) == [];
    }
  }

  /** The committed log holds exactly the events of the committed transactions, in commit order: whatever
      rolled back left nothing, and no seal changed or moved an event. */
  lemma {:induction false} LogIsCommittedEvents(steps: seq<Step>)
    ensures Contents(Run(steps).committed) == Posted(steps)
    decreases |steps|
  {
    if steps != [] {
      var prior, last := steps[..|steps| - 1], steps[|steps| - 1];
      LogIsCommittedEvents(prior);
      if last.Commit? && Taken(steps) {
        RunInv(prior);
        CommitGrows(Run(prior), last.tx);
        DraftsAreRows(prior, last.tx);
      }
      hide Inv, SealWriter, Inserted, Merged, Verify, Drafts;
    }
  }

  // ---------- the code that appends ----------

  /** The event table with its append lock and sequence; the two histories are for the proofs. */
  class EventLog {
    var committed: seq<Row>
    var lock: Option<nat>
    var nextId: nat
    var writers: map<nat, Writer>
    ghost var snapshots: seq<seq<Row>>
    ghost var saved: seq<Checkpoint>

    ghost function State(): System
      reads this
    {
      System(committed, lock, nextId, writers, snapshots, saved)
    }

    constructor ()
      ensures State() == Initial
    {
      committed, lock, nextId, writers, snapshots, saved := [], None, 1, map[], [[]], [];
    }

    /** Granted to one transaction at a time, again to the one that has it, until it ends. */
    method AcquireAppendLock(tx: nat) returns (granted: bool)
      modifies this
      ensures granted == (old(lock).None? || old(lock) == Some(tx))
      ensures State() == Take(old(State()), Acquire(tx))
    {
      granted := lock.None? || lock == Some(tx);
      if granted { lock := Some(tx); }
    }

    method InsertEvent(tx: nat, content: Content, recordedAt: int) returns (id: nat)
      requires Enabled(State(), Insert(tx, content, recordedAt))
      modifies this
      ensures State() == Take(old(State()), Insert(tx, content, recordedAt)) && id == old(nextId)
    {
      var own := if tx in writers then writers[tx].rows else [];
      var placeholder := None;
      if content.SecurityContent? {
        var head := TableHead(Merged(committed, own));
        placeholder := if HasText(head) then head else Some(Genesis);
      }
      id := nextId;
      writers := writers[tx := Writer(own + [Row(id, content, recordedAt, placeholder, placeholder)], Some(content))];
      nextId := nextId + 1;
    }

    /** Reads the newest hash before the row and writes both hash columns. */
    method SealEvent(tx: nat, id: nat, content: Content)
      requires tx in writers
      modifies this
      ensures State() == old(State()).(writers := old(writers)[tx :=
        Writer(SealAt(old(writers)[tx].rows, id, content,
          HashOrGenesis(TableHead(Before(Visible(old(State()), tx), id)))), None)])
    {
      var head := TableHead(Before(Merged(committed, writers[tx].rows), id));
      var prev := if HasText(head) then head.value else Genesis;
      writers := writers[tx := Writer(SealAt(writers[tx].rows, id, content, prev), None)];
    }

    method SealLastEvent(tx: nat)
      requires Enabled(State(), SealLast(tx))
      modifies this
      ensures State() == Take(old(State()), SealLast(tx))
    {
      var w := writers[tx];
      var target := Target(Merged(committed, w.rows), w);
      if target.None? {
        writers := writers[tx := w.(unsealed := None)];
      } else {
        SealEvent(tx, target.value, w.unsealed.value);
      }
    }

    /** Lock, insert, seal. In a log that fits, the transaction then sees one more row: the event, with
        the next id, sealed onto everything before it. */
    method AppendSealedEvent(tx: nat, content: Content, recordedAt: int) returns (done: bool)
      requires Inv(State()) && WriterOf(State(), tx).unsealed.None?
      modifies this
      ensures Inv(State()) && committed == old(committed)
      ensures done == (old(lock).None? || old(lock) == Some(tx))
      ensures !done ==> State() == old(State())
      ensures done ==>
                |WriterOf(State(), tx).rows| == |old(WriterOf(State(), tx).rows)| + 1 &&
                var before := old(Visible(State(), tx));
                var row := WriterOf(State(), tx).rows[|WriterOf(State(), tx).rows| - 1];
                Visible(State(), tx) == before + [row] && IsLog(before + [row]) &&
                row.id == old(nextId) && row.content == content && row.recordedAt == recordedAt
    {
      ghost var s0 := State();
      StepKeepsInv(s0, Acquire(tx));
      done := AcquireAppendLock(tx);
      if done {
        ghost var s1 := State();
        StepKeepsInv(s1, Insert(tx, content, recordedAt));
        var _ := InsertEvent(tx, content, recordedAt);
        ghost var s2 := State();
        StepKeepsInv(s2, SealLast(tx));
        SealLastEvent(tx);
        AppendExtends(s1, tx, content, recordedAt);
        hide Inv, SealWriter, Merged, Inserted, IsLog;
      }
    }

    method CommitTransaction(tx: nat)
      requires Enabled(State(), Commit(tx))
      modifies this
      ensures State() == Take(old(State()), Commit(tx))
      ensures tx !in writers && nextId == old(nextId) && lock == if old(lock) == Some(tx) then None else old(lock)
    {
      committed := Merged(committed, if tx in writers then writers[tx].rows else []);
      writers := writers - {tx};
      if lock == Some(tx) { lock := None; }
      snapshots := snapshots + [committed];
    }

    method RollbackTransaction(tx: nat)
      modifies this
      ensures State() == Take(old(State()), Rollback(tx))
      ensures committed == old(committed) && nextId == old(nextId)
      ensures tx !in writers && lock == if old(lock) == Some(tx) then None else old(lock)
    {
      writers := writers - {tx};
      if lock == Some(tx) { lock := None; }
    }
  }

  /** Inserting and sealing adds one linked row to what the lock holder sees. */
  lemma AppendExtends(s: System, tx: nat, content: Content, recordedAt: int)
    requires Inv(s) && Enabled(s, Insert(tx, content, recordedAt))
    ensures var w := WriterOf(Take(Take(s, Insert(tx, content, recordedAt)), SealLast(tx)), tx);
      var before := Visible(s, tx);
      |w.rows| == |WriterOf(s, tx).rows| + 1 &&
      var row := w.rows[|w.rows| - 1];
      Merged(s.committed, w.rows) == before + [row] && IsLog(before + [row]) &&
      row.id == s.nextId && row.content == content && row.recordedAt == recordedAt
  {
    var own, row := WriterOf(s, tx).rows, Inserted(s, tx, content, recordedAt);
    CommitGrows(s, tx);
    InsertFits(s, tx, content, recordedAt);
    InsertedRow(s, tx, content, recordedAt);
    hide Inv, Inserted, IsLog;
    SealingExtends(s.committed, s.nextId + 1, own, row);
    hide WriterFits, TableHead, HashOrGenesis, Merged, SealWriter;
  }

  lemma SealingExtends(committed: seq<Row>, nextId: nat, own: seq<Row>, row: Row)
    requires WriterFits(committed, nextId, Writer(own + [row], Some(row.content)))
    ensures var sealedRow := SealRow(row, row.content, HashOrGenesis(TableHead(committed + own)));
      SealWriter(Merged(committed, own + [row]), Writer(own + [row], Some(row.content))) ==
        Writer(own + [sealedRow], None) &&
      Merged(committed, own + [sealedRow]) == committed + own + [sealedRow] && IsLog(committed + own + [sealedRow])
  {
    hide WriterFits, SealWriter, Merged, TableHead, HashOrGenesis, SealRow, IsLog;
    var w := Writer(own + [row], Some(row.content));
    assert w.rows[..|own|] == own && w.rows[|own|] == row && w.unsealed.Some?;
    SealContinues(committed, nextId, w);
    SealedFitsTable(committed, nextId, own, SealRow(row, row.content, HashOrGenesis(TableHead(committed + own))));
  }

  lemma SealedFitsTable(committed: seq<Row>, nextId: nat, own: seq<Row>, row: Row)
    requires WriterFits(committed, nextId, Writer(own + [row], None))
    ensures Merged(committed, own + [row]) == committed + own + [row] && IsLog(committed + own + [row])
  {
    assert committed + (own + [row]) == committed + own + [row];
    MergedAppends(committed, own + [row]);
  }
}
