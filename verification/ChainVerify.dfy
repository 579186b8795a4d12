/** `verify_ledger_chain`: the incremental verifier and its checkpoint, against the full pass. */
module ChainVerify {
  import opened Options
  import opened HashChain
  import opened Checkpoints

  datatype Result = Result(
    valid: bool,
    sealedCount: nat,
    unsealedCount: nat,
    totalEvents: nat,
    head: Option<Digest>,
    firstBreak: Option<Break>,
    incremental: bool)

  /** What the five statements of one verification see. On one snapshot they are all the same table;
      under read committed, or on a replica, each may be a different one. */
  datatype Views = Views(counted: seq<Row>, headed: seq<Row>, anchored: seq<Row>, tailed: seq<Row>, rescanned: seq<Row>)

  function OneView(table: seq<Row>): Views {
    Views(table, table, table, table, table)
  }

  /** The newest stored hash that is neither NULL nor genesis; it may be an empty text. */
  function TableHead(table: seq<Row>): Option<Digest>
    decreases |table|
  {
    if table == [] then None
    else
      var last := table[|table| - 1];
      if last.rowHash.Some? && last.rowHash != Some(Genesis) then last.rowHash else TableHead(table[..|table| - 1])
  }

  predicate HasId(table: seq<Row>, id: nat) {
    exists i | 0 <= i < |table| :: table[i].id == id
  }

  function RowHashAt(table: seq<Row>, id: nat): Option<Digest>
    decreases |table|
  {
    if table == [] then None
    else if table[0].id == id then table[0].rowHash
    else RowHashAt(table[1..], id)
  }

  /** The rows with a larger id, in order. */
  function After(table: seq<Row>, id: nat): seq<Row>
    decreases |table|
  {
    if table == [] then [] else (if table[0].id > id then [table[0]] else []) + After(table[1..], id)
  }

  /** The row pass from an anchor; without the anchor row it starts over from genesis. */
  function VerifyRows(anchored: seq<Row>, rows: seq<Row>, fromId: nat, priorSealed: nat): Scan {
    if fromId > 0 && HasId(anchored, fromId) then
      var anchor := RowHashAt(anchored, fromId);
      if After(rows, fromId) == [] then Scan(true, priorSealed, 0, anchor, None, fromId)
      else
        var head := if anchor == Some(Genesis) then None else anchor;
        ScanFrom(After(rows, fromId), anchor, priorSealed, 0, head, fromId)
    else ScanFrom(rows, Some(Genesis), 0, 0, None, 0)
  }

  function FullResult(v: Views): Result {
    var scan := VerifyRows(v.rescanned, v.rescanned, 0, 0);
    Result(scan.valid, scan.sealedCount, scan.unsealedCount, |v.counted|, scan.head, scan.firstBreak, false)
  }

  function FullCheckpoint(v: Views, incremental: bool): Option<Checkpoint> {
    var scan := VerifyRows(v.rescanned, v.rescanned, 0, 0);
    if scan.valid && incremental && HasText(scan.head)
      then Some(Checkpoint(scan.lastId, scan.head.value, scan.sealedCount, |v.counted|))
    else None
  }

  predicate FastPath(v: Views, cp: Checkpoint) {
    Some(cp.head) == TableHead(v.headed) && |v.counted| == cp.totalEvents && cp.sealedCount == |v.counted|
  }

  function TailScan(v: Views, cp: Checkpoint): Scan {
    VerifyRows(v.anchored, v.tailed, cp.lastId, cp.sealedCount)
  }

  predicate TailPasses(v: Views, cp: Checkpoint) {
    TailScan(v, cp).valid && HasText(TailScan(v, cp).head) && TailScan(v, cp).unsealedCount == 0
  }

  /** The verdict and the checkpoint it saves, if any. */
  function Verify(v: Views, loaded: Option<Checkpoint>, incremental: bool): (Result, Option<Checkpoint>) {
    if v.counted == [] then (Result(true, 0, 0, 0, None, None, false), None)
    else if incremental && loaded.Some? && HasText(TableHead(v.headed)) && FastPath(v, loaded.value) then
      (Result(true, loaded.value.sealedCount, 0, |v.counted|, TableHead(v.headed), None, true), None)
    else if incremental && loaded.Some? && HasText(TableHead(v.headed)) && TailPasses(v, loaded.value) then
      var scan := TailScan(v, loaded.value);
      (Result(true, scan.sealedCount, scan.unsealedCount, |v.counted|, scan.head, None, true),
       Some(Checkpoint(scan.lastId, scan.head.value, scan.sealedCount, |v.counted|)))
    else (FullResult(v), FullCheckpoint(v, incremental))
  }

  function FullPass(table: seq<Row>): Result {
    Verify(OneView(table), None, false).0
  }

  // ---------- the code of the verifier ----------

  /** Early exits in the order of the code: empty table, unchanged head, tail from the checkpoint, full pass. */
  method VerifyLedgerChain(checkpoints: CheckpointTable, v: Views, incremental: bool) returns (r: Result)
    requires checkpoints.Valid()
    modifies checkpoints
    ensures checkpoints.Valid()
    ensures r == Verify(v, old(checkpoints.Loaded()), incremental).0
    ensures var saves := Verify(v, old(checkpoints.Loaded()), incremental).1;
      checkpoints.Loaded() == if saves.Some? then saves else old(checkpoints.Loaded())
  {
    var total := |v.counted|;
    if total == 0 {
      return Result(true, 0, 0, 0, None, None, false);
    }
    var head := TableHead(v.headed);
    if incremental {
      var stored := checkpoints.Loaded();
      if stored.Some? && HasText(head) && Some(stored.value.head) == head {
        if total == stored.value.totalEvents && stored.value.sealedCount == total {
          return Result(true, stored.value.sealedCount, 0, total, head, None, true);
        }
      }
      if stored.Some? && HasText(head) {
        var tail := RunRows(v.anchored, v.tailed, stored.value.lastId, stored.value.sealedCount);
        if tail.valid && HasText(tail.head) && tail.unsealedCount == 0 {
          checkpoints.SaveCheckpoint(Checkpoint(tail.lastId, tail.head.value, tail.sealedCount, total));
          return Result(true, tail.sealedCount, tail.unsealedCount, total, tail.head, None, true);
        }
      }
    }
    var full := RunRows(v.rescanned, v.rescanned, 0, 0);
    r := Result(full.valid, full.sealedCount, full.unsealedCount, total, full.head, full.firstBreak, false);
    if r.valid && incremental && HasText(r.head) && r.unsealedCount == 0 {
      checkpoints.SaveCheckpoint(Checkpoint(full.lastId, r.head.value, r.sealedCount, total));
    }
  }

  method RunRows(anchored: seq<Row>, rows: seq<Row>, fromId: nat, priorSealed: nat) returns (scan: Scan)
    ensures scan == VerifyRows(anchored, rows, fromId, priorSealed)
    ensures scan.valid ==> scan.unsealedCount == 0
  {
    if fromId > 0 && HasId(anchored, fromId) {
      var anchor := RowHashAt(anchored, fromId);
      var tail := After(rows, fromId);
      if tail == [] {
        return Scan(true, priorSealed, 0, anchor, None, fromId);
      }
      scan := ScanRows(tail, anchor, priorSealed, fromId);
      ValidHasNoUnsealed(tail, anchor, priorSealed, 0, if anchor == Some(Genesis) then None else anchor, fromId);
    } else {
      scan := ScanRows(rows, Some(Genesis), 0, 0);
      ValidHasNoUnsealed(rows, Some(Genesis), 0, 0, None, 0);
    }
  }

  lemma {:induction false} ValidHasNoUnsealed(rows: seq<Row>, last: Option<Digest>, sealedCount: nat,
      unsealedCount: nat, head: Option<Digest>, lastId: nat)
    ensures ScanFrom(rows, last, sealedCount, unsealedCount, head, lastId).valid ==>
              ScanFrom(rows, last, sealedCount, unsealedCount, head, lastId).unsealedCount == 0
    decreases |rows|
  {
    if rows != [] {
      if rows[0].rowHash.None? {
        ValidHasNoUnsealed(rows[1..], last, sealedCount, unsealedCount + 1, head, rows[0].id);
      } else if BreakAt(rows[0], last).None? {
        ValidHasNoUnsealed(rows[1..], rows[0].rowHash, sealedCount + 1, unsealedCount, rows[0].rowHash, rows[0].id);
      }
    }
  }

  // ---------- what a checkpoint has to say ----------

  /** The checkpoint describes the first `n` rows, and those are a correct chain. The total may be stale. */
  ghost predicate Describes(cp: Checkpoint, table: seq<Row>, n: nat) {
    0 < n <= |table| && Chained(table[..n], Genesis) && table[n - 1].id == cp.lastId &&
    table[n - 1].rowHash == Some(cp.head) && cp.sealedCount == n
  }

  ghost predicate Fits(cp: Checkpoint, table: seq<Row>) {
    exists n: nat :: Describes(cp, table, n)
  }

  lemma {:induction false} AfterIsSuffix(table: seq<Row>, n: nat)
    requires Ordered(table) && 0 < n <= |table|
    ensures After(table, table[n - 1].id) == table[n..]
    decreases |table|
  {
    var rest := table[1..];
    if n == 1 {
      AfterAll(rest, table[0].id);
    } else {
      AfterIsSuffix(rest, n - 1);
      assert rest[n - 1..] == table[n..] && rest[n - 2] == table[n - 1];
    }
  }

  lemma {:induction false} AfterAll(table: seq<Row>, id: nat)
    requires forall i | 0 <= i < |table| :: table[i].id > id
    ensures After(table, id) == table
    decreases |table|
  {
    if table != [] {
      AfterAll(table[1..], id);
      assert table == [table[0]] + table[1..];
    }
  }

  lemma {:induction false} AnchorFound(table: seq<Row>, i: nat)
    requires Ordered(table) && i < |table|
    ensures HasId(table, table[i].id) && RowHashAt(table, table[i].id) == table[i].rowHash
    decreases |table|
  {
    if i > 0 {
      AnchorFound(table[1..], i - 1);
      assert table[1..][i - 1] == table[i];
    }
  }

  lemma ChainedHead(rows: seq<Row>)
    requires Chained(rows, Genesis)
    ensures TableHead(rows) == if rows == [] then None else Some(HeadOf(rows, Genesis))
    ensures rows != [] ==> HeadOf(rows, Genesis) != Genesis
  {
    if rows != [] { assert Linked(rows, Genesis, |rows| - 1); }
  }

  /** The full pass accepts exactly the correct chains, and reports their length and head. */
  lemma FullPassAccepts(table: seq<Row>)
    ensures FullPass(table).valid <==> Chained(table, Genesis)
    ensures FullPass(table).valid ==>
              FullPass(table).sealedCount == |table| && FullPass(table).unsealedCount == 0 &&
              FullPass(table).head == (if table == [] then None else Some(HeadOf(table, Genesis)))
  {
    ScanAccepts(table, Genesis, 0, None, 0);
  }

  /** Two tables of any lengths that the full verifier accepts with the same head are equal row for row. */
  lemma AnchoredHeadFixesHistory(a: seq<Row>, b: seq<Row>)
    requires FullPass(a).valid && FullPass(b).valid && FullPass(a).head == FullPass(b).head
    ensures |a| == |b| && forall i | 0 <= i < |a| :: SameRow(a[i], b[i])
  {
    FullPassAccepts(a);
    FullPassAccepts(b);
    HeadFixesHistory(a, b);
  }

  /** On a table whose checkpointed prefix is untouched, the tail pass accepts exactly the correct chains. */
  lemma TailAccepts(table: seq<Row>, cp: Checkpoint, n: nat)
    requires Ordered(table) && Describes(cp, table, n)
    ensures var scan := TailScan(OneView(table), cp);
      (scan.valid <==> Chained(table, Genesis)) &&
      (scan.valid ==>
        scan.sealedCount == |table| && scan.unsealedCount == 0 && scan.head == Some(HeadOf(table, Genesis)) &&
        scan.lastId == table[|table| - 1].id)
  {
    AfterIsSuffix(table, n);
    AnchorFound(table, n - 1);
    assert table[n - 1].id > 0 && StoredHash(table[n - 1]) == cp.head;
    hide Ordered, ScanFrom, After, RowHashAt, Chained, Linked, HasId, TableHead;
    assert table == table[..n] + table[n..] && table[..n][n - 1] == table[n - 1];
    ChainedSplit(table[..n], table[n..], Genesis);
    ChainedHead(table[..n]);
    ScanAccepts(table[n..], cp.head, n, Some(cp.head), cp.lastId);
  }

  /** Incremental verification gives the full pass's verdict for every tail, good, wrong or unsealed; on
      a valid table it also gives the same sealed count and head, on an invalid one the same result. */
  lemma IncrementalEqualsFull(table: seq<Row>, cp: Checkpoint)
    requires Ordered(table) && Fits(cp, table)
    ensures Verify(OneView(table), Some(cp), true).0.valid == FullPass(table).valid
    ensures FullPass(table).valid ==>
              Verify(OneView(table), Some(cp), true).0.sealedCount == FullPass(table).sealedCount &&
              Verify(OneView(table), Some(cp), true).0.unsealedCount == FullPass(table).unsealedCount &&
              Verify(OneView(table), Some(cp), true).0.head == FullPass(table).head
    ensures !FullPass(table).valid ==> Verify(OneView(table), Some(cp), true).0 == FullPass(table)
  {
    var n: nat :| Describes(cp, table, n);
    TailAccepts(table, cp, n);
    FullPassAccepts(table);
    if FastPath(OneView(table), cp) && TableHead(table).Some? {
      assert n == |table| && table[..n] == table;
      ChainedHead(table);
    }
    hide ScanFrom, Chained, TableHead;
  }

  // ---------- the whole answer of a verification ----------

  /** The full pass on a table whose sealed rows break the chain: the first break and what came before it. */
  lemma FullPassBreaks(table: seq<Row>, i: nat)
    requires BreaksAt(table, Genesis, i)
    ensures var before := SealedOnly(table[..i]);
      FullPass(table) ==
        Result(false, |before|, UnsealedIn(table[..i]), |table|,
               if before == [] then None else Some(HeadOf(before, Genesis)),
               Some(Break(table[i].id,
                          if PrevOf(table[i]) != HeadOf(before, Genesis) then PrevMismatch else HashMismatch)),
               false)
  {
    BreakLocated(table, Genesis, i, 0, 0, None, 0);
    UnsealedCounts(table[..i]);
    hide Chained, SealedOnly, ScanFrom, HeadOf;
  }

  /** On a table whose sealed rows do chain: no break, and every row counted; it is valid when none is
      unsealed. */
  lemma FullPassCounts(table: seq<Row>)
    requires Chained(SealedOnly(table), Genesis)
    ensures var sealedRows := SealedOnly(table);
      FullPass(table) ==
        Result(UnsealedIn(table) == 0, |sealedRows|, UnsealedIn(table), |table|,
               if sealedRows == [] then None else Some(HeadOf(sealedRows, Genesis)), None, false)
  {
    ScanMeans(table, Genesis, 0, 0, None, 0);
    UnsealedCounts(table);
    hide Chained, SealedOnly, ScanFrom, HeadOf;
  }

  /** What a verification answers on one snapshot, with no checkpoint or one that fits: on a correct log the
      whole log, flagged incremental when it started from a checkpoint, else the full pass's answer. */
  lemma VerifyAnswers(table: seq<Row>, loaded: Option<Checkpoint>)
    requires Ordered(table) && (loaded.Some? ==> Fits(loaded.value, table))
    ensures Verify(OneView(table), loaded, true).0 ==
              if table != [] && Chained(table, Genesis)
              then Result(true, |table|, 0, |table|, Some(HeadOf(table, Genesis)), None, loaded.Some?)
              else FullPass(table)
  {
    FullPassAccepts(table);
    if loaded.Some? {
      var cp := loaded.value;
      var n: nat :| Describes(cp, table, n);
      TailAccepts(table, cp, n);
      if Chained(table, Genesis) { UsableHead(table, cp, n); }
      if n == |table| { assert table[..n] == table; }
      hide ScanFrom, Chained, TableHead, HeadOf, HasText, Describes;
    } else if Chained(table, Genesis) {
      ChainIsSealed(table, Genesis);
      UnsealedCounts(table);
      FullPassCounts(table);
      hide ScanFrom, Chained, TableHead, HeadOf, SealedOnly;
    }
  }

  /** On a correct log the newest hash is the head, and a checkpoint's hash only at the log's end. */
  lemma UsableHead(table: seq<Row>, cp: Checkpoint, n: nat)
    requires Describes(cp, table, n) && Chained(table, Genesis)
    ensures TableHead(table) == Some(HeadOf(table, Genesis)) && HasText(TableHead(table))
    ensures TableHead(table) == Some(cp.head) ==> n == |table|
  {
    ChainedHead(table);
    assert Linked(table, Genesis, |table| - 1);
    if TableHead(table) == Some(cp.head) {
      assert Linked(table, Genesis, n - 1);
      HashesDistinct(table, n, |table|);
    }
    hide Chained, TableHead;
  }

  /** And what it leaves stored: on a correct log the checkpoint at its end, with its size; else the old one. */
  lemma VerifyStoresEnd(table: seq<Row>, loaded: Option<Checkpoint>)
    requires Ordered(table) && (loaded.Some? ==> Fits(loaded.value, table))
    ensures var saves := Verify(OneView(table), loaded, true).1;
      (if saves.Some? then saves else loaded) ==
        if table != [] && Chained(table, Genesis)
        then Some(Checkpoint(table[|table| - 1].id, HeadOf(table, Genesis), |table|, |table|))
        else loaded
  {
    FullPassAccepts(table);
    ScanAccepts(table, Genesis, 0, None, 0);
    if table != [] && Chained(table, Genesis) { LastHash(table); }
    if loaded.Some? {
      var cp := loaded.value;
      var n: nat :| Describes(cp, table, n);
      TailAccepts(table, cp, n);
      if Chained(table, Genesis) { UsableHead(table, cp, n); }
      if n == |table| { assert table[..n] == table; }
      hide ScanFrom, Chained, TableHead, HeadOf, HasText;
    } else {
      hide ScanFrom, Chained, TableHead, HeadOf, HasText;
    }
  }

  lemma LastHash(table: seq<Row>)
    requires table != [] && Chained(table, Genesis)
    ensures HasText(Some(HeadOf(table, Genesis))) && table[|table| - 1].rowHash == Some(HeadOf(table, Genesis))
  {
    assert Linked(table, Genesis, |table| - 1);
  }

  // ---------- checkpoints saved from older snapshots ----------

  lemma DescribesMore(cp: Checkpoint, table: seq<Row>, more: seq<Row>)
    requires Fits(cp, table)
    ensures Fits(cp, table + more)
  {
    var n: nat :| Describes(cp, table, n);
    assert (table + more)[..n] == table[..n];
    assert Describes(cp, table + more, n);
  }

  /** A full pass over any prefix of a correct log ends in a checkpoint that describes a prefix of the log. */
  lemma FullOfPrefix(log: seq<Row>, t: nat)
    requires Ordered(log) && Chained(log, Genesis) && t <= |log|
    ensures ScanFrom(log[..t], Some(Genesis), 0, 0, None, 0).valid
    ensures ScanDescribes(log, ScanFrom(log[..t], Some(Genesis), 0, 0, None, 0))
  {
    ChainedPrefix(log, Genesis, t);
    ScanAccepts(log[..t], Genesis, 0, None, 0);
    hide ScanFrom, Chained;
    if t > 0 {
      SealedInLog(log, t - 1);
      assert log[..t][t - 1] == log[t - 1];
      PrefixDescribed(log, t, ScanFrom(log[..t], Some(Genesis), 0, 0, None, 0));
    }
  }

  /** A pass over any prefix of a correct log, anchored in any other prefix, does too. */
  lemma TailOfPrefixes(log: seq<Row>, a: nat, t: nat, n: nat)
    requires Ordered(log) && Chained(log, Genesis) && a <= |log| && t <= |log| && 0 < n <= |log|
    requires HasId(log[..a], log[n - 1].id)
    ensures VerifyRows(log[..a], log[..t], log[n - 1].id, n).valid
    ensures ScanDescribes(log, VerifyRows(log[..a], log[..t], log[n - 1].id, n))
  {
    var i :| 0 <= i < a && log[..a][i].id == log[n - 1].id;
    assert i == n - 1 by { assert log[i].id == log[n - 1].id; }
    AnchorFound(log[..a], i);
    SealedInLog(log, n - 1);
    if t < n { AfterNothing(log[..t], log[n - 1].id); }
    hide ScanFrom, Chained, After, RowHashAt, HasId, Ordered;
    if n <= t {
      TailOfLongerPrefix(log, t, n);
      PrefixDescribed(log, t, VerifyRows(log[..a], log[..t], log[n - 1].id, n));
    } else {
      PrefixDescribed(log, n, VerifyRows(log[..a], log[..t], log[n - 1].id, n));
    }
  }

  lemma PrefixOrdered(log: seq<Row>, t: nat)
    requires Ordered(log) && t <= |log|
    ensures Ordered(log[..t])
  {
  }

  /** The rows between two prefixes of a correct log scan cleanly from the end of the shorter. */
  lemma TailOfLongerPrefix(log: seq<Row>, t: nat, n: nat)
    requires Ordered(log) && Chained(log, Genesis) && 0 < n <= t <= |log|
    ensures After(log[..t], log[n - 1].id) == log[n..t]
    ensures log[n - 1].rowHash.Some?
    ensures var scan := ScanFrom(log[n..t], log[n - 1].rowHash, n, 0, log[n - 1].rowHash, log[n - 1].id);
      scan.valid && scan.sealedCount == t && scan.head == log[t - 1].rowHash && scan.lastId == log[t - 1].id
  {
    hide *;
    AfterIsSuffix(log[..t], n) by { PrefixOrdered(log, t); }
    assert log[..t][n..] == log[n..t] && log[..t][n - 1] == log[n - 1];
    ChainedPrefix(log, Genesis, t);
    ChainedSplit(log[..n], log[n..t], Genesis);
    assert log[..t] == log[..n] + log[n..t];
    SealedInLog(log, n - 1);
    SealedInLog(log, t - 1);
    HeadOfPart(log, n, t);
    ScanAccepts(log[n..t], StoredHash(log[n - 1]), n, log[n - 1].rowHash, log[n - 1].id);
  }

  lemma HeadOfPart(log: seq<Row>, n: nat, t: nat)
    requires 0 < n <= t <= |log|
    ensures HeadOf(log[..n], Genesis) == StoredHash(log[n - 1])
    ensures HeadOf(log[n..t], StoredHash(log[n - 1])) == StoredHash(log[t - 1])
  {
  }

  lemma SealedInLog(log: seq<Row>, i: nat)
    requires Chained(log, Genesis) && i < |log|
    ensures log[i].rowHash == Some(StoredHash(log[i])) && StoredHash(log[i]) != Genesis
  {
    assert Linked(log, Genesis, i);
  }

  /** The checkpoint a valid scan leads to describes a prefix of the log, whatever total it stores. */
  ghost predicate ScanDescribes(log: seq<Row>, scan: Scan) {
    scan.head.Some? ==> forall total: nat ::
      Fits(Checkpoint(scan.lastId, scan.head.value, scan.sealedCount, total), log)
  }

  lemma {:induction false} AfterNothing(table: seq<Row>, id: nat)
    requires forall i | 0 <= i < |table| :: table[i].id <= id
    ensures After(table, id) == []
    decreases |table|
  {
    if table != [] { AfterNothing(table[1..], id); }
  }

  lemma PrefixDescribed(log: seq<Row>, n: nat, scan: Scan)
    requires Chained(log, Genesis) && 0 < n <= |log|
    requires scan.head == log[n - 1].rowHash && scan.lastId == log[n - 1].id && scan.sealedCount == n
    ensures ScanDescribes(log, scan)
  {
    assert Linked(log, Genesis, n - 1);
    ChainedPrefix(log, Genesis, n);
    forall total: nat
      ensures Fits(Checkpoint(scan.lastId, scan.head.value, scan.sealedCount, total), log)
    {
      assert Describes(Checkpoint(scan.lastId, scan.head.value, scan.sealedCount, total), log, n);
    }
  }

  /** The statements of a verification saw prefixes of the log, of any lengths. */
  predicate SeesPrefixes(v: Views, log: seq<Row>) {
    v.counted <= log && v.headed <= log && v.anchored <= log && v.tailed <= log && v.rescanned <= log
  }

  /** On a correct log no verification reports a break, whatever older snapshots its statements read,
      and every checkpoint it saves describes a correct prefix. */
  lemma VerifyOfPrefixes(log: seq<Row>, v: Views, loaded: Option<Checkpoint>, incremental: bool)
    requires Ordered(log) && Chained(log, Genesis) && SeesPrefixes(v, log)
    requires loaded.Some? ==> Fits(loaded.value, log)
    ensures Verify(v, loaded, incremental).0.valid
    ensures Verify(v, loaded, incremental).1.Some? ==> Fits(Verify(v, loaded, incremental).1.value, log)
  {
    FullOfPrefix(log, |v.rescanned|);
    if loaded.Some? {
      var n: nat :| Describes(loaded.value, log, n);
      if HasId(v.anchored, loaded.value.lastId) {
        assert v.anchored == log[..|v.anchored|];
        TailOfPrefixes(log, |v.anchored|, |v.tailed|, n);
      } else {
        FullOfPrefix(log, |v.tailed|);
      }
    }
    assert v.rescanned == log[..|v.rescanned|] && v.anchored == log[..|v.anchored|] && v.tailed == log[..|v.tailed|];
    hide ScanFrom, Chained, TableHead, Fits, HasId, After, RowHashAt;
  }
}
