/** The second verifier, `verify_security_chain`: its loop runs on after a break, its shortcut does not
    compare the sealed count, and an empty tail is accepted at once. */
module SecurityChain {
  import opened Options
  import opened HashChain
  import opened Checkpoints
  import opened ChainVerify

  /** Rows whose own hash matches, rows whose hash does not, the first break, the hash stored last. */
  datatype Tally = Tally(sealedCount: nat, unsealedCount: nat, firstBreak: Option<Break>, head: Option<Digest>)

  predicate OwnHash(row: Row) {
    row.rowHash == Some(Expected(row, PrevOf(row)))
  }

  function TallyFrom(rows: seq<Row>, expected: Option<Digest>, t: Tally): Tally
    decreases |rows|
  {
    if rows == [] then t
    else
      TallyFrom(rows[1..], rows[0].rowHash,
        Tally(if OwnHash(rows[0]) then t.sealedCount + 1 else t.sealedCount,
              if OwnHash(rows[0]) then t.unsealedCount else t.unsealedCount + 1,
              if t.firstBreak.Some? then t.firstBreak else BreakAt(rows[0], expected),
              rows[0].rowHash))
  }

  function Untallied(start: Digest, priorSealed: nat): Tally {
    Tally(priorSealed, 0, None, if start == Genesis then None else Some(start))
  }

  /** The verifier's loop: every row is visited, only the first break is kept. */
  method TallyRows(rows: seq<Row>, start: Digest, priorSealed: nat) returns (t: Tally)
    ensures t == TallyFrom(rows, Some(start), Untallied(start, priorSealed))
  {
    var sealedCount, unsealedCount, firstBreak := priorSealed, 0, None;
    var expected := Some(start);
    var head := if start == Genesis then None else Some(start);
    var i := 0;
    while i < |rows|
      invariant 0 <= i <= |rows|
      invariant TallyFrom(rows, Some(start), Untallied(start, priorSealed)) ==
                TallyFrom(rows[i..], expected, Tally(sealedCount, unsealedCount, firstBreak, head))
    {
      var row := rows[i];
      assert rows[i..][0] == row && rows[i..][1..] == rows[i + 1..];
      if Some(PrevOf(row)) != expected {
        if firstBreak.None? { firstBreak := Some(Break(row.id, PrevMismatch)); }
      }
      if row.rowHash == Some(Expected(row, PrevOf(row))) {
        sealedCount := sealedCount + 1;
      } else {
        unsealedCount := unsealedCount + 1;
        if firstBreak.None? { firstBreak := Some(Break(row.id, HashMismatch)); }
      }
      expected, head := row.rowHash, row.rowHash;
      i := i + 1;
    }
    t := Tally(sealedCount, unsealedCount, firstBreak, head);
  }

  // ---------- what the loop finds ----------

  function OwnHashes(rows: seq<Row>): nat
    decreases |rows|
  {
    if rows == [] then 0 else (if OwnHash(rows[0]) then 1 else 0) + OwnHashes(rows[1..])
  }

  /** The counts and the stored head depend on nothing but the rows, break or no break. */
  lemma {:induction false} TallyCounts(rows: seq<Row>, expected: Option<Digest>, t: Tally)
    ensures var r := TallyFrom(rows, expected, t);
      r.sealedCount == t.sealedCount + OwnHashes(rows) &&
        r.unsealedCount == t.unsealedCount + |rows| - OwnHashes(rows) &&
      r.head == (if rows == [] then t.head else rows[|rows| - 1].rowHash) &&
      (t.firstBreak.Some? ==> r.firstBreak == t.firstBreak)
    decreases |rows|
  {
    if rows != [] {
      TallyCounts(rows[1..], rows[0].rowHash,
        Tally(if OwnHash(rows[0]) then t.sealedCount + 1 else t.sealedCount,
              if OwnHash(rows[0]) then t.unsealedCount else t.unsealedCount + 1,
              if t.firstBreak.Some? then t.firstBreak else BreakAt(rows[0], expected),
              rows[0].rowHash));
    }
  }

  /** No break is kept exactly when the rows are a chain; then every row counts as sealed. */
  lemma {:induction false} TallyAccepts(rows: seq<Row>, start: Digest, t: Tally)
    requires t.firstBreak.None?
    ensures TallyFrom(rows, Some(start), t).firstBreak.None? <==> Chained(rows, start)
    ensures Chained(rows, start) ==> OwnHashes(rows) == |rows|
    decreases |rows|
  {
    if rows != [] {
      var row, rest := rows[0], rows[1..];
      assert rows == [row] + rest;
      var next := Tally(if OwnHash(row) then t.sealedCount + 1 else t.sealedCount,
                        if OwnHash(row) then t.unsealedCount else t.unsealedCount + 1,
                        BreakAt(row, Some(start)), row.rowHash);
      if BreakAt(row, Some(start)).Some? {
        TallyCounts(rest, row.rowHash, next);
        assert !Linked(rows, start, 0);
      } else {
        ChainedCons(row, rest, start);
        TallyAccepts(rest, row.rowHash.value, next);
      }
    }
    hide Chained;
  }

  /** The rows break the chain at row `i` and nowhere before. */
  predicate LinkBreaksAt(rows: seq<Row>, start: Digest, i: nat) {
    i < |rows| && Chained(rows[..i], start) && !Chained(rows[..i + 1], start)
  }

  lemma FirstLinkBreaks(rows: seq<Row>, start: Digest)
    requires LinkBreaksAt(rows, start, 0)
    ensures BreakAt(rows[0], Some(start)) == Some(BreakOf(rows[0], start))
  {
    var row := rows[0];
    assert rows[..1] == [row];
    assert Chained([row], start) <==> Linked([row], start, 0);
  }

  lemma LinkBreakMovesOn(rows: seq<Row>, start: Digest, i: nat)
    requires LinkBreaksAt(rows, start, i) && i > 0
    ensures rows[0].rowHash.Some? && BreakAt(rows[0], Some(start)).None?
    ensures LinkBreaksAt(rows[1..], rows[0].rowHash.value, i - 1)
    ensures HeadOf(rows[..i], start) == HeadOf(rows[1..][..i - 1], rows[0].rowHash.value)
  {
    var row, rest := rows[0], rows[1..];
    assert rows[..i] == [row] + rest[..i - 1] && rows[..i + 1] == [row] + rest[..i];
    assert rows[..i][0] == row && Linked(rows[..i], start, 0);
    ChainedCons(row, rest[..i - 1], start);
    ChainedCons(row, rest[..i], start);
    HeadAfterFirst(row, rest[..i - 1], start);
    hide Chained, BreakAt, HeadOf;
  }

  /** The break kept is that of the first row that does not continue the chain before it. */
  lemma {:induction false} TallyBreaks(rows: seq<Row>, start: Digest, i: nat, t: Tally)
    requires LinkBreaksAt(rows, start, i) && t.firstBreak.None?
    ensures TallyFrom(rows, Some(start), t).firstBreak ==
              Some(Break(rows[i].id,
                         if PrevOf(rows[i]) != HeadOf(rows[..i], start) then PrevMismatch else HashMismatch))
    decreases i
  {
    var row, rest := rows[0], rows[1..];
    var next := Tally(if OwnHash(row) then t.sealedCount + 1 else t.sealedCount,
                      if OwnHash(row) then t.unsealedCount else t.unsealedCount + 1,
                      BreakAt(row, Some(start)), row.rowHash);
    if i == 0 {
      FirstLinkBreaks(rows, start);
      assert HeadOf(rows[..0], start) == start;
      TallyCounts(rest, row.rowHash, next);
    } else {
      LinkBreakMovesOn(rows, start, i);
      assert rest[i - 1] == rows[i];
      TallyBreaks(rest, row.rowHash.value, i - 1, next);
    }
    hide Chained, BreakAt, HeadOf;
  }

  /** The rows that carry the hash of their own contents and previous hash. */
  function SelfSealed(rows: seq<Row>): set<nat> {
    set i: nat |
      i < |rows| && rows[i].rowHash == Some(Seal(rows[i].id, rows[i].content, rows[i].recordedAt, PrevOf(rows[i])))
  }

  lemma {:induction false} OwnHashesPush(rows: seq<Row>, last: Row)
    ensures OwnHashes(rows + [last]) == OwnHashes(rows) + if OwnHash(last) then 1 else 0
    decreases |rows|
  {
    var all := rows + [last];
    if rows == [] {
      assert all[1..] == [];
    } else {
      assert all[1..] == rows[1..] + [last] && all[0] == rows[0];
      OwnHashesPush(rows[1..], last);
    }
  }

  lemma {:induction false} OwnHashesCount(rows: seq<Row>)
    ensures OwnHashes(rows) == |SelfSealed(rows)| <= |rows|
    decreases |rows|
  {
    if rows != [] {
      var n := |rows| - 1;
      assert rows == rows[..n] + [rows[n]];
      OwnHashesPush(rows[..n], rows[n]);
      OwnHashesCount(rows[..n]);
      assert SelfSealed(rows) == SelfSealed(rows[..n]) + if OwnHash(rows[n]) then {n} else {};
    }
  }

  /** Where every row carries a hash, both verifiers report the same first break. */
  lemma {:induction false} SameFirstBreak(rows: seq<Row>, last: Option<Digest>, t: Tally, sealedCount: nat,
      head: Option<Digest>, lastId: nat)
    requires t.firstBreak.None? && forall i | 0 <= i < |rows| :: rows[i].rowHash.Some?
    ensures TallyFrom(rows, last, t).firstBreak == ScanFrom(rows, last, sealedCount, 0, head, lastId).firstBreak
    decreases |rows|
  {
    if rows != [] {
      var row := rows[0];
      var next := Tally(if OwnHash(row) then t.sealedCount + 1 else t.sealedCount,
                        if OwnHash(row) then t.unsealedCount else t.unsealedCount + 1, BreakAt(row, last), row.rowHash);
      if BreakAt(row, last).Some? {
        TallyCounts(rows[1..], row.rowHash, next);
      } else {
        SameFirstBreak(rows[1..], row.rowHash, next, sealedCount + 1, row.rowHash, row.id);
      }
    }
  }

  // ---------- the verifier ----------

  function FullTally(table: seq<Row>): Tally {
    TallyFrom(table, Some(Genesis), Untallied(Genesis, 0))
  }

  function StoredHead(rows: seq<Row>): Option<Digest> {
    if rows == [] then None else rows[|rows| - 1].rowHash
  }

  function Full(v: Views): Result {
    var t := FullTally(v.rescanned);
    Result(t.firstBreak.None? && t.unsealedCount == 0, t.sealedCount, t.unsealedCount, |v.rescanned|,
      StoredHead(v.rescanned),
           t.firstBreak, false)
  }

  function SaveOfFull(v: Views, incremental: bool): Option<Checkpoint> {
    var r := Full(v);
    if r.valid && incremental && HasText(r.head) && v.rescanned != [] then
      Some(Checkpoint(v.rescanned[|v.rescanned| - 1].id, r.head.value, r.sealedCount, |v.rescanned|))
    else None
  }

  /** Only the head and the number of rows are compared. */
  predicate Shortcut(v: Views, cp: Checkpoint) {
    Some(cp.head) == TableHead(v.headed) && |v.counted| == cp.totalEvents
  }

  function AnchorHash(v: Views, cp: Checkpoint): Option<Digest> {
    if cp.lastId == 0 then Some(Genesis) else RowHashAt(v.anchored, cp.lastId)
  }

  function Tail(v: Views, cp: Checkpoint): seq<Row> {
    After(v.tailed, cp.lastId)
  }

  function TailTally(v: Views, cp: Checkpoint): Tally
    requires AnchorHash(v, cp).Some?
  {
    TallyFrom(Tail(v, cp), AnchorHash(v, cp), Untallied(AnchorHash(v, cp).value, cp.sealedCount))
  }

  predicate TailClean(v: Views, cp: Checkpoint) {
    AnchorHash(v, cp).Some? && TailTally(v, cp).firstBreak.None? && TailTally(v, cp).unsealedCount == 0 &&
      HasText(TailTally(v, cp).head)
  }

  function VerifySecurity(v: Views, loaded: Option<Checkpoint>, incremental: bool): (Result, Option<Checkpoint>) {
    var head := TableHead(v.headed);
    if v.counted == [] then (Result(true, 0, 0, 0, None, None, false), None)
    else if incremental && loaded.Some? && HasText(head) && Shortcut(v, loaded.value) then
      (Result(true, loaded.value.sealedCount, 0, |v.counted|, head, None, true), None)
    else if incremental && loaded.Some? && HasText(head) && AnchorHash(v, loaded.value).Some? &&
      Tail(v, loaded.value) == [] then
      (Result(true, loaded.value.sealedCount, 0, |v.counted|, head, None, true), None)
    else if incremental && loaded.Some? && HasText(head) && TailClean(v, loaded.value) then
      var t, tail := TailTally(v, loaded.value), Tail(v, loaded.value);
      (Result(true, t.sealedCount, 0, |v.counted|, t.head, None, true),
       Some(Checkpoint(tail[|tail| - 1].id, t.head.value, t.sealedCount, |v.counted|)))
    else (Full(v), SaveOfFull(v, incremental))
  }

  function SecurityFullPass(table: seq<Row>): Result {
    VerifySecurity(OneView(table), None, false).0
  }

  method VerifySecurityChain(checkpoints: CheckpointTable, v: Views, incremental: bool) returns (r: Result)
    requires checkpoints.Valid()
    modifies checkpoints
    ensures checkpoints.Valid()
    ensures r == VerifySecurity(v, old(checkpoints.Loaded()), incremental).0
    ensures var saves := VerifySecurity(v, old(checkpoints.Loaded()), incremental).1;
      checkpoints.Loaded() == if saves.Some? then saves else old(checkpoints.Loaded())
  {
    hide TallyFrom, TableHead, After, RowHashAt;
    var total := |v.counted|;
    if total == 0 {
      return Result(true, 0, 0, 0, None, None, false);
    }
    var head := TableHead(v.headed);
    if incremental {
      var stored := checkpoints.Loaded();
      if stored.Some? && HasText(head) && Some(stored.value.head) == head {
        if total == stored.value.totalEvents {
          return Result(true, stored.value.sealedCount, 0, total, head, None, true);
        }
      }
      if stored.Some? && HasText(head) {
        var expected := if stored.value.lastId == 0 then Some(Genesis) else RowHashAt(v.anchored, stored.value.lastId);
        if expected.Some? {
          var tail := After(v.tailed, stored.value.lastId);
          if tail == [] {
            return Result(true, stored.value.sealedCount, 0, total, head, None, true);
          }
          var t := TallyRows(tail, expected.value, stored.value.sealedCount);
          if t.firstBreak.None? && t.unsealedCount == 0 && HasText(t.head) {
            checkpoints.SaveCheckpoint(Checkpoint(tail[|tail| - 1].id, t.head.value, t.sealedCount, total));
            return Result(true, t.sealedCount, 0, total, t.head, None, true);
          }
        }
      }
    }
    var rows := v.rescanned;
    var t := TallyRows(rows, Genesis, 0);
    r := Result(t.firstBreak.None? && t.unsealedCount == 0, t.sealedCount, t.unsealedCount, |rows|,
                if rows == [] then None else rows[|rows| - 1].rowHash, t.firstBreak, false);
    if r.valid && incremental && HasText(r.head) && rows != [] {
      checkpoints.SaveCheckpoint(Checkpoint(rows[|rows| - 1].id, r.head.value, r.sealedCount, |rows|));
    }
  }

  // ---------- both verifiers, both ways of verifying ----------

  /** A loop that goes on after a break and one that stops at it accept the same tables: the correct
      chains. They then report the same counts and head. */
  lemma SameVerdictAsLedger(table: seq<Row>)
    ensures SecurityFullPass(table).valid <==> Chained(table, Genesis)
    ensures SecurityFullPass(table).valid == FullPass(table).valid
    ensures FullPass(table).valid ==>
              SecurityFullPass(table).sealedCount == FullPass(table).sealedCount &&
              SecurityFullPass(table).unsealedCount == FullPass(table).unsealedCount &&
              SecurityFullPass(table).head == FullPass(table).head
  {
    FullPassAccepts(table);
    TallyAccepts(table, Genesis, Untallied(Genesis, 0));
    TallyCounts(table, Some(Genesis), Untallied(Genesis, 0));
    if Chained(table, Genesis) && table != [] { SealedInLog(table, |table| - 1); }
    hide Chained, TallyFrom, ScanFrom;
  }

  /** The whole answer of the full pass on a table that is no chain: the first break, every row counted. */
  lemma SecurityFullPassBreaks(table: seq<Row>, i: nat)
    requires LinkBreaksAt(table, Genesis, i)
    ensures |SelfSealed(table)| <= |table|
    ensures SecurityFullPass(table) ==
              Result(false, |SelfSealed(table)|, |table| - |SelfSealed(table)|, |table|, table[|table| - 1].rowHash,
                     Some(BreakOf(table[i], HeadOf(table[..i], Genesis))), false)
  {
    TallyBreaks(table, Genesis, i, Untallied(Genesis, 0));
    TallyCounts(table, Some(Genesis), Untallied(Genesis, 0));
    OwnHashesCount(table);
    hide Chained, TallyFrom, HeadOf, SelfSealed, OwnHashes;
  }

  lemma TailVerdict(table: seq<Row>, cp: Checkpoint, n: nat)
    requires Ordered(table) && Describes(cp, table, n)
    ensures AnchorHash(OneView(table), cp) == Some(cp.head) && Tail(OneView(table), cp) == table[n..]
    ensures TailTally(OneView(table), cp).firstBreak.None? <==> Chained(table, Genesis)
    ensures Chained(table, Genesis) ==>
              TailTally(OneView(table), cp).unsealedCount == 0 &&
                TailTally(OneView(table), cp).sealedCount == |table| &&
              TailTally(OneView(table), cp).head == Some(HeadOf(table, Genesis)) == TableHead(table) &&
                HasText(TableHead(table))
  {
    AfterIsSuffix(table, n);
    AnchorFound(table, n - 1);
    assert table[n - 1].id > 0;
    assert table[..n] + table[n..] == table;
    ChainedSplit(table[..n], table[n..], Genesis);
    assert table[..n][n - 1] == table[n - 1];
    SealedInLog(table[..n], n - 1);
    TallyAccepts(table[n..], cp.head, Untallied(cp.head, n));
    TallyCounts(table[n..], Some(cp.head), Untallied(cp.head, n));
    if Chained(table, Genesis) {
      ChainedHead(table);
      assert Linked(table, Genesis, |table| - 1);
    }
    hide Ordered, Chained, TallyFrom, TableHead, After, RowHashAt;
  }

  /** Incremental verification gives the full pass's verdict, counts and head, exactly unless the
      shortcut fires while rows follow the checkpoint. */
  lemma SecurityIncrementalExactly(table: seq<Row>, cp: Checkpoint)
    requires Ordered(table) && Fits(cp, table)
    ensures var quick, full := VerifySecurity(OneView(table), Some(cp), true).0, SecurityFullPass(table);
      (quick.valid == full.valid && (full.valid ==>
        quick.sealedCount == full.sealedCount && quick.unsealedCount == full.unsealedCount &&
          quick.head == full.head)) <==>
      !(HasText(TableHead(table)) && Shortcut(OneView(table), cp) && After(table, cp.lastId) != [])
  {
    var n: nat :| Describes(cp, table, n);
    TailVerdict(table, cp, n);
    SameVerdictAsLedger(table);
    FullPassAccepts(table);
    if Chained(table, Genesis) && TableHead(table) == Some(cp.head) { CheckpointAtEnd(table, cp, n); }
    if n == |table| { assert table[..n] == table; }
    hide Ordered, Chained, TallyFrom, TableHead, After, RowHashAt, ScanFrom, HeadOf;
  }

  lemma CheckpointAtEnd(table: seq<Row>, cp: Checkpoint, n: nat)
    requires Describes(cp, table, n) && Chained(table, Genesis) && TableHead(table) == Some(cp.head)
    ensures n == |table|
  {
    ChainedHead(table);
    SealedInLog(table, n - 1);
    HashesDistinct(table, n, |table|);
    hide Chained, TableHead;
  }

  /** A checkpoint whose stored total does not exceed the rows it covers never misleads the shortcut. */
  lemma SecurityIncrementalEqualsFull(table: seq<Row>, cp: Checkpoint)
    requires Ordered(table) && Fits(cp, table) && cp.totalEvents <= cp.sealedCount
    ensures var quick, full := VerifySecurity(OneView(table), Some(cp), true).0, SecurityFullPass(table);
      quick.valid == full.valid && (full.valid ==>
        quick.sealedCount == full.sealedCount && quick.unsealedCount == full.unsealedCount && quick.head == full.head)
  {
    var n: nat :| Describes(cp, table, n);
    TailVerdict(table, cp, n);
    SecurityIncrementalExactly(table, cp);
    hide Chained, Ordered, VerifySecurity, SecurityFullPass, After, TableHead;
  }

  lemma CorrectAnswer(table: seq<Row>, cp: Checkpoint, n: nat)
    requires Ordered(table) && Describes(cp, table, n) && Chained(table, Genesis)
    ensures VerifySecurity(OneView(table), Some(cp), true).0 ==
              Result(true, |table|, 0, |table|, Some(HeadOf(table, Genesis)), None, true)
  {
    TailVerdict(table, cp, n);
    UsableHead(table, cp, n);
    assert cp.sealedCount == n && table != [];
    hide Ordered, Chained, TallyFrom, TableHead, RowHashAt, HeadOf, HasText, AnchorHash, TailTally, Describes;
    var v := OneView(table);
    if Shortcut(v, cp) || Tail(v, cp) == [] {
      assert n == |table|;
      assert VerifySecurity(v, Some(cp), true).0 == Result(true, n, 0, |table|, TableHead(table), None, true);
    } else {
      assert TailClean(v, cp);
      assert VerifySecurity(v, Some(cp), true).0 == Result(true, |table|, 0, |table|, TableHead(table), None, true);
    }
  }

  lemma WrongAnswer(table: seq<Row>, cp: Checkpoint, n: nat)
    requires Ordered(table) && Describes(cp, table, n) && !Chained(table, Genesis)
    requires !(HasText(TableHead(table)) && Shortcut(OneView(table), cp) && After(table, cp.lastId) != [])
    ensures VerifySecurity(OneView(table), Some(cp), true).0 == SecurityFullPass(table)
  {
    TailVerdict(table, cp, n);
    assert table[..|table|] == table;
    assert n < |table| && table != [] && Tail(OneView(table), cp) != [];
    hide Ordered, Chained, TallyFrom, TableHead, RowHashAt, HasText, AnchorHash, Describes;
  }

  /** The whole answer on one snapshot, with no checkpoint or one that fits: on a correct log the whole log,
      flagged incremental when it started from a checkpoint; else, unless the shortcut misfires, the full
      pass's answer. */
  lemma SecurityAnswers(table: seq<Row>, loaded: Option<Checkpoint>)
    requires Ordered(table) && (loaded.Some? ==> Fits(loaded.value, table))
    ensures var r := VerifySecurity(OneView(table), loaded, true).0;
      if table != [] && Chained(table, Genesis)
      then r == Result(true, |table|, 0, |table|, Some(HeadOf(table, Genesis)), None, loaded.Some?)
      else
        (loaded.Some? && HasText(TableHead(table)) && Shortcut(OneView(table), loaded.value) &&
          After(table, loaded.value.lastId) != []) ||
        r == SecurityFullPass(table)
  {
    if loaded.Some? && table != [] {
      var n: nat :| Describes(loaded.value, table, n);
      hide VerifySecurity, SecurityFullPass, Describes, Chained, TableHead, HasText, After, Shortcut;
      if Chained(table, Genesis) {
        CorrectAnswer(table, loaded.value, n);
      } else if !(HasText(TableHead(table)) && Shortcut(OneView(table), loaded.value) &&
                  After(table, loaded.value.lastId) != []) {
        WrongAnswer(table, loaded.value, n);
      }
    } else if loaded.None? {
      SameVerdictAsLedger(table);
      FullPassAccepts(table);
      TallyAccepts(table, Genesis, Untallied(Genesis, 0));
      hide Ordered, Chained, TallyFrom, TableHead, After, RowHashAt, ScanFrom, HeadOf, HasText;
    }
  }

  /** The first verification of a correct log stores the checkpoint at its end. */
  lemma FirstCheckpoint(table: seq<Row>)
    requires table != [] && Chained(table, Genesis)
    ensures VerifySecurity(OneView(table), None, true).1 ==
              Some(Checkpoint(table[|table| - 1].id, HeadOf(table, Genesis), |table|, |table|))
  {
    SameVerdictAsLedger(table);
    FullPassAccepts(table);
    LastHash(table);
    hide Chained, TallyFrom, TableHead, ScanFrom, HeadOf, HasText;
  }

  lemma {:induction false} NoAnchor(table: seq<Row>, id: nat)
    requires forall i | 0 <= i < |table| :: table[i].id != id
    ensures RowHashAt(table, id).None?
    decreases |table|
  {
    if table != [] { NoAnchor(table[1..], id); }
  }

  /** What the two row passes find on prefixes of a correct log. */
  lemma PrefixTallies(log: seq<Row>, n: nat, t: nat)
    requires Ordered(log) && Chained(log, Genesis) && 0 < n <= t <= |log|
    ensures var tally := TallyFrom(log[n..t], log[n - 1].rowHash, Untallied(StoredHash(log[n - 1]), n));
      tally.firstBreak.None? && tally.unsealedCount == 0 && tally.sealedCount == t && tally.head == log[t - 1].rowHash
  {
    ChainedPrefix(log, Genesis, t);
    ChainedSplit(log[..n], log[n..t], Genesis);
    assert log[..t] == log[..n] + log[n..t];
    HeadOfPart(log, n, t);
    SealedInLog(log, n - 1);
    TallyAccepts(log[n..t], StoredHash(log[n - 1]), Untallied(StoredHash(log[n - 1]), n));
    TallyCounts(log[n..t], log[n - 1].rowHash, Untallied(StoredHash(log[n - 1]), n));
    hide Ordered, Chained, TallyFrom;
  }

  lemma FullOfLogPrefix(log: seq<Row>, t: nat)
    requires Ordered(log) && Chained(log, Genesis) && t <= |log|
    ensures FullTally(log[..t]).firstBreak.None? && FullTally(log[..t]).unsealedCount == 0 &&
            FullTally(log[..t]).sealedCount == t
  {
    ChainedPrefix(log, Genesis, t);
    TallyAccepts(log[..t], Genesis, Untallied(Genesis, 0));
    TallyCounts(log[..t], Some(Genesis), Untallied(Genesis, 0));
    hide Ordered, Chained, TallyFrom;
  }

  lemma CheckpointOfPrefix(log: seq<Row>, cp: Checkpoint, t: nat)
    requires Chained(log, Genesis) && 0 < t <= |log|
    requires cp.lastId == log[t - 1].id && Some(cp.head) == log[t - 1].rowHash && cp.sealedCount == t
    ensures Fits(cp, log)
  {
    ChainedPrefix(log, Genesis, t);
    assert Describes(cp, log, t);
  }

  lemma TailOnPrefixes(log: seq<Row>, v: Views, cp: Checkpoint, n: nat)
    requires Ordered(log) && Chained(log, Genesis) && SeesPrefixes(v, log) && Describes(cp, log, n)
    ensures AnchorHash(v, cp).Some? ==> AnchorHash(v, cp) == Some(cp.head)
    ensures |v.tailed| <= n ==> Tail(v, cp) == []
    ensures |v.tailed| > n ==> Tail(v, cp) == log[n..|v.tailed|]
  {
    assert v.anchored == log[..|v.anchored|] && v.tailed == log[..|v.tailed|];
    assert log[n - 1].id > 0;
    if n <= |v.anchored| { AnchorFound(v.anchored, n - 1); } else { NoAnchor(v.anchored, cp.lastId); }
    if n < |v.tailed| {
      AfterIsSuffix(v.tailed, n);
      assert v.tailed[n..] == log[n..|v.tailed|];
    } else {
      AfterNothing(v.tailed, cp.lastId);
    }
    hide Chained, After, RowHashAt;
  }

  lemma TailSaveFits(log: seq<Row>, v: Views, cp: Checkpoint)
    requires Ordered(log) && Chained(log, Genesis) && SeesPrefixes(v, log) && |v.counted| <= |v.tailed| && Fits(cp, log)
    ensures TailClean(v, cp) && Tail(v, cp) != [] ==>
              var saved := Checkpoint(Tail(v, cp)[|Tail(v, cp)| - 1].id, TailTally(v, cp).head.value,
                TailTally(v, cp).sealedCount, |v.counted|);
              Fits(saved, log) && saved.totalEvents <= saved.sealedCount
  {
    var n: nat :| Describes(cp, log, n);
    var t := |v.tailed|;
    SealedInLog(log, n - 1);
    TailOnPrefixes(log, v, cp, n);
    if TailClean(v, cp) && t > n {
      PrefixTallies(log, n, t);
      assert log[n..t][t - n - 1] == log[t - 1];
      hide Ordered, Chained, TallyFrom, TableHead, After, RowHashAt, Fits, Describes;
      CheckpointOfPrefix(log, Checkpoint(Tail(v, cp)[|Tail(v, cp)| - 1].id, TailTally(v, cp).head.value,
        TailTally(v, cp).sealedCount, |v.counted|), t);
    }
  }

  /** On a correct log, with statements that read older snapshots, the rows counted before they are
      fetched: no break is reported, and every checkpoint saved describes a correct prefix, with a total
      that does not mislead the shortcut. */
  lemma SecurityVerifyOfPrefixes(log: seq<Row>, v: Views, loaded: Option<Checkpoint>, incremental: bool)
    requires Ordered(log) && Chained(log, Genesis) && SeesPrefixes(v, log) && |v.counted| <= |v.tailed|
    requires loaded.Some? ==> Fits(loaded.value, log)
    ensures VerifySecurity(v, loaded, incremental).0.valid
    ensures var saved := VerifySecurity(v, loaded, incremental).1;
      saved.Some? ==> Fits(saved.value, log) && saved.value.totalEvents <= saved.value.sealedCount
  {
    var m, t := |v.rescanned|, |v.tailed|;
    assert v.rescanned == log[..m];
    FullOfLogPrefix(log, m);
    if SaveOfFull(v, incremental).Some? { CheckpointOfPrefix(log, SaveOfFull(v, incremental).value, m); }
    hide Ordered, Chained, TallyFrom, TableHead, After, RowHashAt, Fits, Describes, AnchorHash, TailTally, Tail,
         SeesPrefixes;
    if loaded.Some? { TailSaveFits(log, v, loaded.value); }
  }
}
