/** Sealed event rows, what it means for a table of them to be one hash chain, and the scan that
    checks it. The digest is ideal: it is the sealed row itself, so equal digests mean equal rows. */
module HashChain {
  import opened Options

  /** A metadata object; an amount stands for its decimal text. */
  datatype Value = Word(text: string) | Amount(quanta: int)

  type Metadata = map<string, Value>

  datatype Content =
    | LedgerContent(key: string, user: string, kind: string, delta: int, metadata: Metadata)
    | SecurityContent(
        operation: string,
        crystal: Option<string>,
        account: string,
        kind: string,
        delta: int,
        metadata: Metadata)

  /** A stored digest column: the genesis constant, the hash of a row, or any other text. */
  datatype Digest =
    | Genesis
    | Seal(id: nat, content: Content, recordedAt: int, prev: Digest)
    | Other(text: string)

  datatype Row = Row(id: nat, content: Content, recordedAt: int, prevHash: Option<Digest>, rowHash: Option<Digest>)

  function Expected(row: Row, prev: Digest): Digest {
    Seal(row.id, row.content, row.recordedAt, prev)
  }

  /** A NULL or an empty text counts as no hash. */
  predicate HasText(stored: Option<Digest>) {
    stored.Some? && stored.value != Other("")
  }

  /** A missing previous hash reads as genesis. */
  function PrevOf(row: Row): Digest {
    if HasText(row.prevHash) then row.prevHash.value else Genesis
  }

  function StoredHash(row: Row): Digest {
    if row.rowHash.Some? then row.rowHash.value else Genesis
  }

  /** Tables are read in the order of their event ids, which start above zero. */
  predicate Ordered(rows: seq<Row>) {
    (forall i | 0 <= i < |rows| :: rows[i].id > 0) &&
    (forall i, j | 0 <= i < j < |rows| :: rows[i].id < rows[j].id)
  }

  /** The hash the row at `i` has to continue. */
  function HashBefore(rows: seq<Row>, start: Digest, i: nat): Digest
    requires i <= |rows|
  {
    if i == 0 then start else StoredHash(rows[i - 1])
  }

  predicate Linked(rows: seq<Row>, start: Digest, i: nat)
    requires i < |rows|
  {
    PrevOf(rows[i]) == HashBefore(rows, start, i) &&
      rows[i].rowHash == Some(Expected(rows[i], HashBefore(rows, start, i)))
  }

  /** Every row is sealed, continues the row before it, and carries its own correct hash. */
  predicate Chained(rows: seq<Row>, start: Digest) {
    forall i | 0 <= i < |rows| :: Linked(rows, start, i)
  }

  function HeadOf(rows: seq<Row>, start: Digest): Digest {
    HashBefore(rows, start, |rows|)
  }

  lemma ChainedSplit(rows: seq<Row>, more: seq<Row>, start: Digest)
    ensures Chained(rows + more, start) <==> Chained(rows, start) && Chained(more, HeadOf(rows, start))
    ensures HeadOf(rows + more, start) == HeadOf(more, HeadOf(rows, start))
  {
    var all := rows + more;
    assert forall i | 0 <= i < |rows| :: Linked(all, start, i) <==> Linked(rows, start, i);
    forall i | 0 <= i < |more|
      ensures Linked(all, start, |rows| + i) <==> Linked(more, HeadOf(rows, start), i)
    {
      assert all[|rows| + i] == more[i];
    }
    if Chained(all, start) {
      forall i | 0 <= i < |more| ensures Linked(more, HeadOf(rows, start), i) { assert Linked(all, start, |rows| + i); }
      forall i | 0 <= i < |rows| ensures Linked(rows, start, i) { assert Linked(all, start, i); }
    }
    if Chained(rows, start) && Chained(more, HeadOf(rows, start)) {
      forall i | 0 <= i < |all|
        ensures Linked(all, start, i)
      {
        if i >= |rows| { assert Linked(more, HeadOf(rows, start), i - |rows|); }
      }
    }
  }

  // ---------- the scan ----------

  datatype Reason = PrevMismatch | HashMismatch

  datatype Break = Break(id: nat, reason: Reason)

  datatype Scan = Scan(valid: bool, sealedCount: nat, unsealedCount: nat, head: Option<Digest>,
      firstBreak: Option<Break>, lastId: nat)

  function BreakAt(row: Row, last: Option<Digest>): Option<Break> {
    if last != Some(PrevOf(row)) then Some(Break(row.id, PrevMismatch))
    else if row.rowHash != Some(Expected(row, PrevOf(row))) then Some(Break(row.id, HashMismatch))
    else None
  }

  /** Unsealed rows are counted and passed over; the first sealed row that does not fit stops the scan. */
  function ScanFrom(rows: seq<Row>, last: Option<Digest>, sealedCount: nat, unsealedCount: nat, head: Option<Digest>,
      lastId: nat): Scan
    decreases |rows|
  {
    if rows == [] then Scan(unsealedCount == 0, sealedCount, unsealedCount, head, None, lastId)
    else if rows[0].rowHash.None? then ScanFrom(rows[1..], last, sealedCount, unsealedCount + 1, head, rows[0].id)
    else if BreakAt(rows[0], last).Some? then Scan(false, sealedCount, unsealedCount, head, BreakAt(rows[0], last),
      rows[0].id)
    else ScanFrom(rows[1..], rows[0].rowHash, sealedCount + 1, unsealedCount, rows[0].rowHash, rows[0].id)
  }

  function SealedOnly(rows: seq<Row>): seq<Row>
    decreases |rows|
  {
    if rows == [] then []
    else (if rows[0].rowHash.Some? then [rows[0]] else []) + SealedOnly(rows[1..])
  }

  function UnsealedIn(rows: seq<Row>): nat
    decreases |rows|
  {
    if rows == [] then 0 else (if rows[0].rowHash.None? then 1 else 0) + UnsealedIn(rows[1..])
  }

  lemma {:induction false} UnsealedCounts(rows: seq<Row>)
    ensures |SealedOnly(rows)| + UnsealedIn(rows) == |rows|
    decreases |rows|
  {
    if rows != [] { UnsealedCounts(rows[1..]); }
  }

  lemma {:induction false} SealedOnlyAll(rows: seq<Row>)
    ensures |SealedOnly(rows)| <= |rows|
    ensures |SealedOnly(rows)| == |rows| <==> forall i | 0 <= i < |rows| :: rows[i].rowHash.Some?
    ensures |SealedOnly(rows)| == |rows| ==> SealedOnly(rows) == rows
    decreases |rows|
  {
    if rows != [] { SealedOnlyAll(rows[1..]); }
  }

  lemma ChainedCons(row: Row, rest: seq<Row>, start: Digest)
    requires row.rowHash.Some?
    ensures Chained([row] + rest, start) <==> BreakAt(row, Some(start)).None? && Chained(rest, row.rowHash.value)
  {
    ChainedSplit([row], rest, start);
    assert Chained([row], start) <==> Linked([row], start, 0);
  }

  /** The scan reports no break exactly when the sealed rows form a chain, and then counts right. */
  predicate Accounts(scan: Scan, rows: seq<Row>, start: Digest, sealedCount: nat, unsealedCount: nat,
      head: Option<Digest>, lastId: nat) {
    (scan.firstBreak.None? <==> Chained(SealedOnly(rows), start)) &&
    (scan.valid <==> scan.firstBreak.None? && scan.unsealedCount == 0) &&
    (scan.firstBreak.None? ==>
      scan.sealedCount == sealedCount + |SealedOnly(rows)| &&
      scan.unsealedCount == unsealedCount + |rows| - |SealedOnly(rows)| &&
      scan.head == (if SealedOnly(rows) == [] then head else Some(HeadOf(SealedOnly(rows), start))) &&
      scan.lastId == (if rows == [] then lastId else rows[|rows| - 1].id))
  }

  lemma AccountsUnsealed(scan: Scan, rows: seq<Row>, start: Digest, sealedCount: nat, unsealedCount: nat,
      head: Option<Digest>, lastId: nat)
    requires rows != [] && rows[0].rowHash.None?
    requires Accounts(scan, rows[1..], start, sealedCount, unsealedCount + 1, head, rows[0].id)
    ensures Accounts(scan, rows, start, sealedCount, unsealedCount, head, lastId)
  {
    assert SealedOnly(rows) == SealedOnly(rows[1..]);
    hide Chained, HeadOf;
  }

  lemma AccountsSealed(scan: Scan, rows: seq<Row>, start: Digest, sealedCount: nat, unsealedCount: nat,
      head: Option<Digest>, lastId: nat)
    requires rows != [] && rows[0].rowHash.Some? && BreakAt(rows[0], Some(start)).None?
    requires Accounts(scan, rows[1..], rows[0].rowHash.value, sealedCount + 1, unsealedCount, rows[0].rowHash,
             rows[0].id)
    ensures Accounts(scan, rows, start, sealedCount, unsealedCount, head, lastId)
  {
    var rest := SealedOnly(rows[1..]);
    ChainedCons(rows[0], rest, start);
    ChainedSplit([rows[0]], rest, start);
    assert HeadOf([rows[0]], start) == rows[0].rowHash.value;
    assert rest == [] ==> HeadOf(rest, rows[0].rowHash.value) == rows[0].rowHash.value;
    hide BreakAt, Chained, HeadOf;
  }

  lemma {:induction false} ScanMeans(rows: seq<Row>, start: Digest, sealedCount: nat, unsealedCount: nat,
      head: Option<Digest>, lastId: nat)
    ensures Accounts(ScanFrom(rows, Some(start), sealedCount, unsealedCount, head, lastId), rows, start, sealedCount,
            unsealedCount, head, lastId)
    decreases |rows|
  {
    var scan := ScanFrom(rows, Some(start), sealedCount, unsealedCount, head, lastId);
    if rows == [] {
    } else if rows[0].rowHash.None? {
      ScanMeans(rows[1..], start, sealedCount, unsealedCount + 1, head, rows[0].id);
      AccountsUnsealed(scan, rows, start, sealedCount, unsealedCount, head, lastId);
    } else if BreakAt(rows[0], Some(start)).None? {
      ScanMeans(rows[1..], rows[0].rowHash.value, sealedCount + 1, unsealedCount, rows[0].rowHash, rows[0].id);
      AccountsSealed(scan, rows, start, sealedCount, unsealedCount, head, lastId);
    } else {
      ChainedCons(rows[0], SealedOnly(rows[1..]), start);
    }
  }

  /** A chain has no unsealed rows to pass over. */
  lemma ChainIsSealed(rows: seq<Row>, start: Digest)
    requires Chained(rows, start)
    ensures SealedOnly(rows) == rows
  {
    SealedOnlyAll(rows);
    forall i | 0 <= i < |rows| ensures rows[i].rowHash.Some? { assert Linked(rows, start, i); }
  }

  /** With nothing unsealed before, the scan accepts exactly the chains. */
  lemma ScanAccepts(rows: seq<Row>, start: Digest, sealedCount: nat, head: Option<Digest>, lastId: nat)
    ensures var scan := ScanFrom(rows, Some(start), sealedCount, 0, head, lastId);
      (scan.valid <==> Chained(rows, start)) &&
      (scan.valid ==>
        scan.sealedCount == sealedCount + |rows| && scan.unsealedCount == 0 &&
        scan.head == (if rows == [] then head else Some(HeadOf(rows, start))) &&
        scan.lastId == (if rows == [] then lastId else rows[|rows| - 1].id))
  {
    ScanMeans(rows, start, sealedCount, 0, head, lastId);
    SealedOnlyAll(rows);
    if Chained(rows, start) {
      forall i | 0 <= i < |rows| ensures rows[i].rowHash.Some? { assert Linked(rows, start, i); }
    }
    hide ScanFrom, SealedOnly, Linked;
  }

  // ---------- where the scan stops ----------

  /** The sealed rows before row `i` form a chain, and with row `i` they no longer do. */
  predicate BreaksAt(rows: seq<Row>, start: Digest, i: nat) {
    i < |rows| && Chained(SealedOnly(rows[..i]), start) && !Chained(SealedOnly(rows[..i + 1]), start)
  }

  lemma {:induction false} SealedOnlySplit(rows: seq<Row>, more: seq<Row>)
    ensures SealedOnly(rows + more) == SealedOnly(rows) + SealedOnly(more)
    decreases |rows|
  {
    if rows == [] {
      assert rows + more == more;
    } else {
      assert (rows + more)[1..] == rows[1..] + more && (rows + more)[0] == rows[0];
      SealedOnlySplit(rows[1..], more);
    }
  }

  /** A table that is no chain breaks somewhere. */
  lemma {:induction false} BreakExists(rows: seq<Row>, start: Digest, n: nat) returns (i: nat)
    requires n <= |rows| && !Chained(SealedOnly(rows[..n]), start)
    ensures BreaksAt(rows, start, i) && i < n
    decreases n
  {
    assert n > 0 by { assert SealedOnly(rows[..0]) == []; }
    if Chained(SealedOnly(rows[..n - 1]), start) {
      i := n - 1;
    } else {
      i := BreakExists(rows, start, n - 1);
    }
  }

  /** And nowhere else: before that row the sealed rows chain, from it on they never do. */
  lemma BreakIsFirst(rows: seq<Row>, start: Digest, i: nat, n: nat)
    requires BreaksAt(rows, start, i) && n <= |rows|
    ensures Chained(SealedOnly(rows[..n]), start) <==> n <= i
  {
    if n <= i {
      SealedOnlySplit(rows[..n], rows[n..i]);
      assert rows[..n] + rows[n..i] == rows[..i];
      ChainedSplit(SealedOnly(rows[..n]), SealedOnly(rows[n..i]), start);
    } else {
      SealedOnlySplit(rows[..i + 1], rows[i + 1..n]);
      assert rows[..i + 1] + rows[i + 1..n] == rows[..n];
      ChainedSplit(SealedOnly(rows[..i + 1]), SealedOnly(rows[i + 1..n]), start);
    }
    hide Chained, SealedOnly, HeadOf;
  }

  /** The break names the row that does not continue the chain before it: by its previous hash when that is
      not the chain's head, else by its own. */
  function BreakOf(row: Row, head: Digest): Break {
    Break(row.id, if PrevOf(row) != head then PrevMismatch else HashMismatch)
  }

  /** The whole result of a scan that breaks: the first break, and the counts and head up to it. */
  predicate BrokenBy(scan: Scan, rows: seq<Row>, start: Digest, i: nat, sealedCount: nat, unsealedCount: nat,
      head: Option<Digest>)
    requires i < |rows|
  {
    var before := SealedOnly(rows[..i]);
    !scan.valid && scan.firstBreak == Some(BreakOf(rows[i], HeadOf(before, start))) && scan.lastId == rows[i].id &&
    scan.sealedCount == sealedCount + |before| && scan.unsealedCount == unsealedCount + i - |before| &&
    scan.head == if before == [] then head else Some(HeadOf(before, start))
  }

  lemma FirstRowBreaks(rows: seq<Row>, start: Digest, sealedCount: nat, unsealedCount: nat, head: Option<Digest>,
      lastId: nat)
    requires BreaksAt(rows, start, 0)
    ensures BrokenBy(ScanFrom(rows, Some(start), sealedCount, unsealedCount, head, lastId), rows, start, 0,
                     sealedCount, unsealedCount, head)
  {
    var row := rows[0];
    assert rows[..1] == [row] && [row][1..] == [] && SealedOnly([row][1..]) == [];
    assert Chained([], start);
    assert row.rowHash.Some? && SealedOnly([row]) == [row];
    ChainedCons(row, [], start);
    assert [row] + [] == [row] && rows[..0] == [];
  }

  lemma BreakMovesOn(rows: seq<Row>, start: Digest, i: nat)
    requires BreaksAt(rows, start, i) && i > 0
    ensures var row, rest := rows[0], rows[1..];
      SealedOnly(rows[..i]) == (if row.rowHash.Some? then [row] else []) + SealedOnly(rest[..i - 1]) &&
      (row.rowHash.None? ==> BreaksAt(rest, start, i - 1)) &&
      (row.rowHash.Some? ==> BreakAt(row, Some(start)).None? && BreaksAt(rest, row.rowHash.value, i - 1))
  {
    var row, rest := rows[0], rows[1..];
    assert rows[..i] == [row] + rest[..i - 1] && rows[..i + 1] == [row] + rest[..i];
    assert rows[..i][1..] == rest[..i - 1] && rows[..i + 1][1..] == rest[..i];
    if row.rowHash.Some? {
      ChainedCons(row, SealedOnly(rest[..i - 1]), start);
      ChainedCons(row, SealedOnly(rest[..i]), start);
    } else {
      assert SealedOnly(rows[..i]) == SealedOnly(rest[..i - 1]) && SealedOnly(rows[..i + 1]) == SealedOnly(rest[..i]);
    }
    hide Chained, BreakAt;
  }

  /** Where the scan of a table that is no chain stops, and what it reports. */
  lemma {:induction false} BreakLocated(rows: seq<Row>, start: Digest, i: nat, sealedCount: nat, unsealedCount: nat,
      head: Option<Digest>, lastId: nat)
    requires BreaksAt(rows, start, i)
    ensures BrokenBy(ScanFrom(rows, Some(start), sealedCount, unsealedCount, head, lastId), rows, start, i,
                     sealedCount, unsealedCount, head)
    decreases i
  {
    if i == 0 {
      FirstRowBreaks(rows, start, sealedCount, unsealedCount, head, lastId);
    } else {
      var row, rest := rows[0], rows[1..];
      BreakMovesOn(rows, start, i);
      hide Chained, BreakAt, BreakOf, SealedOnly;
      assert rest[i - 1] == rows[i];
      var before := SealedOnly(rest[..i - 1]);
      if row.rowHash.None? {
        assert [] + before == before;
        BreakLocated(rest, start, i - 1, sealedCount, unsealedCount + 1, head, row.id);
      } else {
        BreakLocated(rest, row.rowHash.value, i - 1, sealedCount + 1, unsealedCount, row.rowHash, row.id);
        HeadAfterFirst(row, before, start);
      }
    }
  }

  lemma HeadAfterFirst(row: Row, rest: seq<Row>, start: Digest)
    requires row.rowHash.Some?
    ensures HeadOf([row] + rest, start) == HeadOf(rest, row.rowHash.value)
  {
  }

  // ---------- the loop ----------

  /** The verifier's loop over the rows after its anchor. */
  method ScanRows(rows: seq<Row>, anchor: Option<Digest>, priorSealed: nat, fromId: nat) returns (scan: Scan)
    ensures scan == ScanFrom(rows, anchor, priorSealed, 0, if anchor == Some(Genesis) then None else anchor, fromId)
  {
    var last, sealedCount, unsealedCount, lastId := anchor, priorSealed, 0, fromId;
    var head := if anchor == Some(Genesis) then None else anchor;
    ghost var whole := ScanFrom(rows, last, sealedCount, unsealedCount, head, lastId);
    var i := 0;
    while i < |rows|
      invariant 0 <= i <= |rows|
      invariant whole == ScanFrom(rows[i..], last, sealedCount, unsealedCount, head, lastId)
    {
      var row := rows[i];
      assert rows[i..][0] == row && rows[i..][1..] == rows[i + 1..];
      lastId := row.id;
      if row.rowHash.None? {
        unsealedCount := unsealedCount + 1;
      } else {
        if last != Some(PrevOf(row)) {
          return Scan(false, sealedCount, unsealedCount, head, Some(Break(lastId, PrevMismatch)), lastId);
        }
        if row.rowHash != Some(Expected(row, PrevOf(row))) {
          return Scan(false, sealedCount, unsealedCount, head, Some(Break(lastId, HashMismatch)), lastId);
        }
        sealedCount := sealedCount + 1;
        last := row.rowHash;
        head := row.rowHash;
      }
      i := i + 1;
    }
    scan := Scan(unsealedCount == 0, sealedCount, unsealedCount, head, None, lastId);
  }

  // ---------- an anchored head fixes the whole history ----------

  /** Equal in everything the hash covers; only an empty or genesis previous hash may be spelled differently. */
  predicate SameRow(a: Row, b: Row) {
    a.id == b.id && a.content == b.content && a.recordedAt == b.recordedAt && a.rowHash == b.rowHash &&
      PrevOf(a) == PrevOf(b)
  }

  lemma ChainedPrefix(rows: seq<Row>, start: Digest, n: nat)
    requires n <= |rows| && Chained(rows, start)
    ensures Chained(rows[..n], start) && HeadOf(rows[..n], start) == HashBefore(rows, start, n)
  {
    ChainedSplit(rows[..n], rows[n..], start);
    assert rows[..n] + rows[n..] == rows;
  }

  /** Two chains from genesis with the same head hash, of whatever lengths, are equal row for row. */
  lemma {:induction false} HeadFixesHistory(a: seq<Row>, b: seq<Row>)
    requires Chained(a, Genesis) && Chained(b, Genesis) && HeadOf(a, Genesis) == HeadOf(b, Genesis)
    ensures |a| == |b| && forall i | 0 <= i < |a| :: SameRow(a[i], b[i])
    decreases |a|
  {
    if a != [] { assert Linked(a, Genesis, |a| - 1); }
    if b != [] { assert Linked(b, Genesis, |b| - 1); }
    if a != [] && b != [] {
      var m, n := |a| - 1, |b| - 1;
      ChainedPrefix(a, Genesis, m);
      ChainedPrefix(b, Genesis, n);
      HeadFixesHistory(a[..m], b[..n]);
      forall i | 0 <= i < |a|
        ensures SameRow(a[i], b[i])
      {
        if i < m { assert SameRow(a[..m][i], b[..n][i]); }
      }
    }
  }

  /** In a chain from genesis no two rows carry the same hash. */
  lemma HashesDistinct(rows: seq<Row>, i: nat, j: nat)
    requires Chained(rows, Genesis) && i <= |rows| && j <= |rows| &&
             HashBefore(rows, Genesis, i) == HashBefore(rows, Genesis, j)
    ensures i == j
  {
    ChainedPrefix(rows, Genesis, i);
    ChainedPrefix(rows, Genesis, j);
    HeadFixesHistory(rows[..i], rows[..j]);
  }
}
