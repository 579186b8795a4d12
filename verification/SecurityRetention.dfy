/** What archival does to the second verifier: the runs of `Retention`, verified by `VerifySecurity`. */
module SecurityRetention {
  import opened Options
  import opened HashChain
  import opened Checkpoints
  import opened ChainVerify
  import opened Retention
  import opened SecurityChain

  function SecurityOutcome(store: Store): Result {
    VerifySecurity(OneView(store.table), store.stored, true).0
  }

  function SecurityChecked(store: Store): Store {
    var saves := VerifySecurity(OneView(store.table), store.stored, true).1;
    if saves.Some? then store.(stored := saves) else store
  }

  function SecurityPlay(store: Store, event: Event, deleting: bool): Store {
    if event.Check? then SecurityChecked(store) else Play(store, event, deleting)
  }

  function SecurityPlayAll(start: Store, events: seq<Event>, deleting: bool): Store
    decreases |events|
  {
    if events == [] then start
    else SecurityPlay(SecurityPlayAll(start, events[..|events| - 1], deleting), events[|events| - 1], deleting)
  }

  /** Every archival of the run finds the checkpointed event not older than its warm cutoff. */
  predicate SecuritySafeRun(start: Store, events: seq<Event>)
    decreases |events|
  {
    events == [] ||
    var before := events[..|events| - 1];
    var last := events[|events| - 1];
    SecuritySafeRun(start, before) &&
    (last.Retain? && Archives(SecurityPlayAll(start, before, true), last.policy, last.now) ==>
       AnchorIsWarm(SecurityPlayAll(start, before, true), WarmCutoff(last.policy, last.now)))
  }

  /** The shortcut fires although rows follow the checkpoint. */
  predicate SecurityStale(store: Store) {
    store.stored.Some? && HasText(TableHead(store.table)) && Shortcut(OneView(store.table), store.stored.value) &&
    After(store.table, store.stored.value.lastId) != []
  }

  // ---------- one verification ----------

  /** Both tables show the same anchor, head and rows after the checkpoint. */
  lemma SameSecurityView(trimmed: Store, whole: Store)
    requires Mirrors(trimmed, whole) && whole.stored.Some?
    ensures var cp := whole.stored.value;
      var a, b := OneView(trimmed.table), OneView(whole.table);
      trimmed.stored == Some(cp.(totalEvents := Total(trimmed))) && trimmed.table != [] && whole.table != [] &&
      TableHead(trimmed.table) == TableHead(whole.table) && cp.sealedCount <= |whole.table| &&
      AnchorHash(a, trimmed.stored.value) == AnchorHash(b, cp) == Some(cp.head) &&
      Tail(a, trimmed.stored.value) == Tail(b, cp) == whole.table[cp.sealedCount..] &&
      TailTally(a, trimmed.stored.value) == TailTally(b, cp)
  {
    var cp, a, b := whole.stored.value, trimmed.table, whole.table;
    var n := cp.sealedCount;
    TrimmedParts(a, b, n);
    AnchorFound(a, |a| - (|b| - n) - 1);
    hide Trimmed;
    SameViewFromAnchor(trimmed, whole);
    TailVerdict(b, cp, n);
    assert b[n - 1].id > 0;
    hide Mirrors, Ordered, Chained, TableHead, After, RowHashAt, TallyFrom;
  }

  lemma CorrectNotStale(trimmed: Store, whole: Store)
    requires Mirrors(trimmed, whole) && whole.stored.Some? && Chained(whole.table, Genesis)
    ensures !SecurityStale(trimmed)
  {
    var cp := whole.stored.value;
    MirrorsFacts(trimmed, whole);
    hide Mirrors, Ordered, Chained, TableHead, After, RowHashAt, TallyFrom, HeadOf, HasText, AnchorHash, TailTally,
         Describes;
    SameSecurityView(trimmed, whole);
    TailVerdict(whole.table, cp, cp.sealedCount);
    CorrectHead(whole.table, cp, cp.sealedCount);
  }

  /** The result of a verification that accepts `n` rows up to this head. */
  predicate Accepts(r: Result, n: nat, head: Digest) {
    r == Result(true, n, 0, r.totalEvents, Some(head), r.firstBreak, r.incremental)
  }

  lemma CorrectSecurity(trimmed: Store, whole: Store)
    requires Mirrors(trimmed, whole) && whole.stored.Some? && Chained(whole.table, Genesis)
    ensures Accepts(SecurityOutcome(trimmed), |whole.table|, HeadOf(whole.table, Genesis))
  {
    var cp := whole.stored.value;
    MirrorsFacts(trimmed, whole);
    hide Mirrors, Ordered, Chained, TableHead, After, RowHashAt, TallyFrom, HeadOf, HasText, AnchorHash, TailTally,
         Describes;
    SameSecurityView(trimmed, whole);
    TailVerdict(whole.table, cp, cp.sealedCount);
    CorrectHead(whole.table, cp, cp.sealedCount);
    var v, own := OneView(trimmed.table), trimmed.stored.value;
    assert own.sealedCount == cp.sealedCount && own.head == cp.head;
    if Shortcut(v, own) || Tail(v, own) == [] {
      assert cp.sealedCount == |whole.table|;
      assert SecurityOutcome(trimmed) == Result(true, own.sealedCount, 0, |trimmed.table|, TableHead(whole.table), None,
             true);
    } else {
      assert TailClean(v, own);
      assert SecurityOutcome(trimmed) == Result(true, |whole.table|, 0, |trimmed.table|, TableHead(whole.table), None,
             true);
    }
  }

  /** Verifying a correct log moves the checkpoint to its end, or leaves it there. */
  lemma CorrectSecurityCheck(trimmed: Store, whole: Store)
    requires Mirrors(trimmed, whole) && whole.stored.Some? && Chained(whole.table, Genesis)
    ensures whole.table != []
    ensures var last, cp := whole.table[|whole.table| - 1], SecurityChecked(trimmed).stored;
      cp == Some(Checkpoint(last.id, HeadOf(whole.table, Genesis), |whole.table|, Total(SecurityChecked(trimmed))))
  {
    assert whole.stored.value.lastId == whole.table[whole.stored.value.sealedCount - 1].id;
    var cp := whole.stored.value;
    MirrorsFacts(trimmed, whole);
    hide Mirrors, Ordered, Chained, TableHead, After, RowHashAt, TallyFrom, HeadOf, HasText, AnchorHash, TailTally,
         Describes;
    SameSecurityView(trimmed, whole);
    TailVerdict(whole.table, cp, cp.sealedCount);
    CorrectHead(whole.table, cp, cp.sealedCount);
  }

  lemma WrongSecurity(trimmed: Store, whole: Store)
    requires Mirrors(trimmed, whole) && whole.stored.Some? && !Chained(whole.table, Genesis)
    ensures SecurityOutcome(trimmed).valid <==> SecurityStale(trimmed)
    ensures SecurityStale(trimmed) ==>
              SecurityOutcome(trimmed) ==
                Result(true, whole.stored.value.sealedCount, 0, |trimmed.table|, TableHead(whole.table), None, true)
    ensures SecurityChecked(trimmed) == trimmed
  {
    var cp := whole.stored.value;
    MirrorsFacts(trimmed, whole);
    assert whole.table[..|whole.table|] == whole.table;
    assert cp.sealedCount < |whole.table|;
    if Chained(trimmed.table, Genesis) { TrimmedChain(trimmed.table, whole.table, cp.sealedCount); }
    hide Mirrors, Ordered, Chained, TableHead, After, RowHashAt, TallyFrom, HeadOf, HasText;
    SameSecurityView(trimmed, whole);
    TailVerdict(whole.table, cp, cp.sealedCount);
    SameVerdictAsLedger(trimmed.table);
    hide AnchorHash, TailTally, Describes;
  }

  /** The findings of the two stores agree exactly when the shortcut misfires in both or in neither. On a
      correct log it misfires in neither. */
  lemma SecurityOutcomesAgree(trimmed: Store, whole: Store)
    requires Mirrors(trimmed, whole)
    ensures SameFindings(SecurityOutcome(trimmed), SecurityOutcome(whole)) <==>
            (SecurityStale(trimmed) <==> SecurityStale(whole))
    ensures Chained(whole.table, Genesis) ==> !SecurityStale(trimmed) && !SecurityStale(whole)
  {
    MirrorsSelf(trimmed, whole);
    if whole.stored.Some? {
      hide Mirrors, Chained, SecurityOutcome, SecurityStale, HeadOf;
      if Chained(whole.table, Genesis) {
        CorrectSecurity(trimmed, whole);
        CorrectSecurity(whole, whole);
        CorrectNotStale(trimmed, whole);
        CorrectNotStale(whole, whole);
      } else {
        WrongSecurity(trimmed, whole);
        WrongSecurity(whole, whole);
      }
    }
  }

  // ---------- every step keeps the two stores alike ----------

  lemma FirstSecurityCheck(store: Store)
    requires Ordered(store.table) && store.stored.None?
    ensures Mirrors(SecurityChecked(store), SecurityChecked(store))
  {
    var table := store.table;
    SameVerdictAsLedger(table);
    FullPassAccepts(table);
    if SecurityChecked(store).stored.Some? {
      hide Ordered, Chained, Trimmed, TableHead, TallyFrom, ScanFrom, HeadOf;
      SavedDescribesAll(table, SecurityChecked(store).stored.value);
      TrimmedSelf(table, |table|);
    }
  }

  lemma SecurityCheckMirrors(trimmed: Store, whole: Store)
    requires Mirrors(trimmed, whole)
    ensures Mirrors(SecurityChecked(trimmed), SecurityChecked(whole))
  {
    MirrorsSelf(trimmed, whole);
    if whole.stored.None? {
      FirstSecurityCheck(whole);
    } else if Chained(whole.table, Genesis) {
      CorrectSecurityCheck(trimmed, whole);
      CorrectSecurityCheck(whole, whole);
      TrimsToEnd(trimmed.table, whole.table, whole.stored.value.sealedCount);
      SavedDescribesAll(whole.table, SecurityChecked(whole).stored.value);
      hide Ordered, Chained, Trimmed, VerifySecurity, HeadOf;
    } else {
      WrongSecurity(trimmed, whole);
      WrongSecurity(whole, whole);
    }
  }

  lemma {:induction false} SecurityRunsMirror(start: Store, events: seq<Event>)
    requires Start(start) && SecuritySafeRun(start, events)
    ensures Mirrors(SecurityPlayAll(start, events, true), SecurityPlayAll(start, events, false))
    decreases |events|
  {
    if events == [] {
      assert SafeRun(start, []) && PlayAll(start, [], true) == start == PlayAll(start, [], false);
      RunsMirror(start, []);
    } else {
      var prior := events[..|events| - 1];
      SecurityRunsMirror(start, prior);
      hide Mirrors, Start, Retained, SecurityChecked, Archives, AnchorIsWarm;
      var a, b := SecurityPlayAll(start, prior, true), SecurityPlayAll(start, prior, false);
      match events[|events| - 1]
      case Append(rows) => AppendMirrors(a, b, rows);
      case Check => SecurityCheckMirrors(a, b);
      case Retain(policy, now) => RetainMirrors(a, b, policy, now);
    }
  }

  /** The checkpoint's stored total does not exceed the rows it covers. */
  predicate TotalCovered(store: Store) {
    store.stored.Some? ==> store.stored.value.totalEvents <= store.stored.value.sealedCount
  }

  lemma SecurityCheckCovers(store: Store)
    requires Mirrors(store, store) && TotalCovered(store)
    ensures TotalCovered(SecurityChecked(store))
  {
    if store.stored.Some? {
      var n := store.stored.value.sealedCount;
      SameSecurityView(store, store);
      TallyCounts(Tail(OneView(store.table), store.stored.value), Some(store.stored.value.head),
                  Untallied(store.stored.value.head, n));
    }
    TallyCounts(store.table, Some(Genesis), Untallied(Genesis, 0));
    hide Mirrors, TallyFrom, TableHead, Tail, HasText, OwnHashes;
  }

  lemma {:induction false} WholeRunCovers(start: Store, events: seq<Event>)
    requires Start(start) && SecuritySafeRun(start, events) && TotalCovered(start)
    ensures TotalCovered(SecurityPlayAll(start, events, false))
    decreases |events|
  {
    if events != [] {
      var prior := events[..|events| - 1];
      WholeRunCovers(start, prior);
      SecurityRunsMirror(start, prior);
      MirrorsSelf(SecurityPlayAll(start, prior, true), SecurityPlayAll(start, prior, false));
      hide Mirrors, Start, SecurityChecked, SecuritySafeRun;
      if events[|events| - 1].Check? { SecurityCheckCovers(SecurityPlayAll(start, prior, false)); }
    }
  }

  lemma CoveredNotStale(store: Store)
    requires Mirrors(store, store) && TotalCovered(store)
    ensures !SecurityStale(store)
  {
    if store.stored.Some? {
      SameSecurityView(store, store);
      assert Tail(OneView(store.table), store.stored.value) == store.table[store.stored.value.sealedCount..];
    }
    hide Mirrors, TableHead, HasText;
  }

  // ---------- what archival does to the second verifier ----------

  /** Over any run in which every archival finds the checkpointed event not older than the warm cutoff, the
      second verifier finds what it finds without deletion exactly when its shortcut misfires in both runs
      or in neither. From a start whose stored total is covered it never misfires without deletion; on a
      correct log it never misfires at all. */
  lemma SecurityArchivalKeepsFindings(start: Store, events: seq<Event>)
    requires Start(start) && SecuritySafeRun(start, events)
    ensures var a, b := SecurityPlayAll(start, events, true), SecurityPlayAll(start, events, false);
      (SameFindings(SecurityOutcome(a), SecurityOutcome(b)) <==> (SecurityStale(a) <==> SecurityStale(b))) &&
      (TotalCovered(start) ==>
        !SecurityStale(b) && (SameFindings(SecurityOutcome(a), SecurityOutcome(b)) <==> !SecurityStale(a))) &&
      (SecurityFullPass(b.table).valid ==> SameFindings(SecurityOutcome(a), SecurityOutcome(b)))
  {
    var a, b := SecurityPlayAll(start, events, true), SecurityPlayAll(start, events, false);
    SecurityRunsMirror(start, events);
    SecurityOutcomesAgree(a, b);
    SameVerdictAsLedger(b.table);
    hide Mirrors, SecurityOutcome, SecurityStale, SecurityPlayAll, SecurityFullPass, FullPass, Start, SecuritySafeRun;
    if TotalCovered(start) {
      WholeRunCovers(start, events);
      MirrorsSelf(a, b);
      CoveredNotStale(b);
    }
  }

  lemma SecurityWithoutAnchor(table: seq<Row>, full: seq<Row>, cp: Checkpoint, n: nat)
    requires Ordered(full) && Chained(full, Genesis) && Describes(cp, full, n)
    requires forall row | row in table :: row in full && row != full[n - 1]
    ensures var r := SecurityOutcome(Store(table, Some(cp))); r.valid ==> r.head != Some(HeadOf(full, Genesis))
  {
    WithoutAnchor(table, full, n);
    assert full[n - 1].id > 0;
    NoAnchor(table, cp.lastId);
    if TableHead(table).Some? { HeadIsOfARow(table); }
    assert !Shortcut(OneView(table), cp);
    assert AnchorHash(OneView(table), cp).None?;
    SameVerdictAsLedger(table);
    FullPassAccepts(table);
    hide Chained, TableHead, TallyFrom, ScanFrom, HeadOf, HasId, Ordered, RowHashAt, Shortcut;
  }

  /** An archival leaves its findings on a correct log unchanged if and only if the checkpointed event is
      not older than the warm cutoff. */
  lemma SecurityArchivalSafeExactly(trimmed: Store, whole: Store, policy: Policy, now: int)
    requires Mirrors(trimmed, whole) && Chained(whole.table, Genesis) && Archives(trimmed, policy, now)
    ensures SameFindings(SecurityOutcome(Retained(trimmed, policy, now)), SecurityOutcome(whole)) <==>
              AnchorIsWarm(trimmed, WarmCutoff(policy, now))
  {
    var after, cutoff := Retained(trimmed, policy, now), WarmCutoff(policy, now);
    if AnchorIsWarm(trimmed, cutoff) {
      RetainMirrors(trimmed, whole, policy, now);
      SecurityOutcomesAgree(after, whole);
    } else {
      MirrorsSelf(trimmed, whole);
      CorrectSecurity(whole, whole);
      ColdAnchorGone(trimmed, whole, cutoff);
      SecurityWithoutAnchor(after.table, whole.table, trimmed.stored.value, whole.stored.value.sealedCount);
    }
    hide Mirrors, Chained, SecurityOutcome, SecurityStale, AnchorIsWarm;
  }

  /** Without verifications the runs are those of `Retention`. */
  lemma {:induction false} SamePlay(start: Store, events: seq<Event>)
    requires forall i | 0 <= i < |events| :: !events[i].Check?
    ensures SecuritySafeRun(start, events) == SafeRun(start, events)
    ensures forall deleting :: SecurityPlayAll(start, events, deleting) == PlayAll(start, events, deleting)
    decreases |events|
  {
    if events != [] { SamePlay(start, events[..|events| - 1]); }
    hide Play, Archives, AnchorIsWarm;
  }

  lemma PlaceholderRejected(c: Content)
    ensures var third := Row(3, c, DAY, Some(SecondHash(c)), Some(SecondHash(c)));
      !SecurityOutcome(Store([FirstRow(c), SecondRow(c), third], Some(BothRows(c)))).valid
  {
    var third := Row(3, c, DAY, Some(SecondHash(c)), Some(SecondHash(c)));
    var table := [FirstRow(c), SecondRow(c), third];
    TwoRowsStart(c, [third]);
    assert TwoRows(c).table + [third] == table;
    assert !Linked(table, Genesis, 2);
    hide TallyFrom, Linked, TableHead;
    SecurityIncrementalEqualsFull(table, BothRows(c));
    SameVerdictAsLedger(table);
  }

  lemma PlaceholderAccepted(c: Content)
    ensures var third := Row(3, c, DAY, Some(SecondHash(c)), Some(SecondHash(c)));
      SecurityOutcome(Store([SecondRow(c), third], Some(BothRows(c)))).valid
  {
    var third := Row(3, c, DAY, Some(SecondHash(c)), Some(SecondHash(c)));
    assert TableHead([SecondRow(c), third]) == Some(SecondHash(c));
    hide TallyFrom;
  }

  /** One archived event, and one inserted event left with the placeholder hashes of an insert: the count and
      the newest hash are those the checkpoint stored, and the second verifier accepts what it rejects in
      the same run without deletion. */
  lemma SecurityStaleHappens(c: Content)
    ensures var events := [ARCHIVAL, Append([Row(3, c, DAY, Some(SecondHash(c)), Some(SecondHash(c)))])];
      Start(TwoRows(c)) && SecuritySafeRun(TwoRows(c), events) &&
      SecurityOutcome(SecurityPlayAll(TwoRows(c), events, true)).valid &&
      !SecurityOutcome(SecurityPlayAll(TwoRows(c), events, false)).valid
  {
    var third := Row(3, c, DAY, Some(SecondHash(c)), Some(SecondHash(c)));
    var events := [ARCHIVAL, Append([third])];
    TwoRowsStart(c, []);
    ArchiveThenAppend(c, third);
    SamePlay(TwoRows(c), events);
    hide PlayAll, SecurityPlayAll, SafeRun, SecuritySafeRun, Start, SecurityOutcome;
    PlaceholderRejected(c);
    PlaceholderAccepted(c);
  }
}
