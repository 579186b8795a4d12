/** The verifier's checkpoint table: one writer that upserts by key, and two readers that look it up
    differently, by newest row and by key. */
module Checkpoints {
  import opened Options
  import opened HashChain

  datatype Checkpoint = Checkpoint(lastId: nat, head: Digest, sealedCount: nat, totalEvents: nat)

  datatype StoredCheckpoint = StoredCheckpoint(checkpointId: nat, singletonKey: int, checkpoint: Checkpoint)

  /** The value every row has in its key column. */
  const SINGLETON := 1

  /** The row a verifier loads: the one with the largest id. */
  function Newest(rows: seq<StoredCheckpoint>): (newest: Option<StoredCheckpoint>)
    ensures newest.Some? ==>
              newest.value in rows && forall row | row in rows :: row.checkpointId <= newest.value.checkpointId
    ensures newest.None? ==> rows == []
    decreases |rows|
  {
    if rows == [] then None
    else
      var rest := Newest(rows[1..]);
      if rest.Some? && rest.value.checkpointId > rows[0].checkpointId then rest else Some(rows[0])
  }

  /** The row retention reads, and the row an insert of the key conflicts with. */
  function Keyed(rows: seq<StoredCheckpoint>, key: int): (found: Option<nat>)
    ensures found.Some? ==> found.value < |rows| && rows[found.value].singletonKey == key
    ensures found.None? ==> forall row | row in rows :: row.singletonKey != key
    decreases |rows|
  {
    if rows == [] then None
    else if rows[0].singletonKey == key then Some(0)
    else
      var rest := Keyed(rows[1..], key);
      if rest.Some? then Some(rest.value + 1) else None
  }

  /** The schema: distinct ids already drawn, a unique key column, and a check that pins its value. */
  predicate Schema(rows: seq<StoredCheckpoint>, nextId: nat) {
    (forall i | 0 <= i < |rows| :: rows[i].checkpointId < nextId && rows[i].singletonKey == SINGLETON) &&
    (forall i, j | 0 <= i < j < |rows| ::
      rows[i].singletonKey != rows[j].singletonKey && rows[i].checkpointId != rows[j].checkpointId)
  }

  function CheckpointOf(row: Option<StoredCheckpoint>): Option<Checkpoint> {
    if row.Some? then Some(row.value.checkpoint) else None
  }

  /** Under the schema both readers find the same row, or both none. */
  lemma ReadersAgree(rows: seq<StoredCheckpoint>, nextId: nat)
    requires Schema(rows, nextId)
    ensures |rows| <= 1 && (Keyed(rows, SINGLETON).None? <==> rows == [])
    ensures Newest(rows) == if Keyed(rows, SINGLETON).Some? then Some(rows[Keyed(rows, SINGLETON).value]) else None
  {
    if rows != [] {
      assert rows[0].singletonKey == rows[|rows| - 1].singletonKey;
      assert rows[0] in rows && Newest(rows).Some?;
      assert Newest(rows).value == rows[0];
    }
  }

  class CheckpointTable {
    var rows: seq<StoredCheckpoint>
    var nextId: nat

    ghost predicate Valid()
      reads this
    {
      Schema(rows, nextId)
    }

    function Loaded(): Option<Checkpoint>
      reads this
    {
      CheckpointOf(Newest(rows))
    }

    constructor ()
      ensures Valid() && Loaded() == None
    {
      rows, nextId := [], 1;
    }

    /** Insert, or update the row whose key is already there; the id is drawn either way. Whatever was
        stored, both readers then find the saved checkpoint, in the row that held the one before it. */
    method SaveCheckpoint(cp: Checkpoint)
      requires Valid()
      modifies this
      ensures Valid() && Loaded() == Some(cp)
      ensures Keyed(rows, SINGLETON).Some? && rows[Keyed(rows, SINGLETON).value].checkpoint == cp
      ensures old(rows) != [] ==> rows == [old(rows)[0].(checkpoint := cp)]
      ensures old(rows) == [] ==> |rows| == 1 && rows[0].checkpointId == old(nextId)
    {
      ReadersAgree(rows, nextId);
      var conflict := Keyed(rows, SINGLETON);
      if conflict.Some? {
        rows := rows[conflict.value := rows[conflict.value].(checkpoint := cp)];
      } else {
        rows := rows + [StoredCheckpoint(nextId, SINGLETON, cp)];
      }
      nextId := nextId + 1;
      ReadersAgree(rows, nextId);
    }

    /** Retention's lookup, by key: the event id of the checkpoint a verifier would load. */
    method LoadCheckpointEventId() returns (id: Option<nat>)
      requires Valid()
      ensures id == if Loaded().Some? then Some(Loaded().value.lastId) else None
    {
      ReadersAgree(rows, nextId);
      var found := Keyed(rows, SINGLETON);
      id := if found.Some? then Some(rows[found.value].checkpoint.lastId) else None;
    }
  }
}
