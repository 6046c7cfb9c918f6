// Safety tombstones: adopting the writes of unknown outcome, and the order in
// which the exact keys are reconciled.
module SafetyTombstones {
  import opened Wrappers
  import opened CraftskyCollections
  import opened DeletionTables

  // The rows the adoption query selects, in journal order.
  function UncertainWrites(journal: seq<Attempt>, owner: Did, generation: int): (rows: seq<Attempt>)
    ensures |rows| <= |journal|
    ensures forall row <- rows :: row in journal && Selected(row, owner, generation)
    ensures forall row <- journal :: Selected(row, owner, generation) ==> row in rows
  {
    if journal == [] then []
    else
      var rest := UncertainWrites(journal[1..], owner, generation);
      assert journal == [journal[0]] + journal[1..];
      if Selected(journal[0], owner, generation) then [journal[0]] + rest else rest
  }

  predicate Selected(row: Attempt, owner: Did, generation: int) {
    row.owner == owner && row.generation == generation && row.write && row.uncertain
  }

  // What an insert of one tombstone does: the key check can refuse the whole
  // statement, and a row with the same identity key makes it a no-op.
  predicate SameIdentity(t: Tombstone, operation: Uuid, key: SafetyKey) {
    t.operation == operation && t.key == key
  }

  predicate Inventoried(tombstones: map<Uuid, Tombstone>, operation: Uuid, uri: RecordUri) {
    exists id :: id in tombstones && SameIdentity(tombstones[id], operation, PdsRecord(uri))
  }

  function NewTombstone(operation: Uuid, row: Attempt, now: Time): Tombstone {
    Tombstone(operation, row.owner, row.generation, PdsRecord(row.key), row.source, SafetyPending(now), 0)
  }

  // A selected row stops adoption when its key is malformed or foreign, or when
  // it is registered but refused by the table's key check.
  predicate Blocks(row: Attempt, owner: Did) {
    !OwnedKey(owner, row.key) || (Registered(row.key.collection) && !SchemaAdmits(row.key.collection))
  }

  predicate Adoptable(row: Attempt, owner: Did) {
    OwnedKey(owner, row.key) && Registered(row.key.collection) && SchemaAdmits(row.key.collection)
  }

  // The table after every row has been offered, one fresh id per row.
  function AdoptRows(
    tombstones: map<Uuid, Tombstone>, operation: Uuid, owner: Did,
    rows: seq<Attempt>, ids: seq<Uuid>, now: Time): Option<map<Uuid, Tombstone>>
    requires |ids| >= |rows|
    decreases |rows|
  {
    if rows == [] then Some(tombstones)
    else
      var last := rows[|rows| - 1];
      match AdoptRows(tombstones, operation, owner, rows[..|rows| - 1], ids, now)
      case None => None
      case Some(sofar) =>
        if Blocks(last, owner) then None
        else if !Adoptable(last, owner) || Inventoried(sofar, operation, last.key) then Some(sofar)
        else Some(sofar[ids[|rows| - 1] := NewTombstone(operation, last, now)])
  }

  predicate FreshIds(used: set<Uuid>, ids: seq<Uuid>) {
    && (forall i :: 0 <= i < |ids| ==> ids[i] !in used)
    && (forall i, j :: 0 <= i < j < |ids| ==> ids[i] != ids[j])
  }

  // Adoption is refused exactly when some selected row blocks it.
  lemma {:induction false} AdoptionRefusedExactlyWhenBlocked(
    tombstones: map<Uuid, Tombstone>, operation: Uuid, owner: Did,
    rows: seq<Attempt>, ids: seq<Uuid>, now: Time)
    requires |ids| >= |rows|
    ensures AdoptRows(tombstones, operation, owner, rows, ids, now).None?
            <==> exists row :: row in rows && Blocks(row, owner)
    decreases |rows|
  {
    if rows != [] {
      var front, last := rows[..|rows| - 1], rows[|rows| - 1];
      assert rows == front + [last];
      AdoptionRefusedExactlyWhenBlocked(tombstones, operation, owner, front, ids, now);
    }
  }

  // Adoption changes no existing row; what it adds sits under fresh ids and is an
  // adoptable row of the journal, pending from now on.
  ghost predicate AddedFrom(
    id: Uuid, t: Tombstone, operation: Uuid, owner: Did, rows: seq<Attempt>, ids: seq<Uuid>, now: Time)
    requires |ids| >= |rows|
  {
    exists i :: 0 <= i < |rows| && id == ids[i] && Adoptable(rows[i], owner)
      && t == NewTombstone(operation, rows[i], now)
  }

  lemma {:induction false} AdoptionOnlyAdds(
    tombstones: map<Uuid, Tombstone>, operation: Uuid, owner: Did,
    rows: seq<Attempt>, ids: seq<Uuid>, now: Time, id: Uuid)
    requires |ids| >= |rows|
    requires FreshIds(tombstones.Keys, ids)
    requires AdoptRows(tombstones, operation, owner, rows, ids, now).Some?
    ensures var after := AdoptRows(tombstones, operation, owner, rows, ids, now).value;
      && (id in tombstones ==> id in after && after[id] == tombstones[id])
      && (id in after && id !in tombstones ==> AddedFrom(id, after[id], operation, owner, rows, ids, now))
    decreases |rows|
  {
    if rows != [] {
      var n := |rows| - 1;
      var front := rows[..n];
      AdoptionOnlyAdds(tombstones, operation, owner, front, ids, now, id);
      var sofar := AdoptRows(tombstones, operation, owner, front, ids, now).value;
      if id in sofar && id !in tombstones {
        var i :| 0 <= i < |front| && id == ids[i] && Adoptable(front[i], owner)
                 && sofar[id] == NewTombstone(operation, front[i], now);
        assert rows[i] == front[i];
      }
    }
  }

  // Every adoptable row ends up inventoried under its exact key.
  lemma {:induction false} AdoptableRowsAreInventoried(
    tombstones: map<Uuid, Tombstone>, operation: Uuid, owner: Did,
    rows: seq<Attempt>, ids: seq<Uuid>, now: Time, row: Attempt)
    requires |ids| >= |rows|
    requires FreshIds(tombstones.Keys, ids)
    requires AdoptRows(tombstones, operation, owner, rows, ids, now).Some?
    requires row in rows && Adoptable(row, owner)
    ensures Inventoried(AdoptRows(tombstones, operation, owner, rows, ids, now).value, operation, row.key)
    decreases |rows|
  {
    var n := |rows| - 1;
    var front, last := rows[..n], rows[n];
    assert rows == front + [last];
    var sofar := AdoptRows(tombstones, operation, owner, front, ids, now).value;
    var after := AdoptRows(tombstones, operation, owner, rows, ids, now).value;
    if row in front {
      AdoptableRowsAreInventoried(tombstones, operation, owner, front, ids, now, row);
      var id :| id in sofar && SameIdentity(sofar[id], operation, PdsRecord(row.key));
      AdoptionOnlyAdds(tombstones, operation, owner, front, ids, now, ids[n]);
      assert SameIdentity(after[id], operation, PdsRecord(row.key));
    } else if !Inventoried(sofar, operation, last.key) {
      assert SameIdentity(after[ids[n]], operation, PdsRecord(last.key));
    }
  }

  // The table's identity key: at most one tombstone per operation and exact key.
  ghost predicate UniqueKeys(tombstones: map<Uuid, Tombstone>) {
    forall a, b :: a in tombstones && b in tombstones
      && SameIdentity(tombstones[a], tombstones[b].operation, tombstones[b].key)
      ==> a == b
  }

  lemma {:induction false} AdoptionKeepsKeysUnique(
    tombstones: map<Uuid, Tombstone>, operation: Uuid, owner: Did,
    rows: seq<Attempt>, ids: seq<Uuid>, now: Time)
    requires |ids| >= |rows|
    requires FreshIds(tombstones.Keys, ids)
    requires UniqueKeys(tombstones)
    requires AdoptRows(tombstones, operation, owner, rows, ids, now).Some?
    ensures UniqueKeys(AdoptRows(tombstones, operation, owner, rows, ids, now).value)
    decreases |rows|
  {
    if rows != [] {
      var n := |rows| - 1;
      var front, last := rows[..n], rows[n];
      AdoptionKeepsKeysUnique(tombstones, operation, owner, front, ids, now);
      var sofar := AdoptRows(tombstones, operation, owner, front, ids, now).value;
      if !Inventoried(sofar, operation, last.key) {
        InsertKeepsKeysUnique(sofar, ids[n], NewTombstone(operation, last, now));
      }
    }
  }

  lemma InsertKeepsKeysUnique(tombstones: map<Uuid, Tombstone>, id: Uuid, t: Tombstone)
    requires UniqueKeys(tombstones)
    requires forall other :: other in tombstones ==> !SameIdentity(tombstones[other], t.operation, t.key)
    ensures UniqueKeys(tombstones[id := t])
  {
  }
}
