/**
 * The bulk update of stored fixtures: a batch of records overwrites the stored fixtures with
 * the same id, and records whose id is not stored are dropped, never inserted.
 */
module BulkUpdate {
  import opened Wrappers
  import opened Sequences
  import opened Fixtures

  /** The store as a table keyed by fixture id. */
  type Store = map<int, Fixture>

  /** Every stored fixture sits under its own id. */
  predicate KeyedById(store: Store) {
    forall id :: id in store ==> store[id].fixtureId == id
  }

  /** The ids of the batch that the store already holds (the `IN` query on the batch's ids). */
  function StoredIds(batch: seq<Fixture>, stored: set<int>): (ids: set<int>)
    ensures ids <= stored
    ensures forall i :: 0 <= i < |batch| && batch[i].fixtureId in stored ==> batch[i].fixtureId in ids
    ensures forall id :: id in ids ==> exists i :: 0 <= i < |batch| && batch[i].fixtureId == id
  {
    set i | 0 <= i < |batch| && batch[i].fixtureId in stored :: batch[i].fixtureId
  }

  function IdIn(ids: set<int>): Fixture -> bool {
    (f: Fixture) => f.fixtureId in ids
  }

  /** The records to write: those of the batch whose id is already stored, in batch order. */
  function RecordsToUpdate(batch: seq<Fixture>, stored: set<int>): (rows: seq<Fixture>)
    ensures IsSubsequence(rows, batch)
    ensures forall i :: 0 <= i < |rows| ==> rows[i] in batch && rows[i].fixtureId in stored
    ensures forall i :: 0 <= i < |batch| && batch[i].fixtureId in stored ==> batch[i] in rows
    ensures forall f :: multiset(rows)[f] == if f.fixtureId in stored then multiset(batch)[f] else 0
  {
    var ids := StoredIds(batch, stored);
    FilterCounts(IdIn(ids), batch);
    assert forall f :: f in batch && f.fixtureId in stored ==> f.fixtureId in ids;
    Filter(IdIn(ids), batch)
  }

  /** The last record of `rows` with id `id`, if any: the one whose values end up stored. */
  function LastWithId(rows: seq<Fixture>, id: int): (r: Option<Fixture>)
    ensures r.None? <==> forall i :: 0 <= i < |rows| ==> rows[i].fixtureId != id
    ensures r.Some? ==> exists i :: 0 <= i < |rows| && rows[i] == r.value && r.value.fixtureId == id
                                    && forall j :: i < j < |rows| ==> rows[j].fixtureId != id
    decreases |rows|
  {
    if |rows| == 0 then None
    else
      var later := LastWithId(rows[1..], id);
      assert forall i :: 1 <= i < |rows| ==> rows[i] == rows[1..][i - 1];
      if later.Some? then later
      else if rows[0].fixtureId == id then Some(rows[0])
      else None
  }

  /** Writes the records one after the other, each overwriting the row under its id. */
  function WriteAll(store: Store, rows: seq<Fixture>): (r: Store)
    requires forall i :: 0 <= i < |rows| ==> rows[i].fixtureId in store
    ensures r.Keys == store.Keys
    ensures forall id :: id in r ==> r[id] == LastWithId(rows, id).GetOr(store[id])
    decreases |rows|
  {
    if |rows| == 0 then store
    else WriteAll(store[rows[0].fixtureId := rows[0]], rows[1..])
  }

  /** Dropping rows of other ids does not change which record of `id` comes last. */
  lemma {:induction false} LastWithIdAfterFilter(p: Fixture -> bool, rows: seq<Fixture>, id: int)
    requires forall i :: 0 <= i < |rows| && rows[i].fixtureId == id ==> p(rows[i])
    ensures LastWithId(Filter(p, rows), id) == LastWithId(rows, id)
    decreases |rows|
  {
    if |rows| > 0 {
      assert forall i :: 1 <= i < |rows| ==> rows[i] == rows[1..][i - 1];
      LastWithIdAfterFilter(p, rows[1..], id);
      if p(rows[0]) {
        assert (Filter(p, rows))[1..] == Filter(p, rows[1..]);
      }
    }
  }

  /**
   * The bulk update: no id is added or removed, a stored fixture that no record names is left
   * as it was, and one that records name holds the last of them.
   */
  function Update(store: Store, batch: seq<Fixture>): (r: Store)
    ensures r.Keys == store.Keys
    ensures forall id :: id in store && (forall i :: 0 <= i < |batch| ==> batch[i].fixtureId != id) ==>
              r[id] == store[id]
    ensures forall id :: id in store && LastWithId(batch, id).Some? ==> r[id] == LastWithId(batch, id).value
    ensures KeyedById(store) ==> KeyedById(r)
  {
    var rows := RecordsToUpdate(batch, store.Keys);
    var r := WriteAll(store, rows);
    assert forall id :: id in store ==> LastWithId(rows, id) == LastWithId(batch, id) by {
      forall id | id in store
        ensures LastWithId(rows, id) == LastWithId(batch, id)
      {
        LastWithIdAfterFilter(IdIn(StoredIds(batch, store.Keys)), batch, id);
      }
    }
    r
  }
}
