/** The keyed snapshot table: `SnapshotRepositoryInMemoryImpl`, a map from the
    composite string key `${entity}@${entity_id}` to the snapshot stored under it. */
module SnapshotStore {
  import opened Entities
  import Collections

  /** The composite key built by plain string concatenation. */
  function Key(entity: string, entityId: string): string
  {
    entity + "@" + entityId
  }

  /** For one entity kind the key determines the entity id. */
  lemma KeyInjective(entity: string, id1: string, id2: string)
    requires Key(entity, id1) == Key(entity, id2)
    ensures id1 == id2
  {
    var n := |entity| + 1;
    assert Key(entity, id1)[n..] == id1;
    assert Key(entity, id2)[n..] == id2;
  }

  /** A key is always longer than the entity id it was built from, so a bare
      entity id is never the key of that entity's own snapshot. */
  lemma KeyIsNotBareId(entity: string, entityId: string)
    ensures Key(entity, entityId) != entityId
  {
  }

  /** Across entity kinds the key is not injective: the separator may occur in
      either part, so two different pairs can share one slot. */
  lemma KeyCollides()
    ensures ("a@b", "c") != ("a", "b@c") && Key("a@b", "c") == Key("a", "b@c")
  {
  }

  /** The table after `store(s)`: an upsert under the key of `s`. */
  function Stored(m: map<string, Snapshot>, s: Snapshot): map<string, Snapshot>
  {
    m[Key(s.entity, s.entity_id) := s]
  }

  /** The table after `delete(id)`, with `id` a raw key. */
  function Deleted(m: map<string, Snapshot>, id: string): map<string, Snapshot>
  {
    m - {id}
  }

  /** `findByEntity(entity, entityId)`: the snapshot under the composite key,
      `None` (the source's `null`) exactly when there is none. */
  function Find(m: map<string, Snapshot>, entity: string, entityId: string): (r: Option<Snapshot>)
    ensures r.None? <==> Key(entity, entityId) !in m
    ensures r.Some? ==> r.value == m[Key(entity, entityId)]
  {
    Get(m, Key(entity, entityId))
  }

  /** `store(s)` followed by `findByEntity(s.entity, s.entity_id)` gives `s`. */
  lemma StoreThenFind(m: map<string, Snapshot>, s: Snapshot)
    ensures Find(Stored(m, s), s.entity, s.entity_id) == Some(s)
  {
  }

  /** `store` changes only the slot of its own key. */
  lemma StoreFrame(m: map<string, Snapshot>, s: Snapshot, k: string)
    requires k != Key(s.entity, s.entity_id)
    ensures Get(Stored(m, s), k) == Get(m, k)
  {
  }

  /** A second `store` under the same key replaces the first: the table holds at
      most one snapshot per key, the latest one. */
  lemma StoreOverwrites(m: map<string, Snapshot>, s: Snapshot, t: Snapshot)
    requires Key(s.entity, s.entity_id) == Key(t.entity, t.entity_id)
    ensures Stored(Stored(m, s), t) == Stored(m, t)
    ensures Find(Stored(Stored(m, s), t), s.entity, s.entity_id) == Some(t)
  {
  }

  /** Pairs whose concatenated keys coincide share one slot: what is stored for
      one is found for the other. */
  lemma SharedSlot(m: map<string, Snapshot>, s: Snapshot, entity: string, entityId: string)
    requires Key(s.entity, s.entity_id) == Key(entity, entityId)
    ensures Find(Stored(m, s), entity, entityId) == Some(s)
  {
  }

  /** `delete(id)` removes exactly the raw key `id`; deleting an absent key
      leaves the table as it was. */
  lemma DeleteFrame(m: map<string, Snapshot>, id: string)
    ensures id !in Deleted(m, id)
    ensures forall k :: k != id ==> Get(Deleted(m, id), k) == Get(m, k)
    ensures id !in m ==> Deleted(m, id) == m
  {
  }

  class SnapshotRepositoryInMemoryImpl {
    var snapshot: map<string, Snapshot>

    constructor ()
      ensures snapshot == map[]
    {
      snapshot := map[];
    }

    /** Every stored snapshot, one per key; the table is not changed. */
    method List() returns (r: seq<Snapshot>, ghost keys: seq<string>)
      ensures Collections.HoldsValuesOf(snapshot, r)
      ensures Collections.ListsValues(snapshot, r, keys)
    {
      r, keys := Collections.ValuesList(snapshot);
    }

    method Store(state: Snapshot)
      modifies this
      ensures snapshot == Stored(old(snapshot), state)
    {
      snapshot := snapshot[Key(state.entity, state.entity_id) := state];
    }

    method Delete(previousStateId: string)
      modifies this
      ensures snapshot == Deleted(old(snapshot), previousStateId)
    {
      snapshot := snapshot - {previousStateId};
    }

    /** The snapshot under `entity@entityId`, or `None`; the table is not changed. */
    method FindByEntity(entity: string, entityId: string) returns (r: Option<Snapshot>)
      ensures r == Find(snapshot, entity, entityId)
    {
      var key := Key(entity, entityId);
      if key in snapshot {
        r := Some(snapshot[key]);
      } else {
        r := None;
      }
    }
  }
}
