/** `SnapshotsUseCases`: the facade over a snapshot repository. */
module SnapshotUseCases {
  import opened Entities
  import opened SnapshotStore

  class SnapshotsUseCases {
    const snapshotRepository: SnapshotRepositoryInMemoryImpl

    constructor (snapshotRepository: SnapshotRepositoryInMemoryImpl)
      ensures this.snapshotRepository == snapshotRepository
    {
      this.snapshotRepository := snapshotRepository;
    }

    method CreateSnapshot(snapshot: Snapshot)
      modifies snapshotRepository
      ensures snapshotRepository.snapshot == Stored(old(snapshotRepository.snapshot), snapshot)
    {
      snapshotRepository.Store(snapshot);
    }

    /** The snapshot under `entity@entityId`, or `None`; no state changes. */
    method GetSnapshot(entity: string, entityId: string) returns (r: Option<Snapshot>)
      ensures r == Find(snapshotRepository.snapshot, entity, entityId)
    {
      r := snapshotRepository.FindByEntity(entity, entityId);
    }
  }

  /** `createSnapshot(s)` then `getSnapshot(s.entity, s.entity_id)` gives `s`,
      and a lookup on an empty repository gives `None`. */
  method CreateThenGet(snapshot: Snapshot) returns (before: Option<Snapshot>, after: Option<Snapshot>)
    ensures before == None
    ensures after == Some(snapshot)
  {
    var repository := new SnapshotRepositoryInMemoryImpl();
    var useCases := new SnapshotsUseCases(repository);
    before := useCases.GetSnapshot(snapshot.entity, snapshot.entity_id);
    useCases.CreateSnapshot(snapshot);
    after := useCases.GetSnapshot(snapshot.entity, snapshot.entity_id);
    StoreThenFind(map[], snapshot);
  }

  /** A second `createSnapshot` under the same composite key replaces the first,
      even when the key comes from a different (entity, id) pair. */
  method CreateTwiceReplaces(first: Snapshot, second: Snapshot) returns (found: Option<Snapshot>)
    requires Key(first.entity, first.entity_id) == Key(second.entity, second.entity_id)
    ensures found == Some(second)
  {
    var repository := new SnapshotRepositoryInMemoryImpl();
    var useCases := new SnapshotsUseCases(repository);
    useCases.CreateSnapshot(first);
    useCases.CreateSnapshot(second);
    found := useCases.GetSnapshot(first.entity, first.entity_id);
    StoreOverwrites(map[], first, second);
  }
}
