# Rollback strategy study case: a Dafny model of the in-memory undo system

The repository keeps users in memory and gives each one a single level of undo.
Two stores make this up:

- `SnapshotRepositoryInMemoryImpl` is a table of snapshots. Each snapshot is filed under the key `entity + "@" + entity_id`.
- `UsersRepositoryInMemory` keeps users by email and owns its own snapshot table.
  - `update` files the user's previous value as a snapshot, then overwrites the user.
  - `rollback` looks that snapshot up and writes the saved user back.
- `UsersUseCases` and `SnapshotsUseCases` are thin facades over the two stores. The module exports one `UsersUseCases` instance over a fresh repository.

Each source class is a Dafny class with the same fields, except that the private field `_ENTITY` (always `"user"`) is the module constant `UserStore.UserEntity`, because the transition functions outside the class need it too:

- the `Map`s become `map` fields;
- the owned snapshot repository becomes a `const` field;
- the methods carry `modifies` clauses.

Each state-changing method is tied to a pure transition function on the abstract state, `RepoState(users, snapshots)`:

- `AfterStore`, `AfterUpdate` and `RollbackStep` for the user store;
- `Stored`, `Deleted` and `Find` for the snapshot table.

Lemmas about these functions state the properties: the round trip, one level of history, what a repeated rollback does, and the frames. Client methods run the create → update → rollback scenario through the real classes.

Modules, one per source file plus two shared ones:

- `Entities`: `User`, `Snapshot`, `Option`, `Completion` and `Get` (`Map.get`).
- `Collections`: `Array.from(map.values())`.
- `SnapshotStore`: `src/repositories/SnapshotRepositoryInMemory.ts`.
- `UserStore`: `src/repositories/UsersRepositoryInMemory.ts`.
- `UserUseCases`: `src/use-case/users/index.ts`.
- `SnapshotUseCases`: `src/use-case/snapshots.ts/index.ts`.

How the code's vocabulary is modelled:

- `JSON.stringify(user)` and `JSON.parse` are an exact round trip. The serialised value is held as `Some(user)`.
- `JSON.stringify(undefined)` is `undefined`, held as `None`.
- `JSON.parse(undefined)` throws a SyntaxError before anything is written. `Rollback` then returns `Completion.SyntaxError` and leaves both maps unchanged.
- A User has the fields `email` and `name`, taken from where users are built (`src/routes.ts:23`).

## Where the code differs from a single-use undo

A single-use, one-level undo would snapshot only existing users, restore through `update`, and consume the snapshot it restores. The code does otherwise in several places, and the model follows the code:

- **Update always writes a snapshot.** A single-use undo would write no snapshot for the first write of a user. The code writes one whose data is `undefined`. A later rollback of it fails with a SyntaxError (`UserStore.RollbackOfFreshUpdateFails`).
- **Rollback writes the map directly.** A rollback could restore by calling `update` again. The code writes the users map itself and creates no new snapshot.
- **Rollback does not use up its snapshot.** A single-use undo would delete the snapshot it restores, so a second rollback would find nothing. The code deletes the raw key `entity_id`, which is the bare email. The snapshot is filed under `"user@" + email`, which is never that key, so it survives. A second rollback finds the same snapshot and writes the same user again. It ends in the same state as the first (`UserStore.RollbackKeepsConsumedSnapshot`, `UserStore.RollbackTwiceSameAsOnce`).
- **That delete can remove another user's snapshot.** The email `user@x.com` is exactly the key of the snapshot of the user `x.com` (`UserStore.RollbackDeletesOtherSnapshot`).
- **Keys can collide.** They are plain concatenation, so `("a@b", "c")` and `("a", "b@c")` share one slot (`SnapshotStore.KeyCollides`, `SnapshotStore.SharedSlot`). For one fixed entity kind the key is injective (`SnapshotStore.KeyInjective`).
- **The map stays consistent.** The `users` map always files each user under their own email, and every snapshot under its composite key. `UserStore.Inv` states this; every operation keeps it, and the methods require it as their object invariant (`Valid()`).

## Model

| member | source | states |
|---|---|---|
| `Entities.Get` | src/repositories/UsersRepositoryInMemory.ts:19 | `map.get`: `None` exactly when the key is absent, otherwise the stored value |
| `Collections.ValuesList` | src/repositories/SnapshotRepositoryInMemory.ts:8-10 | `Array.from(map.values())`: one value per key, every key once, each position holds the value of a distinct key |
| `Collections.ListsValuesHolds` | src/repositories/UsersRepositoryInMemory.ts:15 | an exact listing (one position per key) has as many values as keys, each stored, every stored value present |
| `SnapshotStore.KeyInjective` | src/repositories/SnapshotRepositoryInMemory.ts:13 | for a fixed entity kind, equal composite keys imply equal entity ids |
| `SnapshotStore.KeyIsNotBareId` | src/repositories/SnapshotRepositoryInMemory.ts:13 | a composite key never equals the bare entity id it was built from |
| `SnapshotStore.KeyCollides` | src/repositories/SnapshotRepositoryInMemory.ts:13 | two distinct (entity, id) pairs can build the same key |
| `SnapshotStore.Find` | src/repositories/SnapshotRepositoryInMemory.ts:20-22 | the lookup gives null exactly when no snapshot is held under `entity@entityId`, else that snapshot |
| `SnapshotStore.StoreThenFind` | src/repositories/SnapshotRepositoryInMemory.ts:12-22 | `store(s)` then `findByEntity(s.entity, s.entity_id)` returns `s` |
| `SnapshotStore.StoreFrame` | src/repositories/SnapshotRepositoryInMemory.ts:12-14 | `store` leaves every other key's slot as it was |
| `SnapshotStore.StoreOverwrites` | src/repositories/SnapshotRepositoryInMemory.ts:12-14 | a second store under the same key replaces the first; one snapshot per key |
| `SnapshotStore.SharedSlot` | src/repositories/SnapshotRepositoryInMemory.ts:12-22 | pairs with equal concatenated keys share a slot: a store for one is found by the other |
| `SnapshotStore.DeleteFrame` | src/repositories/SnapshotRepositoryInMemory.ts:16-18 | `delete(id)` removes exactly `id`, keeps every other entry, and is a no-op on an absent key |
| `SnapshotStore.SnapshotRepositoryInMemoryImpl.constructor` | src/repositories/SnapshotRepositoryInMemory.ts:6 | the table starts empty |
| `SnapshotStore.SnapshotRepositoryInMemoryImpl.List` | src/repositories/SnapshotRepositoryInMemory.ts:8-10 | returns the stored snapshots, one per key, and changes nothing |
| `SnapshotStore.SnapshotRepositoryInMemoryImpl.Store` | src/repositories/SnapshotRepositoryInMemory.ts:12-14 | the table becomes the old table upserted at `entity@entity_id` |
| `SnapshotStore.SnapshotRepositoryInMemoryImpl.Delete` | src/repositories/SnapshotRepositoryInMemory.ts:16-18 | the table becomes the old table without the raw key |
| `SnapshotStore.SnapshotRepositoryInMemoryImpl.FindByEntity` | src/repositories/SnapshotRepositoryInMemory.ts:20-22 | returns the snapshot under the composite key or `None`, changing nothing |
| `UserStore.InvInitial` | src/repositories/UsersRepositoryInMemory.ts:9-10 | the empty store satisfies the invariant |
| `UserStore.StorePreservesInv` | src/repositories/UsersRepositoryInMemory.ts:32-37 | `store` keeps every user under its own email |
| `UserStore.UpdatePreservesInv` | src/repositories/UsersRepositoryInMemory.ts:18-30 | `update` keeps the invariant, including the snapshot it writes |
| `UserStore.FoundSnapshotIsOfEmail` | src/repositories/UsersRepositoryInMemory.ts:40 | in a valid state the snapshot found for `email` has entity id `email`, and its saved user has that email |
| `UserStore.RollbackPreservesInv` | src/repositories/UsersRepositoryInMemory.ts:39-46 | rollback never files a user under another email: identity is never changed |
| `UserStore.StoreEffect` | src/repositories/UsersRepositoryInMemory.ts:32-37 | inserts only when the email is absent, changes no other email, never touches the snapshots |
| `UserStore.StoreTwiceKeepsFirst` | src/repositories/UsersRepositoryInMemory.ts:32-37 | a second store with the same email leaves the first value in place |
| `UserStore.UpdateEffect` | src/repositories/UsersRepositoryInMemory.ts:18-30 | afterwards `users[u.email] == u` and every other email is unchanged |
| `UserStore.UpdateSnapshotsPrevious` | src/repositories/UsersRepositoryInMemory.ts:19-27 | a snapshot `user@email` with the pre-update value (`None` if absent) is written either way; no other slot changes |
| `UserStore.UpdateThenRollbackRestores` | src/repositories/UsersRepositoryInMemory.ts:18-46 | if the email held `E`, update then rollback completes normally and restores the whole users map, so `E` is back |
| `UserStore.RollbackOfFreshUpdateFails` | src/repositories/UsersRepositoryInMemory.ts:19-43 | after updating an absent email, rollback throws a SyntaxError and changes nothing |
| `UserStore.SingleDepthHistory` | src/repositories/UsersRepositoryInMemory.ts:23-43 | `update(E1)`, `update(E2)`, rollback gives back `E1`; the second snapshot overwrote the first |
| `UserStore.RollbackWithoutSnapshot` | src/repositories/UsersRepositoryInMemory.ts:39-41 | with no snapshot under `user@email`, rollback completes and changes neither map |
| `UserStore.RollbackKeepsConsumedSnapshot` | src/repositories/UsersRepositoryInMemory.ts:43-44 | the used snapshot survives; a successful rollback removes only the bare-email key |
| `UserStore.RollbackTwiceSameAsOnce` | src/repositories/UsersRepositoryInMemory.ts:39-46 | a second rollback finds the same snapshot and yields the same completion and state as the first |
| `UserStore.RollbackDeletesOtherSnapshot` | src/repositories/UsersRepositoryInMemory.ts:44 | rolling back `user@x.com` deletes the snapshot of the user `x.com` |
| `UserStore.UsersRepositoryInMemory.constructor` | src/repositories/UsersRepositoryInMemory.ts:9-10 | no users and a fresh, empty snapshot repository |
| `UserStore.UsersRepositoryInMemory.List` | src/repositories/UsersRepositoryInMemory.ts:13-16 | returns the users, one per email, and changes nothing |
| `UserStore.UsersRepositoryInMemory.Update` | src/repositories/UsersRepositoryInMemory.ts:18-30 | both maps become `AfterUpdate` of the old state; the invariant is kept |
| `UserStore.UsersRepositoryInMemory.Store` | src/repositories/UsersRepositoryInMemory.ts:32-37 | the state becomes `AfterStore` of the old state; only `this` is in the frame, not the snapshot repository |
| `UserStore.UsersRepositoryInMemory.Rollback` | src/repositories/UsersRepositoryInMemory.ts:39-46 | completion and state are `RollbackStep` of the old state: no-op, SyntaxError, or a direct write plus a bare-email delete |
| `UserUseCases.UsersUseCases.constructor` | src/use-case/users/index.ts:6 | the facade holds the given repository |
| `UserUseCases.UsersUseCases.CreateUser` | src/use-case/users/index.ts:8-10 | the state is the repository's `store` effect; the snapshot table is outside the frame |
| `UserUseCases.UsersUseCases.UpdateUser` | src/use-case/users/index.ts:12-14 | exactly the repository's `update` effect on both maps |
| `UserUseCases.UsersUseCases.ListUsers` | src/use-case/users/index.ts:16-18 | the current users, one per email; no state change |
| `UserUseCases.UsersUseCases.RollbackUser` | src/use-case/users/index.ts:20-22 | exactly the repository's rollback, its SyntaxError passed to the caller |
| `UserUseCases.DefaultInstance` | src/use-case/users/index.ts:25 | the exported instance starts with no users and no snapshots |
| `UserUseCases.RollbackAfterCreateOnly` | src/use-case/users/index.ts:20-22 | rolling back an email that was only created, never updated, completes and changes nothing |
| `UserUseCases.CreateTwiceKeepsFirst` | src/use-case/users/index.ts:8-10 | two creates with one email on the exported instance list only the first |
| `UserUseCases.CreateUpdateRollbackRun` | src/use-case/users/index.ts:8-22 | create, update, rollback, rollback list `[E]`, `[E']`, `[E]`, `[E]`, and both rollbacks complete normally |
| `UserUseCases.RollbackToSaved` | src/use-case/users/index.ts:20-22 | one user with a saved version: rollback puts the saved version back and keeps the snapshot |
| `UserUseCases.AnnScenario` | src/use-case/users/index.ts:8-22 | create Ann, update to Anna, rollback, rollback: the lists are Ann, Anna, Ann, Ann |
| `SnapshotUseCases.SnapshotsUseCases.constructor` | src/use-case/snapshots.ts/index.ts:5 | the facade holds the given repository |
| `SnapshotUseCases.SnapshotsUseCases.CreateSnapshot` | src/use-case/snapshots.ts/index.ts:7-9 | the repository's table is upserted with the snapshot |
| `SnapshotUseCases.SnapshotsUseCases.GetSnapshot` | src/use-case/snapshots.ts/index.ts:11-13 | the snapshot under the composite key or `None`; no state change |
| `SnapshotUseCases.CreateThenGet` | src/use-case/snapshots.ts/index.ts:7-13 | on a fresh repository, get returns `None` before and `s` after `createSnapshot(s)` |
| `SnapshotUseCases.CreateTwiceReplaces` | src/use-case/snapshots.ts/index.ts:7-9 | a second create with the same key replaces the first |

## Left out

- Express routing, HTTP status codes and the 400 input checks in `src/routes.ts`: these are transport. So is the server bootstrap in `src/index.ts`.
- The pino logging calls are side effects that do not touch any state.
- `JSON.stringify` and `JSON.parse` are not modelled as text. A serialised user is the user itself (`Some(user)`). Snapshot data that is arbitrary or malformed JSON text cannot be expressed, so a parse error other than the one on `undefined` is not modelled.
- Map iteration is in insertion order in the code. The lists return the values in some order, one per key, and say nothing more about order.
- `findByEmail` is declared in `src/repositories/UsersRepository.ts` but never implemented, so no behaviour is given to it.
- The interface files `SnapshotRepository.ts` and `UsersRepository.ts` hold only signatures. `UsersUseCases` holds the concrete `UsersRepositoryInMemory`, because `rollback`, which it calls, is declared only on that class. `SnapshotsUseCases` is typed against the `SnapshotRepository` interface, but holds `SnapshotRepositoryInMemoryImpl` here, because that class is the only implementation in the repository.
- Object identity is not modelled. In the code, `Map.set` keeps the caller's own object, and `list` and `findByEntity` hand back the stored objects themselves, so later changes through one reference are seen through the other. Users and snapshots are values here. Nothing in the core depends on this, because a snapshot's data passes through `JSON.stringify` and `JSON.parse`, which copies it.
- The entity types in `src/entities/` are not part of this model. Of a `User`, only `email` and `name` are kept. Extra fields in a request body are not modelled.
- `store` tests `!users.get(email)`, which is modelled as "the email is absent". A stored user is always an object, so it is never falsy.
- Everything runs on one thread, synchronously, so no concurrency is modelled.
