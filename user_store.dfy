/** The user store: `UsersRepositoryInMemory`, a map from email to user that
    owns a private snapshot table and keeps one prior version per email in it. */
module UserStore {
  import opened Entities
  import opened SnapshotStore
  import Collections

  /** The entity kind the user store writes into its snapshots (`_ENTITY`). */
  const UserEntity: string := "user"

  /** Both maps the user store is responsible for: its users and the table of
      its snapshot repository. */
  datatype RepoState = RepoState(users: map<string, User>, snapshots: map<string, Snapshot>)

  /** A snapshot of a user, as `update` writes it, sitting under key `k`. */
  predicate WellKeyed(k: string, s: Snapshot)
  {
    && s.entity == UserEntity
    && k == Key(UserEntity, s.entity_id)
    && (s.data.Some? ==> s.data.value.email == s.entity_id)
  }

  /** The invariant of every reachable state: each user is filed under its own
      email, and each snapshot is a user snapshot filed under its composite key
      whose saved user carries the snapshot's entity id. */
  predicate Inv(st: RepoState)
  {
    && (forall e :: e in st.users ==> st.users[e].email == e)
    && (forall k :: k in st.snapshots ==> WellKeyed(k, st.snapshots[k]))
  }

  /** `store(user)`: insert only when no user is held under `user.email`. */
  function AfterStore(st: RepoState, user: User): RepoState
  {
    if user.email in st.users then st else st.(users := st.users[user.email := user])
  }

  /** `update(user)`: save the previous value under `user@<email>` (`None` when
      there was none; the snapshot is written either way), then overwrite. */
  function AfterUpdate(st: RepoState, user: User): RepoState
  {
    var previous := Snapshot(UserEntity, user.email, Get(st.users, user.email));
    RepoState(st.users[user.email := user], Stored(st.snapshots, previous))
  }

  /** `rollback(email)`: with no snapshot, nothing happens; with an `undefined`
      payload, `JSON.parse` throws before anything is written; otherwise the saved
      user is written straight into the map and the raw key `entity_id` (the bare
      email, not the composite key) is deleted from the snapshot table. */
  function RollbackStep(st: RepoState, email: string): (Completion, RepoState)
  {
    match Find(st.snapshots, UserEntity, email)
    case None => (Normal, st)
    case Some(previous) =>
      match previous.data
      case None => (SyntaxError, st)
      case Some(saved) => (Normal, RepoState(st.users[email := saved], Deleted(st.snapshots, previous.entity_id)))
  }

  // ---------------------------------------------------------------------------
  // The invariant holds initially and every operation keeps it, so no path
  // files a user under an email other than its own.

  lemma InvInitial()
    ensures Inv(RepoState(map[], map[]))
  {
  }

  lemma StorePreservesInv(st: RepoState, user: User)
    requires Inv(st)
    ensures Inv(AfterStore(st, user))
  {
  }

  lemma UpdatePreservesInv(st: RepoState, user: User)
    requires Inv(st)
    ensures Inv(AfterUpdate(st, user))
  {
  }

  /** The snapshot found for `email` in a valid state was taken of `email`. */
  lemma FoundSnapshotIsOfEmail(st: RepoState, email: string)
    requires Inv(st) && Key(UserEntity, email) in st.snapshots
    ensures st.snapshots[Key(UserEntity, email)].entity_id == email
    ensures var d := st.snapshots[Key(UserEntity, email)].data; d.Some? ==> d.value.email == email
  {
    KeyInjective(UserEntity, st.snapshots[Key(UserEntity, email)].entity_id, email);
  }

  lemma RollbackPreservesInv(st: RepoState, email: string)
    requires Inv(st)
    ensures Inv(RollbackStep(st, email).1)
  {
    if Key(UserEntity, email) in st.snapshots {
      FoundSnapshotIsOfEmail(st, email);
    }
  }

  // ---------------------------------------------------------------------------
  // store

  /** `store` inserts only when the email is free, changes no other email and
      never touches the snapshot table. */
  lemma StoreEffect(st: RepoState, user: User)
    ensures user.email !in st.users ==> AfterStore(st, user).users[user.email] == user
    ensures user.email in st.users ==> AfterStore(st, user) == st
    ensures forall e :: e != user.email ==> Get(AfterStore(st, user).users, e) == Get(st.users, e)
    ensures AfterStore(st, user).snapshots == st.snapshots
  {
  }

  /** A second `store` with the same email leaves the first value in place. */
  lemma StoreTwiceKeepsFirst(st: RepoState, first: User, second: User)
    requires first.email == second.email
    ensures AfterStore(AfterStore(st, first), second) == AfterStore(st, first)
  {
  }

  // ---------------------------------------------------------------------------
  // update

  /** After `update(user)` the email holds `user` and no other email changed. */
  lemma UpdateEffect(st: RepoState, user: User)
    ensures AfterUpdate(st, user).users[user.email] == user
    ensures forall e :: e != user.email ==> Get(AfterUpdate(st, user).users, e) == Get(st.users, e)
  {
  }

  /** `update(user)` always leaves a snapshot for `user.email` holding the value
      before the update (absent when the email was free), and no other slot of
      the snapshot table changes. */
  lemma UpdateSnapshotsPrevious(st: RepoState, user: User)
    ensures Find(AfterUpdate(st, user).snapshots, UserEntity, user.email)
            == Some(Snapshot(UserEntity, user.email, Get(st.users, user.email)))
    ensures forall k :: k != Key(UserEntity, user.email) ==> Get(AfterUpdate(st, user).snapshots, k) == Get(st.snapshots, k)
  {
  }

  // ---------------------------------------------------------------------------
  // rollback

  /** If `k` held `E` and `update` set it to `E'`, a following `rollback(k)`
      succeeds and restores exactly `E`; indeed the whole users map is back. */
  lemma UpdateThenRollbackRestores(st: RepoState, next: User)
    requires next.email in st.users
    ensures RollbackStep(AfterUpdate(st, next), next.email).0 == Normal
    ensures RollbackStep(AfterUpdate(st, next), next.email).1.users == st.users
  {
  }

  /** An update of a free email leaves an `undefined` snapshot behind, and the
      rollback that reads it fails with a SyntaxError and changes nothing. */
  lemma RollbackOfFreshUpdateFails(st: RepoState, user: User)
    requires user.email !in st.users
    ensures RollbackStep(AfterUpdate(st, user), user.email) == (SyntaxError, AfterUpdate(st, user))
  {
  }

  /** History is one level deep: `update(E1)`, `update(E2)`, `rollback` gives
      `E1`, because the second snapshot overwrites the first. */
  lemma SingleDepthHistory(st: RepoState, first: User, second: User)
    requires first.email == second.email
    ensures RollbackStep(AfterUpdate(AfterUpdate(st, first), second), first.email).0 == Normal
    ensures RollbackStep(AfterUpdate(AfterUpdate(st, first), second), first.email).1.users
            == AfterUpdate(st, first).users
    ensures RollbackStep(AfterUpdate(AfterUpdate(st, first), second), first.email).1.users[first.email] == first
  {
  }

  /** `rollback(k)` with no snapshot under `user@k` changes neither map. */
  lemma RollbackWithoutSnapshot(st: RepoState, email: string)
    requires Key(UserEntity, email) !in st.snapshots
    ensures RollbackStep(st, email) == (Normal, st)
  {
  }

  /** The delete uses the bare email, which is never the composite key, so the
      consumed snapshot survives the rollback that used it. */
  lemma RollbackKeepsConsumedSnapshot(st: RepoState, email: string)
    requires Inv(st)
    requires Key(UserEntity, email) in st.snapshots
    ensures var after := RollbackStep(st, email).1;
            Key(UserEntity, email) in after.snapshots
            && after.snapshots[Key(UserEntity, email)] == st.snapshots[Key(UserEntity, email)]
    ensures RollbackStep(st, email).0 == Normal ==> RollbackStep(st, email).1.snapshots == Deleted(st.snapshots, email)
  {
    FoundSnapshotIsOfEmail(st, email);
    KeyIsNotBareId(UserEntity, email);
  }

  /** A second rollback right after the first is not the no-op of a consumed
      snapshot: it finds the same snapshot again, and ends in the same state with
      the same completion as the first. */
  lemma RollbackTwiceSameAsOnce(st: RepoState, email: string)
    requires Inv(st)
    ensures var (c1, s1) := RollbackStep(st, email);
            RollbackStep(s1, email) == (c1, s1)
    ensures Key(UserEntity, email) in st.snapshots ==>
            Find(RollbackStep(st, email).1.snapshots, UserEntity, email) == Find(st.snapshots, UserEntity, email)
  {
    if Key(UserEntity, email) in st.snapshots {
      RollbackKeepsConsumedSnapshot(st, email);
      var s1 := RollbackStep(st, email).1;
      if st.snapshots[Key(UserEntity, email)].data.Some? {
        FoundSnapshotIsOfEmail(st, email);
        var saved := st.snapshots[Key(UserEntity, email)].data.value;
        assert s1.users[email := saved] == s1.users;
        assert Deleted(s1.snapshots, email) == s1.snapshots;
      }
    }
  }

  /** Deleting by bare email can hit another user's snapshot: the email
      `user@x.com` is the composite key of the snapshot of user `x.com`. */
  lemma RollbackDeletesOtherSnapshot()
    ensures var other := Snapshot(UserEntity, "x.com", Some(User("x.com", "Xi")));
            var own := Snapshot(UserEntity, "user@x.com", Some(User("user@x.com", "Una")));
            var st := RepoState(map["x.com" := User("x.com", "Xo"), "user@x.com" := User("user@x.com", "Uno")],
                                map["user@x.com" := other, "user@user@x.com" := own]);
            && Inv(st)
            && RollbackStep(st, "user@x.com").1.snapshots == map["user@user@x.com" := own]
  {
    var other := Snapshot(UserEntity, "x.com", Some(User("x.com", "Xi")));
    var own := Snapshot(UserEntity, "user@x.com", Some(User("user@x.com", "Una")));
    var snaps := map["user@x.com" := other, "user@user@x.com" := own];
    assert Key(UserEntity, "user@x.com") == "user@user@x.com";
    assert Key(UserEntity, "x.com") == "user@x.com";
    assert Deleted(snaps, "user@x.com") == map["user@user@x.com" := own];
  }

  class UsersRepositoryInMemory {
    var users: map<string, User>
    const snapshotRepository: SnapshotRepositoryInMemoryImpl

    ghost function State(): RepoState
      reads this, snapshotRepository
    {
      RepoState(users, snapshotRepository.snapshot)
    }

    ghost predicate Valid()
      reads this, snapshotRepository
    {
      Inv(State())
    }

    /** A new store: no users, and a fresh, empty snapshot repository of its own. */
    constructor ()
      ensures Valid() && fresh(snapshotRepository)
      ensures State() == RepoState(map[], map[])
    {
      users := map[];
      snapshotRepository := new SnapshotRepositoryInMemoryImpl();
    }

    /** Every user, one per email; nothing is changed. */
    method List() returns (r: seq<User>, ghost emails: seq<string>)
      ensures Collections.HoldsValuesOf(users, r)
      ensures Collections.ListsValues(users, r, emails)
    {
      r, emails := Collections.ValuesList(users);
    }

    method Update(user: User)
      requires Valid()
      modifies this, snapshotRepository
      ensures Valid()
      ensures State() == AfterUpdate(old(State()), user)
    {
      var previousState := Get(users, user.email);
      snapshotRepository.Store(Snapshot(UserEntity, user.email, previousState));
      users := users[user.email := user];
      UpdatePreservesInv(old(State()), user);
    }

    method Store(user: User)
      requires Valid()
      modifies this
      ensures Valid()
      ensures State() == AfterStore(old(State()), user)
    {
      if user.email !in users {
        users := users[user.email := user];
      }
      StorePreservesInv(old(State()), user);
    }

    method Rollback(email: string) returns (c: Completion)
      requires Valid()
      modifies this, snapshotRepository
      ensures Valid()
      ensures (c, State()) == RollbackStep(old(State()), email)
    {
      RollbackPreservesInv(State(), email);
      var previousState := snapshotRepository.FindByEntity(UserEntity, email);
      c := Normal;
      if previousState.Some? {
        if previousState.value.data.None? {
          c := SyntaxError;
        } else {
          users := users[email := previousState.value.data.value];
          snapshotRepository.Delete(previousState.value.entity_id);
        }
      }
    }
  }
}
