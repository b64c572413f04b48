/** `UsersUseCases`: the facade through which the transport layer creates,
    updates, lists and rolls back users, and the instance the module exports. */
module UserUseCases {
  import opened Entities
  import opened SnapshotStore
  import opened UserStore
  import Collections

  class UsersUseCases {
    const usersRepository: UsersRepositoryInMemory

    ghost function State(): RepoState
      reads usersRepository, usersRepository.snapshotRepository
    {
      usersRepository.State()
    }

    ghost predicate Valid()
      reads usersRepository, usersRepository.snapshotRepository
    {
      usersRepository.Valid()
    }

    constructor (usersRepository: UsersRepositoryInMemory)
      ensures this.usersRepository == usersRepository
    {
      this.usersRepository := usersRepository;
    }

    /** Idempotent create; the snapshot table is outside its frame. */
    method CreateUser(user: User)
      requires Valid()
      modifies usersRepository
      ensures Valid()
      ensures State() == AfterStore(old(State()), user)
    {
      usersRepository.Store(user);
    }

    /** Exactly the repository's `update` on both maps. */
    method UpdateUser(user: User)
      requires Valid()
      modifies usersRepository, usersRepository.snapshotRepository
      ensures Valid()
      ensures State() == AfterUpdate(old(State()), user)
    {
      usersRepository.Update(user);
    }

    /** The current users, one per email; no state changes. */
    method ListUsers() returns (r: seq<User>, ghost emails: seq<string>)
      ensures Collections.HoldsValuesOf(State().users, r)
      ensures Collections.ListsValues(State().users, r, emails)
    {
      r, emails := usersRepository.List();
    }

    /** The repository's `rollback`; a SyntaxError from `JSON.parse` reaches the
        caller as the completion. */
    method RollbackUser(email: string) returns (c: Completion)
      requires Valid()
      modifies usersRepository, usersRepository.snapshotRepository
      ensures Valid()
      ensures (c, State()) == RollbackStep(old(State()), email)
    {
      c := usersRepository.Rollback(email);
    }
  }

  /** The exported instance: a facade over a fresh repository, with no users
      and no snapshots. */
  method DefaultInstance() returns (useCases: UsersUseCases)
    ensures fresh(useCases) && fresh(useCases.usersRepository) && fresh(useCases.usersRepository.snapshotRepository)
    ensures useCases.Valid() && useCases.State() == RepoState(map[], map[])
  {
    var repository := new UsersRepositoryInMemory();
    useCases := new UsersUseCases(repository);
  }

  /** `rollbackUser` for an email that was only created, never updated, does not
      fail and changes nothing. */
  lemma RollbackAfterCreateOnly(st: RepoState, user: User)
    requires Key(UserEntity, user.email) !in st.snapshots
    ensures RollbackStep(AfterStore(st, user), user.email) == (Normal, AfterStore(st, user))
  {
    StoreEffect(st, user);
    RollbackWithoutSnapshot(AfterStore(st, user), user.email);
  }

  /** `createUser` twice with the same email on the exported instance: the list
      shows the first value only. */
  method CreateTwiceKeepsFirst(first: User, second: User) returns (listed: seq<User>)
    requires first.email == second.email
    ensures listed == [first]
  {
    var useCases := DefaultInstance();
    useCases.CreateUser(first);
    useCases.CreateUser(second);
    ghost var emails;
    listed, emails := useCases.ListUsers();
    SingletonList(useCases.State().users, first.email, listed, emails);
  }

  /** Create `original`, update it to `edited` (same email), roll back, roll
      back again, on the exported instance, listing the users after each step. */
  method CreateUpdateRollbackRun(original: User, edited: User)
    returns (afterCreate: seq<User>, afterUpdate: seq<User>, afterRollback: seq<User>, afterSecondRollback: seq<User>,
             firstRollback: Completion, secondRollback: Completion)
    requires original.email == edited.email
    ensures afterCreate == [original]
    ensures afterUpdate == [edited]
    ensures afterRollback == [original] && firstRollback == Normal
    ensures afterSecondRollback == [original] && secondRollback == Normal
  {
    var email := original.email;
    var saved := map[Key(UserEntity, email) := Snapshot(UserEntity, email, Some(original))];
    var useCases := DefaultInstance();
    ghost var emails;

    useCases.CreateUser(original);
    assert useCases.State() == RepoState(map[email := original], map[]);
    afterCreate, emails := useCases.ListUsers();
    SingletonList(useCases.State().users, email, afterCreate, emails);

    useCases.UpdateUser(edited);
    assert useCases.State() == RepoState(map[email := edited], saved);
    afterUpdate, emails := useCases.ListUsers();
    SingletonList(useCases.State().users, email, afterUpdate, emails);

    RollbackToSaved(original, edited);
    firstRollback := useCases.RollbackUser(email);
    assert useCases.State() == RepoState(map[email := original], saved);
    afterRollback, emails := useCases.ListUsers();
    SingletonList(useCases.State().users, email, afterRollback, emails);

    RollbackToSaved(original, original);
    secondRollback := useCases.RollbackUser(email);
    assert useCases.State() == RepoState(map[email := original], saved);
    afterSecondRollback, emails := useCases.ListUsers();
    SingletonList(useCases.State().users, email, afterSecondRollback, emails);
  }

  /** The concrete scenario: Ann, renamed to Anna, rolled back to Ann, and a
      second rollback that leaves Ann in place. */
  method AnnScenario()
    returns (afterCreate: seq<User>, afterUpdate: seq<User>, afterRollback: seq<User>, afterSecondRollback: seq<User>)
    ensures afterCreate == [User("a@x.com", "Ann")]
    ensures afterUpdate == [User("a@x.com", "Anna")]
    ensures afterRollback == [User("a@x.com", "Ann")]
    ensures afterSecondRollback == [User("a@x.com", "Ann")]
  {
    var c1, c2;
    afterCreate, afterUpdate, afterRollback, afterSecondRollback, c1, c2 :=
      CreateUpdateRollbackRun(User("a@x.com", "Ann"), User("a@x.com", "Anna"));
  }

  /** One rollback step of the scenario: a single user whose saved version is
      `original` is put back to `original`, and the snapshot stays. */
  lemma RollbackToSaved(original: User, current: User)
    requires original.email == current.email
    ensures var saved := map[Key(UserEntity, original.email) := Snapshot(UserEntity, original.email, Some(original))];
            RollbackStep(RepoState(map[original.email := current], saved), original.email)
            == (Normal, RepoState(map[original.email := original], saved))
  {
    var email := original.email;
    var saved := map[Key(UserEntity, email) := Snapshot(UserEntity, email, Some(original))];
    KeyIsNotBareId(UserEntity, email);
    assert Find(saved, UserEntity, email) == Some(Snapshot(UserEntity, email, Some(original)));
    assert Deleted(saved, email) == saved;
    assert map[email := current][email := original] == map[email := original];
  }

  /** A listing of a map with one key is that key's value alone. */
  lemma SingletonList(users: map<string, User>, email: string, listed: seq<User>, emails: seq<string>)
    requires users.Keys == {email}
    requires Collections.ListsValues(users, listed, emails)
    ensures listed == [users[email]]
  {
  }
}
