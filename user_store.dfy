/** The user list kept under the `users` key, and the helpers that read and rewrite it:
    seeding the demo account, registration with a unique e-mail, credential lookup, update by
    id and deletion by id. Generated ids and timestamps arrive as parameters. */
module UserStore {
  import opened Wrappers
  import opened Seqs
  import opened Storage

  /** The account seeded into an empty installation. */
  const DemoUser: Record := map[Id := "1", FullName := "Demo User", Email := "test@example.com",
                                Password := "password123", CreatedAt := "2024-01-01T00:00:00.000Z"]

  /** The local store after seeding: the demo list is written only when `users` is absent. */
  function WithDemoUser(local: Store): Store {
    if UsersKey in local then local else local[UsersKey := UserList([DemoUser])]
  }

  /** Seeding twice is seeding once; afterwards a users list is always present, and on a fresh
      installation it is exactly the demo account. */
  lemma SeedingIdempotent(local: Store)
    ensures WithDemoUser(WithDemoUser(local)) == WithDemoUser(local)
    ensures UsersKey in WithDemoUser(local)
    ensures UsersKey in local ==> WithDemoUser(local) == local
    ensures UsersKey !in local ==> StoredUsers(WithDemoUser(local)) == [DemoUser]
  {
  }

  /** `initializeUserData`. */
  method InitializeUserData(b: Browser)
    modifies b
    ensures b.local == WithDemoUser(old(b.local))
    ensures b.session == old(b.session)
  {
    if UsersKey !in b.local {
      b.local := b.local[UsersKey := UserList([DemoUser])];
    }
  }

  /** `clearAuthData`: the same clean-up as logging out. */
  method ClearAuthData(b: Browser)
    modifies b
    ensures b.local == old(b.local) - {CurrentUserKey, RememberMeKey}
    ensures b.session == old(b.session) - {CurrentUserKey}
    ensures RestoredSession(b.local, b.session) == None
  {
    ClearSession(b);
  }

  /** `getAllUsers`: the stored list, empty when the key is missing. */
  method GetAllUsers(b: Browser) returns (users: seq<Record>)
    ensures users == StoredUsers(b.local)
    ensures UsersKey !in b.local ==> users == []
  {
    users := StoredUsers(b.local);
  }

  // ---------------------------------------------------------------- credentials

  predicate Matches(u: Record, email: string, password: string) {
    Get(u, Email) == Some(email) && Get(u, Password) == Some(password)
  }

  /** `users.find(u => u.email === email && u.password === password)`. */
  function FindCredentials(users: seq<Record>, email: string, password: string): (r: Option<Record>)
    ensures r.None? <==> forall i :: 0 <= i < |users| ==> !Matches(users[i], email, password)
    ensures r.Some? ==> exists i :: 0 <= i < |users| && users[i] == r.value && Matches(users[i], email, password)
                                    && forall j :: 0 <= j < i ==> !Matches(users[j], email, password)
  {
    Find(users, (u: Record) => Matches(u, email, password))
  }

  /** `validateUser`: the first user matching both credentials, else 'Invalid credentials'. */
  function ValidateUser(users: seq<Record>, email: string, password: string): (r: Result<Record, string>)
    ensures r.Success? <==> exists i :: 0 <= i < |users| && Matches(users[i], email, password)
    ensures r.Success? ==> Matches(r.value, email, password) && r.value in users
    ensures r.Success? ==> exists i :: 0 <= i < |users| && users[i] == r.value && Matches(users[i], email, password)
                                       && forall j :: 0 <= j < i ==> !Matches(users[j], email, password)
    ensures r.Failure? ==> r.error == "Invalid credentials"
  {
    match FindCredentials(users, email, password)
    case Some(u) => Success(u)
    case None => Failure("Invalid credentials")
  }

  /** The demo account can sign in on a fresh installation. */
  lemma DemoUserSignsIn(local: Store)
    requires UsersKey !in local
    ensures ValidateUser(StoredUsers(WithDemoUser(local)), "test@example.com", "password123") == Success(DemoUser)
  {
    SeedingIdempotent(local);
    assert Matches(DemoUser, "test@example.com", "password123");
  }

  // ---------------------------------------------------------------- registration

  /** `users.find(user => user.email === email)` found something; a missing e-mail on both
      sides compares equal, as `undefined === undefined` does. */
  predicate EmailTaken(users: seq<Record>, email: Option<string>) {
    exists i :: 0 <= i < |users| && Get(users[i], Email) == email
  }

  /** No two users share an e-mail (the invariant the duplicate check keeps). */
  predicate UniqueEmails(users: seq<Record>) {
    forall i, j :: 0 <= i < j < |users| ==> Get(users[i], Email) != Get(users[j], Email)
  }

  /** `{id, ...userData, createdAt}`: the generated id yields to one in the data, the creation
      time never does. */
  function NewUser(userData: Record, id: string, createdAt: string): (u: Record)
    ensures u.Keys == userData.Keys + {Id, CreatedAt}
    ensures u[CreatedAt] == createdAt
    ensures u[Id] == if Id in userData then userData[Id] else id
    ensures forall f :: f in userData && f != CreatedAt ==> u[f] == userData[f]
  {
    map[Id := id] + userData + map[CreatedAt := createdAt]
  }

  /** `addUser`: a taken e-mail is refused and nothing is written; otherwise exactly one record
      is appended. */
  method AddUser(b: Browser, userData: Record, id: string, createdAt: string) returns (r: Result<Record, string>)
    modifies b
    ensures EmailTaken(StoredUsers(old(b.local)), Get(userData, Email)) ==>
              r == Failure("Email already registered") && b.local == old(b.local)
    ensures !EmailTaken(StoredUsers(old(b.local)), Get(userData, Email)) ==>
              r == Success(NewUser(userData, id, createdAt)) &&
              b.local == old(b.local)[UsersKey := UserList(StoredUsers(old(b.local)) + [r.value])]
    ensures b.session == old(b.session)
  {
    var users := StoredUsers(b.local);
    var email := Get(userData, Email);
    var clash := Find(users, (u: Record) => Get(u, Email) == email);
    if clash.Some? {
      return Failure("Email already registered");
    }
    var newUser := NewUser(userData, id, createdAt);
    users := users + [newUser];
    b.local := b.local[UsersKey := UserList(users)];
    r := Success(newUser);
  }

  /** Appending a user whose e-mail is free keeps e-mails unique. */
  lemma AddKeepsEmailsUnique(users: seq<Record>, u: Record)
    requires UniqueEmails(users)
    requires !EmailTaken(users, Get(u, Email))
    ensures UniqueEmails(users + [u])
  {
    var us := users + [u];
    forall i, j | 0 <= i < j < |us| ensures Get(us[i], Email) != Get(us[j], Email) {
      if j == |users| {
        assert us[i] == users[i];
      } else {
        assert us[i] == users[i] && us[j] == users[j];
      }
    }
  }

  /** A user added with an e-mail and password can then sign in with them, and gets exactly
      the new record back. */
  lemma AddedUserSignsIn(users: seq<Record>, userData: Record, id: string, createdAt: string)
    requires Email in userData && Password in userData
    requires !EmailTaken(users, Get(userData, Email))
    ensures ValidateUser(users + [NewUser(userData, id, createdAt)], userData[Email], userData[Password])
            == Success(NewUser(userData, id, createdAt))
  {
    var u := NewUser(userData, id, createdAt);
    var us := users + [u];
    var email, password := userData[Email], userData[Password];
    forall j | 0 <= j < |users| ensures !Matches(us[j], email, password) {
      assert us[j] == users[j];
      assert Get(users[j], Email) != Some(email);
    }
    assert Matches(us[|users|], email, password);
    var r := FindCredentials(us, email, password);
    var i :| 0 <= i < |us| && us[i] == r.value && Matches(us[i], email, password);
  }

  // ---------------------------------------------------------------- update and delete

  /** `users.findIndex(u => u.id === userId)`. */
  function IndexOfId(users: seq<Record>, userId: string): (i: int)
    ensures -1 <= i < |users|
    ensures i == -1 <==> forall j :: 0 <= j < |users| ==> Get(users[j], Id) != Some(userId)
    ensures 0 <= i ==> Get(users[i], Id) == Some(userId) &&
                       forall j :: 0 <= j < i ==> Get(users[j], Id) != Some(userId)
  {
    FirstIndex(users, (u: Record) => Get(u, Id) == Some(userId))
  }

  /** `updateUser`: an unknown id fails without writing; otherwise the first user with that id
      becomes `{...user, ...updates}` and every other entry stays as it was. */
  method UpdateUser(b: Browser, userId: string, updates: Record) returns (r: Result<Record, string>)
    modifies b
    ensures IndexOfId(StoredUsers(old(b.local)), userId) == -1 ==>
              r == Failure("User not found") && b.local == old(b.local)
    ensures var users := StoredUsers(old(b.local));
            var i := IndexOfId(users, userId);
            0 <= i ==> r == Success(users[i] + updates) &&
                       b.local == old(b.local)[UsersKey := UserList(users[i := users[i] + updates])]
    ensures b.session == old(b.session)
  {
    var users := StoredUsers(b.local);
    var i := IndexOfId(users, userId);
    if i == -1 {
      return Failure("User not found");
    }
    users := users[i := users[i] + updates];
    b.local := b.local[UsersKey := UserList(users)];
    r := Success(users[i]);
  }

  /** After an update that leaves the id alone, looking the id up again finds the same slot,
      now holding the merged record, and all other slots are untouched. */
  lemma UpdateThenLookup(users: seq<Record>, userId: string, updates: Record)
    requires 0 <= IndexOfId(users, userId)
    requires Id in updates ==> updates[Id] == userId
    ensures var i := IndexOfId(users, userId);
            var updated := users[i := users[i] + updates];
            IndexOfId(updated, userId) == i && updated[i] == users[i] + updates &&
            forall f :: f in users[i] && f !in updates ==> updated[i][f] == users[i][f]
  {
    var i := IndexOfId(users, userId);
    var updated := users[i := users[i] + updates];
    assert Get(updated[i], Id) == Some(userId);
    forall j | 0 <= j < i ensures Get(updated[j], Id) != Some(userId) {
      assert updated[j] == users[j];
    }
  }

  /** `users.filter(u => u.id !== userId)`: exactly the users with another id. */
  function WithoutId(users: seq<Record>, userId: string): (r: seq<Record>)
    ensures |r| <= |users|
    ensures forall u :: u in r <==> u in users && Get(u, Id) != Some(userId)
  {
    Filter(users, (u: Record) => Get(u, Id) != Some(userId))
  }

  /** Deleting by id shortens the list exactly when some entry had the id, and leaves a list
      without it as it is. */
  lemma DeleteSpec(users: seq<Record>, userId: string)
    ensures |WithoutId(users, userId)| < |users| <==> exists i :: 0 <= i < |users| && Get(users[i], Id) == Some(userId)
    ensures (forall i :: 0 <= i < |users| ==> Get(users[i], Id) != Some(userId)) ==> WithoutId(users, userId) == users
  {
    var keep := (u: Record) => Get(u, Id) != Some(userId);
    if exists i :: 0 <= i < |users| && Get(users[i], Id) == Some(userId) {
      var i :| 0 <= i < |users| && Get(users[i], Id) == Some(userId);
      FilterDropsRejected(users, keep, i);
    } else {
      FilterKeepsAll(users, keep);
    }
  }

  /** `deleteUser`: fails without writing when no entry had the id. */
  method DeleteUser(b: Browser, userId: string) returns (r: Result<(), string>)
    modifies b
    ensures var users := StoredUsers(old(b.local));
            (exists i :: 0 <= i < |users| && Get(users[i], Id) == Some(userId)) ==>
              r == Success(()) && b.local == old(b.local)[UsersKey := UserList(WithoutId(users, userId))]
    ensures var users := StoredUsers(old(b.local));
            (forall i :: 0 <= i < |users| ==> Get(users[i], Id) != Some(userId)) ==>
              r == Failure("User not found") && b.local == old(b.local)
    ensures b.session == old(b.session)
  {
    var users := StoredUsers(b.local);
    var filtered := WithoutId(users, userId);
    DeleteSpec(users, userId);
    if |users| == |filtered| {
      return Failure("User not found");
    }
    b.local := b.local[UsersKey := UserList(filtered)];
    r := Success(());
  }
}
