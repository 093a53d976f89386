/** The authentication context: the signed-in user held in component state, and the
    operations that read and write the users list and the session keys of both stores. */
module Auth {
  import opened Wrappers
  import opened Seqs
  import opened Storage
  import opened UserStore

  /** The fields `register` copies from the submitted data. */
  function Registration(userData: Record, id: string, createdAt: string): (u: Record)
    ensures u.Keys == (userData.Keys * {FullName, Email, Password}) + {Id, CreatedAt}
    ensures u[Id] == id && u[CreatedAt] == createdAt
    ensures forall f :: f in u && f !in {Id, CreatedAt} ==> u[f] == userData[f]
  {
    Project(userData, {FullName, Email, Password})[Id := id][CreatedAt := createdAt]
  }

  class AuthProvider {
    var user: Option<Record>
    var isLoading: bool
    const browser: Browser

    constructor(browser: Browser)
      ensures this.browser == browser && user == None && isLoading
    {
      this.browser := browser;
      user := None;
      isLoading := true;
    }

    /** `checkAuthStatus`: adopt the remembered session, else the tab's session, else keep the
        current state; loading is over either way. */
    method CheckAuthStatus()
      modifies this
      ensures !isLoading
      ensures RestoredSession(browser.local, browser.session).Some? ==> user == RestoredSession(browser.local, browser.session)
      ensures RestoredSession(browser.local, browser.session).None? ==> user == old(user)
    {
      var restored := RestoredSession(browser.local, browser.session);
      if restored.Some? {
        user := restored;
      }
      isLoading := false;
    }

    /** `login`: without a user matching both credentials nothing is written; otherwise the
        password-free session projection is stored according to the remember-me switch. */
    method Login(email: string, password: string, rememberMe: bool, loginTime: string)
      returns (r: Result<Record, string>)
      modifies this, browser
      ensures isLoading == old(isLoading)
      ensures FindCredentials(StoredUsers(old(browser.local)), email, password).None? ==>
                r == Failure("Invalid email or password") && user == old(user) &&
                browser.local == old(browser.local) && browser.session == old(browser.session)
      ensures var found := FindCredentials(StoredUsers(old(browser.local)), email, password);
              found.Some? ==> r == Success(SessionData(found.value, loginTime)) && user == Some(r.value)
      ensures r.Success? && rememberMe ==>
                browser.local == old(browser.local)[CurrentUserKey := Session(r.value)][RememberMeKey := Text("true")] &&
                browser.session == old(browser.session)
      ensures r.Success? && !rememberMe ==>
                browser.session == old(browser.session)[CurrentUserKey := Session(r.value)] &&
                browser.local == old(browser.local) - {RememberMeKey}
      ensures r.Success? ==> Password !in r.value
    {
      var users := StoredUsers(browser.local);
      var found := FindCredentials(users, email, password);
      if found.None? {
        return Failure("Invalid email or password");
      }
      var sessionData := SessionData(found.value, loginTime);
      StartSession(browser, sessionData, rememberMe);
      user := Some(sessionData);
      r := Success(sessionData);
    }

    /** `register`: a taken e-mail is refused with the list unchanged; otherwise one user is
        appended and the new session is remembered in `localStorage`. */
    method Register(userData: Record, id: string, createdAt: string, loginTime: string)
      returns (r: Result<Record, string>)
      modifies this, browser
      ensures isLoading == old(isLoading)
      ensures EmailTaken(StoredUsers(old(browser.local)), Get(userData, Email)) ==>
                r == Failure("Email already registered") && user == old(user) &&
                browser.local == old(browser.local) && browser.session == old(browser.session)
      ensures var newUser := Registration(userData, id, createdAt);
              !EmailTaken(StoredUsers(old(browser.local)), Get(userData, Email)) ==>
                r == Success(SessionData(newUser, loginTime)) && user == Some(r.value) &&
                browser.local == old(browser.local)[UsersKey := UserList(StoredUsers(old(browser.local)) + [newUser])]
                                                   [CurrentUserKey := Session(r.value)] &&
                browser.session == old(browser.session)
    {
      var existing := StoredUsers(browser.local);
      var clash := Find(existing, (u: Record) => Get(u, Email) == Get(userData, Email));
      if clash.Some? {
        return Failure("Email already registered");
      }
      var newUser := Registration(userData, id, createdAt);
      existing := existing + [newUser];
      browser.local := browser.local[UsersKey := UserList(existing)];
      var sessionData := SessionData(newUser, loginTime);
      browser.local := browser.local[CurrentUserKey := Session(sessionData)];
      user := Some(sessionData);
      r := Success(sessionData);
    }

    /** `logout`. */
    method Logout()
      modifies this, browser
      ensures isLoading == old(isLoading)
      ensures user == None
      ensures browser.local == old(browser.local) - {CurrentUserKey, RememberMeKey}
      ensures browser.session == old(browser.session) - {CurrentUserKey}
      ensures RestoredSession(browser.local, browser.session) == None
    {
      ClearSession(browser);
      user := None;
    }

    /** `updateProfile`: refused without a signed-in user or when the user's id is not in the
        list; otherwise the first entry with that id and the session take the updates, and the
        session goes to the store the `rememberMe` flag selects. */
    method UpdateProfile(updates: Record) returns (r: Result<Record, string>)
      modifies this, browser
      ensures isLoading == old(isLoading)
      ensures old(user).None? ==>
                r == Failure("No user logged in") && user == old(user) &&
                browser.local == old(browser.local) && browser.session == old(browser.session)
      ensures old(user).Some? && IndexOfUser(StoredUsers(old(browser.local)), old(user).value) == -1 ==>
                r == Failure("User not found") && user == old(user) &&
                browser.local == old(browser.local) && browser.session == old(browser.session)
      ensures var users := StoredUsers(old(browser.local));
              old(user).Some? && 0 <= IndexOfUser(users, old(user).value) ==>
                var i := IndexOfUser(users, old(user).value);
                var written := old(browser.local)[UsersKey := UserList(users[i := users[i] + updates])];
                r == Success(old(user).value + updates) && user == Some(r.value) &&
                (RememberedIn(old(browser.local)) ==>
                   browser.local == written[CurrentUserKey := Session(r.value)] && browser.session == old(browser.session)) &&
                (!RememberedIn(old(browser.local)) ==>
                   browser.local == written && browser.session == old(browser.session)[CurrentUserKey := Session(r.value)])
    {
      if user.None? {
        return Failure("No user logged in");
      }
      var current := user.value;
      var users := StoredUsers(browser.local);
      var i := IndexOfUser(users, current);
      if i == -1 {
        return Failure("User not found");
      }
      users := users[i := users[i] + updates];
      browser.local := browser.local[UsersKey := UserList(users)];
      var updated := current + updates;
      if RememberedIn(browser.local) {
        browser.local := browser.local[CurrentUserKey := Session(updated)];
      } else {
        browser.session := browser.session[CurrentUserKey := Session(updated)];
      }
      user := Some(updated);
      r := Success(updated);
    }
  }

  /** `localStorage.getItem('rememberMe') === 'true'`. */
  predicate RememberedIn(local: Store) {
    RememberMeKey in local && local[RememberMeKey] == Text("true")
  }

  /** `users.findIndex(u => u.id === user.id)`, where a missing id matches a missing id. */
  function IndexOfUser(users: seq<Record>, current: Record): (i: int)
    ensures -1 <= i < |users|
    ensures i == -1 <==> forall j :: 0 <= j < |users| ==> Get(users[j], Id) != Get(current, Id)
    ensures 0 <= i ==> Get(users[i], Id) == Get(current, Id) &&
                       forall j :: 0 <= j < i ==> Get(users[j], Id) != Get(current, Id)
  {
    FirstIndex(users, (u: Record) => Get(u, Id) == Get(current, Id))
  }

  /** Whoever registers can sign in with the same e-mail and password, and the session signing
      in creates names the registered account. */
  lemma RegisteredUserSignsIn(users: seq<Record>, userData: Record, id: string, createdAt: string, loginTime: string)
    requires Email in userData && Password in userData
    requires !EmailTaken(users, Get(userData, Email))
    ensures var newUser := Registration(userData, id, createdAt);
            var found := FindCredentials(users + [newUser], userData[Email], userData[Password]);
            found == Some(newUser) && SessionData(found.value, loginTime)[Id] == id
  {
    var newUser := Registration(userData, id, createdAt);
    var us := users + [newUser];
    var email, password := userData[Email], userData[Password];
    forall j | 0 <= j < |users| ensures !Matches(us[j], email, password) {
      assert us[j] == users[j];
      assert Get(users[j], Email) != Some(email);
    }
    assert Matches(us[|users|], email, password);
    var r := FindCredentials(us, email, password);
    var i :| 0 <= i < |us| && us[i] == r.value && Matches(us[i], email, password);
  }
}
