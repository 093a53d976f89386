/** The settings page: profile and password changes written back into the users list, the
    export and import of the financial data, account deletion and data clearing. The page's
    user is the session it loaded; the handlers other than export need one. */
module Settings {
  import opened Wrappers
  import opened Seqs
  import opened Ledger
  import opened Storage
  import opened UserStore

  /** The password form's outcomes; the first failing check wins. */
  datatype PasswordOutcome = Mismatch | TooShort | Incorrect | Changed

  predicate SameId(u: Record, current: Record) {
    Get(u, Id) == Get(current, Id)
  }

  /** The checks of `handlePasswordChange`, in order: confirmation, length, then the current
      password of the first stored user with the session's id. */
  function PasswordCheck(users: seq<Record>, current: Record, currentPassword: string, newPassword: string,
                         confirmPassword: string): (o: PasswordOutcome)
    ensures o == Mismatch <==> newPassword != confirmPassword
    ensures o == TooShort <==> newPassword == confirmPassword && |newPassword| < 6
    ensures o == Changed <==>
              newPassword == confirmPassword && |newPassword| >= 6 &&
              exists i :: 0 <= i < |users| && SameId(users[i], current) &&
                          Get(users[i], Password) == Some(currentPassword) &&
                          forall j :: 0 <= j < i ==> !SameId(users[j], current)
  {
    if newPassword != confirmPassword then Mismatch
    else if |newPassword| < 6 then TooShort
    else
      var i := FirstIndex(users, (u: Record) => SameId(u, current));
      if i != -1 && Get(users[i], Password) == Some(currentPassword) then Changed else Incorrect
  }

  /** The users list after a successful change: every user with the session's id gets the new
      password, nothing else changes. */
  function WithPassword(users: seq<Record>, current: Record, newPassword: string): (r: seq<Record>)
    ensures |r| == |users|
    ensures forall i :: 0 <= i < |users| && SameId(users[i], current) ==>
              r[i].Keys == users[i].Keys + {Password} && Get(r[i], Password) == Some(newPassword) &&
              forall f :: f in users[i] && f != Password ==> r[i][f] == users[i][f]
    ensures forall i :: 0 <= i < |users| && !SameId(users[i], current) ==> r[i] == users[i]
  {
    MapWhere(users, (u: Record) => SameId(u, current), (u: Record) => u[Password := newPassword])
  }

  /** The users list after a profile change: name and phone of the users with the session's id. */
  function WithProfile(users: seq<Record>, current: Record, fullName: string, phone: string): (r: seq<Record>)
    ensures |r| == |users|
    ensures forall i :: 0 <= i < |users| && SameId(users[i], current) ==>
              r[i].Keys == users[i].Keys + {FullName, Phone} &&
              Get(r[i], FullName) == Some(fullName) && Get(r[i], Phone) == Some(phone) &&
              forall f :: f in users[i] && f !in {FullName, Phone} ==> r[i][f] == users[i][f]
    ensures forall i :: 0 <= i < |users| && !SameId(users[i], current) ==> r[i] == users[i]
  {
    MapWhere(users, (u: Record) => SameId(u, current), (u: Record) => u[FullName := fullName][Phone := phone])
  }

  /** A profile change touches neither e-mail nor password: exactly the same credentials sign
      in, each to the record the change produced. */
  lemma ProfileKeepsCredentials(users: seq<Record>, current: Record, fullName: string, phone: string,
                                email: string, password: string)
    ensures var updated := WithProfile(users, current, fullName, phone);
            FindCredentials(updated, email, password).None? <==> FindCredentials(users, email, password).None?
    ensures var updated := WithProfile(users, current, fullName, phone);
            FindCredentials(users, email, password).Some? ==>
              Get(FindCredentials(updated, email, password).value, Email) == Some(email)
  {
    var updated := WithProfile(users, current, fullName, phone);
    forall i | 0 <= i < |users| ensures Matches(updated[i], email, password) <==> Matches(users[i], email, password) {
      assert Get(updated[i], Email) == Get(users[i], Email);
      assert Get(updated[i], Password) == Get(users[i], Password);
    }
    if FindCredentials(users, email, password).Some? {
      var r := FindCredentials(updated, email, password);
      var k :| 0 <= k < |updated| && updated[k] == r.value && Matches(updated[k], email, password);
    }
  }

  /** The users list after the account is deleted: the users with the session's id go. */
  function WithoutAccount(users: seq<Record>, current: Record): (r: seq<Record>)
    ensures forall u :: u in r <==> u in users && !SameId(u, current)
  {
    Filter(users, (u: Record) => !SameId(u, current))
  }

  /** After a successful change, with e-mails unique, the user signs in with the new password
      and gets back their record with only the password replaced. */
  lemma ChangedPasswordSignsIn(users: seq<Record>, current: Record, currentPassword: string,
                               newPassword: string, email: string)
    requires UniqueEmails(users)
    requires PasswordCheck(users, current, currentPassword, newPassword, newPassword) == Changed
    requires var i := FirstIndex(users, (u: Record) => SameId(u, current)); Get(users[i], Email) == Some(email)
    ensures var i := FirstIndex(users, (u: Record) => SameId(u, current));
            FindCredentials(WithPassword(users, current, newPassword), email, newPassword)
            == Some(users[i][Password := newPassword])
  {
    var i := FirstIndex(users, (u: Record) => SameId(u, current));
    var updated := WithPassword(users, current, newPassword);
    assert updated[i] == users[i][Password := newPassword];
    assert Matches(updated[i], email, newPassword);
    forall j | 0 <= j < |updated| && j != i ensures !Matches(updated[j], email, newPassword) {
      assert Get(updated[j], Email) == Get(users[j], Email);
      if j < i {
        assert Get(users[j], Email) != Get(users[i], Email);
      } else {
        assert Get(users[i], Email) != Get(users[j], Email);
      }
    }
    var r := FindCredentials(updated, email, newPassword);
    var k :| 0 <= k < |updated| && updated[k] == r.value && Matches(updated[k], email, newPassword);
  }

  /** What `handleExportData` puts in the downloaded file. */
  datatype ExportBundle = ExportBundle(transactions: seq<Transaction>, budgets: seq<Budget>,
                                       user: Option<Record>, exportDate: string)

  /** The parts of an imported file `handleImportData` looks at; a missing part is `None`. */
  datatype ImportBundle = ImportBundle(transactions: Option<seq<Transaction>>, budgets: Option<seq<Budget>>)

  /** A downloaded file read back: both lists are present (an empty array is still present). */
  function Reimported(e: ExportBundle): ImportBundle {
    ImportBundle(Some(e.transactions), Some(e.budgets))
  }

  /** The local store after an import: each present list overwrites its key, nothing else is
      touched. */
  function Imported(local: Store, data: ImportBundle): (s: Store)
    ensures forall k :: k != TransactionsKey && k != BudgetsKey ==> (k in s <==> k in local)
    ensures forall k :: k in s && k != TransactionsKey && k != BudgetsKey ==> s[k] == local[k]
    ensures data.transactions.Some? ==> StoredTransactions(s) == data.transactions.value
    ensures data.transactions.None? ==> StoredTransactions(s) == StoredTransactions(local)
    ensures data.budgets.Some? ==> StoredBudgets(s) == data.budgets.value
    ensures data.budgets.None? ==> StoredBudgets(s) == StoredBudgets(local)
  {
    var withTransactions :=
      if data.transactions.Some? then local[TransactionsKey := TransactionList(data.transactions.value)] else local;
    if data.budgets.Some? then withTransactions[BudgetsKey := BudgetList(data.budgets.value)] else withTransactions
  }

  /** Importing what was just exported leaves both lists as they read before, and when both
      were stored as lists it leaves the whole store as it was. */
  lemma ExportImportRoundTrip(local: Store, user: Option<Record>, exportDate: string)
    ensures var bundle := ExportBundle(StoredTransactions(local), StoredBudgets(local), user, exportDate);
            StoredTransactions(Imported(local, Reimported(bundle))) == StoredTransactions(local) &&
            StoredBudgets(Imported(local, Reimported(bundle))) == StoredBudgets(local)
    ensures TransactionsKey in local && local[TransactionsKey].TransactionList? &&
            BudgetsKey in local && local[BudgetsKey].BudgetList? ==>
              Imported(local, Reimported(ExportBundle(StoredTransactions(local), StoredBudgets(local), user, exportDate))) == local
  {
    var after := Imported(local, Reimported(ExportBundle(StoredTransactions(local), StoredBudgets(local), user, exportDate)));
    if TransactionsKey in local && local[TransactionsKey].TransactionList? &&
       BudgetsKey in local && local[BudgetsKey].BudgetList? {
      assert after[TransactionsKey] == local[TransactionsKey];
      assert after[BudgetsKey] == local[BudgetsKey];
      assert after.Keys == local.Keys;
    }
  }

  class SettingsPage {
    var user: Option<Record>
    const browser: Browser

    /** `loadUserData`: the remembered session, else the tab's session. */
    constructor(browser: Browser)
      ensures this.browser == browser
      ensures user == RestoredSession(browser.local, browser.session)
    {
      this.browser := browser;
      user := RestoredSession(browser.local, browser.session);
    }

    /** `handleProfileUpdate`: name and phone change on the stored users with the session's
        id; the session takes the new name and is written back where a session is remembered,
        else to the tab's store. */
    method HandleProfileUpdate(fullName: string, phone: string)
      requires user.Some?
      modifies this, browser
      ensures var current := old(user).value;
              var written := old(browser.local)[UsersKey := UserList(WithProfile(StoredUsers(old(browser.local)), current, fullName, phone))];
              var updated := current[FullName := fullName];
              user == Some(updated) &&
              (CurrentUserKey in old(browser.local) ==>
                 browser.local == written[CurrentUserKey := Session(updated)] && browser.session == old(browser.session)) &&
              (CurrentUserKey !in old(browser.local) ==>
                 browser.local == written && browser.session == old(browser.session)[CurrentUserKey := Session(updated)])
    {
      var current := user.value;
      var users := StoredUsers(browser.local);
      var updatedUsers := WithProfile(users, current, fullName, phone);
      browser.local := browser.local[UsersKey := UserList(updatedUsers)];
      var updated := current[FullName := fullName];
      if CurrentUserKey in browser.local {
        browser.local := browser.local[CurrentUserKey := Session(updated)];
      } else {
        browser.session := browser.session[CurrentUserKey := Session(updated)];
      }
      user := Some(updated);
    }

    /** `handlePasswordChange`: only a successful change writes, and it writes only the
        password of the users with the session's id. */
    method HandlePasswordChange(currentPassword: string, newPassword: string, confirmPassword: string)
      returns (outcome: PasswordOutcome)
      requires user.Some?
      modifies browser
      ensures outcome == PasswordCheck(StoredUsers(old(browser.local)), user.value, currentPassword, newPassword, confirmPassword)
      ensures outcome == Changed ==>
                browser.local == old(browser.local)[UsersKey := UserList(WithPassword(StoredUsers(old(browser.local)), user.value, newPassword))]
      ensures outcome != Changed ==> browser.local == old(browser.local)
      ensures browser.session == old(browser.session)
    {
      if newPassword != confirmPassword {
        return Mismatch;
      }
      if |newPassword| < 6 {
        return TooShort;
      }
      var current := user.value;
      var users := StoredUsers(browser.local);
      var userToUpdate := Find(users, (u: Record) => SameId(u, current));
      var first := FirstIndex(users, (u: Record) => SameId(u, current));
      assert userToUpdate.Some? ==> first != -1 && userToUpdate.value == users[first];
      if userToUpdate.Some? && Get(userToUpdate.value, Password) == Some(currentPassword) {
        browser.local := browser.local[UsersKey := UserList(WithPassword(users, current, newPassword))];
        outcome := Changed;
      } else {
        outcome := Incorrect;
      }
    }

    /** `handleExportData`: the two lists as stored, the session and the export time. */
    method HandleExportData(exportDate: string) returns (data: ExportBundle)
      ensures data.transactions == StoredTransactions(browser.local)
      ensures data.budgets == StoredBudgets(browser.local)
      ensures data.user == user && data.exportDate == exportDate
    {
      data := ExportBundle(StoredTransactions(browser.local), StoredBudgets(browser.local), user, exportDate);
    }

    /** `handleImportData`, for a file that parsed. */
    method HandleImportData(data: ImportBundle)
      modifies browser
      ensures browser.local == Imported(old(browser.local), data)
      ensures browser.session == old(browser.session)
    {
      if data.transactions.Some? {
        browser.local := browser.local[TransactionsKey := TransactionList(data.transactions.value)];
      }
      if data.budgets.Some? {
        browser.local := browser.local[BudgetsKey := BudgetList(data.budgets.value)];
      }
    }

    /** `handleDeleteAccount`, after the confirmation dialog: the users with the session's id
        go, the session goes from both stores, and so do both lists. */
    method HandleDeleteAccount(confirmed: bool)
      requires user.Some?
      modifies browser
      ensures confirmed ==>
                browser.local == old(browser.local)[UsersKey := UserList(WithoutAccount(StoredUsers(old(browser.local)), user.value))]
                                 - {CurrentUserKey, TransactionsKey, BudgetsKey} &&
                browser.session == old(browser.session) - {CurrentUserKey}
      ensures confirmed ==> RestoredSession(browser.local, browser.session) == None
      ensures confirmed ==> forall u :: u in StoredUsers(browser.local) <==> u in StoredUsers(old(browser.local)) && !SameId(u, user.value)
      ensures !confirmed ==> browser.local == old(browser.local) && browser.session == old(browser.session)
    {
      if confirmed {
        var users := StoredUsers(browser.local);
        var remaining := WithoutAccount(users, user.value);
        browser.local := browser.local[UsersKey := UserList(remaining)];
        browser.local := browser.local - {CurrentUserKey};
        browser.session := browser.session - {CurrentUserKey};
        browser.local := browser.local - {TransactionsKey};
        browser.local := browser.local - {BudgetsKey};
      }
    }

    /** `handleClearData`, after the confirmation dialog: exactly the two lists go. */
    method HandleClearData(confirmed: bool)
      modifies browser
      ensures confirmed ==> browser.local == old(browser.local) - {TransactionsKey, BudgetsKey}
      ensures confirmed ==> StoredTransactions(browser.local) == [] && StoredBudgets(browser.local) == []
      ensures !confirmed ==> browser.local == old(browser.local)
      ensures browser.session == old(browser.session)
    {
      if confirmed {
        browser.local := browser.local - {TransactionsKey};
        browser.local := browser.local - {BudgetsKey};
      }
    }
  }
}
