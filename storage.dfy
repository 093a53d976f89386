/** Browser storage as the application uses it: two string-keyed stores (`localStorage` and
    `sessionStorage`) whose values are the JSON documents the pages write, kept here in decoded
    form. User and session objects are partial records from field to text, so that an object
    spread `{...a, ...b}` is the map union `a + b` and a missing property is a missing key. */
module Storage {
  import opened Wrappers
  import opened Ledger

  /** The properties a user or session object can carry. */
  datatype Field = Id | FullName | Email | Password | CreatedAt | Phone | LoginTime

  type Record = map<Field, string>

  /** A property read: `None` stands for `undefined`. */
  function Get(r: Record, f: Field): (v: Option<string>)
    ensures v.None? <==> f !in r
  {
    if f in r then Some(r[f]) else None
  }

  /** The decoded value stored under one key. */
  datatype Value =
    | UserList(users: seq<Record>)
    | Session(user: Record)
    | Text(text: string)
    | TransactionList(transactions: seq<Transaction>)
    | BudgetList(budgets: seq<Budget>)

  type Store = map<string, Value>

  const UsersKey := "users"
  const CurrentUserKey := "currentUser"
  const RememberMeKey := "rememberMe"
  const TransactionsKey := "transactions"
  const BudgetsKey := "budgets"

  /** `JSON.parse(localStorage.getItem('users') || '[]')`. */
  function StoredUsers(store: Store): (users: seq<Record>)
    ensures UsersKey !in store ==> users == []
    ensures UsersKey in store && store[UsersKey].UserList? ==> users == store[UsersKey].users
  {
    if UsersKey in store && store[UsersKey].UserList? then store[UsersKey].users else []
  }

  /** `JSON.parse(storage.getItem(key) || '[]')` for a transactions list. */
  function TransactionsAt(store: Store, key: string): (ts: seq<Transaction>)
    ensures key !in store ==> ts == []
    ensures key in store && store[key].TransactionList? ==> ts == store[key].transactions
    ensures key in store && !store[key].TransactionList? ==> ts == []
  {
    if key in store && store[key].TransactionList? then store[key].transactions else []
  }

  /** `JSON.parse(storage.getItem(key) || '[]')` for a budgets list. */
  function BudgetsAt(store: Store, key: string): (bs: seq<Budget>)
    ensures key !in store ==> bs == []
    ensures key in store && store[key].BudgetList? ==> bs == store[key].budgets
    ensures key in store && !store[key].BudgetList? ==> bs == []
  {
    if key in store && store[key].BudgetList? then store[key].budgets else []
  }

  function StoredTransactions(store: Store): seq<Transaction> {
    TransactionsAt(store, TransactionsKey)
  }

  function StoredBudgets(store: Store): seq<Budget> {
    BudgetsAt(store, BudgetsKey)
  }

  /** The session object one store holds, if any. */
  function SessionIn(store: Store): (s: Option<Record>)
    ensures s.Some? ==> CurrentUserKey in store
  {
    if CurrentUserKey in store && store[CurrentUserKey].Session? then Some(store[CurrentUserKey].user) else None
  }

  /** `localStorage.getItem('currentUser') || sessionStorage.getItem('currentUser')`: the
      remembered session wins, the tab's session is used only when none is remembered. */
  function RestoredSession(local: Store, session: Store): (s: Option<Record>)
    ensures CurrentUserKey in local ==> s == SessionIn(local)
    ensures CurrentUserKey !in local ==> s == SessionIn(session)
  {
    if CurrentUserKey in local then SessionIn(local) else SessionIn(session)
  }

  /** The two stores of one browser tab. */
  class Browser {
    var local: Store
    var session: Store

    constructor(local: Store, session: Store)
      ensures this.local == local && this.session == session
    {
      this.local := local;
      this.session := session;
    }
  }

  /** The properties of `r` among `fields`, as an object literal naming them copies them. */
  function Project(r: Record, fields: set<Field>): (p: Record)
    ensures p.Keys == r.Keys * fields
    ensures forall f :: f in p ==> p[f] == r[f]
  {
    map f | f in r.Keys * fields :: r[f]
  }

  /** The session object `{id, fullName, email, loginTime}` made from a stored user. */
  function SessionData(u: Record, loginTime: string): (s: Record)
    ensures Password !in s && CreatedAt !in s && Phone !in s
    ensures s.Keys == (u.Keys * {Id, FullName, Email}) + {LoginTime}
    ensures s[LoginTime] == loginTime
    ensures forall f :: f in s && f != LoginTime ==> s[f] == u[f]
  {
    Project(u, {Id, FullName, Email})[LoginTime := loginTime]
  }

  /** The remember-me switch: a remembered session goes to `localStorage` with the
      `rememberMe` flag, otherwise to `sessionStorage` and the flag is removed. */
  method StartSession(b: Browser, sessionData: Record, rememberMe: bool)
    modifies b
    ensures rememberMe ==> b.local == old(b.local)[CurrentUserKey := Session(sessionData)][RememberMeKey := Text("true")]
    ensures rememberMe ==> b.session == old(b.session)
    ensures !rememberMe ==> b.session == old(b.session)[CurrentUserKey := Session(sessionData)]
    ensures !rememberMe ==> b.local == old(b.local) - {RememberMeKey}
  {
    if rememberMe {
      b.local := b.local[CurrentUserKey := Session(sessionData)];
      b.local := b.local[RememberMeKey := Text("true")];
    } else {
      b.session := b.session[CurrentUserKey := Session(sessionData)];
      b.local := b.local - {RememberMeKey};
    }
  }

  /** What a later page load restores after the switch: a remembered session always, a
      tab-only session as long as no remembered session shadows it. */
  lemma SessionRestored(local: Store, session: Store, sessionData: Record)
    ensures RestoredSession(local[CurrentUserKey := Session(sessionData)][RememberMeKey := Text("true")], session)
            == Some(sessionData)
    ensures CurrentUserKey !in local ==>
              RestoredSession(local - {RememberMeKey}, session[CurrentUserKey := Session(sessionData)])
              == Some(sessionData)
  {
  }

  /** Logging out: no session in either store and no `rememberMe` flag. */
  method ClearSession(b: Browser)
    modifies b
    ensures b.local == old(b.local) - {CurrentUserKey, RememberMeKey}
    ensures b.session == old(b.session) - {CurrentUserKey}
    ensures RestoredSession(b.local, b.session) == None
  {
    b.local := b.local - {CurrentUserKey};
    b.local := b.local - {RememberMeKey};
    b.session := b.session - {CurrentUserKey};
  }
}
