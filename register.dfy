/** The sign-up modal: field-by-field validation into an error map, then the duplicate-e-mail
    check and the append of the new account, which also becomes the remembered session. */
module SignUp {
  import opened Wrappers
  import opened Seqs
  import opened Storage
  import opened UserStore
  import opened Forms

  datatype SignUpForm = SignUpForm(fullName: string, email: string, password: string, confirmPassword: string)

  type Errors = map<string, string>

  /** `validateForm`: one message per failing field, the first failing check of each field. */
  function ValidateForm(f: SignUpForm): (errors: Errors)
    ensures errors.Keys <= {"fullName", "email", "password", "confirmPassword"}
    ensures "fullName" in errors <==> Blank(f.fullName)
    ensures "fullName" in errors ==> errors["fullName"] == "Full name is required"
    ensures "email" in errors <==> !EmailLike(f.email)
    ensures "email" in errors ==>
              errors["email"] == if Blank(f.email) then "Email is required" else "Email is invalid"
    ensures "password" in errors <==> |f.password| < 6
    ensures "password" in errors ==>
              errors["password"] == if f.password == "" then "Password is required"
                                    else "Password must be at least 6 characters"
    ensures "confirmPassword" in errors <==> f.confirmPassword == "" || f.confirmPassword != f.password
    ensures "confirmPassword" in errors ==>
              errors["confirmPassword"] == if f.confirmPassword == "" then "Please confirm your password"
                                           else "Passwords do not match"
  {
    EmailLikeNotBlank(f.email);
    var withName: Errors := if Blank(f.fullName) then map["fullName" := "Full name is required"] else map[];
    var withEmail :=
      if Blank(f.email) then withName["email" := "Email is required"]
      else if !EmailLike(f.email) then withName["email" := "Email is invalid"]
      else withName;
    var withPassword :=
      if f.password == "" then withEmail["password" := "Password is required"]
      else if |f.password| < 6 then withEmail["password" := "Password must be at least 6 characters"]
      else withEmail;
    if f.confirmPassword == "" then withPassword["confirmPassword" := "Please confirm your password"]
    else if f.password != f.confirmPassword then withPassword["confirmPassword" := "Passwords do not match"]
    else withPassword
  }

  /** The form is accepted exactly when the name is not blank, the e-mail matches the pattern,
      the password has six characters or more and the confirmation repeats it. */
  lemma ValidIff(f: SignUpForm)
    ensures ValidateForm(f) == map[] <==>
              !Blank(f.fullName) && EmailLike(f.email) && |f.password| >= 6 && f.confirmPassword == f.password
  {
    var errors := ValidateForm(f);
    if !Blank(f.fullName) && EmailLike(f.email) && |f.password| >= 6 && f.confirmPassword == f.password {
      assert errors.Keys == {};
    }
  }

  /** The stored account `{id, fullName, email, password, createdAt}`. */
  function Account(f: SignUpForm, id: string, createdAt: string): (u: Record)
    ensures u.Keys == {Id, FullName, Email, Password, CreatedAt}
    ensures Get(u, Email) == Some(f.email) && Get(u, Password) == Some(f.password)
    ensures u[Id] == id && u[FullName] == f.fullName && u[CreatedAt] == createdAt
  {
    map[Id := id, FullName := f.fullName, Email := f.email, Password := f.password, CreatedAt := createdAt]
  }

  /** The session written right after sign-up: `{id, fullName, email}`, with no password and no
      login time. */
  function SignUpSession(f: SignUpForm, id: string): (s: Record)
    ensures s.Keys == {Id, FullName, Email} && Password !in s
    ensures s == Project(Account(f, id, ""), {Id, FullName, Email})
  {
    map[Id := id, FullName := f.fullName, Email := f.email]
  }

  /** `handleSubmit`: an invalid form or a taken e-mail writes nothing; otherwise one account is
      appended and its session is remembered. */
  method HandleSubmit(b: Browser, f: SignUpForm, id: string, createdAt: string) returns (errors: Errors)
    modifies b
    ensures ValidateForm(f) != map[] ==>
              errors == ValidateForm(f) && b.local == old(b.local) && b.session == old(b.session)
    ensures ValidateForm(f) == map[] && EmailTaken(StoredUsers(old(b.local)), Some(f.email)) ==>
              errors == map["email" := "Email already registered"] &&
              b.local == old(b.local) && b.session == old(b.session)
    ensures ValidateForm(f) == map[] && !EmailTaken(StoredUsers(old(b.local)), Some(f.email)) ==>
              errors == map[] && b.session == old(b.session) &&
              b.local == old(b.local)[UsersKey := UserList(StoredUsers(old(b.local)) + [Account(f, id, createdAt)])]
                                     [CurrentUserKey := Session(SignUpSession(f, id))]
  {
    errors := ValidateForm(f);
    if errors != map[] {
      return;
    }
    var existing := StoredUsers(b.local);
    var clash := Find(existing, (u: Record) => Get(u, Email) == Some(f.email));
    if clash.Some? {
      errors := map["email" := "Email already registered"];
      return;
    }
    var newUser := Account(f, id, createdAt);
    existing := existing + [newUser];
    b.local := b.local[UsersKey := UserList(existing)];
    b.local := b.local[CurrentUserKey := Session(SignUpSession(f, id))];
  }

  /** The account the modal stores is the one the shared `addUser` helper would build, so a
      signed-up user can sign in with the submitted e-mail and password. */
  lemma SignedUpUserSignsIn(users: seq<Record>, f: SignUpForm, id: string, createdAt: string)
    requires !EmailTaken(users, Some(f.email))
    ensures ValidateUser(users + [Account(f, id, createdAt)], f.email, f.password)
            == Success(Account(f, id, createdAt))
  {
    var data := map[FullName := f.fullName, Email := f.email, Password := f.password];
    assert NewUser(data, id, createdAt) == Account(f, id, createdAt);
    AddedUserSignsIn(users, data, id, createdAt);
  }
}
