/** The sign-in modal: validation into an error map, then the credential match and the
    session write chosen by the remember-me box. */
module SignIn {
  import opened Wrappers
  import opened Storage
  import opened UserStore
  import opened Forms

  datatype SignInForm = SignInForm(email: string, password: string, rememberMe: bool)

  type Errors = map<string, string>

  /** `validateForm`. */
  function ValidateForm(f: SignInForm): (errors: Errors)
    ensures errors.Keys <= {"email", "password"}
    ensures "email" in errors <==> !EmailLike(f.email)
    ensures "email" in errors ==>
              errors["email"] == if Blank(f.email) then "Email is required" else "Email is invalid"
    ensures "password" in errors <==> f.password == ""
    ensures "password" in errors ==> errors["password"] == "Password is required"
  {
    EmailLikeNotBlank(f.email);
    var withEmail: Errors :=
      if Blank(f.email) then map["email" := "Email is required"]
      else if !EmailLike(f.email) then map["email" := "Email is invalid"]
      else map[];
    if f.password == "" then withEmail["password" := "Password is required"] else withEmail
  }

  /** The form is accepted exactly when the e-mail matches the pattern and a password is given. */
  lemma ValidIff(f: SignInForm)
    ensures ValidateForm(f) == map[] <==> EmailLike(f.email) && f.password != ""
  {
    if EmailLike(f.email) && f.password != "" {
      assert ValidateForm(f).Keys == {};
    }
  }

  /** `handleSubmit`: an invalid form or unknown credentials write nothing; otherwise the
      password-free session goes to the store the remember-me box selects. */
  method HandleSubmit(b: Browser, f: SignInForm, loginTime: string) returns (errors: Errors)
    modifies b
    ensures ValidateForm(f) != map[] ==>
              errors == ValidateForm(f) && b.local == old(b.local) && b.session == old(b.session)
    ensures ValidateForm(f) == map[] && FindCredentials(StoredUsers(old(b.local)), f.email, f.password).None? ==>
              errors == map["general" := "Invalid email or password"] &&
              b.local == old(b.local) && b.session == old(b.session)
    ensures var found := FindCredentials(StoredUsers(old(b.local)), f.email, f.password);
            ValidateForm(f) == map[] && found.Some? ==>
              var s := SessionData(found.value, loginTime);
              errors == map[] && Password !in s &&
              (f.rememberMe ==> b.local == old(b.local)[CurrentUserKey := Session(s)][RememberMeKey := Text("true")] &&
                                b.session == old(b.session)) &&
              (!f.rememberMe ==> b.session == old(b.session)[CurrentUserKey := Session(s)] &&
                                 b.local == old(b.local) - {RememberMeKey})
  {
    errors := ValidateForm(f);
    if errors != map[] {
      return;
    }
    var users := StoredUsers(b.local);
    var found := FindCredentials(users, f.email, f.password);
    if found.None? {
      errors := map["general" := "Invalid email or password"];
      return;
    }
    var sessionData := SessionData(found.value, loginTime);
    StartSession(b, sessionData, f.rememberMe);
  }
}
