/**
 * frontend/app/signup/page.jsx: the form record, the guard chain a submit
 * runs before calling the signup mutation, and what a completed signup
 * stores. validateEmail and validateUsername (frontend/lib/utils.js) are
 * parameters.
 */
module SignupPage {
  import opened Wrappers
  import opened Browser

  const EmailError := "Please enter a valid email address"
  const UsernameError := "Username must be 3-20 characters and contain only letters, numbers, and underscores"
  const PasswordError := "Password must be at least 6 characters"
  const MinPasswordLength := 6

  /** The four named inputs of the form. */
  const FieldNames: set<string> := {"username", "email", "password", "displayName"}

  /** handleChange: the named field takes the input's value; every other field keeps its own. */
  function HandleChange(form: map<string, string>, name: string, value: string): (next: map<string, string>)
    ensures name in next && next[name] == value
    ensures forall k :: k != name ==> (k in next <==> k in form)
    ensures forall k :: k != name && k in form ==> next[k] == form[k]
  {
    form[name := value]
  }

  class SignupPage {
    var formData: map<string, string>
    var error: string

    /** Every named input has a value in the form record. */
    predicate Valid()
      reads this
    {
      forall f :: f in FieldNames ==> f in formData
    }

    constructor ()
      ensures Valid() && error == ""
      ensures formData == map["username" := "", "email" := "", "password" := "", "displayName" := ""]
    {
      formData := map["username" := "", "email" := "", "password" := "", "displayName" := ""];
      error := "";
    }

    /** An input's change event. */
    method Change(name: string, value: string)
      requires Valid()
      modifies this
      ensures Valid()
      ensures formData == HandleChange(old(formData), name, value) && error == old(error)
    {
      formData := HandleChange(formData, name, value);
    }

    /**
     * handleSignup: the error is cleared, then email, username and password
     * are checked in that order; the first failure sets its message and
     * nothing is sent. Only when all three pass is the mutation called,
     * with the form record unchanged.
     */
    method HandleSignup(validateEmail: string -> bool, validateUsername: string -> bool)
      returns (sent: Option<map<string, string>>)
      requires Valid()
      modifies this
      ensures formData == old(formData)
      ensures !validateEmail(formData["email"]) ==> error == EmailError && sent.None?
      ensures validateEmail(formData["email"]) && !validateUsername(formData["username"]) ==>
        error == UsernameError && sent.None?
      ensures validateEmail(formData["email"]) && validateUsername(formData["username"]) &&
              |formData["password"]| < MinPasswordLength ==>
        error == PasswordError && sent.None?
      ensures sent.Some? <==>
        validateEmail(formData["email"]) && validateUsername(formData["username"]) &&
        |formData["password"]| >= MinPasswordLength
      ensures sent.Some? ==> sent.value == formData && error == ""
    {
      error := "";
      if !validateEmail(formData["email"]) {
        error := EmailError;
        return None;
      }
      if !validateUsername(formData["username"]) {
        error := UsernameError;
        return None;
      }
      if |formData["password"]| < MinPasswordLength {
        error := PasswordError;
        return None;
      }
      sent := Some(formData);
    }
  }

  /** onCompleted: the two tokens and the user's JSON go under the three session keys. */
  method OnCompleted(storage: LocalStorage, accessToken: string, refreshToken: string, userJson: string)
    modifies storage
    ensures storage.items == old(storage.items)[AccessTokenKey := accessToken][RefreshTokenKey := refreshToken][UserKey := userJson]
    ensures forall k :: k in SessionKeys ==> storage.GetItem(k).Some?
  {
    storage.StoreSession(accessToken, refreshToken, userJson);
  }

  /** A password of five characters never reaches the server, whatever the other fields hold. */
  method ShortPasswordScenario(validateEmail: string -> bool, validateUsername: string -> bool)
    returns (sent: Option<map<string, string>>)
    ensures sent.None?
  {
    var page := new SignupPage();
    page.Change("password", "12345");
    sent := page.HandleSignup(validateEmail, validateUsername);
  }
}
