// The profile page: the form filled from the stored user, the check of the
// new password's confirmation, PUT /update-profile with the stored token,
// and what the page writes back to the browser's storage.

module ProfileForm {
  import opened Js
  import Users
  import Client

  datatype UserData = UserData(
    username: string, email: string, currentPassword: string, newPassword: string, confirmPassword: string)

  /** The `name` attributes of the five inputs. */
  datatype Name = Username | Email | CurrentPassword | NewPassword | ConfirmPassword

  function FieldOf(d: UserData, n: Name): string
  {
    match n
    case Username => d.username
    case Email => d.email
    case CurrentPassword => d.currentPassword
    case NewPassword => d.newPassword
    case ConfirmPassword => d.confirmPassword
  }

  /** `prev => ({ ...prev, [name]: value })` */
  function WithField(d: UserData, n: Name, value: string): (e: UserData)
    ensures forall m :: FieldOf(e, m) == if m == n then value else FieldOf(d, m)
  {
    match n
    case Username => d.(username := value)
    case Email => d.(email := value)
    case CurrentPassword => d.(currentPassword := value)
    case NewPassword => d.(newPassword := value)
    case ConfirmPassword => d.(confirmPassword := value)
  }

  /** A string field of the stored user object; a missing or non-string
      field reads as the empty text. */
  function StoredText(u: map<string, Value>, key: string): (s: string)
    ensures key in u && u[key].Str? ==> s == u[key].s
  {
    if key in u && u[key].Str? then u[key].s else ""
  }

  /** The header the page sends: the stored token, or the text `null` when
      there is none. */
  function Authorization(token: Option<string>): string
  {
    "Bearer " + (if token.Some? then token.value else "null")
  }

  /** What PUT /update-profile sends.  The body also carries `email`; the
      route reads only the other three fields. */
  datatype Request = Request(authorization: string, username: string, email: string, newPassword: string, currentPassword: string)

  function ServerBody(r: Request): Users.ProfileBody
  {
    Users.ProfileBody(r.username, r.newPassword, r.currentPassword)
  }

  function RequestOf(token: Option<string>, d: UserData): Request
  {
    Request(Authorization(token), d.username, d.email, d.newPassword, d.currentPassword)
  }

  /** `{ ...JSON.parse(localStorage.getItem('user')), username, email }`:
      the stored user, or an empty object when there is none, with the two
      typed fields written over it. */
  function Merged(user: Option<map<string, Value>>, d: UserData): (u: map<string, Value>)
    ensures u.Keys == (if user.Some? then user.value.Keys else {}) + {"username", "email"}
    ensures u["username"] == Str(d.username) && u["email"] == Str(d.email)
    ensures forall k :: k in u && k != "username" && k != "email" ==> user.Some? && u[k] == user.value[k]
  {
    (if user.Some? then user.value else map[])["username" := Str(d.username)]["email" := Str(d.email)]
  }

  /** A stored token that login signed authenticates as the account it was
      signed for. */
  lemma StoredTokenAuthenticates(c: Users.Crypto, claims: Users.Claims)
    requires Users.Sound(c)
    ensures Users.Authenticate(c, Some(Authorization(Some(c.sign(claims))))) == Users.Authenticated(claims)
  {
    Users.BearerRoundTrip(c.sign(claims));
  }

  /** With no stored token the header still carries a token, the text
      `null`: the server answers that it is invalid (403), not missing
      (401). */
  lemma NoTokenIsInvalid(c: Users.Crypto, a: Users.Accounts, b: Users.ProfileBody, salt: nat)
    requires c.verify("null").None?
    ensures Users.UpdateProfileSpec(c, a, Some(Authorization(None)), b, salt)
            == (a, Users.Fail(403, Users.TokenInvalid))
  {
    Users.BearerRoundTrip("null");
  }

  /** A saved profile never changes the account's email: the typed email is
      written to the browser's storage only, while the row and the reply
      keep the stored one. */
  lemma EmailNeverSaved(c: Users.Crypto, a: Users.Accounts, r: Request, salt: nat)
    requires Users.Consistent(a)
    requires Users.UpdateProfileSpec(c, a, Some(r.authorization), ServerBody(r), salt).1.ProfileSaved?
    ensures var (a', reply) := Users.UpdateProfileSpec(c, a, Some(r.authorization), ServerBody(r), salt);
            && reply.user.id in a.byId
            && a'.byId[reply.user.id].email == a.byId[reply.user.id].email == reply.user.email
            && (r.email != a.byId[reply.user.id].email ==> a'.byId[reply.user.id].email != r.email)
  {
    Users.UpdateProfileCorrect(c, a, Some(r.authorization), ServerBody(r), salt);
  }

  class ProfilePage {
    var userData: UserData
    var error: string
    var success: string
    var isLoading: bool
    var showLogoutModal: bool
    /** `localStorage`: the token and the user object saved at login. */
    var token: Option<string>
    var user: Option<map<string, Value>>

    /** The page mounts with an empty form over the browser's storage. */
    constructor (token: Option<string>, user: Option<map<string, Value>>)
      ensures userData == UserData("", "", "", "", "")
      ensures error == "" && success == "" && !isLoading && !showLogoutModal
      ensures this.token == token && this.user == user
    {
      userData := UserData("", "", "", "", "");
      error, success := "", "";
      isLoading, showLogoutModal := false, false;
      this.token, this.user := token, user;
    }

    /** The mount effect: a stored user fills the name and the email. */
    method Load()
      modifies this
      ensures user.Some? ==> userData == old(userData).(username := StoredText(user.value, "username"),
                                                         email := StoredText(user.value, "email"))
      ensures user.None? ==> userData == old(userData)
      ensures error == old(error) && success == old(success) && isLoading == old(isLoading)
      ensures showLogoutModal == old(showLogoutModal) && token == old(token) && user == old(user)
    {
      if user.Some? {
        userData := userData.(username := StoredText(user.value, "username"), email := StoredText(user.value, "email"));
      }
    }

    /** `handleChange` */
    method HandleChange(name: Name, value: string)
      modifies this
      ensures userData == WithField(old(userData), name, value)
      ensures error == old(error) && success == old(success) && isLoading == old(isLoading)
      ensures showLogoutModal == old(showLogoutModal) && token == old(token) && user == old(user)
    {
      userData := WithField(userData, name, value);
    }

    /** `handleSubmit`, given the settled PUT: the request unless the new
        password and its confirmation differ; on success the message, the
        stored user merged with the typed name and email, and the three
        password fields emptied; on failure the server's error or a default.
        Loading is off afterwards. */
    method HandleSubmit(answer: Client.Outcome<Client.Data>) returns (request: Option<Request>)
      modifies this
      ensures request.Some? <==> old(userData).newPassword == old(userData).confirmPassword
      ensures request.Some? ==> request.value == RequestOf(old(token), old(userData))
      ensures request.None? ==> error == Client.Text(Client.PasswordsDiffer) && success == ""
                                && userData == old(userData) && user == old(user)
      ensures request.Some? && answer.Resolved? ==>
                && success == Client.Text(Client.ProfileSaved) && error == ""
                && user == Some(Merged(old(user), old(userData)))
                && userData == old(userData).(newPassword := "", confirmPassword := "", currentPassword := "")
      ensures request.Some? && answer.Rejected? ==>
                && error == Client.ServerErrorOr(answer.response, Client.Text(Client.ProfileFailed)) && success == ""
                && userData == old(userData) && user == old(user)
      ensures token == old(token) && showLogoutModal == old(showLogoutModal) && !isLoading
    {
      error, success := "", "";
      isLoading := true;
      request := None;
      if userData.newPassword != userData.confirmPassword {
        error := Client.Text(Client.PasswordsDiffer);
        isLoading := false;
        return;
      }
      request := Some(RequestOf(token, userData));
      match answer {
        case Resolved(_) =>
          success := Client.Text(Client.ProfileSaved);
          user := Some(Merged(user, userData));
          userData := userData.(newPassword := "", confirmPassword := "", currentPassword := "");
        case Rejected(_, response, _) =>
          error := Client.ServerErrorOr(response, Client.Text(Client.ProfileFailed));
      }
      isLoading := false;
    }

    /** `handleLogout` asks for confirmation. */
    method HandleLogout()
      modifies this
      ensures showLogoutModal
      ensures userData == old(userData) && error == old(error) && success == old(success)
      ensures isLoading == old(isLoading) && token == old(token) && user == old(user)
    {
      showLogoutModal := true;
    }

    /** `confirmLogout` empties the storage; the caller then goes to the
        login page. */
    method ConfirmLogout()
      modifies this
      ensures token.None? && user.None?
      ensures userData == old(userData) && error == old(error) && success == old(success)
      ensures isLoading == old(isLoading) && showLogoutModal == old(showLogoutModal)
    {
      token, user := None, None;
    }
  }
}
