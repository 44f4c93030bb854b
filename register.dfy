// The registration page: one form object updated field by field, a
// confirmation check before anything is sent, then POST /register.

module RegisterForm {
  import opened Js
  import Users
  import Client

  datatype FormData = FormData(username: string, password: string, confirmPassword: string, email: string)

  /** The `name` attributes of the four inputs. */
  datatype Name = Username | Password | ConfirmPassword | Email

  function FieldOf(f: FormData, n: Name): string
  {
    match n
    case Username => f.username
    case Password => f.password
    case ConfirmPassword => f.confirmPassword
    case Email => f.email
  }

  /** `{ ...formData, [e.target.name]: e.target.value }`: the named field
      takes the value and every other field is kept. */
  function WithField(f: FormData, n: Name, value: string): (g: FormData)
    ensures forall m :: FieldOf(g, m) == if m == n then value else FieldOf(f, m)
  {
    match n
    case Username => f.(username := value)
    case Password => f.(password := value)
    case ConfirmPassword => f.(confirmPassword := value)
    case Email => f.(email := value)
  }

  /** The body of the POST: the confirmation stays on the page. */
  function Body(f: FormData): Users.RegisterBody
  {
    Users.RegisterBody(f.username, f.password, f.email)
  }

  /** The error left by a rejected POST. */
  function Failure(response: Option<Client.Data>): string
  {
    Client.ServerErrorOr(response, Client.Text(Client.RegisterFailed))
  }

  /** Against the server, a confirmed form leads to the login page exactly
      when the account was created, and that account then logs in with the
      password typed twice; a refusal shows the server's own text. */
  lemma OutcomeAgainstServer(c: Users.Crypto, a: Users.Accounts, f: FormData, salt: nat)
    requires Users.Sound(c) && Users.Consistent(a)
    requires f.password == f.confirmPassword
    ensures var (a', reply) := Users.RegisterSpec(c, a, Body(f), salt);
            var answer := Client.UserAnswer(reply);
            && (answer.Resolved? <==> reply.Created?)
            && (answer.Resolved? ==> Users.LoginSpec(c, a', f.username, f.confirmPassword).LoggedIn?)
            && (answer.Rejected? ==> Failure(answer.response) == Users.Text(reply.error))
  {
    var reply := Users.RegisterSpec(c, a, Body(f), salt).1;
    Users.RegisterCorrect(c, a, Body(f), salt);
    if reply.Created? {
      Users.RegisterThenLogin(c, a, Body(f), salt);
    } else {
      assert reply == Users.Fail(400, Users.MissingFields) || reply == Users.Fail(400, Users.AlreadyUsed);
    }
  }

  class RegisterPage {
    var formData: FormData
    var error: string
    var isLoading: bool

    constructor ()
      ensures formData == FormData("", "", "", "") && error == "" && !isLoading
    {
      formData := FormData("", "", "", "");
      error := "";
      isLoading := false;
    }

    /** `handleChange` */
    method HandleChange(name: Name, value: string)
      modifies this
      ensures formData == WithField(old(formData), name, value)
      ensures error == old(error) && isLoading == old(isLoading)
    {
      formData := WithField(formData, name, value);
    }

    /** `handleSubmit`, given the settled POST: the body it sends unless the
        two passwords differ, whether it goes on to the login page, and the
        error it leaves; loading is off afterwards. */
    method HandleSubmit(answer: Client.Outcome<Client.Data>)
      returns (request: Option<Users.RegisterBody>, toLogin: bool)
      modifies this
      ensures request.Some? <==> old(formData).password == old(formData).confirmPassword
      ensures request.Some? ==> request.value == Body(old(formData))
      ensures toLogin <==> request.Some? && answer.Resolved?
      ensures request.None? ==> error == Client.Text(Client.PasswordsDiffer)
      ensures request.Some? && answer.Resolved? ==> error == ""
      ensures request.Some? && answer.Rejected? ==> error == Failure(answer.response)
      ensures formData == old(formData) && !isLoading
    {
      error := "";
      isLoading := true;
      request, toLogin := None, false;
      if formData.password != formData.confirmPassword {
        error := Client.Text(Client.PasswordsDiffer);
        isLoading := false;
        return;
      }
      request := Some(Users.RegisterBody(formData.username, formData.password, formData.email));
      match answer {
        case Resolved(_) =>
          toLogin := true;
        case Rejected(_, response, _) =>
          error := Client.ServerErrorOr(response, Client.Text(Client.RegisterFailed));
      }
      isLoading := false;
    }
  }
}
