// The add page: three controlled inputs, a rent input that refuses any text
// that is not a non-negative number, and a submit that posts the rent as a
// number and checks the server's acknowledgement.

module AddForm {
  import opened Js
  import Apartments
  import Client

  /** The texts the rent input lets through: the empty text, or a text whose
      Number() is not NaN and not negative. */
  predicate Admissible(value: string)
  {
    value == "" || (ToNumber(Str(value)).Some? && ToNumber(Str(value)).value >= 0.0)
  }

  /** The empty text needs no disjunct of its own: Number("") is 0. */
  lemma AdmissibleIffNonNegative(value: string)
    ensures Admissible(value) <==> ToNumber(Str(value)).Some? && ToNumber(Str(value)).value >= 0.0
  {
    if value == "" {
      assert AllSpace(value);
    }
  }

  /** The body of the POST: the key and design as typed, the rent as the
      number `Number(loyer)`, which JSON writes as null when it is NaN. */
  function Body(numApp: string, design: string, loyer: string): Apartments.ApartmentBody
  {
    Apartments.ApartmentBody(Str(numApp), Str(design), Wire(NumberValue(Str(loyer))))
  }

  /** For a rent the input let through, the body's rent is that non-negative
      number; an empty rent is sent as 0. */
  lemma BodyRent(numApp: string, design: string, loyer: string)
    requires Admissible(loyer)
    ensures Body(numApp, design, loyer).loyer == Num(ToNumber(Str(loyer)).value)
    ensures ToNumber(Str(loyer)).value >= 0.0
    ensures loyer == "" ==> Body(numApp, design, loyer).loyer == Num(0.0)
  {
    AdmissibleIffNonNegative(loyer);
    if loyer == "" {
      assert AllSpace(loyer);
    }
  }

  /** With a rent the input let through, the server never answers with its
      positivity error: a zero rent is a falsy field and is refused as
      missing, any other rent is positive. */
  lemma NeverBadRent(numApp: string, design: string, loyer: string)
    requires Admissible(loyer)
    ensures Apartments.CheckCreate(Body(numApp, design, loyer)) != Apartments.Reject(Apartments.Fail(400, Apartments.BadRent))
    ensures ToNumber(Str(loyer)) == Some(0.0) && design != "" && !AllSpace(numApp)
            ==> Apartments.CheckCreate(Body(numApp, design, loyer))
                == Apartments.Reject(Apartments.Fail(400, Apartments.CreateMissing))
  {
    BodyRent(numApp, design, loyer);
  }

  /** An empty rent reaches the server as 0 and is refused as a missing
      field. */
  lemma EmptyRentMissing(numApp: string, design: string)
    requires !AllSpace(numApp) && design != ""
    ensures Apartments.CheckCreate(Body(numApp, design, ""))
            == Apartments.Reject(Apartments.Fail(400, Apartments.CreateMissing))
  {
    BodyRent(numApp, design, "");
    Apartments.ZeroRentMissing(numApp, Str(design));
  }

  /** The error a settled POST leaves: none after the acknowledgement, the
      resolved data's `error` or a default, the server's `error` or another
      default after a rejection. */
  function Settled(answer: Client.Outcome<Client.Data>): (e: string)
    ensures Client.Acknowledges(answer, Apartments.CreatedMessage) ==> e == ""
    ensures answer.Resolved? && !Client.Acknowledges(answer, Apartments.CreatedMessage)
            ==> e == TextOr(answer.data.error, Client.Text(Client.AddFailed))
    ensures answer.Rejected? ==> e == Client.ServerErrorOr(answer.response, Client.Text(Client.AddRequestFailed))
  {
    match answer
    case Resolved(data) =>
      if data.message == Some(Apartments.Text(Apartments.CreatedMessage)) then ""
      else TextOr(data.error, Client.Text(Client.AddFailed))
    case Rejected(_, response, _) => Client.ServerErrorOr(response, Client.Text(Client.AddRequestFailed))
  }

  /** Against the server, the page goes home exactly when the row was
      created; a refusal shows the server's own error text, and a server
      crash the default. */
  lemma OutcomeAgainstServer(t: Apartments.Table, b: Apartments.ApartmentBody)
    ensures var reply := Apartments.CreateSpec(t, b).1;
            var answer := Client.ApartmentAnswer(reply);
            && (Client.Acknowledges(answer, Apartments.CreatedMessage) <==> reply.Created?)
            && (reply.Fail? ==> Settled(answer) == Apartments.Text(reply.error))
            && (reply.Crash? ==> Settled(answer) == Client.Text(Client.AddRequestFailed))
  {
    var reply := Apartments.CreateSpec(t, b).1;
    assert reply.Fail? || reply.Crash? || reply == Apartments.Created(Apartments.CreatedMessage, reply.apartment);
    if reply.Fail? {
      MessageNotEmpty(reply.error);
    }
  }

  lemma MessageNotEmpty(m: Apartments.Message)
    ensures Apartments.Text(m) != ""
  {
  }

  class AddPage {
    var numApp: string
    var design: string
    var loyer: string
    var error: string
    var loading: bool

    /** The rent input only ever holds a text it let through. */
    predicate Valid()
      reads this
    {
      Admissible(loyer)
    }

    constructor ()
      ensures Valid()
      ensures numApp == "" && design == "" && loyer == "" && error == "" && !loading
    {
      numApp, design, loyer := "", "", "";
      error := "";
      loading := false;
    }

    method SetNumApp(value: string)
      modifies this
      ensures numApp == value && design == old(design) && loyer == old(loyer)
      ensures error == old(error) && loading == old(loading)
    {
      numApp := value;
    }

    method SetDesign(value: string)
      modifies this
      ensures design == value && numApp == old(numApp) && loyer == old(loyer)
      ensures error == old(error) && loading == old(loading)
    {
      design := value;
    }

    /** The rent input's `onChange`: an admissible text replaces the rent,
        any other keystroke leaves it as it was. */
    method LoyerChange(value: string)
      requires Valid()
      modifies this
      ensures Valid()
      ensures loyer == if Admissible(value) then value else old(loyer)
      ensures numApp == old(numApp) && design == old(design)
      ensures error == old(error) && loading == old(loading)
    {
      if value == "" || (ToNumber(Str(value)).Some? && ToNumber(Str(value)).value >= 0.0) {
        loyer := value;
      }
    }

    /** `handleSubmit`, given the settled POST: the body it sends, whether it
        goes home, and the error it leaves; loading is off afterwards. */
    method HandleSubmit(answer: Client.Outcome<Client.Data>)
      returns (request: Apartments.ApartmentBody, home: bool)
      requires Valid()
      modifies this
      ensures Valid()
      ensures request == Body(numApp, design, loyer)
      ensures request.loyer.Num? && request.loyer.x >= 0.0
      ensures home <==> Client.Acknowledges(answer, Apartments.CreatedMessage)
      ensures error == Settled(answer) && !loading
      ensures numApp == old(numApp) && design == old(design) && loyer == old(loyer)
    {
      error := "";
      loading := true;
      BodyRent(numApp, design, loyer);
      request := Apartments.ApartmentBody(Str(numApp), Str(design), Wire(NumberValue(Str(loyer))));
      home := false;
      match answer {
        case Resolved(data) =>
          if data.message == Some(Apartments.Text(Apartments.CreatedMessage)) {
            home := true;
          } else {
            error := TextOr(data.error, Client.Text(Client.AddFailed));
          }
        case Rejected(_, response, _) =>
          error := Client.ServerErrorOr(response, Client.Text(Client.AddRequestFailed));
      }
      loading := false;
    }
  }
}
