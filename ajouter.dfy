// The page at /ajouter: a form whose submit checks the fields, posts the
// new apartment and picks the error text by the kind of failure.

module AjouterForm {
  import opened Js
  import Apartments
  import Client

  /** The three text inputs. */
  datatype Values = Values(numApp: string, design: string, loyer: string)

  datatype Verdict = Blocked(notice: Client.Notice) | Send(body: Apartments.ApartmentBody)

  /** The checks of `handleSubmit`: a key blank after trimming, an empty
      design or an empty rent; then a rent that is NaN or not positive.  The
      body is the form with only the key trimmed. */
  function Check(v: Values): Verdict
  {
    if Trim(v.numApp) == "" || v.design == "" || v.loyer == "" then Blocked(Client.FieldsRequiredBang)
    else if Apartments.NotPositive(Str(v.loyer)) then Blocked(Client.RentNotPositive)
    else Send(Apartments.ApartmentBody(Str(Trim(v.numApp)), Str(v.design), Str(v.loyer)))
  }

  /** Each outcome of the checks and when it happens.  The required-field
      check runs first, so a form that fails it gets its text whatever its
      rent; `design` is not trimmed, so a design of spaces is sent. */
  lemma CheckCases(v: Values)
    ensures Check(v) == Blocked(Client.FieldsRequiredBang)
            <==> AllSpace(v.numApp) || v.design == "" || v.loyer == ""
    ensures Check(v) == Blocked(Client.RentNotPositive)
            <==> !AllSpace(v.numApp) && v.design != "" && v.loyer != "" && Apartments.NotPositive(Str(v.loyer))
    ensures Check(v).Send?
            <==> !AllSpace(v.numApp) && v.design != "" && v.loyer != "" && !Apartments.NotPositive(Str(v.loyer))
    ensures Check(v).Send? ==>
              Check(v).body == Apartments.ApartmentBody(Str(Trim(v.numApp)), Str(v.design), Str(v.loyer))
  {
    BlankIffAllSpace(v.numApp);
  }

  /** A body the page sends passes every field check of create; the server
      stores the key as sent (already trimmed), the design untrimmed and the
      rent the text denotes. */
  lemma SentBodyAccepted(v: Values)
    requires Check(v).Send?
    ensures Apartments.CheckCreate(Check(v).body)
            == Apartments.Accept(Apartments.Apartment(Trim(v.numApp), Str(v.design), ToNumber(Str(v.loyer)).value))
  {
    CheckCases(v);
    var n := Trim(v.numApp);
    BlankIffAllSpace(v.numApp);
    TrimIdempotent(v.numApp);
    CreateAccepts(n, v.design, v.loyer);
  }

  lemma CreateAccepts(n: string, d: string, rent: string)
    requires n != "" && Trim(n) == n && d != "" && rent != "" && !Apartments.NotPositive(Str(rent))
    ensures Apartments.CheckCreate(Apartments.ApartmentBody(Str(n), Str(d), Str(rent)))
            == Apartments.Accept(Apartments.Apartment(n, Str(d), ToNumber(Str(rent)).value))
  {
  }

  /** The error text after a rejected POST: an unreachable server, a server
      answer with its `error` or a default, or anything else. */
  function Failure(code: Option<string>, response: Option<Client.Data>): (e: string)
    ensures code == Some("ERR_NETWORK") ==> e == Client.Text(Client.ServerUnreachable)
    ensures code != Some("ERR_NETWORK") && response.None? ==> e == Client.Text(Client.Unexpected)
    ensures code != Some("ERR_NETWORK") && response.Some?
            ==> e == TextOr(response.value.error, Client.Text(Client.ServerError))
  {
    if code == Some("ERR_NETWORK") then Client.Text(Client.ServerUnreachable)
    else if response.Some? then TextOr(response.value.error, Client.Text(Client.ServerError))
    else Client.Text(Client.Unexpected)
  }

  /** Against the server, a form the page sends goes back home exactly when
      its trimmed key was free, and otherwise shows the server's duplicate
      text. */
  lemma OutcomeAgainstServer(t: Apartments.Table, v: Values)
    requires Check(v).Send?
    ensures var answer := Client.ApartmentAnswer(Apartments.CreateSpec(t, Check(v).body).1);
            && (answer.Resolved? <==> Trim(v.numApp) !in t.rows)
            && (answer.Rejected? ==> Failure(answer.code, answer.response) == Apartments.Text(Apartments.Duplicate))
  {
    SentBodyAccepted(v);
    CreateAnswer(t, Check(v).body, Apartments.Apartment(Trim(v.numApp), Str(v.design), ToNumber(Str(v.loyer)).value));
  }

  lemma CreateAnswer(t: Apartments.Table, b: Apartments.ApartmentBody, a: Apartments.Apartment)
    requires Apartments.CheckCreate(b) == Apartments.Accept(a)
    ensures var answer := Client.ApartmentAnswer(Apartments.CreateSpec(t, b).1);
            && (answer.Resolved? <==> a.numApp !in t.rows)
            && (answer.Rejected? ==> Failure(answer.code, answer.response) == Apartments.Text(Apartments.Duplicate))
  {
    var r := Apartments.CreateSpec(t, b).1;
    assert r == if a.numApp in t.rows then Apartments.Fail(400, Apartments.Duplicate) else Apartments.Created(Apartments.CreatedMessage, a);
    if a.numApp in t.rows {
      DuplicateAnswer();
    }
  }

  lemma DuplicateAnswer()
    ensures var answer := Client.ApartmentAnswer(Apartments.Fail(400, Apartments.Duplicate));
            answer.Rejected? && Failure(answer.code, answer.response) == Apartments.Text(Apartments.Duplicate)
  {
    var code := Client.StatusCode(400);
    assert code == "ERR_BAD_REQUEST";
    assert |code| != |"ERR_NETWORK"|;
  }

  class AjouterPage {
    var values: Values
    var error: string
    var loading: bool

    constructor ()
      ensures values == Values("", "", "") && error == "" && !loading
    {
      values := Values("", "", "");
      error := "";
      loading := false;
    }

    /** The inputs' `onChange`: `{ ...values, numApp: ... }` and alike. */
    method SetNumApp(text: string)
      modifies this
      ensures values == old(values).(numApp := text) && error == old(error) && loading == old(loading)
    {
      values := values.(numApp := text);
    }

    method SetDesign(text: string)
      modifies this
      ensures values == old(values).(design := text) && error == old(error) && loading == old(loading)
    {
      values := values.(design := text);
    }

    method SetLoyer(text: string)
      modifies this
      ensures values == old(values).(loyer := text) && error == old(error) && loading == old(loading)
    {
      values := values.(loyer := text);
    }

    /** `handleSubmit`, given the settled POST: the body it sends, whether it
        goes back home, and the error it leaves.  Loading is off on every
        path out. */
    method HandleSubmit(answer: Client.Outcome<Client.Data>)
      returns (request: Option<Apartments.ApartmentBody>, home: bool)
      modifies this
      ensures request == if Check(old(values)).Send? then Some(Check(old(values)).body) else None
      ensures home <==> request.Some? && answer.Resolved?
      ensures values == old(values) && !loading
      ensures Check(old(values)).Blocked? ==> error == Client.Text(Check(old(values)).notice)
      ensures request.Some? && answer.Resolved? ==> error == ""
      ensures request.Some? && answer.Rejected? ==> error == Failure(answer.code, answer.response)
    {
      loading := true;
      error := "";
      request, home := None, false;
      var verdict := Check(values);
      match verdict {
        case Blocked(notice) =>
          error := Client.Text(notice);
          loading := false;
          return;
        case Send(body) =>
          request := Some(body);
      }
      match answer {
        case Resolved(_) =>
          home := true;
        case Rejected(code, response, _) =>
          error := Failure(code, response);
      }
      loading := false;
    }
  }
}
