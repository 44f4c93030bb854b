// The edit page at /update/:numApp: it loads the row, lets the user edit the
// three fields, checks them and sends the PUT to the key it was opened on.

module UpdateForm {
  import opened Js
  import Apartments
  import Client

  /** The form state; after loading, the fields hold the JSON values of the
      row, after typing the text of the input. */
  datatype Fields = Fields(numApp: Value, design: Value, loyer: Value)

  /** The inputs, named by their `id`. */
  datatype Id = NumAppId | DesignId | LoyerId

  function FieldOf(f: Fields, id: Id): Value
  {
    match id
    case NumAppId => f.numApp
    case DesignId => f.design
    case LoyerId => f.loyer
  }

  /** `{ ...prev, [id]: value }` */
  function WithField(f: Fields, id: Id, value: string): (r: Fields)
    ensures forall n :: FieldOf(r, n) == if n == id then Str(value) else FieldOf(f, n)
  {
    match id
    case NumAppId => f.(numApp := Str(value))
    case DesignId => f.(design := Str(value))
    case LoyerId => f.(loyer := Str(value))
  }

  const Empty := Fields(Str(""), Str(""), Str(""))

  /** The form filled from the first row: every field `data.x || ''`. */
  function Filled(a: Apartments.Apartment): (f: Fields)
    ensures f.numApp == Str(a.numApp)
    ensures f.design == if Truthy(a.design) then a.design else Str("")
    ensures f.loyer == if a.loyer != 0.0 then Num(a.loyer) else Str("")
  {
    Fields(OrElse(Str(a.numApp), Str("")), OrElse(a.design, Str("")), OrElse(Num(a.loyer), Str("")))
  }

  /** What `fetchAppartement` makes of the settled GET: the first row fills
      the form; an empty result throws 'Appartement non trouvé'; a rejection
      shows the server's error, else the error's own message, else a
      default. */
  function Loaded(res: Client.Outcome<seq<Apartments.Apartment>>): (r: (Option<Fields>, string))
    ensures r.0.Some? <==> res.Resolved? && res.data != []
    ensures r.0.Some? ==> r.0.value == Filled(res.data[0]) && r.1 == ""
    ensures res.Resolved? && res.data == [] ==> r.1 == Client.Text(Client.ApartmentNotFound)
    ensures res.Rejected? ==> r.1 == Client.ServerErrorOr(res.response, TextOr(Some(res.message), Client.Text(Client.LoadFailed)))
  {
    match res
    case Resolved(rows) =>
      if |rows| > 0 then (Some(Filled(rows[0])), "") else (None, Client.Text(Client.ApartmentNotFound))
    case Rejected(_, response, message) =>
      (None, Client.ServerErrorOr(response, TextOr(Some(message), Client.Text(Client.LoadFailed))))
  }

  /** How the GET of a row reaches the page. */
  function GetAnswer(r: Apartments.Reply): Client.Outcome<seq<Apartments.Apartment>>
  {
    match r
    case Rows(rows) => Client.Resolved(rows)
    case _ =>
      var o := Client.ApartmentAnswer(r);
      if o.Rejected? then Client.Rejected(o.code, o.response, o.message) else Client.Resolved([])
  }

  /** Loading a key the table holds fills the form from its row.  The page
      writes its key unescaped after `/appartement/`; a URL-safe key is the
      one the server reads. */
  lemma LoadFound(t: Apartments.Table, key: string)
    requires Client.UrlSafe(key)
    requires !AllSpace(key) && key in t.rows
    ensures Loaded(GetAnswer(Apartments.GetSpec(t, key))) == (Some(Filled(t.rows[key])), "")
  {
    var row := t.rows[key];
    assert Apartments.GetSpec(t, key) == Apartments.Rows([row]);
    assert GetAnswer(Apartments.Rows([row])) == Client.Resolved([row]);
  }

  /** Loading a key the table lacks shows the server's 404 text. */
  lemma LoadMissing(t: Apartments.Table, key: string)
    requires Client.UrlSafe(key)
    requires !AllSpace(key) && key !in t.rows
    ensures Loaded(GetAnswer(Apartments.GetSpec(t, key))) == (None, Apartments.Text(Apartments.NotFound))
  {
    var text := Apartments.Text(Apartments.NotFound);
    assert Apartments.GetSpec(t, key) == Apartments.Fail(404, Apartments.NotFound);
    var o := GetAnswer(Apartments.Fail(404, Apartments.NotFound));
    assert o.Rejected? && o.response == Some(Client.Data(None, Some(text)));
    assert text != "" by {
      assert text[0] == 'A';
    }
  }

  /** The outcome of the checks of `handleUpdate`. */
  datatype Verdict = Throws | Blocked(notice: Client.Notice) | Send(body: Apartments.ApartmentBody)

  /** `handleUpdate`'s checks, in order: a key, then a design, blank after
      trimming; then a rent that is NaN or not positive.  Trimming a field
      that is not a string throws.  The body carries both fields trimmed and
      the rent as a number. */
  function Check(f: Fields): (v: Verdict)
  {
    match TrimValue(f.numApp)
    case None => Throws
    case Some(n) =>
      if n == "" then Blocked(Client.FieldsRequired)
      else
        match TrimValue(f.design)
        case None => Throws
        case Some(d) =>
          if d == "" then Blocked(Client.FieldsRequired)
          else if Apartments.NotPositive(f.loyer) then Blocked(Client.RentNotPositive)
          else Send(Apartments.ApartmentBody(Str(n), Str(d), Num(ToNumber(f.loyer).value)))
  }

  /** Each outcome of the checks and when it happens: the field check comes
      first and stops the rent check, and only a form with both texts
      non-blank and a positive rent is sent, both texts trimmed. */
  lemma CheckCases(f: Fields)
    ensures Check(f) == Throws <==> !f.numApp.Str? || (!AllSpace(f.numApp.s) && !f.design.Str?)
    ensures Check(f) == Blocked(Client.FieldsRequired)
            <==> f.numApp.Str? && (AllSpace(f.numApp.s) || (f.design.Str? && AllSpace(f.design.s)))
    ensures Check(f) == Blocked(Client.RentNotPositive)
            <==> f.numApp.Str? && f.design.Str? && !AllSpace(f.numApp.s) && !AllSpace(f.design.s)
                 && Apartments.NotPositive(f.loyer)
    ensures Check(f).Send?
            <==> f.numApp.Str? && f.design.Str? && !AllSpace(f.numApp.s) && !AllSpace(f.design.s)
                 && !Apartments.NotPositive(f.loyer)
    ensures Check(f).Send? ==>
              Check(f).body == Apartments.ApartmentBody(Str(Trim(f.numApp.s)), Str(Trim(f.design.s)),
                                                        Num(ToNumber(f.loyer).value))
              && ToNumber(f.loyer).value > 0.0
  {
    if f.numApp.Str? { BlankIffAllSpace(f.numApp.s); }
    if f.design.Str? { BlankIffAllSpace(f.design.s); }
  }

  /** A body the page sends passes every field check of the server, which
      stores the trimmed key, the trimmed design and the rent. */
  lemma SentBodyAccepted(f: Fields)
    requires Check(f).Send?
    ensures Apartments.CheckUpdate(Check(f).body)
            == Apartments.Accept(Apartments.Apartment(Trim(f.numApp.s), Str(Trim(f.design.s)), ToNumber(f.loyer).value))
  {
    var n, d, x := Trim(f.numApp.s), Trim(f.design.s), ToNumber(f.loyer).value;
    assert Check(f).body == Apartments.ApartmentBody(Str(n), Str(d), Num(x)) && n != "" && x > 0.0;
    TrimIdempotent(f.numApp.s);
    BodyAccepted(n, d, x);
  }

  /** The server accepts a trimmed, non-blank key with a design and a
      positive rent as they are. */
  lemma BodyAccepted(n: string, d: string, x: real)
    requires n != "" && Trim(n) == n && d != "" && x > 0.0
    ensures Apartments.CheckUpdate(Apartments.ApartmentBody(Str(n), Str(d), Num(x)))
            == Apartments.Accept(Apartments.Apartment(n, Str(d), x))
  {
  }

  /** The error `handleUpdate` leaves after the PUT settles: none for the
      exact acknowledgement; for another answer the Error it throws itself;
      for a rejection the server's error, else the error's message, else a
      default. */
  function Settled(answer: Client.Outcome<Client.Data>): (e: string)
    ensures Client.Acknowledges(answer, Apartments.ModifiedMessage) ==> e == ""
    ensures answer.Resolved? && !Client.Acknowledges(answer, Apartments.ModifiedMessage)
            ==> e == Client.Text(Client.UpdateNotApplied)
    ensures answer.Rejected?
            ==> e == Client.ServerErrorOr(answer.response, TextOr(Some(answer.message), Client.Text(Client.UpdateFailed)))
  {
    match answer
    case Resolved(data) =>
      if data.message == Some(Apartments.Text(Apartments.ModifiedMessage)) then ""
      else Client.Text(Client.UpdateNotApplied)
    case Rejected(_, response, message) =>
      Client.ServerErrorOr(response, TextOr(Some(message), Client.Text(Client.UpdateFailed)))
  }

  /** Against the server, a body the page sends is acknowledged, and the page
      goes back home, exactly when the server applied the update: the old
      key exists and the new key is either the same or free.  `key` is the
      page's key, which it writes unescaped after `/update/`; a URL-safe key
      is the one the server reads. */
  lemma SuccessIffApplied(t: Apartments.Table, key: string, f: Fields)
    requires Client.UrlSafe(key)
    requires Check(f).Send?
    ensures var reply := Apartments.UpdateSpec(t, key, Check(f).body).1;
            Client.Acknowledges(Client.ApartmentAnswer(reply), Apartments.ModifiedMessage)
            <==> key in t.rows && (Trim(f.numApp.s) == key || Trim(f.numApp.s) !in t.rows)
    ensures var reply := Apartments.UpdateSpec(t, key, Check(f).body).1;
            Client.Acknowledges(Client.ApartmentAnswer(reply), Apartments.ModifiedMessage)
            <==> reply.Modified?
  {
    SentBodyAccepted(f);
    var a := Apartments.Apartment(Trim(f.numApp.s), Str(Trim(f.design.s)), ToNumber(f.loyer).value);
    AcceptedUpdateAnswer(t, key, Check(f).body, a);
  }

  /** For a body that passes the field checks, the page sees the
      acknowledgement exactly when the server applied the update. */
  lemma AcceptedUpdateAnswer(t: Apartments.Table, key: string, b: Apartments.ApartmentBody, a: Apartments.Apartment)
    requires Apartments.CheckUpdate(b) == Apartments.Accept(a)
    ensures var reply := Apartments.UpdateSpec(t, key, b).1;
            && (Client.Acknowledges(Client.ApartmentAnswer(reply), Apartments.ModifiedMessage)
                <==> key in t.rows && (a.numApp == key || a.numApp !in t.rows))
            && (Client.Acknowledges(Client.ApartmentAnswer(reply), Apartments.ModifiedMessage) <==> reply.Modified?)
  {
    var reply := Apartments.UpdateSpec(t, key, b).1;
    if key in t.rows && (a.numApp == key || a.numApp !in t.rows) {
      assert reply == Apartments.Modified(Apartments.ModifiedMessage, a);
    } else {
      assert reply.Fail?;
    }
  }

  class UpdatePage {
    /** The route parameter: the key the page was opened on. */
    const key: string
    var form: Fields
    var error: string
    var loading: bool
    var initialLoad: bool

    constructor (key: string)
      ensures this.key == key && form == Empty && error == "" && !loading && initialLoad
    {
      this.key := key;
      form := Empty;
      error := "";
      loading := false;
      initialLoad := true;
    }

    /** `fetchAppartement`, given the settled GET of `key`. */
    method Fetch(res: Client.Outcome<seq<Apartments.Apartment>>)
      modifies this
      ensures form == if Loaded(res).0.Some? then Loaded(res).0.value else old(form)
      ensures error == Loaded(res).1
      ensures !loading && !initialLoad
    {
      loading := true;
      error := "";
      match res {
        case Resolved(rows) =>
          if |rows| > 0 {
            form := Filled(rows[0]);
          } else {
            error := Client.Text(Client.ApartmentNotFound);
          }
        case Rejected(_, response, message) =>
          error := Client.ServerErrorOr(response, TextOr(Some(message), Client.Text(Client.LoadFailed)));
      }
      loading := false;
      initialLoad := false;
    }

    /** `handleInputChange` */
    method HandleInputChange(id: Id, value: string)
      modifies this
      ensures form == WithField(old(form), id, value)
      ensures error == old(error) && loading == old(loading) && initialLoad == old(initialLoad)
    {
      form := WithField(form, id, value);
    }

    /** `handleUpdate`, given the settled PUT: the request it sends, to the
        key the page was opened on written unescaped after `/update/`,
        whether it goes back home, and the new error and loading state. */
    method HandleUpdate(answer: Client.Outcome<Client.Data>)
      returns (request: Option<(string, Apartments.ApartmentBody)>, home: bool)
      modifies this
      ensures request == if Check(old(form)).Send? then Some((key, Check(old(form)).body)) else None
      ensures home <==> request.Some? && Client.Acknowledges(answer, Apartments.ModifiedMessage)
      ensures form == old(form) && initialLoad == old(initialLoad)
      ensures Check(old(form)) == Throws ==> error == old(error) && loading == old(loading)
      ensures Check(old(form)).Blocked? ==> error == Client.Text(Check(old(form)).notice) && loading == old(loading)
      ensures Check(old(form)).Send? ==> error == Settled(answer) && !loading
    {
      request, home := None, false;
      var verdict := Check(form);
      match verdict {
        case Throws =>
        case Blocked(notice) =>
          error := Client.Text(notice);
        case Send(body) =>
          loading := true;
          error := "";
          request := Some((key, body));
          match answer {
            case Resolved(data) =>
              if data.message == Some(Apartments.Text(Apartments.ModifiedMessage)) {
                home := true;
              } else {
                error := Client.Text(Client.UpdateNotApplied);
              }
            case Rejected(_, response, message) =>
              error := Client.ServerErrorOr(response, TextOr(Some(message), Client.Text(Client.UpdateFailed)));
          }
          loading := false;
      }
    }
  }
}
