// What the React pages see of the server: the settled axios promise, the
// `err.response?.data?.error || default` selection they all use, the fixed
// texts they show, and the answer each server reply turns into on the wire.

module Client {
  import opened Js
  import Apartments
  import Users

  /** The fields of `response.data` the pages read. */
  datatype Data = Data(message: Option<string>, error: Option<string>)

  /** How an axios call settles: with the data of a 2xx response, or with the
      error it rejects with.  `code` is axios' error code (ERR_NETWORK when no
      server answered), `response` is present when a server answered with an
      error status, and `message` is the error's own text. */
  datatype Outcome<T> =
    | Resolved(data: T)
    | Rejected(code: Option<string>, response: Option<Data>, message: string)

  /** `err.response?.data?.error || d` */
  function ServerErrorOr(response: Option<Data>, d: string): (r: string)
    ensures response.Some? && response.value.error.Some? && response.value.error.value != ""
            ==> r == response.value.error.value
    ensures response.None? || response.value.error.None? || response.value.error.value == ""
            ==> r == d
  {
    if response.Some? then TextOr(response.value.error, d) else d
  }

  /** `response.data.message === text`: the call resolved with exactly the
      server's acknowledgement `m`. */
  predicate Acknowledges(o: Outcome<Data>, m: Apartments.Message)
  {
    o.Resolved? && o.data.message == Some(Apartments.Text(m))
  }

  /** A key that reaches the server as it is when a page writes it, without
      escaping, after `/update/` or `/appartement/` in a request URL.  The
      browser's URL parser ends the path at '?' or '#', reads '/' and '\' as
      segment separators, drops tabs and newlines, strips trailing spaces and
      control characters and resolves the segments "." and ".."; Express
      decodes '%' escapes in the route parameter.  A key that avoids all of
      these, and does not start with a dot, comes back as it was written. */
  predicate UrlSafe(k: string)
  {
    && |k| > 0 && k[0] != '.' && k[|k| - 1] != ' '
    && forall i :: 0 <= i < |k| ==> UrlChar(k[i])
  }

  /** A character the path keeps as it is. */
  predicate UrlChar(c: char)
  {
    ' ' <= c && c != '/' && c != '\\' && c != '?' && c != '#' && c != '%'
  }

  /** The texts the pages set themselves. */
  datatype Notice =
    | FieldsRequired | FieldsRequiredBang | RentNotPositive
    | ApartmentNotFound | LoadFailed | UpdateNotApplied | UpdateFailed
    | ServerUnreachable | ServerError | Unexpected
    | AddFailed | AddRequestFailed
    | PasswordsDiffer | RegisterFailed
    | ProfileSaved | ProfileFailed
    | UpdatedNotification | UpdateErrorNotification

  function Text(n: Notice): string
  {
    match n
    case FieldsRequired => "Tous les champs sont obligatoires"
    case FieldsRequiredBang => "Tous les champs sont obligatoires!"
    case RentNotPositive => "Le loyer doit être un nombre positif"
    case ApartmentNotFound => "Appartement non trouvé"
    case LoadFailed => "Impossible de charger les données de l'appartement."
    case UpdateNotApplied => "La modification n'a pas été effectuée"
    case UpdateFailed => "Erreur lors de la modification. Veuillez réessayer."
    case ServerUnreachable =>
      "Impossible de se connecter au serveur. Veuillez vérifier que le serveur est bien démarré."
    case ServerError => "Une erreur est survenue. Veuillez réessayer plus tard."
    case Unexpected => "Une erreur inattendue est survenue. Veuillez réessayer plus tard."
    case AddFailed => "Erreur lors de l'ajout"
    case AddRequestFailed => "Erreur lors de l'ajout de l'appartement"
    case PasswordsDiffer => "Les mots de passe ne correspondent pas"
    case RegisterFailed => "Une erreur est survenue lors de l'inscription"
    case ProfileSaved => "Profil mis à jour avec succès"
    case ProfileFailed => "Une erreur est survenue"
    case UpdatedNotification => "Appartement modifié avec succès !"
    case UpdateErrorNotification => "Erreur lors de la modification"
  }

  /** axios rejects every non-2xx status; its code tells 4xx from 5xx. */
  function StatusCode(status: nat): string
  {
    if status < 500 then "ERR_BAD_REQUEST" else "ERR_BAD_RESPONSE"
  }

  /** The message of axios' error for an error status. */
  function FailedText(status: nat): string
  {
    "Request failed with status code " + NatText(status)
  }

  /** How an apartment route's reply reaches the browser: a failure is a
      rejected call whose response data carries the `error` text, anything
      else resolves with the `message` it carries, if any. */
  function ApartmentAnswer(r: Apartments.Reply): (o: Outcome<Data>)
    ensures o.Rejected? <==> Apartments.IsFailure(r)
    ensures r.Fail? ==> o.response == Some(Data(None, Some(Apartments.Text(r.error))))
    ensures r.Modified? ==> o == Resolved(Data(Some(Apartments.Text(r.message)), None))
    ensures r.Created? ==> o == Resolved(Data(Some(Apartments.Text(r.message)), None))
  {
    match r
    case Fail(status, m) =>
      Rejected(Some(StatusCode(status)), Some(Data(None, Some(Apartments.Text(m)))), FailedText(status))
    case Crash =>
      Rejected(Some(StatusCode(500)), Some(Data(None, None)), FailedText(500))
    case Rows(_) => Resolved(Data(None, None))
    case Created(m, _) => Resolved(Data(Some(Apartments.Text(m)), None))
    case Deleted(m, _) => Resolved(Data(Some(Apartments.Text(m)), None))
    case Modified(m, _) => Resolved(Data(Some(Apartments.Text(m)), None))
  }

  /** The same for the user routes. */
  function UserAnswer(r: Users.Reply): (o: Outcome<Data>)
    ensures o.Rejected? <==> r.Fail?
    ensures r.Fail? ==> o.response == Some(Data(None, Some(Users.Text(r.error))))
  {
    match r
    case Fail(status, m) =>
      Rejected(Some(StatusCode(status)), Some(Data(None, Some(Users.Text(m)))), FailedText(status))
    case Created(m) => Resolved(Data(Some(Users.Text(m)), None))
    case LoggedIn(_, _) => Resolved(Data(None, None))
    case ProfileSaved(m, _) => Resolved(Data(Some(Users.Text(m)), None))
  }
}
