// The `users` table behind POST /register, POST /login and
// PUT /update-profile, and the bearer-token check that guards the last one.
//
// bcrypt and jsonwebtoken are not modelled: a `Crypto` value carries their
// four operations as functions, and the lemmas that need them to behave say
// so with `Sound`.  The random bcrypt salt is a parameter of the requests
// that hash.

module Users {
  import opened Js

  /** A row of `users`; `password` is the stored bcrypt hash. */
  datatype User = User(id: nat, username: string, email: string, password: string)

  /** The payload a token carries. */
  datatype Claims = Claims(id: nat, username: string)

  /** The user as the routes send it back, without the hash. */
  datatype Profile = Profile(id: nat, username: string, email: string)

  /** bcrypt.hash, bcrypt.compare, jwt.sign and jwt.verify under the server's
      one fixed secret; `verify` answers None for a token it rejects. */
  datatype Crypto = Crypto(
    hash: (string, nat) -> string,
    compare: (string, string) -> bool,
    sign: Claims -> string,
    verify: string -> Option<Claims>)

  /** What the code relies on: a password matches its own hash, a token
      verifies to the claims it was signed with, and a signed token is a
      non-empty word without spaces. */
  ghost predicate Sound(c: Crypto)
  {
    && (forall p, salt :: c.compare(p, c.hash(p, salt)))
    && (forall cl :: c.verify(c.sign(cl)) == Some(cl))
    && (forall cl :: c.sign(cl) != "" && ' ' !in c.sign(cl))
  }

  /** The error and success texts of the user routes. */
  datatype Message =
    | MissingFields | AlreadyUsed | UserCreated
    | MissingCredentials | BadCredentials
    | TokenMissing | TokenInvalid
    | UserNotFound | WrongPassword | UsernameTaken | NothingToChange | ProfileUpdated

  function Text(m: Message): string
  {
    match m
    case MissingFields => "Tous les champs sont requis"
    case AlreadyUsed => "Nom d'utilisateur ou email déjà utilisé"
    case UserCreated => "Utilisateur créé avec succès"
    case MissingCredentials => "Nom d'utilisateur et mot de passe requis"
    case BadCredentials => "Nom d'utilisateur ou mot de passe incorrect"
    case TokenMissing => "Token manquant"
    case TokenInvalid => "Token invalide"
    case UserNotFound => "Utilisateur non trouvé"
    case WrongPassword => "Mot de passe actuel incorrect"
    case UsernameTaken => "Ce nom d'utilisateur est déjà pris"
    case NothingToChange => "Aucune modification à effectuer"
    case ProfileUpdated => "Profil mis à jour avec succès"
  }

  datatype Reply =
    | Fail(status: nat, error: Message)
    | Created(message: Message)
    | LoggedIn(token: string, user: Profile)
    | ProfileSaved(message: Message, user: Profile)

  predicate IsFailure(r: Reply) { r.Fail? }

  /** The body fields the user routes read, each sent as a string; "" is an
      empty field, which register and login refuse as they refuse a missing
      one. */
  datatype RegisterBody = RegisterBody(username: string, password: string, email: string)
  datatype ProfileBody = ProfileBody(username: string, newPassword: string, currentPassword: string)

  // ---------------------------------------------------------------------------
  // The table as a value

  /** Rows by id, and the next AUTO_INCREMENT id. */
  datatype Accounts = Accounts(byId: map<nat, User>, nextId: nat)

  /** Every row is stored under its own id, below the next id, and the
      UNIQUE columns username and email hold no value twice. */
  predicate Consistent(a: Accounts)
  {
    && (forall id :: id in a.byId ==> a.byId[id].id == id && id < a.nextId)
    && (forall i, j :: i in a.byId && j in a.byId && i != j ==>
          a.byId[i].username != a.byId[j].username && a.byId[i].email != a.byId[j].email)
  }

  const NoAccounts := Accounts(map[], 1)

  /** `SELECT * FROM users WHERE username = ? OR email = ?` finds a row. */
  predicate Clashes(a: Accounts, username: string, email: string)
  {
    exists id :: id in a.byId && (a.byId[id].username == username || a.byId[id].email == email)
  }

  /** `SELECT * FROM users WHERE username = ?` finds a row. */
  predicate HasUsername(a: Accounts, username: string)
  {
    exists id :: id in a.byId && a.byId[id].username == username
  }

  /** `results[0]` of that query. */
  ghost function Named(a: Accounts, username: string): (u: User)
    requires HasUsername(a, username)
    ensures u.username == username
  {
    var id :| id in a.byId && a.byId[id].username == username;
    a.byId[id]
  }

  /** With unique usernames, the row found is the one holding the name. */
  lemma NamedIsUnique(a: Accounts, id: nat)
    requires Consistent(a) && id in a.byId
    ensures HasUsername(a, a.byId[id].username) && Named(a, a.byId[id].username) == a.byId[id]
  {
  }

  /** POST /register: a falsy field, then a clash on username or email, then
      the INSERT with the next id and the hashed password. */
  function RegisterSpec(c: Crypto, a: Accounts, b: RegisterBody, salt: nat): (Accounts, Reply)
  {
    if b.username == "" || b.password == "" || b.email == "" then (a, Fail(400, MissingFields))
    else if Clashes(a, b.username, b.email) then (a, Fail(400, AlreadyUsed))
    else
      (Accounts(a.byId[a.nextId := User(a.nextId, b.username, b.email, c.hash(b.password, salt))], a.nextId + 1),
       Created(UserCreated))
  }

  /** POST /login: a falsy field, then an unknown name, then a password that
      does not match the stored hash; a match is answered with a token for
      the user's id and name. */
  ghost function LoginSpec(c: Crypto, a: Accounts, username: string, password: string): Reply
  {
    if username == "" || password == "" then Fail(400, MissingCredentials)
    else if !HasUsername(a, username) then Fail(401, BadCredentials)
    else
      var u := Named(a, username);
      if !c.compare(password, u.password) then Fail(401, BadCredentials)
      else LoggedIn(c.sign(Claims(u.id, u.username)), Profile(u.id, u.username, u.email))
  }

  // ---------------------------------------------------------------------------
  // The bearer token

  datatype Auth = Authenticated(claims: Claims) | Refused(reply: Reply)

  /** `authHeader && authHeader.split(' ')[1]`: the second space-separated
      piece of a non-empty header; None when there is none. */
  function BearerToken(header: Option<string>): (t: Option<string>)
    ensures header.None? ==> t.None?
    ensures t.Some? ==> ' ' !in t.value
  {
    if header.None? || header.value == "" then None
    else
      var parts := Split(header.value, ' ');
      if |parts| >= 2 then Some(parts[1]) else None
  }

  /** authenticateToken: 401 without a token, 403 for a token that does not
      verify, otherwise the claims it carries. */
  function Authenticate(c: Crypto, header: Option<string>): (r: Auth)
    ensures r == Refused(Fail(401, TokenMissing))
            <==> BearerToken(header).None? || BearerToken(header).value == ""
    ensures r == Refused(Fail(403, TokenInvalid))
            <==> BearerToken(header).Some? && BearerToken(header).value != ""
                 && c.verify(BearerToken(header).value).None?
    ensures r.Authenticated? ==> Some(r.claims) == c.verify(BearerToken(header).value)
  {
    var token := BearerToken(header);
    if token.None? || token.value == "" then Refused(Fail(401, TokenMissing))
    else match c.verify(token.value)
      case None => Refused(Fail(403, TokenInvalid))
      case Some(cl) => Authenticated(cl)
  }

  /** The header a client builds from a token it was given is read back as
      that token. */
  lemma BearerRoundTrip(token: string)
    requires token != "" && ' ' !in token
    ensures BearerToken(Some("Bearer " + token)) == Some(token)
  {
    var h := "Bearer " + token;
    assert h[6] == ' ';
    assert ' ' !in h[..6];
    assert IndexOf(h, ' ') == 6;
    assert h[7..] == token;
    assert Split(h, ' ') == [h[..6]] + Split(token, ' ');
  }

  // ---------------------------------------------------------------------------
  // PUT /update-profile

  /** `SELECT * FROM users WHERE username = ? AND id != ?` finds a row. */
  predicate HeldByOther(a: Accounts, username: string, id: nat)
  {
    exists other :: other in a.byId && other != id && a.byId[other].username == username
  }

  /** The row the UPDATE leaves: the username as sent, and the password
      rehashed when a new one is given; the email is never written. */
  function ProfileWrite(c: Crypto, u: User, username: string, newPassword: string, salt: nat): (w: User)
    ensures w.id == u.id && w.email == u.email && w.username == username
    ensures newPassword == "" ==> w.password == u.password
    ensures newPassword != "" ==> w.password == c.hash(newPassword, salt)
  {
    u.(username := username, password := if newPassword != "" then c.hash(newPassword, salt) else u.password)
  }

  /** The whole route: authentication, then the user lookup (404), the
      current password (401), a new name held by someone else (400), and
      no change at all (400); otherwise the row is rewritten. */
  function UpdateProfileSpec(c: Crypto, a: Accounts, header: Option<string>, b: ProfileBody, salt: nat): (Accounts, Reply)
  {
    match Authenticate(c, header)
    case Refused(reply) => (a, reply)
    case Authenticated(cl) =>
      if cl.id !in a.byId then (a, Fail(404, UserNotFound))
      else
        var u := a.byId[cl.id];
        if !c.compare(b.currentPassword, u.password) then (a, Fail(401, WrongPassword))
        else if b.username != u.username && HeldByOther(a, b.username, cl.id) then (a, Fail(400, UsernameTaken))
        else if b.username == u.username && b.newPassword == "" then (a, Fail(400, NothingToChange))
        else
          (a.(byId := a.byId[cl.id := ProfileWrite(c, u, b.username, b.newPassword, salt)]),
           ProfileSaved(ProfileUpdated, Profile(u.id, b.username, u.email)))
  }

  // ---------------------------------------------------------------------------
  // The UPDATE statement of updateProfile

  /** A column the statement may set. */
  datatype Column = UsernameColumn | PasswordColumn

  /** The SET clause pushed for a column. */
  function Clause(col: Column): string
  {
    match col
    case UsernameColumn => " username = ?"
    case PasswordColumn => " password = ?"
  }

  function Clauses(cols: seq<Column>): (r: seq<string>)
    ensures |r| == |cols| && forall i :: 0 <= i < |cols| ==> r[i] == Clause(cols[i])
  {
    seq(|cols|, i requires 0 <= i < |cols| => Clause(cols[i]))
  }

  const UpdateHead := "UPDATE users SET"
  const WhereClause := " WHERE id = ?"

  /** A bound parameter of the statement. */
  datatype SqlParam = TextParam(s: string) | IdParam(n: nat)

  /** The number of `?` placeholders in a statement. */
  function Placeholders(s: string): nat
  {
    multiset(s)['?']
  }

  /** A clause that ends in its one placeholder. */
  lemma OnePlaceholder(clause: string)
    requires |clause| > 0 && clause[|clause| - 1] == '?' && '?' !in clause[..|clause| - 1]
    ensures Placeholders(clause) == 1
  {
    assert clause == clause[..|clause| - 1] + [clause[|clause| - 1]];
  }

  lemma NoPlaceholder(s: string)
    requires '?' !in s
    ensures Placeholders(s) == 0
  {
  }

  lemma ClausePlaceholder(col: Column)
    ensures Placeholders(Clause(col)) == 1
  {
    OnePlaceholder(Clause(col));
  }

  lemma WherePlaceholder()
    ensures Placeholders(WhereClause) == 1
  {
    OnePlaceholder(WhereClause);
  }

  lemma HeadPlaceholders()
    ensures Placeholders(UpdateHead) == 0
  {
    NoPlaceholder(UpdateHead);
  }

  /** Joining clauses that hold one placeholder each gives one placeholder
      per clause. */
  lemma {:induction false} PlaceholdersJoin(clauses: seq<string>)
    requires forall i :: 0 <= i < |clauses| ==> Placeholders(clauses[i]) == 1
    ensures Placeholders(Join(clauses, ',')) == |clauses|
  {
    if |clauses| > 1 {
      PlaceholdersJoin(clauses[1..]);
      assert Join(clauses, ',') == clauses[0] + [','] + Join(clauses[1..], ',');
    }
  }

  /** The statement text for the chosen columns. */
  function Statement(cols: seq<Column>): string
  {
    UpdateHead + Join(Clauses(cols), ',') + WhereClause
  }

  /** The statement holds one placeholder per clause and one for the id. */
  lemma StatementPlaceholders(cols: seq<Column>)
    ensures Placeholders(Statement(cols)) == |cols| + 1
  {
    HeadPlaceholders();
    WherePlaceholder();
    var cs := Clauses(cols);
    forall i | 0 <= i < |cs| ensures Placeholders(cs[i]) == 1 {
      ClausePlaceholder(cols[i]);
    }
    PlaceholdersJoin(cs);
  }

  /** What the database does with `SET c1, c2, …`: each clause stores the
      parameter in its position. */
  function Execute(u: User, updates: seq<Column>, values: seq<SqlParam>): User
    requires |values| >= |updates|
    decreases |updates|
  {
    if updates == [] then u
    else
      var u' :=
        match values[0]
        case IdParam(_) => u
        case TextParam(v) =>
          match updates[0]
          case UsernameColumn => u.(username := v)
          case PasswordColumn => u.(password := v);
      Execute(u', updates[1..], values[1..])
  }

  /** The columns updateProfile pushes: the username when it changed, the
      password when a new one is given. */
  function ProfileColumns(u: User, username: string, newPassword: string): seq<Column>
  {
    (if username != u.username then [UsernameColumn] else [])
    + (if newPassword != "" then [PasswordColumn] else [])
  }

  /** The values pushed with them, the new hash in place of the password. */
  function ProfileValues(u: User, username: string, newPassword: string, hashed: string): seq<SqlParam>
  {
    (if username != u.username then [TextParam(username)] else [])
    + (if newPassword != "" then [TextParam(hashed)] else [])
  }

  /** The statement updateProfile runs writes exactly ProfileWrite, so never
      the email; it is empty only when nothing changes, and it binds one
      parameter per clause plus the id. */
  lemma ProfileStatementCorrect(c: Crypto, u: User, username: string, newPassword: string, salt: nat)
    ensures var cols := ProfileColumns(u, username, newPassword);
            var vals := ProfileValues(u, username, newPassword, c.hash(newPassword, salt)) + [IdParam(u.id)];
            && (|cols| == 0 <==> username == u.username && newPassword == "")
            && ((UsernameColumn in cols) <==> username != u.username)
            && ((PasswordColumn in cols) <==> newPassword != "")
            && |vals| == |cols| + 1
            && (|cols| > 0 ==> Execute(u, cols, vals) == ProfileWrite(c, u, username, newPassword, salt))
  {
    var hashed := c.hash(newPassword, salt);
    var cols := ProfileColumns(u, username, newPassword);
    var vals := ProfileValues(u, username, newPassword, hashed) + [IdParam(u.id)];
    var both := [UsernameColumn, PasswordColumn];
    var params := [TextParam(username), TextParam(hashed), IdParam(u.id)];
    assert both[1..] == [PasswordColumn] && params[1..] == [TextParam(hashed), IdParam(u.id)];
    if username != u.username && newPassword != "" {
      assert cols == both && vals == params;
    } else if username != u.username {
      assert cols == [UsernameColumn] && vals == [TextParam(username), IdParam(u.id)];
    } else if newPassword != "" {
      assert cols == [PasswordColumn] && vals == [TextParam(hashed), IdParam(u.id)];
    }
  }

  /** updateProfile's statement, built by pushing onto `updates` and
      `values` and then appending the clauses and the id. */
  method BuildProfileUpdate(c: Crypto, u: User, username: string, newPassword: string, salt: nat)
    returns (updates: seq<Column>, values: seq<SqlParam>, query: string)
    ensures updates == ProfileColumns(u, username, newPassword)
    ensures values == ProfileValues(u, username, newPassword, c.hash(newPassword, salt)) + [IdParam(u.id)]
    ensures query == Statement(updates)
  {
    updates := [];
    values := [];
    query := UpdateHead;
    if username != u.username {
      updates := updates + [UsernameColumn];
      values := values + [TextParam(username)];
    }
    if newPassword != "" {
      var hashed := c.hash(newPassword, salt);
      updates := updates + [PasswordColumn];
      values := values + [TextParam(hashed)];
    }
    query := query + Join(Clauses(updates), ',') + WhereClause;
    values := values + [IdParam(u.id)];
  }

  // ---------------------------------------------------------------------------
  // Properties of the routes

  /** Register keeps the invariant; it refuses a falsy field or a taken
      username or email and then changes nothing; otherwise it adds exactly
      one row, under the next id, holding the hash of the password. */
  lemma RegisterCorrect(c: Crypto, a: Accounts, b: RegisterBody, salt: nat)
    requires Consistent(a)
    ensures Consistent(RegisterSpec(c, a, b, salt).0)
    ensures var (a', r) := RegisterSpec(c, a, b, salt);
            (r == Fail(400, MissingFields) <==> b.username == "" || b.password == "" || b.email == "")
            && (r == Fail(400, AlreadyUsed)
                <==> b.username != "" && b.password != "" && b.email != "" && Clashes(a, b.username, b.email))
            && (IsFailure(r) ==> a' == a)
            && (r.Created? ==>
                  a.nextId !in a.byId
                  && a'.byId == a.byId[a.nextId := User(a.nextId, b.username, b.email, c.hash(b.password, salt))])
  {
    var (a', r) := RegisterSpec(c, a, b, salt);
    if r.Created? {
      var n := a.nextId;
      forall i, j | i in a'.byId && j in a'.byId && i != j
        ensures a'.byId[i].username != a'.byId[j].username && a'.byId[i].email != a'.byId[j].email
      {
        if i == n {
          assert !(a.byId[j].username == b.username || a.byId[j].email == b.email);
        } else if j == n {
          assert !(a.byId[i].username == b.username || a.byId[i].email == b.email);
        }
      }
    }
  }

  /** A registered user can log in with the password they chose, and the
      token names their new id. */
  lemma RegisterThenLogin(c: Crypto, a: Accounts, b: RegisterBody, salt: nat)
    requires Sound(c) && Consistent(a)
    requires RegisterSpec(c, a, b, salt).1.Created?
    ensures var a' := RegisterSpec(c, a, b, salt).0;
            LoginSpec(c, a', b.username, b.password)
              == LoggedIn(c.sign(Claims(a.nextId, b.username)), Profile(a.nextId, b.username, b.email))
  {
    RegisterCorrect(c, a, b, salt);
    var a' := RegisterSpec(c, a, b, salt).0;
    NamedIsUnique(a', a.nextId);
    assert c.compare(b.password, c.hash(b.password, salt));
  }

  /** Login answers an unknown name and a wrong password with the same
      401, so the reply does not tell which one it was. */
  lemma LoginRefusalsAlike(c: Crypto, a: Accounts, username: string, password: string)
    requires username != "" && password != ""
    ensures !HasUsername(a, username) ==> LoginSpec(c, a, username, password) == Fail(401, BadCredentials)
    ensures HasUsername(a, username) && !c.compare(password, Named(a, username).password)
            ==> LoginSpec(c, a, username, password) == Fail(401, BadCredentials)
    ensures LoginSpec(c, a, username, password).Fail? ==> LoginSpec(c, a, username, password) == Fail(401, BadCredentials)
  {
  }

  /** The token login hands out passes authenticateToken and names the user
      who logged in. */
  lemma LoginTokenAuthenticates(c: Crypto, a: Accounts, username: string, password: string)
    requires Sound(c)
    requires LoginSpec(c, a, username, password).LoggedIn?
    ensures var r := LoginSpec(c, a, username, password);
            Authenticate(c, Some("Bearer " + r.token)) == Authenticated(Claims(r.user.id, r.user.username))
  {
    var r := LoginSpec(c, a, username, password);
    var cl := Claims(r.user.id, r.user.username);
    assert r.token == c.sign(cl);
    BearerRoundTrip(r.token);
  }

  /** A request without a usable Authorization header never reaches the
      handler; it is answered 401 and changes nothing. */
  lemma MissingTokenRefused(c: Crypto, a: Accounts, header: Option<string>, b: ProfileBody, salt: nat)
    requires header.None? || Split(header.value, ' ') == [header.value]
    ensures UpdateProfileSpec(c, a, header, b, salt) == (a, Fail(401, TokenMissing))
  {
  }

  /** Rewriting one row keeps the invariant when the id and email stay and
      the username stays or is held by no other row. */
  lemma RewriteKeepsConsistent(a: Accounts, id: nat, w: User)
    requires Consistent(a) && id in a.byId
    requires w.id == id && w.email == a.byId[id].email
    requires w.username == a.byId[id].username || !HeldByOther(a, w.username, id)
    ensures Consistent(a.(byId := a.byId[id := w]))
  {
    var a' := a.(byId := a.byId[id := w]);
    forall i, j | i in a'.byId && j in a'.byId && i != j
      ensures a'.byId[i].username != a'.byId[j].username && a'.byId[i].email != a'.byId[j].email
    {
      if i == id && w.username != a.byId[id].username {
        assert !(j in a.byId && j != id && a.byId[j].username == w.username);
      } else if j == id && w.username != a.byId[id].username {
        assert !(i in a.byId && i != id && a.byId[i].username == w.username);
      }
    }
  }

  /** Update-profile keeps the invariant.  Its refusals change nothing;
      success rewrites only the caller's row, with the username sent and the
      hash of a non-empty new password, and no email anywhere changes. */
  lemma UpdateProfileCorrect(c: Crypto, a: Accounts, header: Option<string>, b: ProfileBody, salt: nat)
    requires Consistent(a)
    ensures Consistent(UpdateProfileSpec(c, a, header, b, salt).0)
    ensures var (a', r) := UpdateProfileSpec(c, a, header, b, salt);
            (IsFailure(r) ==> a' == a)
            && a'.byId.Keys == a.byId.Keys && a'.nextId == a.nextId
            && (forall id :: id in a.byId ==> a'.byId[id].email == a.byId[id].email)
            && (r.ProfileSaved? ==>
                  var id := Authenticate(c, header).claims.id;
                  && id in a.byId
                  && a'.byId == a.byId[id := ProfileWrite(c, a.byId[id], b.username, b.newPassword, salt)]
                  && r.user == Profile(id, b.username, a.byId[id].email))
  {
    var (a', r) := UpdateProfileSpec(c, a, header, b, salt);
    if r.ProfileSaved? {
      var id := Authenticate(c, header).claims.id;
      var w := ProfileWrite(c, a.byId[id], b.username, b.newPassword, salt);
      RewriteKeepsConsistent(a, id, w);
      assert a'.byId.Keys == a.byId.Keys;
    }
  }

  /** The order of update-profile's refusals: an unknown id before the
      password, the password before the name, the name before the
      nothing-to-change test. */
  lemma UpdateProfileOrder(c: Crypto, a: Accounts, cl: Claims, header: Option<string>, b: ProfileBody, salt: nat)
    requires Authenticate(c, header) == Authenticated(cl)
    ensures var r := UpdateProfileSpec(c, a, header, b, salt).1;
            && (cl.id !in a.byId ==> r == Fail(404, UserNotFound))
            && (cl.id in a.byId && !c.compare(b.currentPassword, a.byId[cl.id].password)
                ==> r == Fail(401, WrongPassword))
            && (cl.id in a.byId && c.compare(b.currentPassword, a.byId[cl.id].password)
                && b.username != a.byId[cl.id].username && HeldByOther(a, b.username, cl.id)
                ==> r == Fail(400, UsernameTaken))
            && (cl.id in a.byId && c.compare(b.currentPassword, a.byId[cl.id].password)
                && b.username == a.byId[cl.id].username && b.newPassword == ""
                ==> r == Fail(400, NothingToChange))
  {
  }

  // ---------------------------------------------------------------------------
  // The table as a class

  class UserTable {
    var byId: map<nat, User>
    var nextId: nat

    function State(): Accounts
      reads this
    {
      Accounts(byId, nextId)
    }

    predicate Valid()
      reads this
    {
      Consistent(State())
    }

    constructor ()
      ensures Valid() && State() == NoAccounts
    {
      byId, nextId := map[], 1;
    }

    /** POST /register: validate, look for a clash, then insert. */
    method Register(c: Crypto, body: RegisterBody, salt: nat) returns (reply: Reply)
      requires Valid()
      modifies this
      ensures Valid()
      ensures (State(), reply) == RegisterSpec(c, old(State()), body, salt)
    {
      RegisterCorrect(c, State(), body, salt);
      if body.username == "" || body.password == "" || body.email == "" {
        return Fail(400, MissingFields);
      }
      if exists id :: id in byId && (byId[id].username == body.username || byId[id].email == body.email) {
        return Fail(400, AlreadyUsed);
      }
      var hashed := c.hash(body.password, salt);
      byId := byId[nextId := User(nextId, body.username, body.email, hashed)];
      nextId := nextId + 1;
      reply := Created(UserCreated);
    }

    /** POST /login: look the name up, compare the password, sign a token. */
    method Login(c: Crypto, username: string, password: string) returns (reply: Reply)
      requires Valid()
      ensures reply == LoginSpec(c, State(), username, password)
    {
      if username == "" || password == "" {
        return Fail(400, MissingCredentials);
      }
      if !exists id :: id in byId && byId[id].username == username {
        return Fail(401, BadCredentials);
      }
      var id :| id in byId && byId[id].username == username;
      var user := byId[id];
      NamedIsUnique(State(), id);
      if !c.compare(password, user.password) {
        return Fail(401, BadCredentials);
      }
      var token := c.sign(Claims(user.id, user.username));
      reply := LoggedIn(token, Profile(user.id, user.username, user.email));
    }

    /** PUT /update-profile: authenticate, find the caller, check the
        current password and the new name, then run the built UPDATE. */
    method UpdateProfile(c: Crypto, header: Option<string>, body: ProfileBody, salt: nat) returns (reply: Reply)
      requires Valid()
      modifies this
      ensures Valid()
      ensures (State(), reply) == UpdateProfileSpec(c, old(State()), header, body, salt)
    {
      var auth := Authenticate(c, header);
      if auth.Refused? {
        return auth.reply;
      }
      var userId := auth.claims.id;
      if userId !in byId {
        return Fail(404, UserNotFound);
      }
      var user := byId[userId];
      if !c.compare(body.currentPassword, user.password) {
        return Fail(401, WrongPassword);
      }
      if body.username != user.username
         && exists other :: other in byId && other != userId && byId[other].username == body.username {
        return Fail(400, UsernameTaken);
      }
      var updates, values, query := BuildProfileUpdate(c, user, body.username, body.newPassword, salt);
      ProfileStatementCorrect(c, user, body.username, body.newPassword, salt);
      if |updates| == 0 {
        return Fail(400, NothingToChange);
      }
      RewriteKeepsConsistent(State(), userId, Execute(user, updates, values));
      byId := byId[userId := Execute(user, updates, values)];
      reply := ProfileSaved(ProfileUpdated, Profile(user.id, body.username, user.email));
    }
  }
}
