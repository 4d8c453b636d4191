/** Login, logout and the authentication check
    (backend/src/controllers/auth.controller.ts). Password comparison and
    token signing are oracles that may throw. */
module AuthController {
  import opened Common
  import opened Http
  import opened Store
  import AuthGate

  /** The payload and options handed to `jwt.sign`: `{ id }` and `expiresIn`. */
  datatype Claims = Claims(id: Id, expiresIn: string)

  const TokenLifetime := "24h"

  /** `bcrypt.compare(password, hash)` and `jwt.sign(claims, secret)`. */
  datatype Crypto = Crypto(compare: (string, string) -> Try<bool>, sign: Claims -> Try<string>)

  /** The user as the responses expose it: never the password hash. */
  datatype PublicUser = PublicUser(id: Id, username: string)

  datatype LoginBody = LoginBody(user: PublicUser, token: string)
  datatype CheckBody = CheckBody(authenticated: bool, user: PublicUser)

  const InvalidCredentials := "Credenciais inválidas"
  const LoginError := "Erro ao fazer login"
  const LogoutError := "Erro ao fazer logout"
  const LogoutDone := "Logout realizado com sucesso"
  const NotAuthenticated := "Usuário não autenticado"
  const UserNotFound := "Usuário não encontrado"
  const InternalError := "Erro interno do servidor"

  /** The server-side session record the caller's cookie points at. */
  class Session {
    var userId: Option<Id>

    constructor (userId: Option<Id>)
      ensures this.userId == userId
    {
      this.userId := userId;
    }
  }

  /** What `login` decides once the user lookup has answered. */
  datatype LoginDecision = Granted(user: User, token: string) | Refused(reply: Reply<LoginBody>)

  function DecideLogin(found: Try<Option<User>>, crypto: Crypto, password: string): (d: LoginDecision)
    // Success needs a user, a matching password and a signed token.
    ensures d.Granted? <==>
              found.Ok? && found.value.Some? &&
              crypto.compare(password, found.value.value.password) == Ok(true) &&
              crypto.sign(Claims(found.value.value.id, TokenLifetime)).Ok?
    // The token is the one signed for `{ id }` with a 24h expiry.
    ensures d.Granted? ==>
              d.user == found.value.value &&
              crypto.sign(Claims(d.user.id, TokenLifetime)) == Ok(d.token)
    // Unknown user and wrong password are one and the same refusal.
    ensures d == Refused(Message(401, InvalidCredentials)) <==>
              found.Ok? &&
              (found.value.None? || crypto.compare(password, found.value.value.password) == Ok(false))
    // Anything that throws is a 500.
    ensures d.Refused? ==>
              d.reply == Message(401, InvalidCredentials) || d.reply == Message(500, LoginError)
  {
    match found
    case Thrown => Refused(Message(500, LoginError))
    case Ok(None) => Refused(Message(401, InvalidCredentials))
    case Ok(Some(user)) =>
      match crypto.compare(password, user.password)
      case Thrown => Refused(Message(500, LoginError))
      case Ok(false) => Refused(Message(401, InvalidCredentials))
      case Ok(true) =>
        match crypto.sign(Claims(user.id, TokenLifetime))
        case Thrown => Refused(Message(500, LoginError))
        case Ok(token) => Granted(user, token)
  }

  /** Enumeration resistance: an unknown username and a wrong password for
      a known one produce identical responses. */
  lemma SameRefusalForUnknownUserAndWrongPassword(crypto: Crypto, password: string, known: User)
    requires crypto.compare(password, known.password) == Ok(false)
    ensures DecideLogin(Ok(None), crypto, password) == DecideLogin(Ok(Some(known)), crypto, password)
    ensures DecideLogin(Ok(None), crypto, password).reply.Status() == 401
  {
  }

  /** `login`: on success the session records the user and the response
      carries id, username and token; on failure the session is untouched.
      A body without `username` makes the lookup throw: a 500. */
  method Login(db: Database, session: Session, crypto: Crypto, username: Option<string>, password: string)
    returns (r: Reply<LoginBody>)
    modifies session
    ensures username.None? ==> r == Message(500, LoginError) && session.userId == old(session.userId)
    ensures var d := DecideLogin(if db.reachable && username.Some? then Ok(FindUserByName(db.tables.users, username.value))
                                 else Thrown,
                                 crypto, password);
            match d
            case Granted(u, token) =>
              r == Json(200, LoginBody(PublicUser(u.id, u.username), token)) && session.userId == Some(u.id)
            case Refused(reply) =>
              r == reply && session.userId == old(session.userId)
  {
    var found := db.FindUserByUsername(username);
    var d := DecideLogin(found, crypto, password);
    match d
    case Granted(u, token) =>
      session.userId := Some(u.id);
      r := Json(200, LoginBody(PublicUser(u.id, u.username), token));
    case Refused(reply) =>
      r := reply;
  }

  /** `logout`: destroys the session record and nothing else. A failure of
      the session store leaves the record in place and answers 500. */
  method Logout(session: Session, destroyFails: bool) returns (r: Reply<()>)
    modifies session
    ensures destroyFails ==> r == Message(500, LogoutError) && session.userId == old(session.userId)
    ensures !destroyFails ==> r == Message(200, LogoutDone) && session.userId == None
  {
    if destroyFails {
      r := Message(500, LogoutError);
    } else {
      session.userId := None;
      r := Message(200, LogoutDone);
    }
  }

  /** `checkAuth`: re-resolves the identity the gate established. */
  method CheckAuth(db: Database, userId: Option<Id>) returns (r: Reply<CheckBody>)
    ensures !AuthGate.TruthyId(userId) ==> r == Message(401, NotAuthenticated)
    ensures AuthGate.TruthyId(userId) && !db.reachable ==> r == Message(500, InternalError)
    ensures AuthGate.TruthyId(userId) && db.reachable ==>
              match FindUserById(db.tables.users, userId.value)
              case None => r == Message(401, UserNotFound)
              case Some(u) => r == Json(200, CheckBody(true, PublicUser(u.id, u.username)))
    ensures r.Status() == 200 <==>
              AuthGate.TruthyId(userId) && db.reachable && FindUserById(db.tables.users, userId.value).Some?
  {
    if !AuthGate.TruthyId(userId) {
      return Message(401, NotAuthenticated);
    }
    var found := db.FindUniqueUser(userId.value);
    match found
    case Thrown => r := Message(500, InternalError);
    case Ok(None) => r := Message(401, UserNotFound);
    case Ok(Some(u)) => r := Json(200, CheckBody(true, PublicUser(u.id, u.username)));
  }

  /** A verifier that accepts exactly what the signer produced, with tokens
      in compact form (no spaces). */
  ghost predicate VerifierMatchesSigner(crypto: Crypto, verify: string -> AuthGate.Verified) {
    forall c :: crypto.sign(c).Ok? ==>
      ' ' !in crypto.sign(c).value && verify(crypto.sign(c).value) == AuthGate.Valid(Some(c.id))
  }

  /** The token a successful login returns passes the gate on its own, with
      no session at all: in particular logging out (which only clears the
      session) does not revoke it. */
  lemma IssuedTokenPassesGate(found: Try<Option<User>>, crypto: Crypto, password: string,
                              verify: string -> AuthGate.Verified)
    requires VerifierMatchesSigner(crypto, verify)
    requires DecideLogin(found, crypto, password).Granted?
    ensures var d := DecideLogin(found, crypto, password);
            AuthGate.Gate(None, Some("Bearer " + d.token), verify) == AuthGate.Next(Some(d.user.id))
  {
    var d := DecideLogin(found, crypto, password);
    assert crypto.sign(Claims(d.user.id, TokenLifetime)) == Ok(d.token);
    AuthGate.BearerHeaderRoundTrip(d.token, verify);
  }

  /** After a successful login the very next request passes the gate on the
      session cookie alone and `checkAuth` answers with the same user. */
  method LoginThenCheck(db: Database, session: Session, crypto: Crypto, username: Option<string>, password: string,
                        header: Option<string>, verify: string -> AuthGate.Verified)
    returns (login: Reply<LoginBody>, gate: AuthGate.GateOutcome, check: Reply<CheckBody>)
    requires db.Valid()
    modifies session
    ensures login.Status() == 200 ==>
              login.Json? &&
              gate == AuthGate.Next(Some(login.body.user.id)) &&
              check == Json(200, CheckBody(true, login.body.user))
  {
    login := Login(db, session, crypto, username, password);
    gate := AuthGate.Gate(session.userId, header, verify);
    check := Message(401, NotAuthenticated);
    if gate.Next? {
      check := CheckAuth(db, gate.userId);
    }
    if login.Status() == 200 {
      var u := FindUserByName(db.tables.users, username.value).value;
      assert u in db.tables.users;
      UniqueIdLookup(db.tables, u);
    }
  }

  /** In a valid store, looking a user up by its own id finds that user. */
  lemma UniqueIdLookup(t: Tables, u: User)
    requires ValidTables(t) && u in t.users
    ensures u.id != 0
    ensures FindUserById(t.users, u.id) == Some(u)
  {
    var v := FindUserById(t.users, u.id).value;
    var i :| 0 <= i < |t.users| && t.users[i] == u;
    var j :| 0 <= j < |t.users| && t.users[j] == v;
    assert UserKey(t.users[i]) == UserKey(t.users[j]);
  }
}
