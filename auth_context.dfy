/** The client's authentication context
    (frontend/src/contexts/AuthContext.tsx): the signed-in user, the token
    kept in the browser's storage (one optional cell) and a loading flag,
    driven by the outcome of each request. The requests themselves are
    inputs: what the server answered, or that the call threw. */
module AuthContext {
  import opened Common

  /** `{ id, username }` as the server sends it. */
  datatype User = User(id: int, username: string)

  /** `user`, the storage's `token` entry and `isLoading`. */
  datatype AuthState = AuthState(user: Option<User>, token: Option<string>, isLoading: bool)

  /** What `checkAuth`'s request produced: it threw (including an
      unreadable body), answered with a non-2xx status, or answered 2xx
      with `{ authenticated, user }`. */
  datatype CheckResponse = CheckThrew | CheckNotOk | CheckOk(authenticated: bool, user: Option<User>)

  /** What `login`'s request produced; a 2xx body carries `token` and `user`. */
  datatype LoginResponse = LoginThrew | LoginNotOk | LoginOk(token: string, user: User)

  /** `fetch` resolves whatever status the server answers with; only a
      network failure throws. */
  datatype LogoutResponse = LogoutThrew | LogoutSettled

  /** `isAuthenticated: !!user`. */
  predicate IsAuthenticated(s: AuthState) {
    s.user.Some?
  }

  /** The server vouches for the stored token: 2xx, `authenticated` and a user. */
  predicate Confirms(response: CheckResponse) {
    response.CheckOk? && response.authenticated && response.user.Some?
  }

  /** `checkAuth`. */
  function CheckAuthStep(s: AuthState, response: CheckResponse): (r: AuthState)
    ensures !r.isLoading
    // Signed in afterwards exactly when a token was stored and the server
    // confirmed it; the user is then the server's and the token is kept.
    ensures IsAuthenticated(r) <==> Truthy(s.token) && Confirms(response)
    ensures IsAuthenticated(r) ==> r.user == response.user && r.token == s.token
    // Without a token no request is made: the response plays no part.
    ensures !Truthy(s.token) ==> r == AuthState(None, s.token, false)
    // Every other outcome removes the token.
    ensures Truthy(s.token) && !Confirms(response) ==> r == AuthState(None, None, false)
  {
    if !Truthy(s.token) then AuthState(None, s.token, false)
    else if Confirms(response) then AuthState(response.user, s.token, false)
    else AuthState(None, None, false)
  }

  /** `login`: the state afterwards and the value it resolves with. */
  function LoginStep(s: AuthState, response: LoginResponse): (r: (AuthState, bool))
    ensures !r.0.isLoading
    ensures r.1 <==> response.LoginOk?
    ensures r.1 ==> r.0.token == Some(response.token) && r.0.user == Some(response.user)
    // A refused or failed login leaves token and user untouched.
    ensures !r.1 ==> r.0 == s.(isLoading := false)
  {
    match response
    case LoginOk(token, user) => (AuthState(Some(user), Some(token), false), true)
    case _ => (s.(isLoading := false), false)
  }

  /** `logout`: once the request has settled, token and user are gone;
      if it throws, both stay. */
  function LogoutStep(s: AuthState, response: LogoutResponse): (r: AuthState)
    ensures !r.isLoading
    ensures response.LogoutSettled? ==> !IsAuthenticated(r) && r.token.None?
    ensures response.LogoutThrew? ==> r.user == s.user && r.token == s.token
  {
    if response.LogoutSettled? then AuthState(None, None, false) else s.(isLoading := false)
  }

  /** A signed-in user always has a token stored. */
  ghost predicate SignedInHasToken(s: AuthState) {
    IsAuthenticated(s) ==> s.token.Some?
  }

  /** Every transition keeps a signed-in user's token in storage. */
  lemma TransitionsKeepToken(s: AuthState, c: CheckResponse, l: LoginResponse, o: LogoutResponse)
    requires SignedInHasToken(s)
    ensures SignedInHasToken(CheckAuthStep(s, c))
    ensures SignedInHasToken(LoginStep(s, l).0)
    ensures SignedInHasToken(LogoutStep(s, o))
  {
  }

  /** After a check that signs nobody in, a second check makes no request
      (whatever it would have answered) and changes nothing. */
  lemma RecheckAfterRejection(s: AuthState, first: CheckResponse, second: CheckResponse)
    requires !IsAuthenticated(CheckAuthStep(s, first))
    ensures CheckAuthStep(CheckAuthStep(s, first), second) == CheckAuthStep(s, first)
  {
  }

  /** A login with a non-empty token followed by a check the server
      confirms keeps that user signed in with that token. */
  lemma LoginThenConfirmedCheck(s: AuthState, token: string, user: User)
    requires token != ""
    ensures var r := CheckAuthStep(LoginStep(s, LoginOk(token, user)).0, CheckOk(true, Some(user)));
            r.user == Some(user) && r.token == Some(token)
  {
  }

  /** Logging out after logging in forgets both user and token. */
  lemma LoginThenLogout(s: AuthState, token: string, user: User)
    ensures LogoutStep(LoginStep(s, LoginOk(token, user)).0, LogoutSettled) == AuthState(None, None, false)
  {
  }

  /** The provider: the React state cells and the storage cell. */
  class AuthProvider {
    var user: Option<User>
    var token: Option<string>
    var isLoading: bool

    function State(): AuthState
      reads this
    {
      AuthState(user, token, isLoading)
    }

    /** `useState(null)`, `useState(true)`, and whatever token the browser
        kept from an earlier visit. */
    constructor (stored: Option<string>)
      ensures State() == AuthState(None, stored, true)
    {
      user := None;
      token := stored;
      isLoading := true;
    }

    method CheckAuth(response: CheckResponse)
      modifies this
      ensures State() == CheckAuthStep(old(State()), response)
    {
      isLoading := true;
      if !Truthy(token) {
        user := None;
      } else {
        match response {
          case CheckOk(authenticated, u) =>
            if authenticated && u.Some? {
              user := u;
            } else {
              token := None;
              user := None;
            }
          case CheckNotOk =>
            token := None;
            user := None;
          case CheckThrew =>
            token := None;
            user := None;
        }
      }
      isLoading := false;
    }

    method Login(response: LoginResponse) returns (ok: bool)
      modifies this
      ensures (State(), ok) == LoginStep(old(State()), response)
    {
      isLoading := true;
      if response.LoginOk? {
        token := Some(response.token);
        user := Some(response.user);
        ok := true;
      } else {
        ok := false;
      }
      isLoading := false;
    }

    method Logout(response: LogoutResponse)
      modifies this
      ensures State() == LogoutStep(old(State()), response)
    {
      isLoading := true;
      if response.LogoutSettled? {
        token := None;
        user := None;
      }
      isLoading := false;
    }
  }
}
