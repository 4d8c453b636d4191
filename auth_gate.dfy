/** The request gate in front of every protected route
    (backend/src/middlewares/auth.middleware.ts): an active session wins;
    otherwise an `Authorization: Bearer <token>` header is parsed and the
    token is verified. Token verification is an oracle. */
module AuthGate {
  import opened Common

  type UserId = int

  /** What `jwt.verify` reports: an error, or the decoded payload's `id`
      (absent when the payload has none). */
  datatype Verified = Invalid | Valid(id: Option<UserId>)

  /** Exactly one of: `next()` with `req.userId` set, or a 401 with a message. */
  datatype GateOutcome = Next(userId: Option<UserId>) | Reject(message: string)

  const MissingToken := "Token não fornecido"
  const FormatError := "Erro no formato do token"
  const MalformedToken := "Token mal formatado"
  const InvalidToken := "Token inválido"

  /** JavaScript truthiness of an optional id: `undefined` and `0` are falsy. */
  predicate TruthyId(x: Option<UserId>) {
    x.Some? && x.value != 0
  }

  /** Number of occurrences of `c` in `s`. */
  function Count(s: string, c: char): nat {
    if s == [] then 0 else (if s[0] == c then 1 else 0) + Count(s[1..], c)
  }

  /** Joins `parts` with `sep` between consecutive parts (`Array.prototype.join`). */
  function Join(parts: seq<string>, sep: char): string
    requires |parts| >= 1
  {
    if |parts| == 1 then parts[0] else parts[0] + [sep] + Join(parts[1..], sep)
  }

  /** `String.prototype.split` with a one-character separator: every
      occurrence of `sep` cuts, so adjacent separators yield empty parts. */
  function Split(s: string, sep: char): (parts: seq<string>)
    ensures |parts| == Count(s, sep) + 1
    ensures forall p :: p in parts ==> sep !in p
    ensures Join(parts, sep) == s
  {
    if s == [] then [""]
    else
      var rest := Split(s[1..], sep);
      if s[0] == sep then
        [""] + rest
      else
        assert rest[0] in rest;
        var r := [[s[0]] + rest[0]] + rest[1..];
        assert forall p :: p in r ==> p == r[0] || p in rest;
        r
  }

  lemma {:induction false} CountConcat(a: string, b: string, c: char)
    ensures Count(a + b, c) == Count(a, c) + Count(b, c)
  {
    if a != [] {
      assert (a + b)[1..] == a[1..] + b;
      CountConcat(a[1..], b, c);
    } else {
      assert a + b == b;
    }
  }

  lemma {:induction false} CountAbsent(s: string, c: char)
    requires c !in s
    ensures Count(s, c) == 0
  {
    if s != [] {
      CountAbsent(s[1..], c);
    }
  }

  /** A string with no separator splits into itself alone. */
  lemma SplitWithoutSeparator(s: string, sep: char)
    requires sep !in s
    ensures Split(s, sep) == [s]
  {
    CountAbsent(s, sep);
    var parts := Split(s, sep);
    assert |parts| == 1;
  }

  /** Splitting `a + [sep] + b`, where `a` has no separator, yields `a`
      followed by the parts of `b`: split is the inverse of join. */
  lemma {:induction false} SplitAfterFirst(a: string, b: string, sep: char)
    requires sep !in a
    ensures Split(a + [sep] + b, sep) == [a] + Split(b, sep)
  {
    if a == [] {
      assert a + [sep] + b == [sep] + b;
      assert ([sep] + b)[1..] == b;
    } else {
      var s := a + [sep] + b;
      assert s[0] == a[0] && s[0] != sep;
      assert s[1..] == a[1..] + [sep] + b;
      SplitAfterFirst(a[1..], b, sep);
      assert [a[0]] + a[1..] == a;
    }
  }

  /** The regular expression `/^Bearer$/i`: the whole scheme equals
      `Bearer` ignoring the case of each ASCII letter. */
  predicate IsBearerScheme(scheme: string) {
    |scheme| == 6 &&
    forall i :: 0 <= i < 6 ==> scheme[i] == "Bearer"[i] || scheme[i] == "bEARER"[i]
  }

  /** `isAuthenticated`: the ordered decision chain of the gate. */
  function Gate(session: Option<UserId>, header: Option<string>, verify: string -> Verified): (o: GateOutcome)
    // Every path ends in next() or in a 401 with one of the four messages;
    // a 401 never sets userId.
    ensures o.Reject? ==> o.message in {MissingToken, FormatError, MalformedToken, InvalidToken}
    // Accepted exactly when a session exists, or the header is a
    // two-part Bearer header whose token verifies.
    ensures o.Next? <==>
              TruthyId(session) ||
              (Truthy(header)
               && |Split(header.value, ' ')| == 2
               && IsBearerScheme(Split(header.value, ' ')[0])
               && verify(Split(header.value, ' ')[1]).Valid?)
    // The identity that flows downstream is the session's, else the token's.
    ensures o.Next? ==>
              o.userId == (if TruthyId(session) then session
                           else verify(Split(header.value, ' ')[1]).id)
  {
    if TruthyId(session) then
      Next(session)
    else if !Truthy(header) then
      Reject(MissingToken)
    else
      var parts := Split(header.value, ' ');
      if |parts| != 2 then
        Reject(FormatError)
      else if !IsBearerScheme(parts[0]) then
        Reject(MalformedToken)
      else
        match verify(parts[1])
        case Invalid => Reject(InvalidToken)
        case Valid(id) => Next(id)
  }

  /** With an active session the header is never examined: any two headers
      and any two verifiers give the same outcome, the session's user. */
  lemma SessionWins(session: Option<UserId>, h1: Option<string>, h2: Option<string>,
                    v1: string -> Verified, v2: string -> Verified)
    requires TruthyId(session)
    ensures Gate(session, h1, v1) == Gate(session, h2, v2) == Next(session)
  {
  }

  /** The rejection messages, one per failing step of the chain. */
  lemma RejectionMessages(session: Option<UserId>, header: Option<string>, verify: string -> Verified)
    requires !TruthyId(session)
    ensures !Truthy(header) ==> Gate(session, header, verify) == Reject(MissingToken)
    ensures Truthy(header) && Count(header.value, ' ') != 1 ==>
              Gate(session, header, verify) == Reject(FormatError)
    ensures Truthy(header) && Count(header.value, ' ') == 1 &&
            !IsBearerScheme(Split(header.value, ' ')[0]) ==>
              Gate(session, header, verify) == Reject(MalformedToken)
    ensures Truthy(header) && Count(header.value, ' ') == 1 &&
            IsBearerScheme(Split(header.value, ' ')[0]) &&
            verify(Split(header.value, ' ')[1]).Invalid? ==>
              Gate(session, header, verify) == Reject(InvalidToken)
  {
  }

  /** The header a client builds as `Bearer ${token}` parses back into the
      scheme and that exact token, so the gate's verdict is the verifier's. */
  lemma {:induction false} BearerHeaderRoundTrip(token: string, verify: string -> Verified)
    requires ' ' !in token
    ensures Split("Bearer " + token, ' ') == ["Bearer", token]
    ensures Gate(None, Some("Bearer " + token), verify) ==
              (match verify(token)
               case Invalid => Reject(InvalidToken)
               case Valid(id) => Next(id))
  {
    assert "Bearer " + token == "Bearer" + [' '] + token;
    SplitAfterFirst("Bearer", token, ' ');
    SplitWithoutSeparator(token, ' ');
  }

  /** Two spaces after the scheme (`Bearer  <token>`) give three or more
      parts, so the header is rejected as badly formatted even though it
      would be acceptable under the looser grammar of section 2.1 of RFC 6750. */
  lemma {:induction false} DoubleSpaceRejected(token: string, verify: string -> Verified)
    ensures Gate(None, Some("Bearer  " + token), verify) == Reject(FormatError)
  {
    CountConcat("Bearer  ", token, ' ');
    assert Count("Bearer  ", ' ') == 2;
  }
}
