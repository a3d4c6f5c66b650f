/** The bearer-token check of the authentication middleware
    (backend/internal/middleware/auth.go). The token parser is a parameter:
    JWT signature checking is not part of this model. */
module Auth {
  import opened Common

  /** The claims the middleware copies into the request context. */
  datatype Claims = Claims(id: Uuid, email: string)

  /** The decision of the middleware: abort with a status and an error
      message, or continue the chain with "id" and "email" set. */
  datatype AuthOutcome = Rejected(status: int, error: string) | Accepted(id: Uuid, email: string)

  const BearerPrefix: string := "Bearer "
  const MissingHeader: string := "missing authorization header"
  const NotBearer: string := "Authorization header must start with Bearer"
  const InvalidToken: string := "invalid token"

  predicate HasPrefix(s: string, prefix: string)
  {
    |prefix| <= |s| && s[..|prefix|] == prefix
  }

  /** strings.TrimPrefix: one leading `prefix` removed, if there is one. */
  function TrimPrefix(s: string, prefix: string): (r: string)
    ensures HasPrefix(s, prefix) ==> prefix + r == s
    ensures !HasPrefix(s, prefix) ==> r == s
  {
    if HasPrefix(s, prefix) then
      assert s == s[..|prefix|] + s[|prefix|..];
      s[|prefix|..]
    else s
  }

  /** AuthMiddleware on the value of the Authorization header. */
  function Authenticate(header: string, parse: string -> Result<Claims>): (r: AuthOutcome)
    ensures header == "" ==> r == Rejected(StatusUnauthorized, MissingHeader)
    ensures header != "" && !HasPrefix(header, BearerPrefix) ==> r == Rejected(StatusUnauthorized, NotBearer)
    ensures r.Accepted? <==> HasPrefix(header, BearerPrefix) && parse(TrimPrefix(header, BearerPrefix)).Ok?
    ensures r.Accepted? ==> parse(TrimPrefix(header, BearerPrefix)) == Ok(Claims(r.id, r.email))
    ensures r.Rejected? ==> r.status == StatusUnauthorized
  {
    if header == "" then Rejected(StatusUnauthorized, MissingHeader)
    else
      var token := TrimPrefix(header, BearerPrefix);
      if token == header then
        assert |BearerPrefix + token| > |header| ==> !HasPrefix(header, BearerPrefix);
        Rejected(StatusUnauthorized, NotBearer)
      else
        match parse(token)
        case Err(_) => Rejected(StatusUnauthorized, InvalidToken)
        case Ok(claims) => Accepted(claims.id, claims.email)
  }

  /** A header that is the prefix and a token hands exactly that token to the
      parser, and is accepted iff the parser accepts it. */
  lemma BearerTokenReachesParser(token: string, parse: string -> Result<Claims>)
    ensures TrimPrefix(BearerPrefix + token, BearerPrefix) == token
    ensures Authenticate(BearerPrefix + token, parse) ==
            match parse(token)
            case Ok(c) => Accepted(c.id, c.email)
            case Err(_) => Rejected(StatusUnauthorized, InvalidToken)
  {
    var h := BearerPrefix + token;
    assert h[..|BearerPrefix|] == BearerPrefix;
    assert BearerPrefix + TrimPrefix(h, BearerPrefix) == h;
  }

  /** Only one prefix is removed: a doubled "Bearer Bearer t" passes
      "Bearer t" to the parser. */
  lemma OnlyOnePrefixRemoved(token: string)
    ensures TrimPrefix(BearerPrefix + (BearerPrefix + token), BearerPrefix) == BearerPrefix + token
  {
    BearerTokenReachesParser(BearerPrefix + token, _ => Err(InvalidToken));
  }

  /** A header that is only the prefix is not refused for its empty token:
      the empty string goes to the parser. */
  lemma BarePrefixReachesParser(parse: string -> Result<Claims>)
    requires parse("").Ok?
    ensures Authenticate(BearerPrefix, parse) == Accepted(parse("").value.id, parse("").value.email)
  {
    BearerTokenReachesParser("", parse);
    assert BearerPrefix + "" == BearerPrefix;
  }

  /** A header in any other scheme is refused before the parser is asked,
      whatever the parser would say. */
  lemma OtherSchemeRefused(scheme: string, token: string, parse: string -> Result<Claims>)
    requires |scheme| == |BearerPrefix| && scheme != BearerPrefix
    ensures Authenticate(scheme + token, parse) == Rejected(StatusUnauthorized, NotBearer)
  {
    var h := scheme + token;
    assert h[..|BearerPrefix|] == scheme;
  }
}
