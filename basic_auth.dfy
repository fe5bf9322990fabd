/** The provider's `authorize` middleware (provider/lib/ProviderManager.js): HTTP Basic
    authentication (section 2 of RFC 7617) of the diagnostic endpoints against the optional
    `ENDPOINT_AUTH` setting `user:password`.

    Base64 decoding is not modelled: `decode` stands for `new Buffer(token, 'base64').toString()`. */
module BasicAuth {

  import opened Wrappers
  import opened Strings

  const BAD_REQUEST: int := 400
  const UNAUTHORIZED: int := 401

  /** What the middleware does with a request. */
  datatype Decision =
    | Proceed                                   // `next()`
    | Challenge                                 // 401, `www-authenticate: Basic realm="Private"`, empty body
    | Refuse(statusCode: int, error: string)    // `sendError`: a JSON body `{error}`

  /** The characters that `.` in a JavaScript regular expression does not match. */
  predicate IsLineTerminator(c: char) {
    c == '\n' || c == '\r' || c == '\U{2028}' || c == '\U{2029}'
  }

  predicate SingleLine(s: string) {
    forall k :: 0 <= k < |s| ==> !IsLineTerminator(s[k])
  }

  /** `s.match(/^([^:]*):(.*)$/)`: the text before the first colon and all of the text after
      it, provided there is a colon and the rest is a single line. */
  function MatchCredentials(s: string): (m: Option<(string, string)>)
    ensures m.Some? ==> s == m.value.0 + ":" + m.value.1 && ':' !in m.value.0 && SingleLine(m.value.1)
    ensures ':' !in s ==> m.None?
  {
    if ':' !in s then None
    else
      var i := IndexOf(s, ':');
      var rest := s[i + 1..];
      assert s == s[..i] + ":" + rest;
      if SingleLine(rest) then Some((s[..i], rest)) else None
  }

  /** A user without colons and a single-line password are always matched back. */
  lemma MatchCredentialsComplete(user: string, password: string)
    requires ':' !in user && SingleLine(password)
    ensures MatchCredentials(user + ":" + password) == Some((user, password))
  {
    IndexOfAfter(user, ':', password);
    var s := user + ":" + password;
    assert s == user + [':'] + password;
    assert s[..|user|] == user && s[|user| + 1..] == password;
  }

  const SCHEME_EXPECTED: string := "Malformed request, basic authentication expected"
  const CREDENTIALS_INVALID: string := "Malformed request, authentication invalid"
  const INVALID_KEY: string := "Invalid key"

  /** A header whose first space-separated piece is `basic` in any case and whose second
      piece, the token, is not empty. */
  predicate WellFormedBasic(authorization: Option<string>) {
    Present(authorization)
    && var parts := Split(authorization.value, ' ');
    && ToLower(parts[0]) == "basic" && |parts| > 1 && parts[1] != ""
  }

  /** The (still encoded) token of a well-formed header. */
  function Token(authorization: Option<string>): (t: string)
    requires WellFormedBasic(authorization)
    ensures t != ""
  {
    Split(authorization.value, ' ')[1]
  }

  /** The steps `authorize` takes before comparing credentials: a missing header is
      challenged, a scheme other than `basic` (in any case) or an empty token is malformed,
      and a decoded token without a single-line `user:password` shape is invalid. */
  function ParseBasicHeader(authorization: Option<string>, decode: string -> string): (r: Result<(string, string), Decision>)
    ensures !Present(authorization) ==> r == Err(Challenge)
    ensures Present(authorization) && !WellFormedBasic(authorization) ==> r == Err(Refuse(BAD_REQUEST, SCHEME_EXPECTED))
    ensures WellFormedBasic(authorization) && MatchCredentials(decode(Token(authorization))).None? ==>
              r == Err(Refuse(BAD_REQUEST, CREDENTIALS_INVALID))
    ensures WellFormedBasic(authorization) && MatchCredentials(decode(Token(authorization))).Some? ==>
              r.Ok? && decode(Token(authorization)) == r.value.0 + ":" + r.value.1 && ':' !in r.value.0
    ensures r.Ok? ==> WellFormedBasic(authorization)
  {
    if !Present(authorization) then Err(Challenge)
    else
      var parts := Split(authorization.value, ' ');
      if ToLower(parts[0]) != "basic" || |parts| < 2 || parts[1] == "" then
        Err(Refuse(BAD_REQUEST, SCHEME_EXPECTED))
      else
        match MatchCredentials(decode(parts[1]))
        case None => Err(Refuse(BAD_REQUEST, CREDENTIALS_INVALID))
        case Some(credentials) => Ok(credentials)
  }

  /** `authorize` as written: with `ENDPOINT_AUTH` set, the decoded user and password are
      compared with the first two colon-separated pieces of the setting. */
  function AuthorizeAsWritten(endpointAuth: Option<string>, authorization: Option<string>, decode: string -> string): (d: Decision)
    ensures !Present(endpointAuth) ==> d == Proceed
    ensures Present(endpointAuth) && !Present(authorization) ==> d == Challenge
    ensures Present(endpointAuth) && Present(authorization) && !WellFormedBasic(authorization) ==>
              d == Refuse(BAD_REQUEST, SCHEME_EXPECTED)
    ensures Present(endpointAuth) && WellFormedBasic(authorization) && MatchCredentials(decode(Token(authorization))).None? ==>
              d == Refuse(BAD_REQUEST, CREDENTIALS_INVALID)
    ensures Present(endpointAuth) && WellFormedBasic(authorization) && MatchCredentials(decode(Token(authorization))).Some? ==>
              var expected := Split(endpointAuth.value, ':');
              (d == Proceed <==> |expected| > 1 && decode(Token(authorization)) == expected[0] + ":" + expected[1])
              && (d != Proceed ==> d == Refuse(UNAUTHORIZED, INVALID_KEY))
    ensures d == Proceed && Present(endpointAuth) ==>
              var parts := Split(authorization.value, ' ');
              var expected := Split(endpointAuth.value, ':');
              |parts| > 1 && |expected| > 1 && decode(parts[1]) == expected[0] + ":" + expected[1]
  {
    if !Present(endpointAuth) then Proceed
    else
      match ParseBasicHeader(authorization, decode)
      case Err(decision) => decision
      case Ok((uuid, key)) =>
        var expected := Split(endpointAuth.value, ':');
        if expected[0] == uuid && |expected| > 1 && expected[1] == key then Proceed
        else Refuse(UNAUTHORIZED, INVALID_KEY)
  }

  /** The header a client sends for the credentials in `token`. */
  function BasicHeader(scheme: string, token: string): string
  {
    scheme + " " + token
  }

  /** A well-formed header splits into its scheme and its token. */
  lemma BasicHeaderSplits(scheme: string, token: string)
    requires ' ' !in scheme && ' ' !in token
    ensures Split(BasicHeader(scheme, token), ' ') == [scheme, token]
  {
    assert BasicHeader(scheme, token) == Join([scheme, token], ' ');
    SplitJoin([scheme, token], ' ');
  }

  /** A well-formed Basic header carrying `user:password` yields exactly those credentials. */
  lemma BasicHeaderParses(user: string, password: string, scheme: string, token: string, decode: string -> string)
    requires ':' !in user && SingleLine(password)
    requires ToLower(scheme) == "basic" && ' ' !in scheme && ' ' !in token && token != ""
    requires decode(token) == user + ":" + password
    ensures ParseBasicHeader(Some(BasicHeader(scheme, token)), decode) == Ok((user, password))
  {
    BasicHeaderSplits(scheme, token);
    MatchCredentialsComplete(user, password);
  }

  /** A client that sends the configured `user:password`, with a password free of colons, is
      let through; the scheme name may be written in any case. */
  lemma AuthorizeAsWrittenAccepts(user: string, password: string, scheme: string, token: string, decode: string -> string)
    requires ':' !in user && ':' !in password && SingleLine(password)
    requires ToLower(scheme) == "basic" && ' ' !in scheme && ' ' !in token && token != ""
    requires decode(token) == user + ":" + password
    ensures AuthorizeAsWritten(Some(user + ":" + password), Some(BasicHeader(scheme, token)), decode) == Proceed
  {
    BasicHeaderParses(user, password, scheme, token, decode);
    assert user + ":" + password == Join([user, password], ':');
    SplitJoin([user, password], ':');
  }

  /** With a colon in the configured password, `ENDPOINT_AUTH = "u:a:b"`, the exact
      credentials `u:a:b` are refused as an invalid key. */
  lemma AuthorizeAsWrittenRefusesColonPassword(scheme: string, token: string, decode: string -> string)
    requires ToLower(scheme) == "basic" && ' ' !in scheme && ' ' !in token && token != ""
    requires decode(token) == "u:a:b"
    ensures AuthorizeAsWritten(Some("u:a:b"), Some(BasicHeader(scheme, token)), decode) == Refuse(UNAUTHORIZED, INVALID_KEY)
  {
    assert "u:a:b" == "u" + ":" + "a:b";
    BasicHeaderParses("u", "a:b", scheme, token, decode);
    SplitThreePieces();
    assert |"a"| != |"a:b"|;
  }

  lemma SplitThreePieces()
    ensures Split("u:a:b", ':') == ["u", "a", "b"]
  {
    assert Join(["u", "a", "b"], ':') == "u:a:b";
    SplitJoin(["u", "a", "b"], ':');
  }

  /** `authorize` with the configured setting split the same way as the client's credentials,
      at its first colon, so that a password may contain colons. */
  function Authorize(endpointAuth: Option<string>, authorization: Option<string>, decode: string -> string): (d: Decision)
    ensures !Present(endpointAuth) ==> d == Proceed
    ensures Present(endpointAuth) && !Present(authorization) ==> d == Challenge
    ensures Present(endpointAuth) && Present(authorization) && !WellFormedBasic(authorization) ==>
              d == Refuse(BAD_REQUEST, SCHEME_EXPECTED)
    ensures Present(endpointAuth) && WellFormedBasic(authorization) && MatchCredentials(decode(Token(authorization))).None? ==>
              d == Refuse(BAD_REQUEST, CREDENTIALS_INVALID)
    ensures Present(endpointAuth) && WellFormedBasic(authorization) && MatchCredentials(decode(Token(authorization))).Some? ==>
              (d == Proceed <==> decode(Token(authorization)) == endpointAuth.value)
              && (d != Proceed ==> d == Refuse(UNAUTHORIZED, INVALID_KEY))
    ensures d == Proceed && Present(endpointAuth) ==>
              var parts := Split(authorization.value, ' ');
              |parts| > 1 && decode(parts[1]) == endpointAuth.value
  {
    if !Present(endpointAuth) then Proceed
    else
      match ParseBasicHeader(authorization, decode)
      case Err(decision) => decision
      case Ok((uuid, key)) =>
        if MatchCredentials(endpointAuth.value) == Some((uuid, key)) then Proceed
        else Refuse(UNAUTHORIZED, INVALID_KEY)
  }

  /** Every configured `user:password` with a colon-free user and a single-line password is
      accepted when the client sends exactly it, colons in the password included. */
  lemma AuthorizeAccepts(user: string, password: string, scheme: string, token: string, decode: string -> string)
    requires ':' !in user && SingleLine(password)
    requires ToLower(scheme) == "basic" && ' ' !in scheme && ' ' !in token && token != ""
    requires decode(token) == user + ":" + password
    ensures Authorize(Some(user + ":" + password), Some(BasicHeader(scheme, token)), decode) == Proceed
  {
    BasicHeaderParses(user, password, scheme, token, decode);
    MatchCredentialsComplete(user, password);
  }
}
