/** The bearer-token middleware: reads the Authorization header, verifies the token and
    either continues the chain with the token's subject as username or aborts with 403. */
module AuthMiddleware {
  import opened Wrappers
  import opened AppErrors
  import opened ErrorHandler

  /** The value of the "sub" claim: a JSON string, or any other JSON value. */
  datatype ClaimValue = Str(s: string) | NotString

  /** What the middleware reads from a parsed `*jwt.Token`. */
  datatype Token = Token(valid: bool, isMapClaims: bool, sub: Option<ClaimValue>)

  /** What the middleware does with the request: `c.Set("username", ...)` and `c.Next()`,
      or `Handle(...)` and `c.Abort()`. */
  datatype Outcome = Continue(username: string) | Abort(response: ErrorResponse)

  /** ASCII simple case folding. Against "Bearer" it agrees with Go's `strings.EqualFold`:
      none of 'b', 'e', 'a', 'r' has a non-ASCII case-fold partner. */
  function FoldAscii(c: char): char {
    if 'A' <= c <= 'Z' then (c as int + 32) as char else c
  }

  /** `strings.EqualFold(a, b)`. */
  predicate EqualFold(a: string, b: string) {
    |a| == |b| && forall i :: 0 <= i < |a| ==> FoldAscii(a[i]) == FoldAscii(b[i])
  }

  /** Index of the first ' ', if any. */
  function SpaceIndex(s: string): (r: Option<nat>)
    ensures r.Some? ==> r.value < |s| && s[r.value] == ' ' && ' ' !in s[..r.value]
    ensures r.None? ==> ' ' !in s
  {
    if s == [] then None
    else if s[0] == ' ' then Some(0)
    else
      match SpaceIndex(s[1..])
      case None => None
      case Some(i) => assert s[..i + 1] == [s[0]] + s[1..][..i]; Some(i + 1)
  }

  /** `strings.SplitN(s, " ", 2)`: the part before the first space and the rest, or the whole
      string when there is no space. */
  function SplitN2(s: string): (parts: seq<string>)
    ensures |parts| == 1 <==> ' ' !in s
    ensures |parts| == 1 ==> parts[0] == s
    ensures |parts| == 2 ==> parts[0] + " " + parts[1] == s && ' ' !in parts[0]
    ensures |parts| == 1 || |parts| == 2
  {
    match SpaceIndex(s)
    case None => [s]
    case Some(i) =>
      assert s == s[..i] + " " + s[i + 1..];
      [s[..i], s[i + 1..]]
  }

  /** The token of a well-formed "Bearer <token>" header. */
  function HeaderToken(header: string): (r: Option<string>)
    ensures r.Some? ==> exists scheme :: ' ' !in scheme && EqualFold(scheme, "Bearer") &&
                                         header == scheme + " " + r.value
  {
    var parts := SplitN2(header);
    if |parts| != 2 || !EqualFold(parts[0], "Bearer") then None else Some(parts[1])
  }

  /** The token is everything after the first space, taken verbatim (it may itself contain
      spaces, or be empty), whatever the case of the scheme. */
  lemma HeaderTokenOfBearer(scheme: string, token: string)
    requires ' ' !in scheme && EqualFold(scheme, "Bearer")
    ensures HeaderToken(scheme + " " + token) == Some(token)
  {
    var h := scheme + " " + token;
    assert h[..|scheme|] == scheme;
    assert h[|scheme|] == ' ';
    SpaceIndexAt(h, |scheme|);
    assert h[|scheme| + 1..] == token;
  }

  lemma {:induction false} SpaceIndexAt(s: string, i: nat)
    requires i < |s| && s[i] == ' ' && ' ' !in s[..i]
    ensures SpaceIndex(s) == Some(i)
  {
    if i > 0 {
      assert s[0] in s[..i];
      assert s[1..][..i - 1] == s[1..i];
      assert forall c :: c in s[1..i] ==> c in s[..i];
      SpaceIndexAt(s[1..], i - 1);
    }
  }

  /** A header whose scheme is not "Bearer" (in any case), or which has no space at all,
      carries no token. */
  lemma HeaderTokenRejects(header: string)
    requires ' ' !in header || !EqualFold(SplitN2(header)[0], "Bearer")
    ensures HeaderToken(header).None?
  {
  }

  /** The middleware's handler function; `parse` is `jwtService.ParseJWT`. */
  function Authenticate(header: string, parse: string -> Result<Token, Error>): (r: Outcome)
    ensures r.Abort? ==> r.response.status == 403 && r.response.code == "03"
    ensures r.Continue? <==>
              HeaderToken(header).Some? && parse(HeaderToken(header).value).Success? &&
              var t := parse(HeaderToken(header).value).value;
              t.valid && t.isMapClaims && t.sub.Some? && t.sub.value.Str?
    ensures r.Continue? ==> Str(r.username) == parse(HeaderToken(header).value).value.sub.value
  {
    if header == "" then Deny("authorization header required")
    else if HeaderToken(header).None? then Deny("invalid Authorization header")
    else
      var parsed := parse(HeaderToken(header).value);
      if parsed.Failure? || !parsed.value.valid then Deny("invalid token")
      else if !parsed.value.isMapClaims then Deny("invalid token claims")
      else if parsed.value.sub.None? || !parsed.value.sub.value.Str? then Deny("invalid token claims")
      else Continue(parsed.value.sub.value.s)
  }

  /** Every rejection is an AccessDenied AppError. */
  function Deny(msg: string): (r: Outcome)
    ensures r == Abort(Handle(Fail(msg, AccessDenied)))
    ensures r.response.status == 403 && r.response.code == "03" && r.response.message == "Access Denied"
  {
    IsAppError(Some(Plain(msg)), AccessDenied, AccessDenied);
    Abort(Handle(Fail(msg, AccessDenied)))
  }
}
