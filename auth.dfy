/** The bearer-token gate: token issuance (`POST /auth/token`), the
    `authenticateToken` middleware and the `authorizeAdmin` middleware.

    A token is modelled by the claims it carries. Signing and signature checking
    belong to the JWT library; here the outcome of the signature check is an input. */
module Auth {
  import opened Values
  import opened Text

  /** The subject every issued token names. */
  const Subject: string := "test_user"

  /** `expiresIn: '30m'`, in seconds. */
  const TokenLifetime: int := 30 * 60

  /** The payload of a token: subject, role, and issue and expiry times in whole seconds
      (the `iat` and `exp` claims of RFC 7519, sections 4.1.6 and 4.1.4). */
  datatype Claims = Claims(user: string, role: string, iat: int, exp: int)

  /** What a middleware decides: hand the verified claims to the next handler, or
      answer with an error status. */
  datatype Gate = Proceed(claims: Claims) | Deny(status: nat)

  /** The JWT clock: whole seconds since the epoch, from a millisecond timestamp. */
  function Seconds(nowMs: nat): nat
  {
    nowMs / 1000
  }

  /** The token taken from an `Authorization` header: the second piece of the header
      split on single spaces. The first piece (the scheme word) is never inspected. */
  function BearerToken(authorization: Option<string>): (token: Option<string>)
    ensures token.Some? ==> token.value != "" && ' ' !in token.value
  {
    if authorization.None? || authorization.value == "" then None
    else
      var pieces := Split(authorization.value);
      if |pieces| < 2 || pieces[1] == "" then None else Some(pieces[1])
  }

  /** Whatever the scheme word, a header `<scheme> <token>`, optionally followed by
      further space-separated text, yields that token. */
  lemma BearerTokenAnyScheme(scheme: string, token: string, rest: string)
    requires ' ' !in scheme && ' ' !in token && token != ""
    requires rest == "" || rest[0] == ' '
    ensures BearerToken(Some(scheme + " " + token + rest)) == Some(token)
  {
    var header := scheme + " " + token + rest;
    if rest == "" {
      assert header == scheme + " " + token;
      SplitAtSpace(scheme, token);
      SplitJoin([token]);
    } else {
      var more := rest[1..];
      assert rest == " " + more;
      assert header == scheme + " " + (token + " " + more);
      SplitAtSpace(scheme, token + " " + more);
      SplitAtSpace(token, more);
    }
  }

  /** Conversely, a header yields a token only when it has the shape
      `<scheme> <token>` followed by nothing or by a space. */
  lemma BearerTokenShape(header: string) returns (scheme: string, rest: string)
    requires BearerToken(Some(header)).Some?
    ensures ' ' !in scheme
    ensures header == scheme + " " + BearerToken(Some(header)).value + rest
    ensures rest == "" || rest[0] == ' '
  {
    var pieces := Split(header);
    JoinSplit(header);
    scheme := pieces[0];
    if |pieces| == 2 {
      rest := "";
      assert Join(pieces[1..]) == pieces[1];
    } else {
      rest := " " + Join(pieces[2..]);
      assert pieces[1..][1..] == pieces[2..];
      assert Join(pieces[1..]) == pieces[1] + " " + Join(pieces[2..]);
    }
  }

  /** A header without any space carries no token. */
  lemma NoSpaceNoToken(header: string)
    requires ' ' !in header
    ensures BearerToken(Some(header)) == None
  {
    SplitJoin([header]);
  }

  /** `authenticateToken`: 401 when there is no token, 403 when the JWT library
      rejects it (bad signature or `exp` reached), otherwise continue with its claims. */
  function Authenticate(authorization: Option<string>, signatureValid: bool, payload: Claims, nowMs: nat): (g: Gate)
    ensures g.Deny? ==> g.status == 401 || g.status == 403
    ensures g.Proceed? ==> g.claims == payload && signatureValid && Seconds(nowMs) < payload.exp
  {
    if BearerToken(authorization).None? then Deny(401)
    else if !signatureValid || Seconds(nowMs) >= payload.exp then Deny(403)
    else Proceed(payload)
  }

  /** The pieces of the gate: a missing header or one without a second
      space-separated piece is 401; a present token that fails verification is 403;
      otherwise the claims go to the handler. */
  lemma AuthenticateOutcomes(authorization: Option<string>, signatureValid: bool, payload: Claims, nowMs: nat)
    ensures BearerToken(authorization).None? ==>
              Authenticate(authorization, signatureValid, payload, nowMs) == Deny(401)
    ensures authorization.None? || ' ' !in authorization.value ==>
              Authenticate(authorization, signatureValid, payload, nowMs) == Deny(401)
    ensures BearerToken(authorization).Some? && !signatureValid ==>
              Authenticate(authorization, signatureValid, payload, nowMs) == Deny(403)
    ensures BearerToken(authorization).Some? && Seconds(nowMs) >= payload.exp ==>
              Authenticate(authorization, signatureValid, payload, nowMs) == Deny(403)
    ensures Authenticate(authorization, signatureValid, payload, nowMs).Proceed? <==>
              BearerToken(authorization).Some? && signatureValid && Seconds(nowMs) < payload.exp
    ensures Authenticate(authorization, signatureValid, payload, nowMs).Proceed? ==>
              Authenticate(authorization, signatureValid, payload, nowMs).claims == payload
  {
    if authorization.Some? && ' ' !in authorization.value {
      NoSpaceNoToken(authorization.value);
    }
  }

  /** `authorizeAdmin`: 403 unless the verified role is exactly "admin". */
  function AuthorizeAdmin(claims: Claims): (g: Gate)
    ensures g.Proceed? <==> claims.role == "admin"
    ensures g.Proceed? ==> g.claims == claims
    ensures g.Deny? ==> g.status == 403
  {
    if claims.role != "admin" then Deny(403) else Proceed(claims)
  }

  /** The two middlewares in the order the admin-only route chains them. */
  function AdminGate(authorization: Option<string>, signatureValid: bool, payload: Claims, nowMs: nat): (g: Gate)
    ensures g.Proceed? ==>
              g.claims == payload && payload.role == "admin" && BearerToken(authorization).Some? &&
              signatureValid && Seconds(nowMs) < payload.exp
  {
    match Authenticate(authorization, signatureValid, payload, nowMs)
    case Deny(status) => Deny(status)
    case Proceed(claims) => AuthorizeAdmin(claims)
  }

  /** The token check comes first: whatever the role, its verdict stands when it
      denies; only a verified token reaches the role check. */
  lemma AdminGateOrder(authorization: Option<string>, signatureValid: bool, payload: Claims, nowMs: nat)
    ensures Authenticate(authorization, signatureValid, payload, nowMs).Deny? ==>
              AdminGate(authorization, signatureValid, payload, nowMs) == Authenticate(authorization, signatureValid, payload, nowMs)
    ensures Authenticate(authorization, signatureValid, payload, nowMs).Proceed? ==>
              (AdminGate(authorization, signatureValid, payload, nowMs).Proceed? <==> payload.role == "admin")
    ensures Authenticate(authorization, signatureValid, payload, nowMs).Proceed? && payload.role != "admin" ==>
              AdminGate(authorization, signatureValid, payload, nowMs) == Deny(403)
    ensures AdminGate(authorization, signatureValid, payload, nowMs).Deny? ==>
              AdminGate(authorization, signatureValid, payload, nowMs).status in {401, 403}
  {
  }

  /** `POST /auth/token`: only the roles "admin" and "user" get a token; it names
      the fixed subject and that role and expires `TokenLifetime` seconds after issue. */
  function Issue(role: JsValue, nowMs: nat): (r: Option<Claims>)
    ensures r.Some? <==> role == Str("admin") || role == Str("user")
    ensures r.Some? ==> r.value.role == role.s && r.value.user == Subject
    ensures r.Some? ==> r.value.iat == Seconds(nowMs) && r.value.exp == r.value.iat + TokenLifetime
  {
    if !Truthy(role) || (role != Str("admin") && role != Str("user")) then None
    else Some(Claims(Subject, role.s, Seconds(nowMs), Seconds(nowMs) + TokenLifetime))
  }

  /** A freshly issued token, presented under any scheme word with a valid signature
      at most 29 minutes 59 seconds later, passes the gate with the role it was
      issued for. */
  lemma IssuedTokenAccepted(role: JsValue, issuedMs: nat, nowMs: nat, scheme: string, token: string)
    requires Issue(role, issuedMs).Some?
    requires ' ' !in scheme && ' ' !in token && token != ""
    requires nowMs <= issuedMs + 1799000
    ensures Authenticate(Some(scheme + " " + token), true, Issue(role, issuedMs).value, nowMs)
              == Proceed(Issue(role, issuedMs).value)
    ensures Issue(role, issuedMs).value.role == role.s
  {
    BearerTokenAnyScheme(scheme, token, "");
    assert scheme + " " + token + "" == scheme + " " + token;
    assert nowMs / 1000 <= (issuedMs + 1799000) / 1000;
    assert (issuedMs + 1799000) / 1000 == issuedMs / 1000 + 1799;
  }

  /** Thirty minutes or more after issue the same token is refused with 403,
      however it is presented. */
  lemma IssuedTokenExpires(role: JsValue, issuedMs: nat, nowMs: nat, authorization: Option<string>, signatureValid: bool)
    requires Issue(role, issuedMs).Some?
    requires BearerToken(authorization).Some?
    requires nowMs >= issuedMs + 1800000
    ensures Authenticate(authorization, signatureValid, Issue(role, issuedMs).value, nowMs) == Deny(403)
  {
    assert nowMs / 1000 >= (issuedMs + 1800000) / 1000;
    assert (issuedMs + 1800000) / 1000 == issuedMs / 1000 + 1800;
  }

  /** A token issued for the role "user" never passes the admin gate. */
  lemma UserTokenNotAdmin(issuedMs: nat, authorization: Option<string>, signatureValid: bool, nowMs: nat)
    ensures AdminGate(authorization, signatureValid, Issue(Str("user"), issuedMs).value, nowMs).Deny?
  {
  }

  /** A valid, unexpired token issued for "admin" passes the admin gate. */
  lemma AdminTokenAdmitted(issuedMs: nat, nowMs: nat, scheme: string, token: string)
    requires ' ' !in scheme && ' ' !in token && token != ""
    requires nowMs <= issuedMs + 1799000
    ensures AdminGate(Some(scheme + " " + token), true, Issue(Str("admin"), issuedMs).value, nowMs).Proceed?
  {
    IssuedTokenAccepted(Str("admin"), issuedMs, nowMs, scheme, token);
  }
}
