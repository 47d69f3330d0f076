/**
 * Request signing. Every request carries a JSON Web Token whose `qsh`
 * claim is the SHA-256 hex digest of a canonical string
 * `METHOD&uri&query`, which binds the token to that one request. The
 * token is HS256-signed (section 3.2 of RFC 7518) with the secret key;
 * its claims follow sections 4.1.1 (iss), 4.1.2 (sub), 4.1.4 (exp) and
 * 4.1.6 (iat) of RFC 7519.
 */
module Signing {

  import opened Wrappers
  import Text

  datatype HttpMethod = GET | POST | PUT | DELETE

  function MethodName(m: HttpMethod): string
  {
    match m
    case GET => "GET"
    case POST => "POST"
    case PUT => "PUT"
    case DELETE => "DELETE"
  }

  /**
   * The request helpers: `get_request(uri, query)`,
   * `get_request_no_params(uri)`, `post_request(uri, payload)`,
   * `put_request(uri, payload)` and `delete_request(uri, query)`.
   */
  datatype Call =
    | Get(uri: string, query: string)
    | GetNoParams(uri: string)
    | Post(uri: string)
    | Put(uri: string)
    | Delete(uri: string, query: string)
  {
    function Method(): HttpMethod
    {
      match this
      case Get(_, _) => GET
      case GetNoParams(_) => GET
      case Post(_) => POST
      case Put(_) => PUT
      case Delete(_, _) => DELETE
    }

    /** Whether the helper sends a query string. */
    predicate HasQuery()
    {
      Get? || Delete?
    }

    /** The query the helper signs: empty for the calls without one. */
    function SignedQuery(): string
    {
      if HasQuery() then query else ""
    }

    /** POST and PUT send a JSON body. */
    predicate SendsJson()
    {
      Post? || Put?
    }
  }

  /** The canonical string `METHOD&uri&query` that the token's `qsh` claim hashes. */
  function Canonical(c: Call): (s: string)
    ensures c.HasQuery() ==> s == MethodName(c.Method()) + "&" + c.uri + "&" + c.query
    ensures !c.HasQuery() ==> s == MethodName(c.Method()) + "&" + c.uri + "&"
  {
    MethodName(c.Method()) + "&" + c.uri + "&" + c.SignedQuery()
  }

  function ParseMethod(s: string): Option<HttpMethod>
  {
    if s == "GET" then Some(GET)
    else if s == "POST" then Some(POST)
    else if s == "PUT" then Some(PUT)
    else if s == "DELETE" then Some(DELETE)
    else None
  }

  datatype Signed = Signed(verb: HttpMethod, uri: string, query: string)

  /**
   * How the service reads a canonical string: the method up to the first
   * '&', the uri up to the second, the rest is the query.
   */
  function ParseCanonical(s: string): Option<Signed>
  {
    var fields := Text.Split(s, '&');
    if |fields| < 3 then None
    else
      match ParseMethod(fields[0])
      case None => None
      case Some(m) => Some(Signed(m, fields[1], Text.Join(fields[2..], '&')))
  }

  /** Method names read back as their methods and hold no '&'. */
  lemma ParseMethodName(m: HttpMethod)
    ensures ParseMethod(MethodName(m)) == Some(m)
    ensures '&' !in MethodName(m)
  {
  }

  /** The three '&'-separated fields of a canonical string. */
  lemma CanonicalFields(c: Call)
    requires '&' !in c.uri
    ensures Text.Split(Canonical(c), '&')
         == [MethodName(c.Method()), c.uri] + Text.Split(c.SignedQuery(), '&')
  {
    var name, q := MethodName(c.Method()), c.SignedQuery();
    ParseMethodName(c.Method());
    assert Canonical(c) == name + "&" + (c.uri + "&" + q);
    Text.SplitAround(name, c.uri + "&" + q, '&');
    Text.SplitAround(c.uri, q, '&');
    Text.SplitNoSeparator(name, '&');
    Text.SplitNoSeparator(c.uri, '&');
  }

  /**
   * The canonical string determines the request it was built for: method,
   * uri and signed query come back out of it, provided the uri holds no
   * '&' (the query may hold any number of them).
   */
  lemma CanonicalRoundTrip(c: Call)
    requires '&' !in c.uri
    ensures ParseCanonical(Canonical(c)) == Some(Signed(c.Method(), c.uri, c.SignedQuery()))
  {
    var q := c.SignedQuery();
    CanonicalFields(c);
    ParseMethodName(c.Method());
    var fields := Text.Split(Canonical(c), '&');
    assert fields[2..] == Text.Split(q, '&');
    Text.JoinSplit(q, '&');
  }

  /** The GET without parameters signs exactly what a GET with an empty query signs. */
  lemma NoParamsSignsEmptyQuery(uri: string)
    ensures Canonical(GetNoParams(uri)) == Canonical(Get(uri, ""))
  {
  }

  datatype Credentials = Credentials(login: string, accessKey: string, secretKey: string)

  datatype Claims = Claims(sub: string, qsh: string, iss: string, exp: int, iat: int)

  /**
   * The foreign primitives, left uninterpreted: the hex SHA-256 digest of
   * the UTF-8 bytes of a string, and `jwt.encode(claims, key, 'HS256')`
   * stripped and decoded to text.
   */
  datatype Crypto = Crypto(sha256Hex: string -> string, hs256: (Claims, string) -> string)

  datatype Signer = Signer(cred: Credentials, crypto: Crypto)

  /** Lifetime of a token, in seconds. */
  const JwtExpire: int := 3600

  /** The claims of `get_jwt(canonical)` for one clock reading `now`. */
  function JwtClaims(signer: Signer, canonical: string, now: int): (c: Claims)
    ensures c.exp - c.iat == 3600
  {
    Claims(
      sub := signer.cred.login,
      qsh := signer.crypto.sha256Hex(canonical),
      iss := signer.cred.accessKey,
      exp := now + JwtExpire,
      iat := now)
  }

  /** `get_jwt(canonical)`: the signed token text. */
  function GetJwt(signer: Signer, canonical: string, now: int): (token: string)
    ensures exists c: Claims :: && token == signer.crypto.hs256(c, signer.cred.secretKey)
                                && c.sub == signer.cred.login && c.iss == signer.cred.accessKey
                                && c.qsh == signer.crypto.sha256Hex(canonical)
                                && c.iat == now && c.exp == now + JwtExpire
  {
    signer.crypto.hs256(JwtClaims(signer, canonical, now), signer.cred.secretKey)
  }

  /**
   * What the service checks of a token's claims for a request with
   * canonical string `canonical` at time `at`: the issuer and subject are
   * the caller's, the hash is that of this request, and the token is not
   * yet expired (RFC 7519 4.1.4: not accepted on or after `exp`).
   */
  predicate Accepts(signer: Signer, claims: Claims, canonical: string, at: int)
  {
    && claims.iss == signer.cred.accessKey
    && claims.sub == signer.cred.login
    && claims.qsh == signer.crypto.sha256Hex(canonical)
    && claims.iat <= at < claims.exp
  }

  /**
   * A freshly made token is accepted for its own request exactly during
   * the hour after it was issued, and for another request exactly when
   * the two canonical strings hash alike.
   */
  lemma ClaimsAcceptedForOneHour(signer: Signer, canonical: string, other: string, now: int, at: int)
    ensures Accepts(signer, JwtClaims(signer, canonical, now), canonical, at) <==> now <= at < now + 3600
    ensures Accepts(signer, JwtClaims(signer, canonical, now), other, at)
        <==> now <= at < now + 3600 && signer.crypto.sha256Hex(other) == signer.crypto.sha256Hex(canonical)
  {
  }
}
