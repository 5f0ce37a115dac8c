/** services/authenticator.go: Basic credential extraction, bearer extraction,
    claim construction and the issuance pipeline. */
module Authenticator {
  import opened Wrappers
  import opened Strings

  /** A namespace grant (types.Project). The core never looks inside one: it only
      passes the list produced by GetUserNamespaces into the claims. */
  type Project(==, !new)

  /** types.Auth */
  datatype Auth = Auth(username: string, password: string)

  /** What basicAuth ends in: its error, the credentials, or the run-time panic of
      indexing `pair[1]` when the decoded payload holds no colon. */
  datatype BasicAuthResult =
    | InvalidAuth
    | Credentials(auth: Auth)
    | IndexOutOfRange

  const BasicPrefix := "Basic "

  /** The decoded payload split on its first colon: two pieces exactly when it holds a
      colon, and then the first piece holds none. */
  lemma PayloadSplit(payload: string)
    ensures |SplitN2(payload, ":")| == 2 <==> ':' in payload
    ensures |SplitN2(payload, ":")| == 2 ==>
      var pair := SplitN2(payload, ":");
      ':' !in pair[0] && payload == pair[0] + ":" + pair[1]
  {
    var pair := SplitN2(payload, ":");
    ContainsChar(payload, ':');
    if |pair| == 2 {
      ContainsChar(pair[0], ':');
      assert payload[..|pair[0]|] == pair[0];
      forall j | OccursAt(pair[0], ":", j) ensures false {
        assert payload[j..j + 1] == pair[0][j..j + 1];
        assert OccursAt(payload, ":", j);
      }
    }
  }

  /** The Authorization header split on its first space gives exactly the scheme
      "Basic" and a remainder precisely when the header starts with "Basic ". */
  lemma BasicSchemeSplit(header: string)
    ensures var parts := SplitN2(header, " ");
      (|parts| == 2 && parts[0] == "Basic") <==> HasPrefix(header, BasicPrefix)
    ensures HasPrefix(header, BasicPrefix) ==> SplitN2(header, " ")[1] == header[|BasicPrefix|..]
  {
    var parts := SplitN2(header, " ");
    if HasPrefix(header, BasicPrefix) {
      assert OccursAt(header, " ", 5);
      forall j | 0 <= j < 5 ensures !OccursAt(header, " ", j) {
        assert header[j..j + 1] == [header[j]];
        assert header[j] == BasicPrefix[j];
      }
      FirstOccurrence(header, " ", 5);
      assert Contains(header, " ");
      assert |parts[0]| == 5;
      assert parts[0] == header[..5];
    }
    if |parts| == 2 && parts[0] == "Basic" {
      assert header == "Basic" + " " + parts[1];
      assert header[..6] == BasicPrefix;
    }
  }

  /** basicAuth: the scheme must be exactly "Basic" (case-sensitive) followed by a space;
      the rest is base64-decoded (the decode error is discarded, so `decode` is whatever
      DecodeString returns) and split on its first colon, so passwords may hold colons. */
  function BasicAuth(header: string, decode: string -> string): (r: BasicAuthResult)
    ensures r.InvalidAuth? <==> !HasPrefix(header, BasicPrefix)
    ensures !r.InvalidAuth? ==>
      (r.IndexOutOfRange? <==> ':' !in decode(header[|BasicPrefix|..]))
    ensures r.Credentials? ==>
      ':' !in r.auth.username &&
      decode(header[|BasicPrefix|..]) == r.auth.username + ":" + r.auth.password
  {
    BasicSchemeSplit(header);
    var auth := SplitN2(header, " ");
    if |auth| != 2 || auth[0] != "Basic" then InvalidAuth
    else
      var payload := decode(auth[1]);
      PayloadSplit(payload);
      var pair := SplitN2(payload, ":");
      if |pair| < 2 then IndexOutOfRange
      else Credentials(Auth(pair[0], pair[1]))
  }

  const BearerPrefix := "Bearer "

  /** The header handling at the top of CurrentJWT: the header must start with
      "Bearer " and be at least 8 bytes long; the token is piece 1 of splitting the
      header on every "Bearer ", i.e. the remainder up to its next "Bearer ". */
  function BearerToken(header: string): (r: Result<string>)
    ensures r.Ok? <==> HasPrefix(header, BearerPrefix) && |header| > |BearerPrefix|
    ensures r.Err? ==> r.error == "Invalid Authorization Header: " + header
    ensures r.Ok? ==>
      var rest := header[|BearerPrefix|..];
      HasPrefix(rest, r.value) && !Contains(r.value, BearerPrefix) &&
      (r.value == rest || OccursAt(rest, BearerPrefix, |r.value|))
  {
    if !HasPrefix(header, BearerPrefix) || |header| < 8 then
      Err("Invalid Authorization Header: " + header)
    else
      FirstOccurrence(header, BearerPrefix, 0);
      SplitSecondPiece(header, BearerPrefix, 0);
      SplitN2FirstPiece(header[|BearerPrefix|..], BearerPrefix);
      var splitToken := Split(header, BearerPrefix);
      Ok(splitToken[1])
  }

  const InvalidSegments := "token contains an invalid number of segments"

  /** What jwt.ParseWithClaims gives back: a nil *Token with its error, or a token whose
      claims were accepted (Ok) or rejected with an error. */
  datatype Parsed = NilToken(error: string) | Token(result: Result<Claims>) {
    /** The (claims, err) pair CurrentJWT returns for it. */
    function AsResult(): Result<Claims> {
      match this
      case NilToken(e) => Err(e)
      case Token(result) => result
    }
  }

  /** jwt.ParseWithClaims of dgrijalva/jwt-go: a string that does not split into three
      dot-separated segments gives a nil token; any other gives a token, and `verify`
      (the rest of the library with the signing key: decoding, signature and claim
      checks) decides whether its claims are accepted. */
  function ParseWithClaims(token: string, verify: string -> Result<Claims>): Parsed {
    if |Split(token, ".")| != 3 then NilToken(InvalidSegments) else Token(verify(token))
  }

  /** A string without a dot, the empty string included, gives a nil token. */
  lemma {:induction false} DotFreeNilToken(token: string, verify: string -> Result<Claims>)
    requires '.' !in token
    ensures ParseWithClaims(token, verify) == NilToken(InvalidSegments)
  {
    SplitCharFree(token, '.');
  }

  /** Three dot-free segments joined by dots, the JWS compact form, give a token. */
  lemma {:induction false} CompactFormToken(header: string, payload: string, signature: string, verify: string -> Result<Claims>)
    requires '.' !in header && '.' !in payload && '.' !in signature
    ensures var token := header + "." + payload + "." + signature;
      ParseWithClaims(token, verify) == Token(verify(token))
  {
    var token := header + "." + payload + "." + signature;
    SplitCharFree(signature, '.');
    SplitAfterFirst(payload, '.', signature);
    assert token == header + ['.'] + (payload + ['.'] + signature);
    SplitAfterFirst(header, '.', payload + ['.'] + signature);
  }

  /** Conversely, a token is only made from the JWS compact form: three dot-free segments. */
  lemma {:induction false} TokenIsCompactForm(token: string, verify: string -> Result<Claims>)
    requires ParseWithClaims(token, verify).Token?
    ensures var parts := Split(token, ".");
      |parts| == 3 && token == parts[0] + "." + parts[1] + "." + parts[2] &&
      '.' !in parts[0] && '.' !in parts[1] && '.' !in parts[2]
  {
    var parts := Split(token, ".");
    JoinSplit(token, ".");
    JoinThree(parts, ".");
    SplitPiecesFree(token, ".");
    assert !Contains(parts[0], ".") && !Contains(parts[1], ".") && !Contains(parts[2], ".");
    ContainsChar(parts[0], '.');
    ContainsChar(parts[1], '.');
    ContainsChar(parts[2], '.');
  }

  /** CurrentJWT: a header that fails the bearer check is rejected before any parsing;
      otherwise the text after "Bearer " up to its next "Bearer " is parsed, and the
      parse error or the claims are returned. */
  function CurrentJWT(header: string, verify: string -> Result<Claims>): (r: Result<Claims>)
    ensures !HasPrefix(header, BearerPrefix) || |header| <= |BearerPrefix| ==>
      r == Err("Invalid Authorization Header: " + header)
    ensures HasPrefix(header, BearerPrefix) && |header| > |BearerPrefix| ==>
      var rest := header[|BearerPrefix|..];
      (!Contains(rest, BearerPrefix) ==> r == ParseWithClaims(rest, verify).AsResult()) &&
      (forall i :: Index(rest, BearerPrefix) == Some(i) ==> r == ParseWithClaims(rest[..i], verify).AsResult())
  {
    match BearerToken(header)
    case Err(e) => Err(e)
    case Ok(token) =>
      FirstOccurrence(header, BearerPrefix, 0);
      SplitSecondPiece(header, BearerPrefix, 0);
      ParseWithClaims(token, verify).AsResult()
  }

  const IssuerName := "Kubi Server"
  const NanosPerSecond := 1_000_000_000

  /** types.AuthJWTClaims: the grants, the user, the admin flag and the two standard
      claims that are set (ExpiresAt in Unix seconds, Issuer). */
  datatype Claims = Claims(auths: seq<Project>, user: string, adminAccess: bool, expiresAt: int, issuer: string)

  /** Everything issuance takes from outside this file: GetUserNamespaces, the result of
      time.ParseDuration on the configured lifetime (nanoseconds, None on a parse error),
      time.Now as Unix nanoseconds, and the HS512 signer over the signing key. */
  datatype TokenIssuer = TokenIssuer(
    userNamespaces: seq<string> -> seq<Project>,
    lifetime: Option<int>,
    now: int,
    sign: Claims -> Result<string>)

  /** True when `second` is the Unix second that contains the instant `nanos`. */
  predicate SecondOf(second: int, nanos: int) {
    second * NanosPerSecond <= nanos < (second + 1) * NanosPerSecond
  }

  /** The claims literal of generateUserToken. A lifetime that does not parse counts as
      zero, because ParseDuration returns 0 and its error is overwritten by the signing one. */
  function UserClaims(groups: seq<string>, username: string, hasAdminAccess: bool, issuer: TokenIssuer): (c: Claims)
    ensures c.auths == issuer.userNamespaces(groups)
    ensures c.user == username && c.adminAccess == hasAdminAccess && c.issuer == IssuerName
    ensures issuer.lifetime.Some? ==> SecondOf(c.expiresAt, issuer.now + issuer.lifetime.value)
    ensures issuer.lifetime.None? ==> SecondOf(c.expiresAt, issuer.now)
  {
    var duration := issuer.lifetime.GetOr(0);
    Claims(issuer.userNamespaces(groups), username, hasAdminAccess,
           (issuer.now + duration) / NanosPerSecond, IssuerName)
  }

  /** With the same configured lifetime, a token issued later never expires earlier. */
  lemma ExpiresAtMonotonic(groups: seq<string>, username: string, hasAdminAccess: bool, i1: TokenIssuer, i2: TokenIssuer)
    requires i1.lifetime == i2.lifetime && i1.now <= i2.now
    ensures UserClaims(groups, username, hasAdminAccess, i1).expiresAt <= UserClaims(groups, username, hasAdminAccess, i2).expiresAt
  {
  }

  /** generateUserToken: the result, token or error, is what the signer makes of the
      claims holding the groups' grants, the user, the admin flag, issuer "Kubi Server"
      and the second of now plus the lifetime (zero when it does not parse). */
  function GenerateUserToken(groups: seq<string>, username: string, hasAdminAccess: bool, issuer: TokenIssuer): (r: Result<string>)
    ensures forall c: Claims ::
      (c.auths == issuer.userNamespaces(groups) && c.user == username &&
       c.adminAccess == hasAdminAccess && c.issuer == IssuerName &&
       SecondOf(c.expiresAt, issuer.now + issuer.lifetime.GetOr(0))) ==> r == issuer.sign(c)
  {
    var claims := UserClaims(groups, username, hasAdminAccess, issuer);
    issuer.sign(claims)
  }

  /** The LDAP calls issuance makes (ldap.AuthenticateUser, GetUserGroups, HasAdminAccess);
      a user is identified by the DN that authentication returns. */
  datatype Directory = Directory(
    authenticateUser: (string, string) -> Result<string>,
    getUserGroups: string -> Result<seq<string>>,
    hasAdminAccess: string -> bool)

  /** baseGenerateToken: authenticate, then look up groups, then sign; the first error
      stops the pipeline and is returned as it is. Groups and the admin flag both come
      from the DN that authentication returned. */
  function BaseGenerateToken(auth: Auth, ldap: Directory, issuer: TokenIssuer): (r: Result<string>)
    ensures var dn := ldap.authenticateUser(auth.username, auth.password);
      dn.Err? ==> r == Err(dn.error)
    ensures var dn := ldap.authenticateUser(auth.username, auth.password);
      dn.Ok? && ldap.getUserGroups(dn.value).Err? ==> r == Err(ldap.getUserGroups(dn.value).error)
    ensures var dn := ldap.authenticateUser(auth.username, auth.password);
      dn.Ok? && ldap.getUserGroups(dn.value).Ok? ==>
        r == issuer.sign(UserClaims(ldap.getUserGroups(dn.value).value, auth.username,
                                    ldap.hasAdminAccess(dn.value), issuer))
  {
    match ldap.authenticateUser(auth.username, auth.password)
    case Err(e) => Err(e)
    case Ok(userDN) =>
      match ldap.getUserGroups(userDN)
      case Err(e) => Err(e)
      case Ok(groups) =>
        match GenerateUserToken(groups, auth.username, ldap.hasAdminAccess(userDN), issuer)
        case Err(e) => Err(e)
        case Ok(token) => Ok(token)
  }

  /** Every token issued is a signature, by the issuer's signer, over claims naming the
      authenticated user, the grants of that user's groups and that user's admin flag,
      issued by "Kubi Server"; and issuance succeeded at each of its three steps. */
  lemma IssuedTokenBindsIdentity(auth: Auth, ldap: Directory, issuer: TokenIssuer, token: string)
    requires BaseGenerateToken(auth, ldap, issuer) == Ok(token)
    ensures var dn := ldap.authenticateUser(auth.username, auth.password);
      dn.Ok? && ldap.getUserGroups(dn.value).Ok? &&
      exists c: Claims ::
        issuer.sign(c) == Ok(token) && c.user == auth.username && c.issuer == IssuerName &&
        c.auths == issuer.userNamespaces(ldap.getUserGroups(dn.value).value) &&
        c.adminAccess == ldap.hasAdminAccess(dn.value)
  {
  }
}
