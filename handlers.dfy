/** The HTTP handlers of services/authenticator.go (GenerateJWT, GenerateConfig,
    VerifyJWT), with the response writer recorded as the list of writes made to it. */
module Handlers {
  import opened Wrappers
  import opened Authenticator
  import KubeConfig
  import opened Strings

  const StatusOK := 200
  const StatusCreated := 201
  const StatusUnauthorized := 401
  const InvalidCredentials := "Basic Auth: Invalid credentials"
  const YamlContentType := "text/x-yaml; charset=utf-8"

  /** One call on the http.ResponseWriter. WriteConfig stands for writing the YAML
      marshalling of the document. */
  datatype Event =
    | WriteHeader(status: int)
    | WriteString(body: string)
    | SetHeader(key: string, value: string)
    | WriteConfig(config: KubeConfig.Config)

  /** What one handler call does: the writes, in order, and whether it ended in a
      run-time panic (a nil dereference or an index out of range). */
  datatype Outcome = Outcome(events: seq<Event>, panics: bool)

  /** The parts of an *http.Request the handlers read. */
  datatype Request = Request(authorization: string, host: string, body: string)

  /** What the handlers take from the rest of the server: base64 decoding, the
      directory, the token issuer, the encoded cluster CA (Config.KubeCa) and what
      jwt.ParseWithClaims does with a three-segment token and the signing key. */
  datatype Server = Server(
    decode: string -> string,
    ldap: Directory,
    issuer: TokenIssuer,
    kubeCa: string,
    verify: string -> Result<Claims>)

  /** An http.ResponseWriter that records what is written to it. */
  class ResponseWriter {
    var events: seq<Event>

    constructor ()
      ensures events == []
    {
      events := [];
    }

    method WriteHeader(status: int)
      modifies this
      ensures events == old(events) + [Event.WriteHeader(status)]
    {
      events := events + [Event.WriteHeader(status)];
    }

    method WriteString(body: string)
      modifies this
      ensures events == old(events) + [Event.WriteString(body)]
    {
      events := events + [Event.WriteString(body)];
    }

    method SetHeader(key: string, value: string)
      modifies this
      ensures events == old(events) + [Event.SetHeader(key, value)]
    {
      events := events + [Event.SetHeader(key, value)];
    }

    method WriteConfig(config: KubeConfig.Config)
      modifies this
      ensures events == old(events) + [Event.WriteConfig(config)]
    {
      events := events + [Event.WriteConfig(config)];
    }
  }

  /** GenerateJWT, as a value: a bad scheme writes 401 and the message, then falls
      through into the dereference of the nil credentials; an issuance error writes nothing. */
  function GenerateJWTOutcome(r: Request, s: Server): Outcome {
    match BasicAuth(r.authorization, s.decode)
    case IndexOutOfRange => Outcome([], true)
    case InvalidAuth => Outcome([WriteHeader(StatusUnauthorized), WriteString(InvalidCredentials)], true)
    case Credentials(auth) =>
      match BaseGenerateToken(auth, s.ldap, s.issuer)
      case Ok(token) => Outcome([WriteHeader(StatusOK), WriteString(token)], false)
      case Err(_) => Outcome([], false)
  }

  method GenerateJWT(w: ResponseWriter, r: Request, s: Server) returns (panics: bool)
    modifies w
    ensures w.events == old(w.events) + GenerateJWTOutcome(r, s).events
    ensures panics == GenerateJWTOutcome(r, s).panics
  {
    var basic := BasicAuth(r.authorization, s.decode);
    if basic.IndexOutOfRange? {
      return true;
    }
    if basic.InvalidAuth? {
      w.WriteHeader(StatusUnauthorized);
      w.WriteString(InvalidCredentials);
    }
    if !basic.Credentials? {
      // baseGenerateToken(*auth) with auth == nil
      return true;
    }
    var token := BaseGenerateToken(basic.auth, s.ldap, s.issuer);
    if token.Ok? {
      w.WriteHeader(StatusOK);
      w.WriteString(token.value);
    }
    return false;
  }

  /** GenerateConfig, as a value: like GenerateJWT up to issuance; an issuance error
      writes 401 and returns; success writes 201, the content type and the document. */
  function GenerateConfigOutcome(r: Request, s: Server): Outcome {
    match BasicAuth(r.authorization, s.decode)
    case IndexOutOfRange => Outcome([], true)
    case InvalidAuth => Outcome([WriteHeader(StatusUnauthorized), WriteString(InvalidCredentials)], true)
    case Credentials(auth) =>
      match BaseGenerateToken(auth, s.ldap, s.issuer)
      case Err(_) => Outcome([WriteHeader(StatusUnauthorized)], false)
      case Ok(token) =>
        var config := KubeConfig.Render(auth.username, token, r.host, s.kubeCa);
        Outcome([WriteHeader(StatusCreated), SetHeader("Content-Type", YamlContentType), WriteConfig(config)], false)
  }

  method GenerateConfig(w: ResponseWriter, r: Request, s: Server) returns (panics: bool)
    modifies w
    ensures w.events == old(w.events) + GenerateConfigOutcome(r, s).events
    ensures panics == GenerateConfigOutcome(r, s).panics
  {
    var basic := BasicAuth(r.authorization, s.decode);
    if basic.IndexOutOfRange? {
      return true;
    }
    if basic.InvalidAuth? {
      w.WriteHeader(StatusUnauthorized);
      w.WriteString(InvalidCredentials);
    }
    if !basic.Credentials? {
      return true;
    }
    var token := BaseGenerateToken(basic.auth, s.ldap, s.issuer);
    if token.Err? {
      w.WriteHeader(StatusUnauthorized);
      return false;
    }
    var config := KubeConfig.Render(basic.auth.username, token.value, r.host, s.kubeCa);
    w.WriteHeader(StatusCreated);
    w.SetHeader("Content-Type", YamlContentType);
    w.WriteConfig(config);
    return false;
  }

  /** VerifyJWT, as a value: the parse result is only logged, but reading `token.Claims`
      dereferences the token before the error is looked at, so a nil token panics
      before anything is written; any other token gets a 200. */
  function VerifyJWTOutcome(r: Request, s: Server): Outcome {
    match ParseWithClaims(r.body, s.verify)
    case NilToken(_) => Outcome([], true)
    case Token(_) => Outcome([WriteHeader(StatusOK)], false)
  }

  method VerifyJWT(w: ResponseWriter, r: Request, s: Server) returns (panics: bool)
    modifies w
    ensures w.events == old(w.events) + VerifyJWTOutcome(r, s).events
    ensures panics == VerifyJWTOutcome(r, s).panics
  {
    var token := ParseWithClaims(r.body, s.verify);
    if token.NilToken? {
      // token.Claims with token == nil
      return true;
    }
    w.WriteHeader(StatusOK);
    return false;
  }

  /** What GenerateJWT answers: 200 exactly when the credentials were read and a token
      issued, and then the token is the body; a 401 is always followed by a panic; a
      payload without a colon panics with nothing written; an issuance error leaves the
      response untouched. */
  lemma GenerateJWTResponses(r: Request, s: Server)
    ensures var o := GenerateJWTOutcome(r, s);
      var basic := BasicAuth(r.authorization, s.decode);
      (WriteHeader(StatusOK) in o.events <==>
         basic.Credentials? && BaseGenerateToken(basic.auth, s.ldap, s.issuer).Ok?) &&
      (WriteHeader(StatusUnauthorized) in o.events <==> !HasPrefix(r.authorization, BasicPrefix)) &&
      (WriteHeader(StatusUnauthorized) in o.events ==> o.panics) &&
      ((o.events == [] && !o.panics) <==>
         basic.Credentials? && BaseGenerateToken(basic.auth, s.ldap, s.issuer).Err?) &&
      (o.panics <==> !basic.Credentials?) &&
      (basic.Credentials? && BaseGenerateToken(basic.auth, s.ldap, s.issuer).Ok? ==>
         o.events == [WriteHeader(StatusOK), WriteString(BaseGenerateToken(basic.auth, s.ldap, s.issuer).value)]) &&
      (basic.IndexOutOfRange? ==> o.events == []) &&
      (!HasPrefix(r.authorization, BasicPrefix) ==>
         o.events == [WriteHeader(StatusUnauthorized), WriteString(InvalidCredentials)])
  {
  }

  /** A document GenerateConfig writes points a client at https://<request host> with the
      cluster CA and a token the issuer signed for the user named in the Basic header. */
  lemma GenerateConfigServesIssuedToken(r: Request, s: Server, config: KubeConfig.Config)
    requires WriteConfig(config) in GenerateConfigOutcome(r, s).events
    ensures BasicAuth(r.authorization, s.decode).Credentials?
    ensures var auth := BasicAuth(r.authorization, s.decode).auth;
      BaseGenerateToken(auth, s.ldap, s.issuer).Ok? &&
      config.currentContext == KubeConfig.ContextName(auth.username) &&
      KubeConfig.Resolve(config) ==
        Some(KubeConfig.Access("https://" + r.host, s.kubeCa, BaseGenerateToken(auth, s.ldap, s.issuer).value))
  {
    var basic := BasicAuth(r.authorization, s.decode);
    match basic
    case Credentials(auth) =>
      var token := BaseGenerateToken(auth, s.ldap, s.issuer);
      assert token.Ok?;
      assert config == KubeConfig.Render(auth.username, token.value, r.host, s.kubeCa);
  }

  /** What GenerateConfig answers: 201, the YAML content type and the rendered document
      exactly when the credentials were read and a token issued; a lone 401 on an
      issuance error; 401 and the invalid-credentials message on a bad scheme; nothing
      for a payload without a colon; a panic exactly when no credentials were read. */
  lemma GenerateConfigResponses(r: Request, s: Server)
    ensures var o := GenerateConfigOutcome(r, s);
      var basic := BasicAuth(r.authorization, s.decode);
      (WriteHeader(StatusCreated) in o.events <==>
         basic.Credentials? && BaseGenerateToken(basic.auth, s.ldap, s.issuer).Ok?) &&
      (WriteHeader(StatusUnauthorized) in o.events <==>
         !HasPrefix(r.authorization, BasicPrefix) ||
         (basic.Credentials? && BaseGenerateToken(basic.auth, s.ldap, s.issuer).Err?)) &&
      (o.panics <==> !basic.Credentials?) &&
      (basic.Credentials? && BaseGenerateToken(basic.auth, s.ldap, s.issuer).Ok? ==>
         o.events == [WriteHeader(StatusCreated), SetHeader("Content-Type", YamlContentType),
                      WriteConfig(KubeConfig.Render(basic.auth.username,
                        BaseGenerateToken(basic.auth, s.ldap, s.issuer).value, r.host, s.kubeCa))]) &&
      (basic.Credentials? && BaseGenerateToken(basic.auth, s.ldap, s.issuer).Err? ==>
         o.events == [WriteHeader(StatusUnauthorized)]) &&
      (basic.IndexOutOfRange? ==> o.events == []) &&
      (!HasPrefix(r.authorization, BasicPrefix) ==>
         o.events == [WriteHeader(StatusUnauthorized), WriteString(InvalidCredentials)])
  {
  }

  /** What VerifyJWT answers: one 200 and no panic exactly when the body splits into
      three dot-separated segments, otherwise a panic with nothing written (so for an
      empty or dot-free body); whether the token verifies never changes the response. */
  lemma VerifyJWTResponses(r: Request, s: Server, verify: string -> Result<Claims>)
    ensures VerifyJWTOutcome(r, s) == VerifyJWTOutcome(r, s.(verify := verify))
    ensures var o := VerifyJWTOutcome(r, s);
      (!o.panics <==> |Split(r.body, ".")| == 3) &&
      (!o.panics ==> o.events == [WriteHeader(StatusOK)]) &&
      (o.panics ==> o.events == [])
    ensures '.' !in r.body ==> VerifyJWTOutcome(r, s).panics
  {
    if '.' !in r.body {
      DotFreeNilToken(r.body, s.verify);
    }
  }
}
