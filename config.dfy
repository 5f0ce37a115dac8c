/** utils/config.go: building the server configuration from the environment. */
module Config {
  import opened Wrappers
  import opened Strconv
  import Net

  /** The process environment. */
  type Env = map<string, string>

  const HostVar := "KUBERNETES_SERVICE_HOST"
  const PortVar := "KUBERNETES_SERVICE_PORT"
  const LdapPortVar := "LDAP_PORT"
  const LdapUseSslVar := "LDAP_USE_SSL"
  const LdapSkipTlsVerificationVar := "LDAP_SKIP_TLS_VERIFICATION"
  const LdapStartTlsVar := "LDAP_START_TLS"
  const LdapSkipTlsVar := "LDAP_SKIP_TLS"

  const DefaultLdapPort := "389"
  const DefaultUserFilter := "(cn=%s)"
  const GroupFilter := "(member=%s)"
  const DefaultTokenLifeTime := "4h"
  const Attributes := ["givenName", "sn", "mail", "uid", "cn", "userPrincipalName"]

  /** os.Getenv: an unset variable reads as the empty string. */
  function Getenv(env: Env, key: string): string {
    if key in env then env[key] else ""
  }

  /** getEnv, whose definition is not part of this model: taken to be lookup with a
      fallback, so a variable that is set (even to "") wins over the fallback. */
  function GetenvOr(env: Env, key: string, fallback: string): string {
    if key in env then env[key] else fallback
  }

  /** types.LdapConfig */
  datatype LdapConfig = LdapConfig(
    userBase: string,
    groupBase: string,
    adminUserBase: string,
    adminGroupBase: string,
    host: string,
    port: int,
    useSSL: bool,
    startTLS: bool,
    skipTLSVerification: bool,
    bindDN: string,
    bindPassword: string,
    userFilter: string,
    groupFilter: string,
    attributes: seq<string>)

  /** types.Config, without the TLS client configuration. */
  datatype Config = Config(
    ldap: LdapConfig,
    kubeCa: string,
    kubeCaText: string,
    kubeToken: string,
    apiServerURL: string,
    tokenLifeTime: string)

  /** What MakeConfig reads besides the environment: the two files (None when the read
      fails), the CA check of x509 AppendCertsFromPEM, base64 encoding, and the is.URL and
      is.Base64 validators. */
  datatype Platform = Platform(
    tokenFile: Option<string>,
    caFile: Option<string>,
    appendCertsFromPEM: string -> bool,
    base64Encode: string -> string,
    isURL: string -> bool,
    isBase64: string -> bool)

  /** The `check`/`checkf`/`log.Fatalf` calls that end the process, by the line they guard. */
  datatype Fatal =
    | TokenFileUnreadable
    | CaFileUnreadable
    | CaNotAccepted
    | InvalidLdapPort
    | InvalidLdapUseSsl
    | InvalidLdapSkipTlsVerification
    | InvalidLdapStartTls
    | LdapPortReparse

  /** rest.ErrNotInCluster, or the field names a validation.ValidateStruct rejected. */
  datatype Error = ErrNotInCluster | ValidationError(fields: set<string>)

  /** MakeConfig either ends the process or returns its `(*Config, error)` pair. */
  datatype Outcome = Exit(reason: Fatal) | Return(config: Option<Config>, err: Option<Error>)

  /** The rules the top-level ValidateStruct applies: ApiServerURL required and a URL
      (listed twice, reported once), KubeToken required, KubeCa required and base64. */
  function ConfigFailures(apiServerURL: string, kubeToken: string, kubeCa: string, p: Platform): set<string> {
    (if apiServerURL == "" || !p.isURL(apiServerURL) then {"ApiServerURL"} else {}) +
    (if kubeToken == "" then {"KubeToken"} else {}) +
    (if kubeCa == "" || !p.isBase64(kubeCa) then {"KubeCa"} else {})
  }

  /** validation.Required followed by validation.Length(2, 200). */
  predicate LengthOk(s: string) {
    s != "" && 2 <= |s| <= 200
  }

  /** The rules the LDAP ValidateStruct applies. */
  function LdapFailures(userBase: string, groupBase: string, host: string, bindDN: string, bindPassword: string, p: Platform): set<string> {
    (if !LengthOk(userBase) then {"UserBase"} else {}) +
    (if !LengthOk(groupBase) then {"GroupBase"} else {}) +
    (if host == "" || !p.isURL(host) then {"Host"} else {}) +
    (if !LengthOk(bindDN) then {"BindDN"} else {}) +
    (if !LengthOk(bindPassword) then {"BindPassword"} else {})
  }

  predicate InCluster(env: Env) {
    Getenv(env, HostVar) != "" && Getenv(env, PortVar) != ""
  }

  /** Every input read before the LDAP settings is there. */
  predicate FilesRead(p: Platform) {
    p.tokenFile.Some? && p.caFile.Some? && p.appendCertsFromPEM(p.caFile.value)
  }

  /** The four LDAP settings parse, each from its variable or its default. */
  predicate LdapSettingsParse(env: Env) {
    Atoi(GetenvOr(env, LdapPortVar, DefaultLdapPort)).Some? &&
    ParseBool(GetenvOr(env, LdapUseSslVar, "false")).Some? &&
    ParseBool(GetenvOr(env, LdapSkipTlsVerificationVar, "true")).Some? &&
    ParseBool(GetenvOr(env, LdapStartTlsVar, "false")).Some?
  }

  /** The LDAP_PORT block applies its TLS override: the port variable is set, reads as
      `port`, and LDAP_SKIP_TLS is exactly "false". */
  predicate TlsOverride(env: Env, port: int) {
    Getenv(env, LdapPortVar) != "" &&
    Atoi(Getenv(env, LdapPortVar)) == Some(port) &&
    Getenv(env, LdapSkipTlsVar) == "false"
  }

  /** MakeConfig. Exits the process on an unreadable file, a rejected CA or an LDAP setting
      that does not parse; returns (nil, ErrNotInCluster) outside a cluster, (nil, err) when
      the top-level validation fails, (nil, nil) when only the LDAP validation fails, and
      the configuration otherwise. */
  method MakeConfig(env: Env, p: Platform) returns (out: Outcome)
    // Outside a cluster nothing else is read.
    ensures !InCluster(env) <==> out == Return(None, Some(ErrNotInCluster))
    // The process ends exactly on a missing input or an unparsable setting, and
    // the second parse of LDAP_PORT never ends it.
    ensures InCluster(env) && p.tokenFile.None? ==> out == Exit(TokenFileUnreadable)
    ensures InCluster(env) && p.tokenFile.Some? && p.caFile.None? ==> out == Exit(CaFileUnreadable)
    ensures InCluster(env) && p.tokenFile.Some? && p.caFile.Some? && !p.appendCertsFromPEM(p.caFile.value) ==>
      out == Exit(CaNotAccepted)
    ensures InCluster(env) && FilesRead(p) ==> (out.Exit? <==> !LdapSettingsParse(env))
    // Each unparsable setting ends the process with its own message, in reading order.
    ensures InCluster(env) && FilesRead(p) && Atoi(GetenvOr(env, LdapPortVar, DefaultLdapPort)).None?
      ==> out == Exit(InvalidLdapPort)
    ensures InCluster(env) && FilesRead(p) && Atoi(GetenvOr(env, LdapPortVar, DefaultLdapPort)).Some? &&
      ParseBool(GetenvOr(env, LdapUseSslVar, "false")).None?
      ==> out == Exit(InvalidLdapUseSsl)
    ensures InCluster(env) && FilesRead(p) && Atoi(GetenvOr(env, LdapPortVar, DefaultLdapPort)).Some? &&
      ParseBool(GetenvOr(env, LdapUseSslVar, "false")).Some? &&
      ParseBool(GetenvOr(env, LdapSkipTlsVerificationVar, "true")).None?
      ==> out == Exit(InvalidLdapSkipTlsVerification)
    ensures InCluster(env) && FilesRead(p) && Atoi(GetenvOr(env, LdapPortVar, DefaultLdapPort)).Some? &&
      ParseBool(GetenvOr(env, LdapUseSslVar, "false")).Some? &&
      ParseBool(GetenvOr(env, LdapSkipTlsVerificationVar, "true")).Some? &&
      ParseBool(GetenvOr(env, LdapStartTlsVar, "false")).None?
      ==> out == Exit(InvalidLdapStartTls)
    ensures out != Exit(LdapPortReparse)
    // The validation decides what is returned.
    ensures InCluster(env) && FilesRead(p) && LdapSettingsParse(env) ==>
      var top := ConfigFailures(
        Net.JoinHostPort(Getenv(env, HostVar), Getenv(env, PortVar)),
        p.tokenFile.value, p.base64Encode(p.caFile.value), p);
      var ldap := LdapFailures(
        Getenv(env, "LDAP_USERBASE"), Getenv(env, "LDAP_GROUPBASE"), Getenv(env, "LDAP_SERVER"),
        Getenv(env, "LDAP_BINDDN"), Getenv(env, "LDAP_PASSWD"), p);
      (top != {} ==> out == Return(None, Some(ValidationError(top)))) &&
      (top == {} && ldap != {} ==> out == Return(None, None)) &&
      (top == {} && ldap == {} ==> out.Return? && out.config.Some? && out.err.None?)
    // What a returned configuration holds.
    ensures out.Return? && out.config.Some? ==>
      var c := out.config.value;
      out.err.None? && InCluster(env) && FilesRead(p) && LdapSettingsParse(env) &&
      c.apiServerURL == Net.JoinHostPort(Getenv(env, HostVar), Getenv(env, PortVar)) &&
      c.kubeToken == p.tokenFile.value && c.kubeCaText == p.caFile.value &&
      c.kubeCa == p.base64Encode(p.caFile.value) &&
      c.tokenLifeTime == GetenvOr(env, "TOKEN_LIFETIME", DefaultTokenLifeTime) &&
      c.ldap.userFilter == GetenvOr(env, "LDAP_USERFILTER", DefaultUserFilter) &&
      c.ldap.groupFilter == GroupFilter && c.ldap.attributes == Attributes &&
      c.ldap.userBase == Getenv(env, "LDAP_USERBASE") && c.ldap.groupBase == Getenv(env, "LDAP_GROUPBASE") &&
      c.ldap.adminUserBase == GetenvOr(env, "LDAP_ADMIN_USERBASE", "") &&
      c.ldap.adminGroupBase == GetenvOr(env, "LDAP_ADMIN_GROUPBASE", "") &&
      c.ldap.host == Getenv(env, "LDAP_SERVER") &&
      c.ldap.bindDN == Getenv(env, "LDAP_BINDDN") && c.ldap.bindPassword == Getenv(env, "LDAP_PASSWD") &&
      c.ldap.port == Atoi(GetenvOr(env, LdapPortVar, DefaultLdapPort)).value &&
      c.ldap.startTLS == ParseBool(GetenvOr(env, LdapStartTlsVar, "false")).value
    // With nothing set, the LDAP defaults.
    ensures (out.Return? && out.config.Some? && LdapPortVar !in env && LdapUseSslVar !in env &&
             LdapSkipTlsVerificationVar !in env && LdapStartTlsVar !in env) ==>
      var l := out.config.value.ldap;
      l.port == 389 && !l.useSSL && l.skipTLSVerification && !l.startTLS
    // The port override of the TLS flags.
    ensures out.Return? && out.config.Some? && TlsOverride(env, 636) ==>
      out.config.value.ldap.useSSL && !out.config.value.ldap.skipTLSVerification
    ensures out.Return? && out.config.Some? && TlsOverride(env, 389) ==>
      out.config.value.ldap.useSSL == ParseBool(GetenvOr(env, LdapUseSslVar, "false")).value &&
      !out.config.value.ldap.skipTLSVerification
    ensures out.Return? && out.config.Some? && !TlsOverride(env, 389) && !TlsOverride(env, 636) ==>
      out.config.value.ldap.useSSL == ParseBool(GetenvOr(env, LdapUseSslVar, "false")).value &&
      out.config.value.ldap.skipTLSVerification == ParseBool(GetenvOr(env, LdapSkipTlsVerificationVar, "true")).value
  {
    var host, port := Getenv(env, HostVar), Getenv(env, PortVar);
    if |host| == 0 || |port| == 0 {
      return Return(None, Some(ErrNotInCluster));
    }

    if p.tokenFile.None? {
      return Exit(TokenFileUnreadable);
    }
    var kubeToken := p.tokenFile.value;
    if p.caFile.None? {
      return Exit(CaFileUnreadable);
    }
    var kubeCA := p.caFile.value;
    var caEncoded := p.base64Encode(kubeCA);
    if !p.appendCertsFromPEM(kubeCA) {
      return Exit(CaNotAccepted);
    }

    assert DigitsValue(DefaultLdapPort) == 389 by {
      assert DefaultLdapPort[..2] == "38" && "38"[..1] == "3";
    }
    var parsedPort := Atoi(GetenvOr(env, LdapPortVar, DefaultLdapPort));
    if parsedPort.None? {
      return Exit(InvalidLdapPort);
    }
    var parsedSsl := ParseBool(GetenvOr(env, LdapUseSslVar, "false"));
    if parsedSsl.None? {
      return Exit(InvalidLdapUseSsl);
    }
    var parsedSkip := ParseBool(GetenvOr(env, LdapSkipTlsVerificationVar, "true"));
    if parsedSkip.None? {
      return Exit(InvalidLdapSkipTlsVerification);
    }
    var parsedStartTls := ParseBool(GetenvOr(env, LdapStartTlsVar, "false"));
    if parsedStartTls.None? {
      return Exit(InvalidLdapStartTls);
    }
    var ldapPort, useSSL, skipTLSVerification, startTLS :=
      parsedPort.value, parsedSsl.value, parsedSkip.value, parsedStartTls.value;

    if |Getenv(env, LdapPortVar)| > 0 {
      var envLdapPort := Atoi(Getenv(env, LdapPortVar));
      if envLdapPort.None? {
        return Exit(LdapPortReparse);
      }
      ldapPort := envLdapPort.value;
      if ldapPort == 389 && Getenv(env, LdapSkipTlsVar) == "false" {
        skipTLSVerification := false;
      }
      if ldapPort == 636 && Getenv(env, LdapSkipTlsVar) == "false" {
        skipTLSVerification := false;
        useSSL := true;
      }
    }

    var ldapUserFilter := GetenvOr(env, "LDAP_USERFILTER", DefaultUserFilter);
    var ldapConfig := LdapConfig(
      Getenv(env, "LDAP_USERBASE"),
      Getenv(env, "LDAP_GROUPBASE"),
      GetenvOr(env, "LDAP_ADMIN_USERBASE", ""),
      GetenvOr(env, "LDAP_ADMIN_GROUPBASE", ""),
      Getenv(env, "LDAP_SERVER"),
      ldapPort,
      useSSL,
      startTLS,
      skipTLSVerification,
      Getenv(env, "LDAP_BINDDN"),
      Getenv(env, "LDAP_PASSWD"),
      ldapUserFilter,
      GroupFilter,
      Attributes);
    var config := Config(
      ldapConfig,
      caEncoded,
      kubeCA,
      kubeToken,
      Net.JoinHostPort(host, port),
      GetenvOr(env, "TOKEN_LIFETIME", DefaultTokenLifeTime));

    var failures := ConfigFailures(config.apiServerURL, config.kubeToken, config.kubeCa, p);
    var err := if failures == {} then None else Some(ValidationError(failures));
    var ldapFailures := LdapFailures(ldapConfig.userBase, ldapConfig.groupBase, ldapConfig.host,
                                     ldapConfig.bindDN, ldapConfig.bindPassword, p);
    var errLdap := if ldapFailures == {} then None else Some(ValidationError(ldapFailures));

    if err.Some? {
      return Return(None, err);
    }
    if errLdap.Some? {
      // returns err, which is nil here, rather than errLdap
      return Return(None, err);
    }
    return Return(Some(config), None);
  }
}
