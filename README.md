# kubi token issuance and configuration, modelled in Dafny

kubi is a Kubernetes authentication service. A client sends LDAP credentials in an
HTTP Basic header. kubi authenticates them against the directory, looks up the
user's groups, and turns the groups into namespace grants. It then signs a JWT
holding the grants, the username, an admin flag, the issuer "Kubi Server" and an
expiry. The token comes back raw (`GenerateJWT`) or inside a kubeconfig document
(`GenerateConfig`). Later requests present it as a bearer token (`CurrentJWT`). At
start-up the server builds its configuration from environment variables (`MakeConfig`).

The project models two source files:

- `services/authenticator.go` is split across three modules:
  - `Authenticator`: credential and bearer parsing, the claims, and the issuance pipeline.
  - `KubeConfig`: the kubeconfig document.
  - `Handlers`: the three HTTP handlers. The `http.ResponseWriter` is a class that
    records each write in order. Each handler is a method whose new writer state is
    a specification function of the request.
- `utils/config.go` is the `Config` module. `MakeConfig` is a method that parses the
  LDAP settings into locals and then overrides them, as the Go code does.

The Go library calls whose behaviour decides an outcome are modelled exactly:

- `Strings`: `strings.Index`, `SplitN(…, 2)`, `Split`, `Join` and `HasPrefix`.
- `Strconv`: `strconv.Atoi` for 64-bit `int`, and `ParseBool`.
- `Authenticator.ParseWithClaims`: the one check of jwt-go's `ParseWithClaims` that decides whether a token object exists: the input must split into three dot-separated segments.
- `Net`: `net.JoinHostPort`.

Strings are sequences of bytes, as Go's `len` and indexing treat them.

Everything outside the two files is a parameter:

- base64 decoding and encoding;
- the LDAP calls and `GetUserNamespaces`;
- `time.Now` (Unix nanoseconds) and the result of `time.ParseDuration` (nanoseconds, or None);
- the JWT signer, and what the JWT parser does with a three-segment token;
- the file contents and the URL/base64 validators.

Behaviours of the code that the model keeps as written:

- `basicAuth` has no error after the scheme check. A decoded payload without a colon
  makes `pair[1]` panic; that is `IndexOutOfRange`, not an error value. This differs
  from a design in which a bad payload or bad base64 is a credentials error.
- `GenerateJWT` and `GenerateConfig` write 401 on a bad scheme and then dereference
  the nil credentials, so they panic.
- `GenerateJWT` writes nothing when issuance fails.
- `VerifyJWT` reads `token.Claims` before it looks at the parse error. A body that
  is not three dot-separated segments (an empty body, for one) gives a nil token, so
  the handler panics before it writes anything. Any other body gets 200, whether or
  not the token verifies.
- A token lifetime that does not parse gives a zero duration. The parse error is
  overwritten by the signing error, so it never reaches the caller. This differs from a
  design in which a bad lifetime is a start-up error.
- `MakeConfig` returns `(nil, nil)` when only the LDAP validation fails, because it
  returns `err`, not `errLdap`.
- The TLS override reads `LDAP_SKIP_TLS`, not `LDAP_SKIP_TLS_VERIFICATION`.

## Model

| member | source | states |
|---|---|---|
| `Strings.Index` | services/authenticator.go:183 | the index returned is an occurrence of the separator with none before it; None exactly when there is no occurrence |
| `Strings.SplitN2` | services/authenticator.go:190 | `SplitN(s, sep, 2)` gives two pieces exactly when `sep` occurs; then `s` is piece 0 + `sep` + piece 1, with piece 0 ending at the first occurrence; otherwise `s` alone |
| `Strings.SplitWhole` | services/authenticator.go:164 | `Split` gives the string alone exactly when the separator does not occur, and otherwise at least two pieces |
| `Strings.HasPrefixConcat` | services/authenticator.go:161 | a string has a prefix exactly when it is that prefix followed by the rest |
| `Strings.SplitPiecesFree` | services/authenticator.go:164 | no piece of `Split` contains the separator |
| `Strings.JoinSplit` | services/authenticator.go:164 | splitting on every occurrence loses nothing: joining the pieces gives back the string |
| `Strings.SplitSecondPiece` | services/authenticator.go:164-165 | when the separator first occurs at `i`, piece 1 of `Split` is the text after it up to the next occurrence |
| `Strconv.Atoi` | utils/config.go:57-58 | an accepted port is an int64; it is an optional sign followed by one or more digits and nothing else; a negative value starts with `-` |
| `Strconv.AtoiItoa` | utils/config.go:57 | every int64 written in canonical decimal is read back by `Atoi` as itself |
| `Strconv.ItoaAtoi` | utils/config.go:57 | every canonical decimal string `Atoi` accepts is what `Itoa` writes for its value, so the two are inverse on canonical strings |
| `Strconv.AtoiPlusAndZeros` | utils/config.go:57 | a leading `+` and leading zeros do not change the value: `+389` and `0389` read as `389`, and `-0` reads as `0` |
| `Strconv.ParseBool` | utils/config.go:60-67 | `true` exactly for `1`, `t`, `T`, `TRUE`, `true` and `True`; `false` exactly for `0`, `f`, `F`, `FALSE`, `false` and `False`; an error for every other string |
| `Strconv.ParseBoolFormatBool` | utils/config.go:60-67 | `ParseBool` reads back what `FormatBool` writes |
| `Net.JoinHostPortPlain` | utils/config.go:105 | for a host without a colon, the API server URL is `host:port`: the host is the text before the first colon and the port the text after it |
| `Net.JoinHostPort` | utils/config.go:105 | the address ends with `:` and the port, and is one byte longer than host and port together, or three bytes longer when the host is bracketed |
| `Net.JoinHostPortBracketed` | utils/config.go:105 | a host with a colon is bracketed: it sits between `[` and `]`, and the port follows `]:` |
| `Net.JoinHostPortClosingBracket` | utils/config.go:105 | when such a host holds no `]` of its own, the first `]` of the address is the closing bracket |
| `Authenticator.BasicSchemeSplit` | services/authenticator.go:183-185 | splitting the header on its first space yields two pieces whose first is exactly `Basic` exactly when the header starts with `Basic ` (case-sensitive); then piece 1 is the rest of the header |
| `Authenticator.PayloadSplit` | services/authenticator.go:190-191 | the decoded payload splits into two pieces exactly when it holds a colon; then the first piece holds no colon and the pieces rejoin around one colon |
| `Authenticator.BasicAuth` | services/authenticator.go:182-192 | an error exactly when the header does not start with `Basic ` (so empty or bare `Basic` headers are rejected); otherwise a panic exactly when the decoded payload has no colon; otherwise the username is the payload before the first colon and the password all after it, colons included |
| `Authenticator.BearerToken` | services/authenticator.go:158-165 | accepted exactly when the header starts with `Bearer ` and is at least 8 bytes; rejected with `Invalid Authorization Header: <header>`; the token is a prefix of the remainder that holds no `Bearer `, and it is the whole remainder or ends where the next `Bearer ` starts |
| `Authenticator.DotFreeNilToken` | services/authenticator.go:143 | a string without a dot, the empty string included, gives a nil token with the invalid-segments error |
| `Authenticator.CompactFormToken` | services/authenticator.go:143 | three dot-free segments joined by dots give a token, accepted or not as the verifier decides |
| `Authenticator.TokenIsCompactForm` | services/authenticator.go:143 | a token is only made from exactly three dot-free segments joined by dots |
| `Authenticator.CurrentJWT` | services/authenticator.go:156-179 | a header failing the bearer check is rejected before parsing; otherwise the remainder after `Bearer `, cut at its next `Bearer ` when there is one, is parsed, and the parse error or the claims are returned |
| `Authenticator.UserClaims` | services/authenticator.go:23-38 | the claims carry the mapper's grants unchanged, the username, the admin flag and issuer `Kubi Server`; `ExpiresAt` is the Unix second containing now + lifetime, and just now when the lifetime does not parse |
| `Authenticator.ExpiresAtMonotonic` | services/authenticator.go:26-35 | with the same configured lifetime, a token issued later never has an earlier `ExpiresAt` |
| `Authenticator.GenerateUserToken` | services/authenticator.go:23-43 | the result, token or error, is the signer's result on any claims holding the groups' grants, the username, the admin flag, issuer `Kubi Server` and the Unix second of now plus the lifetime (zero when it does not parse); no lifetime error is returned |
| `Authenticator.BaseGenerateToken` | services/authenticator.go:46-63 | an authentication error is returned unchanged; then a group-lookup error is returned unchanged; otherwise the result is the signature of the claims built from the groups and admin flag of the DN authentication returned |
| `Authenticator.IssuedTokenBindsIdentity` | services/authenticator.go:46-62 | an issued token means both directory steps succeeded, and the signer produced it from claims naming the authenticated user, that DN's grants and admin flag, issued by `Kubi Server` |
| `KubeConfig.Render` | services/authenticator.go:103-130 | apiVersion `v1`, kind `Config`; one cluster `kubernetes`, one context, one user named after the user; the current context is the context's name `kubernetes-<username>`, pointing at cluster `kubernetes` and that user; resolving it gives server `https://<host>`, the configured CA and the issued token |
| `KubeConfig.ContextNameInjective` | services/authenticator.go:115-118 | different usernames get different context names |
| `Handlers.GenerateJWT` | services/authenticator.go:65-80 | the writer receives exactly the writes of `GenerateJWTOutcome`, and the method reports whether the handler panics |
| `Handlers.GenerateJWTResponses` | services/authenticator.go:65-80 | 200 exactly when credentials were read and a token issued, and then the writes are that 200 and the token as the body; 401 exactly when the scheme is wrong, and then the writes are 401 and `Basic Auth: Invalid credentials`, followed by a panic; a panic exactly when no credentials were read, with nothing written for a colon-free payload; an untouched response without panic exactly when issuance failed |
| `Handlers.GenerateConfig` | services/authenticator.go:85-139 | the writer receives exactly the writes of `GenerateConfigOutcome`: 401 and a panic on a bad scheme, 401 on an issuance error, else 201, the YAML content type and the rendered document |
| `Handlers.GenerateConfigResponses` | services/authenticator.go:85-139 | on issuance the writes are exactly 201, the YAML content type and the document rendered for the user, the issued token, the request host and the cluster CA; an issuance error writes a lone 401; a bad scheme writes 401 and `Basic Auth: Invalid credentials`; a colon-free payload writes nothing; 201 and 401 each appear exactly in those cases; a panic exactly when no credentials were read |
| `Handlers.GenerateConfigServesIssuedToken` | services/authenticator.go:95-137 | a written document comes from parsed credentials and a successful issuance; its current context is the user's and it resolves to `https://<request host>`, the cluster CA and the issued token |
| `Handlers.VerifyJWT` | services/authenticator.go:141-154 | the writer receives exactly the writes of `VerifyJWTOutcome`, and the method reports whether the handler panics |
| `Handlers.VerifyJWTResponses` | services/authenticator.go:141-154 | one 200 and no panic exactly when the body is three dot-separated segments; otherwise a panic with nothing written, which an empty or dot-free body always gets; whether the token verifies does not change the response |
| `Config.MakeConfig` | utils/config.go:25-133 | outside a cluster, exactly `(nil, ErrNotInCluster)` before any read; the process exits exactly on an unreadable file, a rejected CA or an unparsable LDAP setting, with the message of the first setting that does not parse (port, SSL, skip verification, StartTLS), never on the second port parse; top-level validation failures are returned with their fields, LDAP-only failures give `(nil, nil)`; a returned config has the defaults (port 389, no SSL, skip verification, no StartTLS, filter `(cn=%s)`, lifetime `4h`), group filter `(member=%s)`, `JoinHostPort(host, port)`, and the 389/636 override of the TLS flags when `LDAP_SKIP_TLS` is `false` |

## Left out

- JWT signing (HS512, RFC 7519) is the parameter `sign`. Of JWT parsing, only the three-segment check that decides between a nil token and a token is modelled; decoding, the signature and the claim checks of a three-segment token are the parameter `verify`. Nothing here states tamper detection, expiry checking or a sign/parse round trip, since none of that logic is in these files.
- base64 encoding and decoding (`base64.StdEncoding`) are parameters. `basicAuth` discards the decode error, so the decoded payload is whatever the parameter returns.
- The LDAP calls, `GetUserNamespaces` and the grant type (`types.Project`, abstract here) are parameters.
- The read of the signing key at package initialisation and the reads of the token and CA files are inputs; a failed file read is `None`.
- `time.Now`, the `time.ParseDuration` grammar, and overflow in `Time.Add` or `Duration` are not modelled.
- YAML marshalling and its logged error are not modelled. The written document is recorded as a value.
- What net/http does after a write: the implicit 200, a superfluous second `WriteHeader`, a header set after `WriteHeader`, and recovery from a handler panic. The model records only the calls and whether the handler panics.
- Logging is not modelled.
- Reading the request body in `VerifyJWT` is not modelled. The body is an input.
- Concurrent request handling is not modelled.
- x509 cert pool and `tls.Config` construction are left out. Only the outcome of `AppendCertsFromPEM` is kept, because its failure ends the process. `ApiServerTLSConfig` is not a field of the modelled `Config`.
- `is.URL` and `is.Base64` are opaque predicates.
- `validation.Length` measures a string with its byte length, as the model does; multi-byte characters are not special-cased.
- The failure value of a validation is the set of rejected field names, not ozzo-validation's messages.
- `getEnv`, `check` and `checkf` are not among the modelled files. `getEnv` is taken to be a lookup with a fallback: a variable set to `""` gives `""`. `check` and `checkf` are taken to end the process.
- `strings.SplitN` and `strings.Split` are modelled for non-empty separators only, the only kind these files use.
