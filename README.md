# bootstrap.sk8s.net core, modelled in Dafny

The service hands out bootstrap scripts, kubeconfigs and X.509 material to
cluster nodes. This project models its core and proves properties of the
model:

- **Key derivation and the certificate authority** (`Crt`): `keyPair`
  derives a P-256 key pair and a serial from a name and the shared
  `SECRET_STRING`. `ca` builds the self-signed root for the request's host.
  `cert` builds the leaf for the caller's principal. `key` and `pub` export
  the leaf keys. `certRouter` maps the four download paths to these handlers.
  SHA-256, P-256 point derivation, key identifiers, distinguished-name text,
  signing/PEM and the PKCS#8/SPKI exports are fields of a `Primitives`
  value. Every lemma holds for every choice of them.
- **Identity resolution** (`Identity`): these are the AWS, GitHub, JWT and
  anonymous sources and their `race`. Each source is an optional timed
  emission. The race picks the earliest one, and on a tie the leftmost.
  The STS call is a function from the request parameters to a timed reply.
- **Utilities** (`Utils`): `sanitizeForBash` in strict and metadata mode,
  `isValidComponent`, `parseUserAgent` and `isBrowser`.
  - The `(?:sk8s-)?([^/]+)\/([^\s(]+)` match is specified in two ways: by
    which `UaMatch` values match (`IsMatch`), and by which one a
    backtracking matcher reports (`IsReportedMatch`). A scanner is proved
    sound and complete for both.
  - `UtilsExamples` replays the `parseUserAgent` cases of
    `src/utils.test.ts` that take a User-Agent: the standard form, the
    metadata form (for the test's own string and for any text after
    `dockerd-kubelet/1.34 `), the `v` version prefix, the `sk8s-` prefix,
    both component-only forms (when UAParser names no browser), and the
    `invalid` and `kubelet` components. The absent and empty cases are
    `Utils.ParseUserAgent`'s first clause.
- **Middleware** (`Middleware`): the `sanitized()` decision chain and the
  status/format choice of `errorHandler`.
- **Kubeconfig** (`Kubeconfig`): `generateKubeconfig` is an imperative
  method. Its local variables start at their defaults, and claims
  overwrite them when the token decodes. The claims are JSON values
  (`JsValue`) stringified as JavaScript templates do.
- **Handlebars helpers** (`Handlebars`): `env` and `length`.

Supporting modules:

- `Wrappers`: Option and Result.
- `Ascii`: ASCII case mapping and substring search.
- `Strings`: JavaScript `split` on one character and `join`.
- `JsValue`: JSON values and their JavaScript text.

Inputs that come from outside the code are parameters of the model:

- what the User-Agent parser reports (`BrowserInfo`);
- the outcome of content negotiation (`Accepted`);
- the JWT decode result (`Option<Payload>`);
- the URL hostname parser;
- the STS reply;
- the signing nonce;
- the error handler's timestamp.

Where the code and the project's documentation or integration tests
disagree, the model follows the code:

- **Strict User-Agent check.** The User-Agent is sanitised in strict mode
  (src/middleware.ts:63). `tests/integration.test.ts:65-85` expects a
  User-Agent with a parenthesised comment to get the bootstrap script.
  `Middleware.ParenthesisedUserAgentRefused` proves such a request fails
  with the `User-Agent` message.
- **The CA certificate is not byte-stable.** The key material, serial,
  subject and extensions are a function of the inputs (`Crt.CaRootShape`, `Crt.CaDeterministic`).
  The PEM is not, because WebCrypto's ECDSA signatures are randomised. The
  model gives signing a nonce, so only equal nonces give equal PEM.
- **The controller does not feed the leaf seed.** The leaf key seed is
  `name:secret`, whatever controller is passed (`Crt.KeysIgnoreController`).
- **Leaf and CA keys coincide for one name.** A principal that equals the
  host name gets the CA's own key pair (`Crt.LeafSharesCaKeysOnSameName`).
- **Domain separation holds per name.** The serial preimage
  `serial:name:secret` differs from the seed preimage `name:secret` of the
  same name. It equals the seed preimage of the name `serial:name`
  (`Crt.SerialPreimageIsSeedPreimage`).
- **Controller labels are not filtered.** Empty labels are kept. A name
  with k dots always gives k + 1 `DC=` items.
- **Ties in the race.** When STS answers at exactly 5000 ms it ties with
  the fallback, and the AWS source wins as the leftmost in the race.

## Model

| member | source | states |
|---|---|---|
| Crt.KeyPair | src/_crt/index.ts:37-98 | Fails with the `SECRET_STRING` message exactly when the secret is absent or empty. On success: the controller is the given or the default one, the private scalar is SHA-256 of `name:secret`, the JWK coordinates reassemble the public point, and the serial is the first 32 hex characters of SHA-256 of `serial:name:secret` |
| Crt.HexPrefix | src/_crt/index.ts:85-88 | the first 2n hex characters encode the first n bytes |
| Crt.HexDigits | src/_crt/index.ts:85-88 | hex output is lower-case hex digits only |
| Crt.SerialIsDigestPrefix | src/_crt/index.ts:85-88 | the hex digest is 64 characters and the serial is its first 32; this is the hex of the first 16 digest bytes, all lower-case hex digits |
| Crt.DefaultController | src/_crt/index.ts:50-55 | the default controller starts with the `DC=` item of the first label; a name without `.` gives `DC=<name>` |
| Crt.DcLabels | src/_crt/index.ts:50-55 | one `DC=` item per `.`-separated label, empty labels kept, count = dots + 1 |
| Crt.ControllerDefault | src/_crt/index.ts:50-55 | a falsy controller becomes the comma join of the `DC=` labels; there is one per dot plus one, and splitting and re-joining gives back the name |
| Crt.ControllerKept | src/_crt/index.ts:50-51 | a non-empty controller is returned unchanged |
| Crt.ControllerForDottedName | src/_crt/index.ts:50-55 | `node1.example.com` gives `DC=node1,DC=example,DC=com` |
| Crt.DottedNameLabels | src/_crt/index.ts:52-53 | `node1.example.com` splits into its three labels |
| Crt.KeysIgnoreController | src/_crt/index.ts:50-88 | keys and serial are the same for any two controllers |
| Crt.SeedSerialSeparated | src/_crt/index.ts:58-86 | the serial preimage is 7 characters longer than the seed preimage, so they differ |
| Crt.DistinctNamesDistinctPreimages | src/_crt/index.ts:58-86 | under one secret, distinct names give distinct seed and distinct serial preimages |
| Crt.DistinctNamesDistinctKeys | src/_crt/index.ts:58-61 | distinct names under one secret have distinct seed preimages, and get equal private keys exactly when SHA-256 collides on those two preimages |
| Crt.HexInjective | src/_crt/index.ts:85-88 | equal-length byte strings with the same hex text are equal |
| Crt.DistinctNamesDistinctSerials | src/_crt/index.ts:85-88 | distinct names under one secret have distinct serial preimages, and get equal serials exactly when the digests of those preimages agree in their first 16 bytes |
| Crt.SerialPreimageIsSeedPreimage | src/_crt/index.ts:58-86 | the serial preimage of `n` is the seed preimage of `serial:n` |
| Crt.BuildCaRoot | src/_crt/index.ts:100-119 | fails exactly without a secret; the host is the request's or `localhost` |
| Crt.CaRootShape | src/_crt/index.ts:100-119 | subject `CN=<host>,<default controller>`, issuer = subject, self-signed with its own derived keys, the fixed 2025–2035 window, and exactly the three extensions: CA with path length 2 (critical), keyCertSign and cRLSign (critical), and the SKI of its own key |
| Crt.Ca | src/_crt/index.ts:100-128 | fails with the secret message exactly without a secret; content type `application/x-x509-ca-cert` |
| Crt.CaResponse | src/_crt/index.ts:121-127 | the response carries the root's keys and controller, the text of its subject, and its signed PEM |
| Crt.CaDeterministic | src/_crt/index.ts:100-128 | two derivations agree on subject, keys and controller, and on everything when the nonce is equal |
| Crt.BuildLeaf | src/_crt/index.ts:133-164 | fails exactly without a secret |
| Crt.LeafShape | src/_crt/index.ts:133-164 | subject `CN=<p>,O=system:masters` and issuer the CA subject. It is signed by the CA private key, with the keys and serial derived from p alone and the fixed window. Its extensions are exactly: not-CA (critical); digitalSignature, nonRepudiation and keyAgreement (critical); clientAuth and serverAuth (critical); the three local SANs; the SKI of its own key; the AKI of the CA key |
| Crt.Cert | src/_crt/index.ts:130-173 | fails with the secret message exactly without a secret; content type `application/x-x509-user-cert` |
| Crt.LeafChainsToCa | src/_crt/index.ts:130-173 | the leaf's issuer is the root's subject text, its signing key is the root's, its AKI equals the root's SKI, and `cert` sends the leaf's PEM |
| Crt.LeafIndependentOfHost | src/_crt/index.ts:131-133 | two requests with one principal get the same leaf keys and serial, whatever their hosts |
| Crt.LeafSharesCaKeysOnSameName | src/_crt/index.ts:100-133 | a principal equal to the host gets the CA's key pair |
| Crt.Key | src/_crt/index.ts:175-190 | fails exactly without a secret; content type `application/x-pem-file` |
| Crt.Pub | src/_crt/index.ts:192-207 | fails exactly without a secret; content type `application/x-pem-file` |
| Crt.ExportsMatchCert | src/_crt/index.ts:175-207 | `key` and `pub` carry the keys `cert` certifies and export its private and public halves; both report the CA subject |
| Crt.RouteOf | src/_crt/index.ts:213-222 | a route exists exactly for the four paths: `/ca.crt` selects `ca`, `/client.crt` `cert`, `/client.key` `key` and `/client.pub` `pub` |
| Crt.Handle | src/_crt/index.ts:213-228 | the selected handler fails exactly without a secret, with the secret message, and otherwise resolves with its route's content type (CA cert, user cert, PEM, PEM) |
| Crt.CertRouter | src/_crt/index.ts:209-236 | no response outside the four paths; otherwise it fails exactly without a secret, with the secret message, and on success sends the selected handler's MIME type as `Content-Type`, an attachment named after the path without its leading `/`, and the handler's data as the body |
| Crt.CertRouterServes | src/_crt/index.ts:209-236 | with a secret, `/ca.crt` sends the CA PEM as `application/x-x509-ca-cert`, `/client.crt` the leaf PEM as `application/x-x509-user-cert`, and `/client.key` and `/client.pub` the PKCS#8 and SPKI PEMs as `application/x-pem-file`, each as an attachment named after the path |
| Identity.Winner | src/_crt/identity.ts:40 | none iff no source emits; otherwise an emitting source no later than any other and strictly earlier than every source to its left |
| Identity.Race | src/_crt/identity.ts:40 | emits iff some source does; the result is one of the sources' emissions and the earliest |
| Identity.StsParams | src/_crt/identity.ts:13-22 | credentials from the headers; an empty session token becomes absent; the region defaults to `us-east-1` |
| Identity.Aws | src/_crt/identity.ts:5-28 | never emits without both credentials. It emits the STS `UserId` at the reply's time exactly when the call resolves with a non-empty one. A rejection gives nothing |
| Identity.Github | src/_crt/identity.ts:30 | never emits |
| Identity.Jwt | src/_crt/identity.ts:32 | never emits |
| Identity.Anonymous | src/_crt/identity.ts:34-35 | one emission, at the timeout, of the principal `anonymous` |
| Identity.ResolveIdentity | src/_crt/identity.ts:37-41 | always emits, by 5000 ms |
| Identity.IdentityOutcome | src/_crt/identity.ts:34-41 | the result is the AWS emission when it comes no later than 5000 ms, otherwise `anonymous` at 5000 ms |
| Identity.AwsWinsBeforeDeadline | src/_crt/identity.ts:24-40 | an STS `UserId` answered at t is the principal when t ≤ 5000, else `anonymous` |
| Identity.NoCredentialsAnonymous | src/_crt/identity.ts:5-40 | without both credential headers the principal is `anonymous` at 5000 ms |
| Utils.AllSafe | src/utils.ts:60-66 | true iff every character is in the mode's class |
| Utils.SanitizeForBash | src/utils.ts:53-72 | returns its input unchanged or fails with the field's message; it succeeds iff the input is empty or every character is in the mode's class |
| Utils.StrictAcceptsExactly | src/utils.ts:58-68 | strict mode accepts exactly "" and strings over `[A-Za-z0-9._:/-]` |
| Utils.StrictImpliesMetadata | src/utils.ts:60-66 | what strict mode accepts, metadata mode accepts with the same result |
| Utils.MetadataAdds | src/utils.ts:60-62 | metadata mode adds exactly `(`, `)`, space and `;` |
| Utils.IsValidComponent | src/utils.ts:74-80 | true iff the value is present and equals `dockerd-kubelet` ignoring ASCII case |
| Utils.MatchGroupsFromSound | src/utils.ts:98 | the groups found after a start position form a match |
| Utils.MatchGroupsFromComplete | src/utils.ts:98 | any match from that group start is no longer than the one found |
| Utils.MatchAtSound | src/utils.ts:98 | a match found at a start is a match, with `sk8s-` taken when possible |
| Utils.MatchAtComplete | src/utils.ts:98 | any match at that start is dominated by the one found |
| Utils.SearchFromSound | src/utils.ts:98 | the scan's match is a match, and no match starts earlier from the scan position |
| Utils.SearchFromNone | src/utils.ts:98 | a failed scan means no match starts at or after its position |
| Utils.CustomMatch | src/utils.ts:98 | a match found by the left-to-right scan is a match of the pattern |
| Utils.CustomMatchSound | src/utils.ts:98 | a found match is a match |
| Utils.CustomMatchIsReported | src/utils.ts:98-101 | the found match is the leftmost-preferred one JavaScript reports |
| Utils.CustomMatchComplete | src/utils.ts:98-100 | whenever the pattern can match, a match is found |
| Utils.SlashForced | src/utils.ts:98 | the first group is forced up to the first `/` |
| Utils.ReportedMatchUnique | src/utils.ts:98 | the reported match is unique |
| Utils.ComponentOf | src/utils.ts:102-104 | a component iff the capture is valid, and then `dockerd-kubelet` |
| Utils.StripSk8s | src/utils.ts:125 | strips one leading `sk8s-` and nothing else |
| Utils.ParseUserAgent | src/utils.ts:82-135 | `{null, null, ''}` for a falsy input; otherwise raw is the input and a component is always `dockerd-kubelet` |
| Utils.ParseCustom | src/utils.ts:98-107 | on a match, the version is the reported second group and the component is that of the first group |
| Utils.ParseComponentOnly | src/utils.ts:110-134 | without any match or browser name, the version is null and the component is that of the input with `sk8s-` stripped |
| Utils.ParseBrowserName | src/utils.ts:109-121 | without any match but with a browser name from UAParser: the component is that of the name (so `dockerd-kubelet` or null), the version is UAParser's non-empty version or null, and raw is the input |
| Utils.ParsedVersionNoSpace | src/utils.ts:98-106 | a matched version has no whitespace and no `(` |
| Utils.SomeContained | src/utils.ts:27-45 | true iff some needle occurs ignoring case |
| Utils.IsBrowser | src/utils.ts:7-46 | false for a falsy input; otherwise true iff the browser name contains one of the nine names or the UA contains one of the six words, ignoring case |
| Utils.BrowserWordIsBrowser | src/utils.ts:36-45 | a UA containing a browser word is a browser's |
| UtilsExamples.ParseSk8sPrefixed | src/utils.test.ts:156-161 | `sk8s-dockerd-kubelet/v1.29.0` parses to the component and `v1.29.0` |
| UtilsExamples.ParseWithMetadata | src/utils.test.ts:138-147 | any UA starting `dockerd-kubelet/1.34 ` parses to the component and `1.34` |
| UtilsExamples.ParseMetadataTest | src/utils.test.ts:138-147 | the test's own UA with the parenthesised platform list parses to the component and `1.34`, raw being the UA |
| UtilsExamples.ParseStandard | src/utils.test.ts:131-136 | `dockerd-kubelet/v1.28.0` parses to the component and `v1.28.0` |
| UtilsExamples.ParseVersionPrefix | src/utils.test.ts:149-154 | `dockerd-kubelet/v1.34.5` parses to the component and `v1.34.5` |
| UtilsExamples.ParseComponentOnlyPlain | src/utils.test.ts:163-168 | `dockerd-kubelet` parses to the component and a null version when UAParser names no browser |
| UtilsExamples.ParseComponentOnlyPrefixed | src/utils.test.ts:170-175 | `sk8s-dockerd-kubelet` parses to the component and a null version when UAParser names no browser |
| UtilsExamples.ParseInvalidComponent | src/utils.test.ts:177-182 | `invalid/v1.0.0` has no component and version `v1.0.0` |
| UtilsExamples.PlainMatch | src/utils.ts:98 | a UA `<group>/<version>` not starting with `s` is matched whole |
| UtilsExamples.NoSlashNoMatch | src/utils.ts:98 | a UA without `/` has no match |
| UtilsExamples.ParseOtherComponent | src/utils.test.ts:184-189 | `kubelet/v1.28.0` has no component and version `v1.28.0` |
| UtilsExamples.Sk8sPrefixedMatch | src/utils.test.ts:156-161 | the reported match of the prefixed UA takes the `sk8s-` prefix |
| UtilsExamples.MetadataMatch | src/utils.test.ts:138-147 | for any UA starting `dockerd-kubelet/1.34 `, the reported match stops the version at the space |
| UtilsExamples.ReportedIs | src/utils.ts:98 | a match that is leftmost and preferred is the one found |
| UtilsExamples.ParseGivenMatch | src/utils.ts:100-106 | a found match with group `dockerd-kubelet` gives that component and the second group |
| Middleware.SanitizeScript | src/middleware.ts:51-67 | never a pass-through. A stored record has the component, the raw UA, the defaulted machine id and version, and the token with `''` dropped |
| Middleware.StoredExactly | src/middleware.ts:51-67 | a record is stored iff the component is known and the UA, machine id and version are all strict |
| Middleware.StrictCheck | src/utils.ts:53-72 | strict sanitising keeps a strict value and otherwise fails with the field's message |
| Middleware.FirstUnsafeField | src/middleware.ts:61-67 | the first field, in write order, that fails the strict check |
| Middleware.UnknownComponentFirst | src/middleware.ts:51-55 | a null component fails with the unknown-component message |
| Middleware.FirstFailureWins | src/middleware.ts:57-67 | with a component, the first unsafe field's message is the error; with none unsafe, a record is stored |
| Middleware.StoredFieldsStrict | src/middleware.ts:58-66 | stored fields are strict, and the machine id and version are non-empty |
| Middleware.Sanitized | src/middleware.ts:24-74 | a browser UA passes through; a non-shellscript request passes through; otherwise the chain decides |
| Middleware.StoredRecord | src/middleware.ts:24-74 | a stored record holds the request's own non-empty User-Agent, the valid component and strict fields |
| Middleware.MissingUserAgentFails | src/middleware.ts:48-55 | a script request without a User-Agent fails as an unknown component |
| Middleware.ParenthesisedUserAgentRefused | src/middleware.ts:63 | a script request whose known-component UA contains `(` fails with the User-Agent message |
| Middleware.StrictCharsNotSpecial | src/utils.ts:49-52 | a strict string contains none of the shell's special characters |
| Middleware.ErrorHandler | src/middleware.ts:76-109 | 200 with an error script of the timestamp and message iff a shell script is accepted, else 500 with `{error: 'Internal Server Error', message}` |
| Middleware.ErrorMessagePreserved | src/middleware.ts:91-106 | the error's message reaches the client in either form |
| Kubeconfig.Issuer | src/kubeconfig.ts:5-13 | the default issuer on decode failure or a falsy `iss`, otherwise the JavaScript text of `iss` (a string `iss` itself) |
| Kubeconfig.ClientId | src/kubeconfig.ts:14 | `''` on decode failure or a falsy `azp`, else the text of `azp` (a string `azp` itself) |
| Kubeconfig.Subject | src/kubeconfig.ts:18 | `''` on decode failure or a falsy `sub`, else the text of `sub` (a string `sub` itself) |
| Kubeconfig.Audience | src/kubeconfig.ts:7-17 | the first element of an array `aud` (undefined when empty), else the text of `aud` or `''` |
| Kubeconfig.Scopes | src/kubeconfig.ts:9-23 | `offline_access`, then the text of each permission when `permissions` is an array, else nothing more |
| Kubeconfig.ContextName | src/kubeconfig.ts:30-36 | the audience hostname when URL parsing succeeds, else the audience |
| Kubeconfig.GenerateKubeconfig | src/kubeconfig.ts:4-89 | current context = context name = context cluster = cluster name = the context name; server = audience; user = `issuer#subject` in the context and the user entry. The exec entry has API version `client.authentication.k8s.io/v1`, command `kubectl`, interactive mode `IfAvailable` and no cluster info; its args and env carry the same issuer, client id, audience and comma-joined scopes |
| Kubeconfig.DecodeFailureDefaults | src/kubeconfig.ts:5-27 | on decode failure: default issuer, empty client id and subject, empty audience, scopes `[offline_access]` |
| Kubeconfig.ScopesText | src/kubeconfig.ts:72-80 | the joined scopes start with `offline_access` and continue with the joined permissions |
| JsValue.ToText | src/kubeconfig.ts:13-21 | the JavaScript text of a value: a string is itself, an object `[object Object]`, and only a string or an array can give `''` |
| Strings.Split | src/_crt/index.ts:52-55 | one part per separator plus one, no part contains it, and joining gives back the input |
| Strings.SplitAtFirst | src/_crt/index.ts:52-53 | the text before the first separator is the first part |
| Strings.SplitWithoutSeparator | src/_crt/index.ts:52-53 | a string without the separator is its own only part |
| Handlebars.Env | src/handlebars.ts:4-7 | `''` for falsy input; otherwise same length, no `-` and no lower-case ASCII letter |
| Handlebars.EnvAt | src/handlebars.ts:6 | each character is upper-cased, with `-` mapped to `_` |
| Handlebars.EnvIdempotent | src/handlebars.ts:6 | applying `env` twice is applying it once |
| Handlebars.EnvAscii | src/handlebars.ts:6 | ASCII input gives ASCII output |
| Handlebars.Length | src/handlebars.ts:9-11 | 0 for absent input, else the string's length |

## Left out

- Cryptography is not computed: SHA-256, P-256 point derivation, ECDSA signing, the X.509 generator's key-identifier hashing, DER/PEM encoding and the PKCS#8/SPKI exports are uninterpreted fields of `Crt.Primitives`.
- JWKs hold the raw coordinate bytes, not their base64url text, because base64url (section 5 of RFC 4648) is a foreign bijection on bytes.
- A certificate is modelled as the request handed to the X.509 generator, not as a DER structure. `cert.subject` is modelled as `nameText` of the subject string.
- Crt.Ca: the PEM depends on a signing nonce, because WebCrypto ECDSA signing is randomised, so the PEM is stable only for equal nonces.
- Crt.KeyPair, Crt.BuildCaRoot, Crt.Ca, Crt.BuildLeaf, Crt.Cert, Crt.Key, Crt.Pub and Crt.CertRouter: the primitives are total, so these fail only without a secret. The source's foreign rejections are not modelled: `p256.getPublicKey` throwing for a zero or out-of-range scalar (src/_crt/index.ts:62), `importKey` or `sign` rejecting (src/_crt/index.ts:64-83), and the X.509 generator rejecting a name string it cannot parse, such as a host or principal with a stray `,` or `=` (src/_crt/index.ts:104-118, 141-163).
- Kubeconfig.GenerateKubeconfig: a claim whose JavaScript ToString throws is not modelled. An object claim with an own non-callable `toString` and an inherited `valueOf`, such as `{"iss":{"toString":1}}`, raises a TypeError inside the `try` (src/kubeconfig.ts:11-27). The claims assigned before it then keep their decoded values and the later ones their defaults. `JsValue.Obj` always has the text `[object Object]`, so the model assigns every claim.
- The `console.log` in `keyPair` and the `console.error`/`console.warn` calls are output only and are left out.
- rxjs scheduling, subscription and cancellation are left out: a source is one optional timed emission. Only the first value matters, because `firstValueFrom` takes only that.
- The STS network call is the `sts` parameter. A reply is settled at a time, either rejected or resolved with an optional `UserId`.
- Identity.Winner: a tie between emissions at the same time goes to the leftmost source. For the AWS source, an HTTP reply, an exact tie with the 5000 ms timer is a modelling choice, not something rxjs guarantees: which of the two is delivered first depends on the event loop.
- UAParser, `accepts`, `jose.decodeJwt` and `new URL` are foreign parsers. Their results are inputs: `BrowserInfo`, `Accepted`, `Option<Payload>` and the `urlHostname` function.
- Express requests and responses (headers, `send`, `status`, `next`) are reduced to the values they carry. `Crt.CertRouter` returns the headers and body, `Middleware.Sanitized` returns the record or error passed on, and `Middleware.ErrorHandler` returns status, content type and body.
- Middleware.ErrorHandler: returns the data of the error script, not the rendered script. `src/templates/error.sh.hbs` is not part of this model. The JSON content type is set by Express and is not modelled.
- The `new Date()` timestamp in `errorHandler` is a parameter.
- Case mapping (`toLowerCase`, `toUpperCase`) is ASCII-only. JavaScript's full Unicode mapping (for example KELVIN SIGN lower-casing to `k`) is not modelled.
- String lengths count Dafny characters, not UTF-16 code units.
- JSON numbers are integers only. The text of fractional or exponent-form numbers is not modelled.
- The `Component` union of `src/types.ts:1-6` omits `dockerd-kubelet`, which is the only value accepted. The model uses that single string constant.
- Plumbing and templating are not part of this model: `src/router.ts`, `src/app.ts`, `src/static.ts`, `src/kubelet.ts`, `src/_sh/index.ts`, `src/_yaml/index.ts`, `src/_bash/index.ts` and the build and test configuration.
