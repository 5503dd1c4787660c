/**
 * The embedded certificate authority (src/_crt/index.ts): deterministic key
 * derivation from a name and the shared secret, the self-signed CA for the
 * request's host, leaf certificates and key exports for the caller's
 * principal, and the path table that serves them.
 *
 * The cryptography is foreign and is given as the fields of `Primitives`:
 * SHA-256 (FIPS 180-4), P-256 public-point derivation in uncompressed form
 * (FIPS 186-4, SEC 1 section 2.3.3), the key identifier the X.509 library
 * hashes from a public key, the library's text form of a distinguished name,
 * certificate signing and PEM encoding, and the PKCS#8 / SPKI exports. Every
 * lemma below holds for all choices of these functions. Certificate signing
 * takes a nonce because ECDSA signing through WebCrypto is randomised.
 */
module Crt {
  import opened Wrappers
  import opened Strings
  import opened Identity

  type byte = b: int | 0 <= b < 256

  /** A SHA-256 digest, also the P-256 private scalar derived from it. */
  type Digest = d: seq<byte> | |d| == 32 witness seq(32, _ => 0)

  /** An uncompressed P-256 point: a prefix byte, then x and y of 32 bytes each. */
  type Point = p: seq<byte> | |p| == 65 witness seq(65, _ => 4)

  /** A JSON Web Key of the EC type (RFC 7518 section 6.2); coordinates before base64url encoding. */
  datatype Jwk = Jwk(kty: string, crv: string, d: Option<Digest>, x: seq<byte>, y: seq<byte>)

  datatype Keys = Keys(privateKey: Jwk, publicKey: Jwk)

  /** Key usages of RFC 5280 section 4.2.1.3. */
  datatype KeyUsageFlag =
    DigitalSignature | NonRepudiation | KeyEncipherment | DataEncipherment | KeyAgreement
    | KeyCertSign | CrlSign | EncipherOnly | DecipherOnly

  /** Extended key usages of RFC 5280 section 4.2.1.12. */
  datatype KeyPurpose = ClientAuth | ServerAuth

  datatype GeneralName = Dns(dnsName: string) | Ip(address: string)

  /** The extension requests handed to the certificate generator, by their semantic content. */
  datatype Extension =
    | BasicConstraints(ca: bool, pathLength: Option<nat>, critical: bool)
    | KeyUsage(usages: set<KeyUsageFlag>, critical: bool)
    | ExtendedKeyUsage(purposes: seq<KeyPurpose>, critical: bool)
    | SubjectAltName(names: seq<GeneralName>, critical: bool)
    | SubjectKeyIdentifier(keyId: seq<byte>, critical: bool)
    | AuthorityKeyIdentifier(keyId: seq<byte>, critical: bool)

  /** What the generator is asked to sign: the to-be-signed fields and the signing key. */
  datatype Certificate = Certificate(
    serialNumber: string,
    subject: string,
    issuer: string,
    notBefore: string,
    notAfter: string,
    signingAlgorithm: string,
    publicKey: Jwk,
    signingKey: Jwk,
    extensions: seq<Extension>)

  datatype Primitives = Primitives(
    sha256: string -> Digest,
    publicPoint: Digest -> Point,
    keyIdentifier: Jwk -> seq<byte>,
    nameText: string -> string,
    certificatePem: (Certificate, nat) -> string,
    pkcs8Pem: Jwk -> string,
    spkiPem: Jwk -> string)

  /**
   * What the pipeline reads from its surroundings: the primitives, the
   * `SECRET_STRING` environment variable, the STS call and the signing nonce.
   */
  datatype Environment = Environment(
    prims: Primitives,
    secretString: Option<string>,
    sts: StsRequest -> StsReply,
    signingNonce: nat)

  const NotBefore: string := "2025-01-01T00:00:00Z"
  const NotAfter: string := "2035-01-01T00:00:00Z"
  const EcdsaSha256: string := "ECDSA with SHA-256"
  const SecretRequired: string := "SECRET_STRING environment variable is required"

  // ---------------------------------------------------------------------------
  // Hex encoding (`digest('hex')`)

  function HexDigit(n: nat): (c: char)
    requires n < 16
    ensures '0' <= c <= '9' || 'a' <= c <= 'f'
  {
    if n < 10 then ('0' as int + n) as char else ('a' as int + n - 10) as char
  }

  /** Lower-case hex, two characters per byte, high nibble first. */
  function Hex(bytes: seq<byte>): (r: string)
    ensures |r| == 2 * |bytes|
  {
    if |bytes| == 0 then "" else [HexDigit(bytes[0] / 16), HexDigit(bytes[0] % 16)] + Hex(bytes[1..])
  }

  /** The first 2n hex characters encode the first n bytes. */
  lemma {:induction false} HexPrefix(bytes: seq<byte>, n: nat)
    requires n <= |bytes|
    ensures Hex(bytes)[..2 * n] == Hex(bytes[..n])
  {
    if n > 0 {
      HexPrefix(bytes[1..], n - 1);
      assert bytes[..n][1..] == bytes[1..][..n - 1];
    }
  }

  /** Every character of the encoding is a lower-case hex digit. */
  lemma {:induction false} HexDigits(bytes: seq<byte>)
    ensures forall i :: 0 <= i < |Hex(bytes)| ==> '0' <= Hex(bytes)[i] <= '9' || 'a' <= Hex(bytes)[i] <= 'f'
  {
    if |bytes| > 0 {
      HexDigits(bytes[1..]);
      var h := Hex(bytes);
      assert forall i :: 2 <= i < |h| ==> h[i] == Hex(bytes[1..])[i - 2];
    }
  }

  // ---------------------------------------------------------------------------
  // keyPair

  /** The `DC=<label>` items of a name's `.`-separated labels, empty labels included. */
  function DcLabels(name: string): (r: seq<string>)
    ensures |r| == Count(name, '.') + 1
    ensures forall i :: 0 <= i < |r| ==> r[i] == "DC=" + Split(name, '.')[i]
  {
    var labels := Split(name, '.');
    seq(|labels|, i requires 0 <= i < |labels| => "DC=" + labels[i])
  }

  /**
   * The controller suffix derived from a name: it starts with the `DC=` item
   * of the first label, and a name without a `.` gives the single item
   * `DC=<name>`.
   */
  function DefaultController(name: string): (r: string)
    ensures var first := "DC=" + Split(name, '.')[0]; |first| <= |r| && r[..|first|] == first
    ensures '.' !in name ==> r == "DC=" + name
  {
    if '.' !in name then
      SplitWithoutSeparator(name, '.');
      Join(DcLabels(name), ",")
    else
      Join(DcLabels(name), ",")
  }

  /** The key seed preimage `name:secret`. */
  function KeySeedInput(name: string, secret: string): string
  {
    name + ":" + secret
  }

  /** The serial preimage `serial:name:secret`. */
  function SerialInput(name: string, secret: string): string
  {
    "serial:" + name + ":" + secret
  }

  datatype KeyMaterial = KeyMaterial(keys: Keys, serialNumber: string, controller: string)

  /** The private and public JWKs share x and y, and these are the halves of the point of d. */
  predicate KeysMatch(prims: Primitives, keys: Keys)
  {
    && keys.privateKey.d.Some? && keys.publicKey.d.None?
    && keys.privateKey.kty == keys.publicKey.kty == "EC"
    && keys.privateKey.crv == keys.publicKey.crv == "P-256"
    && keys.privateKey.x == keys.publicKey.x && keys.privateKey.y == keys.publicKey.y
    && |keys.publicKey.x| == 32 && |keys.publicKey.y| == 32
    && var point := prims.publicPoint(keys.privateKey.d.value);
      [point[0]] + keys.publicKey.x + keys.publicKey.y == point
  }

  /**
   * keyPair: fails first when the secret is absent or empty; otherwise the
   * controller defaults from the name, the private scalar is the SHA-256 of
   * `name:secret`, x and y are bytes [1,33) and [33,65) of the public point,
   * and the serial is the first 32 hex characters of the SHA-256 of
   * `serial:name:secret`.
   */
  function KeyPair(prims: Primitives, secretString: Option<string>, name: string, controller: Option<string>)
    : (r: Result<KeyMaterial>)
    ensures r.Failure? <==> !Truthy(secretString)
    ensures r.Failure? ==> r.error == SecretRequired
    ensures r.Success? ==>
      r.value.controller == if Truthy(controller) then controller.value else DefaultController(name)
    ensures r.Success? ==> KeysMatch(prims, r.value.keys)
    ensures r.Success? ==> r.value.keys.privateKey.d == Some(prims.sha256(KeySeedInput(name, secretString.value)))
    ensures r.Success? ==>
      r.value.serialNumber == Hex(prims.sha256(SerialInput(name, secretString.value)))[..32]
  {
    if !Truthy(secretString) then Failure(SecretRequired)
    else
      var secret := secretString.value;
      var controller' := if Truthy(controller) then controller.value else DefaultController(name);
      var seed := prims.sha256(KeySeedInput(name, secret));
      var point := prims.publicPoint(seed);
      var x := point[1..33];
      var y := point[33..65];
      assert [point[0]] + x + y == point;
      var privateKey := Jwk("EC", "P-256", Some(seed), x, y);
      var publicKey := Jwk("EC", "P-256", None, x, y);
      var serialNumber := Hex(prims.sha256(SerialInput(name, secret)))[..32];
      Success(KeyMaterial(Keys(privateKey, publicKey), serialNumber, controller'))
  }

  /** The serial is 32 lower-case hex characters encoding the first 16 digest bytes. */
  lemma SerialIsDigestPrefix(prims: Primitives, secret: string, name: string, controller: Option<string>)
    requires secret != ""
    ensures |Hex(prims.sha256(SerialInput(name, secret)))| == 64
    ensures var serial := KeyPair(prims, Some(secret), name, controller).value.serialNumber;
      |serial| == 32
      && serial == Hex(prims.sha256(SerialInput(name, secret))[..16])
      && forall i :: 0 <= i < 32 ==> '0' <= serial[i] <= '9' || 'a' <= serial[i] <= 'f'
  {
    var digest := prims.sha256(SerialInput(name, secret));
    HexPrefix(digest, 16);
    HexDigits(digest);
  }

  /** A falsy controller becomes the `DC=` items of the name's labels, one per `.` plus one. */
  lemma ControllerDefault(prims: Primitives, secret: string, name: string, controller: Option<string>)
    requires secret != "" && !Truthy(controller)
    ensures var c := KeyPair(prims, Some(secret), name, controller).value.controller;
      c == Join(DcLabels(name), ",")
      && |DcLabels(name)| == Count(name, '.') + 1
      && Join(Split(name, '.'), ".") == name
  {
  }

  /** A truthy controller is kept as it is. */
  lemma ControllerKept(prims: Primitives, secret: string, name: string, controller: string)
    requires secret != "" && controller != ""
    ensures KeyPair(prims, Some(secret), name, Some(controller)).value.controller == controller
  {
  }

  /** Keys and serial depend on the name and the secret only, never on the controller. */
  lemma KeysIgnoreController(prims: Primitives, secretString: Option<string>, name: string, c1: Option<string>, c2: Option<string>)
    ensures KeyPair(prims, secretString, name, c1).Success? == KeyPair(prims, secretString, name, c2).Success?
    ensures KeyPair(prims, secretString, name, c1).Success? ==>
      KeyPair(prims, secretString, name, c1).value.keys == KeyPair(prims, secretString, name, c2).value.keys
      && KeyPair(prims, secretString, name, c1).value.serialNumber
         == KeyPair(prims, secretString, name, c2).value.serialNumber
  {
  }

  /** For one name and secret, the seed and serial preimages differ: the serial one is 7 longer. */
  lemma SeedSerialSeparated(name: string, secret: string)
    ensures |SerialInput(name, secret)| == |KeySeedInput(name, secret)| + 7
    ensures SerialInput(name, secret) != KeySeedInput(name, secret)
  {
  }

  /** Under one secret, distinct names give distinct seed preimages and distinct serial preimages. */
  lemma DistinctNamesDistinctPreimages(n1: string, n2: string, secret: string)
    requires n1 != n2
    ensures KeySeedInput(n1, secret) != KeySeedInput(n2, secret)
    ensures SerialInput(n1, secret) != SerialInput(n2, secret)
  {
    assert KeySeedInput(n1, secret)[..|n1|] == n1 && KeySeedInput(n2, secret)[..|n2|] == n2;
    assert SerialInput(n1, secret)[7..7 + |n1|] == n1 && SerialInput(n2, secret)[7..7 + |n2|] == n2;
  }

  /**
   * Distinct names under one secret have distinct seed preimages, so they get
   * the same private key exactly when SHA-256 collides on those two preimages.
   */
  lemma DistinctNamesDistinctKeys(prims: Primitives, secret: string, n1: string, n2: string)
    requires secret != "" && n1 != n2
    ensures KeySeedInput(n1, secret) != KeySeedInput(n2, secret)
    ensures KeyPair(prims, Some(secret), n1, None).value.keys.privateKey.d
         == KeyPair(prims, Some(secret), n2, None).value.keys.privateKey.d
      <==> prims.sha256(KeySeedInput(n1, secret)) == prims.sha256(KeySeedInput(n2, secret))
  {
    DistinctNamesDistinctPreimages(n1, n2, secret);
  }

  /** Two nibbles with the same hex digit are equal. */
  lemma HexDigitInjective(n: nat, m: nat)
    requires n < 16 && m < 16 && HexDigit(n) == HexDigit(m)
    ensures n == m
  {
  }

  /** Hex encoding is injective on byte strings of one length. */
  lemma {:induction false} HexInjective(a: seq<byte>, b: seq<byte>)
    requires |a| == |b| && Hex(a) == Hex(b)
    ensures a == b
  {
    if |a| > 0 {
      assert Hex(a)[0] == HexDigit(a[0] / 16) && Hex(b)[0] == HexDigit(b[0] / 16);
      assert Hex(a)[1] == HexDigit(a[0] % 16) && Hex(b)[1] == HexDigit(b[0] % 16);
      HexDigitInjective(a[0] / 16, b[0] / 16);
      HexDigitInjective(a[0] % 16, b[0] % 16);
      assert Hex(a)[2..] == Hex(a[1..]) && Hex(b)[2..] == Hex(b[1..]);
      HexInjective(a[1..], b[1..]);
      assert a == [a[0]] + a[1..] && b == [b[0]] + b[1..];
    }
  }

  /**
   * Distinct names under one secret have distinct serial preimages, so they
   * get the same serial exactly when the SHA-256 digests of those two
   * preimages agree in their first 16 bytes.
   */
  lemma DistinctNamesDistinctSerials(prims: Primitives, secret: string, n1: string, n2: string)
    requires secret != "" && n1 != n2
    ensures SerialInput(n1, secret) != SerialInput(n2, secret)
    ensures KeyPair(prims, Some(secret), n1, None).value.serialNumber
         == KeyPair(prims, Some(secret), n2, None).value.serialNumber
      <==> prims.sha256(SerialInput(n1, secret))[..16] == prims.sha256(SerialInput(n2, secret))[..16]
  {
    DistinctNamesDistinctPreimages(n1, n2, secret);
    SerialIsDigestPrefix(prims, secret, n1, None);
    SerialIsDigestPrefix(prims, secret, n2, None);
    var d1 := prims.sha256(SerialInput(n1, secret))[..16];
    var d2 := prims.sha256(SerialInput(n2, secret))[..16];
    if Hex(d1) == Hex(d2) {
      HexInjective(d1, d2);
    }
  }

  /**
   * The separation is per name: the serial preimage of `name` is the seed
   * preimage of the name `serial:name`.
   */
  lemma SerialPreimageIsSeedPreimage(name: string, secret: string)
    ensures SerialInput(name, secret) == KeySeedInput("serial:" + name, secret)
  {
  }

  /** The labels of `node1.example.com`. */
  lemma DottedNameLabels(name: string)
    requires name == "node1.example.com"
    ensures Split(name, '.') == ["node1", "example", "com"]
  {
    assert name == "node1" + "." + ("example" + "." + "com");
    SplitAtFirst("node1", '.', "example" + "." + "com");
    SplitAtFirst("example", '.', "com");
    SplitWithoutSeparator("com", '.');
  }

  /** For the name `node1.example.com` the default controller is `DC=node1,DC=example,DC=com`. */
  lemma ControllerForDottedName(name: string)
    requires name == "node1.example.com"
    ensures DefaultController(name) == "DC=node1,DC=example,DC=com"
  {
    DottedNameLabels(name);
    var labels := DcLabels(name);
    assert labels == ["DC=" + "node1", "DC=" + "example", "DC=" + "com"];
    JoinThree(labels, ",");
  }

  // ---------------------------------------------------------------------------
  // ca

  datatype ContentType = CaCert | UserCert | PemFile

  function MimeType(t: ContentType): string
  {
    match t
    case CaCert => "application/x-x509-ca-cert"
    case UserCert => "application/x-x509-user-cert"
    case PemFile => "application/x-pem-file"
  }

  /** The value every handler resolves with. */
  datatype FileResponse = FileResponse(
    contentType: ContentType,
    data: string,
    controller: string,
    subject: string,
    keys: Keys)

  function HostOrLocalhost(host: Option<string>): string
  {
    if Truthy(host) then host.value else "localhost"
  }

  /** The self-signed root for a host, before signing. */
  datatype CaRoot = CaRoot(host: string, material: KeyMaterial, certificate: Certificate)

  function BuildCaRoot(prims: Primitives, secretString: Option<string>, host: Option<string>): (r: Result<CaRoot>)
    ensures r.Failure? <==> !Truthy(secretString)
    ensures r.Success? ==> r.value.host == HostOrLocalhost(host)
  {
    var h := HostOrLocalhost(host);
    var kp :- KeyPair(prims, secretString, h, None);
    Success(CaRoot(h, kp, Certificate(
      kp.serialNumber,
      "CN=" + h + "," + kp.controller,
      "CN=" + h + "," + kp.controller,
      NotBefore,
      NotAfter,
      EcdsaSha256,
      kp.keys.publicKey,
      kp.keys.privateKey,
      [BasicConstraints(true, Some(2), true),
       KeyUsage({KeyCertSign, CrlSign}, true),
       SubjectKeyIdentifier(prims.keyIdentifier(kp.keys.publicKey), false)])))
  }

  /** ca: the PEM of the signed root, its subject's text, its controller and its keys. */
  function Ca(env: Environment, host: Option<string>): (r: Result<FileResponse>)
    ensures r.Failure? <==> !Truthy(env.secretString)
    ensures r.Failure? ==> r.error == SecretRequired
    ensures r.Success? ==> r.value.contentType == CaCert
  {
    var root :- BuildCaRoot(env.prims, env.secretString, host);
    Success(FileResponse(
      CaCert,
      env.prims.certificatePem(root.certificate, env.signingNonce),
      root.material.controller,
      env.prims.nameText(root.certificate.subject),
      root.material.keys))
  }

  /** The subject key identifier an extension list carries, if any. */
  function SkiOf(extensions: seq<Extension>): Option<seq<byte>>
  {
    if |extensions| == 0 then None
    else if extensions[0].SubjectKeyIdentifier? then Some(extensions[0].keyId)
    else SkiOf(extensions[1..])
  }

  /** The authority key identifier an extension list carries, if any. */
  function AkiOf(extensions: seq<Extension>): Option<seq<byte>>
  {
    if |extensions| == 0 then None
    else if extensions[0].AuthorityKeyIdentifier? then Some(extensions[0].keyId)
    else AkiOf(extensions[1..])
  }

  /**
   * The root for a host: the host defaults to `localhost`, the subject is
   * `CN=<host>,<controller>` and names the issuer too, the root signs with its
   * own private key over the fixed ten-year window, and its extensions are
   * exactly Basic Constraints (CA, path length 2, critical), Key Usage
   * keyCertSign and cRLSign (critical) and the identifier of its own key.
   */
  lemma CaRootShape(prims: Primitives, secret: string, host: Option<string>)
    requires secret != ""
    ensures var root := BuildCaRoot(prims, Some(secret), host).value;
      var c := root.certificate;
      var h := if Truthy(host) then host.value else "localhost";
      && root.host == h
      && root.material == KeyPair(prims, Some(secret), h, None).value
      && c.subject == "CN=" + h + "," + DefaultController(h)
      && c.issuer == c.subject
      && c.publicKey == root.material.keys.publicKey && c.signingKey == root.material.keys.privateKey
      && KeysMatch(prims, root.material.keys)
      && c.serialNumber == root.material.serialNumber
      && c.notBefore == NotBefore && c.notAfter == NotAfter
      && c.extensions == [BasicConstraints(true, Some(2), true),
                          KeyUsage({KeyCertSign, CrlSign}, true),
                          SubjectKeyIdentifier(prims.keyIdentifier(c.publicKey), false)]
      && SkiOf(c.extensions) == Some(prims.keyIdentifier(c.publicKey))
  {
    var c := BuildCaRoot(prims, Some(secret), host).value.certificate;
    assert SkiOf(c.extensions) == SkiOf(c.extensions[1..]) == SkiOf(c.extensions[2..]);
  }

  /** The CA response carries the root's keys and controller and the text of its subject. */
  lemma CaResponse(env: Environment, host: Option<string>)
    requires Truthy(env.secretString)
    ensures var root := BuildCaRoot(env.prims, env.secretString, host).value;
      var ca := Ca(env, host).value;
      && ca.keys == root.material.keys
      && ca.controller == root.material.controller
      && ca.subject == env.prims.nameText(root.certificate.subject)
      && ca.data == env.prims.certificatePem(root.certificate, env.signingNonce)
  {
  }

  /** Two derivations of the root for one host agree in everything but the signature. */
  lemma CaDeterministic(e1: Environment, e2: Environment, host: Option<string>)
    requires e1.prims == e2.prims && e1.secretString == e2.secretString
    requires Truthy(e1.secretString)
    ensures Ca(e1, host).value.subject == Ca(e2, host).value.subject
    ensures Ca(e1, host).value.keys == Ca(e2, host).value.keys
    ensures Ca(e1, host).value.controller == Ca(e2, host).value.controller
    ensures e1.signingNonce == e2.signingNonce ==> Ca(e1, host) == Ca(e2, host)
  {
  }

  // ---------------------------------------------------------------------------
  // cert

  const MastersOrganization: string := ",O=system:masters"

  const LeafAltNames: seq<GeneralName> := [Dns("localhost"), Dns("host.docker.internal"), Ip("127.0.0.1")]

  datatype Leaf = Leaf(principal: string, material: KeyMaterial, certificate: Certificate)

  /** The leaf for a principal, chained to the CA response `ca`, before signing. */
  function BuildLeaf(prims: Primitives, secretString: Option<string>, principal: string, ca: FileResponse)
    : (r: Result<Leaf>)
    ensures r.Failure? <==> !Truthy(secretString)
  {
    var kp :- KeyPair(prims, secretString, principal, Some(ca.controller));
    Success(Leaf(principal, kp, Certificate(
      kp.serialNumber,
      "CN=" + principal + MastersOrganization,
      ca.subject,
      NotBefore,
      NotAfter,
      EcdsaSha256,
      kp.keys.publicKey,
      ca.keys.privateKey,
      [BasicConstraints(false, None, true),
       KeyUsage({DigitalSignature, NonRepudiation, KeyAgreement}, true),
       ExtendedKeyUsage([ClientAuth, ServerAuth], true),
       SubjectAltName(LeafAltNames, false),
       SubjectKeyIdentifier(prims.keyIdentifier(kp.keys.publicKey), false),
       AuthorityKeyIdentifier(prims.keyIdentifier(ca.keys.publicKey), false)])))
  }

  /**
   * The leaf for principal p under a CA response: subject
   * `CN=p,O=system:masters`, issuer the CA's subject, signed with the CA's
   * private key; its own key pair and serial are those derived from p alone;
   * Basic Constraints not-CA (critical), Key Usage digitalSignature,
   * nonRepudiation and keyAgreement (critical), Extended Key Usage clientAuth
   * and serverAuth (critical), the three local alternative names, and key
   * identifiers of its own key and of the CA's key.
   */
  lemma LeafShape(prims: Primitives, secret: string, principal: string, ca: FileResponse)
    requires secret != ""
    ensures var leaf := BuildLeaf(prims, Some(secret), principal, ca).value;
      var c := leaf.certificate;
      var own := KeyPair(prims, Some(secret), principal, None).value;
      && leaf.principal == principal
      && c.subject == "CN=" + principal + MastersOrganization
      && c.issuer == ca.subject
      && c.signingKey == ca.keys.privateKey
      && leaf.material.keys == own.keys && c.publicKey == own.keys.publicKey
      && c.serialNumber == own.serialNumber
      && c.notBefore == NotBefore && c.notAfter == NotAfter
      && c.extensions == [BasicConstraints(false, None, true),
                          KeyUsage({DigitalSignature, NonRepudiation, KeyAgreement}, true),
                          ExtendedKeyUsage([ClientAuth, ServerAuth], true),
                          SubjectAltName(LeafAltNames, false),
                          SubjectKeyIdentifier(prims.keyIdentifier(own.keys.publicKey), false),
                          AuthorityKeyIdentifier(prims.keyIdentifier(ca.keys.publicKey), false)]
      && SkiOf(c.extensions) == Some(prims.keyIdentifier(own.keys.publicKey))
      && AkiOf(c.extensions) == Some(prims.keyIdentifier(ca.keys.publicKey))
  {
    KeysIgnoreController(prims, Some(secret), principal, Some(ca.controller), None);
    var e := BuildLeaf(prims, Some(secret), principal, ca).value.certificate.extensions;
    assert SkiOf(e) == SkiOf(e[1..]) == SkiOf(e[2..]) == SkiOf(e[3..]) == SkiOf(e[4..]);
    assert AkiOf(e) == AkiOf(e[1..]) == AkiOf(e[2..]) == AkiOf(e[3..]) == AkiOf(e[4..]) == AkiOf(e[5..]);
  }

  /** A request as the certificate routes see it. */
  datatype CertRequest = CertRequest(path: string, host: Option<string>, headers: Headers)

  /** The name the request's identity race resolves to. */
  function RequestPrincipal(env: Environment, req: CertRequest): string
  {
    Principal(req.headers, env.sts)
  }

  /** cert: the PEM of the leaf for the resolved principal, signed by the request host's CA. */
  function Cert(env: Environment, req: CertRequest): (r: Result<FileResponse>)
    ensures r.Failure? <==> !Truthy(env.secretString)
    ensures r.Failure? ==> r.error == SecretRequired
    ensures r.Success? ==> r.value.contentType == UserCert
  {
    var name := RequestPrincipal(env, req);
    match Ca(env, req.host)
    case Failure(e) => Failure(e)
    case Success(ca) =>
      var leaf := BuildLeaf(env.prims, env.secretString, name, ca).value;
      Success(FileResponse(
        UserCert,
        env.prims.certificatePem(leaf.certificate, env.signingNonce),
        ca.controller,
        env.prims.nameText(leaf.certificate.subject),
        leaf.material.keys))
  }

  /**
   * The chaining invariant: the leaf cert signs names the CA's subject as
   * issuer, is signed with the root's own private key, and its authority key
   * identifier is the root's subject key identifier.
   */
  lemma LeafChainsToCa(env: Environment, req: CertRequest)
    requires Truthy(env.secretString)
    ensures var root := BuildCaRoot(env.prims, env.secretString, req.host).value;
      var ca := Ca(env, req.host).value;
      var leaf := BuildLeaf(env.prims, env.secretString, RequestPrincipal(env, req), ca).value.certificate;
      && leaf.issuer == env.prims.nameText(root.certificate.subject)
      && leaf.signingKey == root.certificate.signingKey
      && AkiOf(leaf.extensions).Some?
      && AkiOf(leaf.extensions) == SkiOf(root.certificate.extensions)
      && Cert(env, req).value.data == env.prims.certificatePem(leaf, env.signingNonce)
  {
    var secret := env.secretString.value;
    CaRootShape(env.prims, secret, req.host);
    CaResponse(env, req.host);
    LeafShape(env.prims, secret, RequestPrincipal(env, req), Ca(env, req.host).value);
  }

  /**
   * A leaf's key pair and serial depend on the principal and the secret
   * only: two requests that resolve to one principal get the same ones,
   * whatever host (and so whatever controller) each names.
   */
  lemma LeafIndependentOfHost(env: Environment, r1: CertRequest, r2: CertRequest)
    requires Truthy(env.secretString)
    requires RequestPrincipal(env, r1) == RequestPrincipal(env, r2)
    ensures Cert(env, r1).value.keys == Cert(env, r2).value.keys
    ensures var ca1 := Ca(env, r1.host).value;
      var ca2 := Ca(env, r2.host).value;
      BuildLeaf(env.prims, env.secretString, RequestPrincipal(env, r1), ca1).value.certificate.serialNumber
      == BuildLeaf(env.prims, env.secretString, RequestPrincipal(env, r2), ca2).value.certificate.serialNumber
  {
    var p := RequestPrincipal(env, r1);
    LeafShape(env.prims, env.secretString.value, p, Ca(env, r1.host).value);
    LeafShape(env.prims, env.secretString.value, p, Ca(env, r2.host).value);
  }

  /**
   * The leaf's key pair is the CA's own when the principal is the host name,
   * since both are derived from the name and the secret alone.
   */
  lemma LeafSharesCaKeysOnSameName(env: Environment, req: CertRequest)
    requires Truthy(env.secretString)
    requires RequestPrincipal(env, req) == HostOrLocalhost(req.host)
    ensures Cert(env, req).value.keys == Ca(env, req.host).value.keys
  {
    var p := RequestPrincipal(env, req);
    LeafShape(env.prims, env.secretString.value, p, Ca(env, req.host).value);
    CaRootShape(env.prims, env.secretString.value, req.host);
    CaResponse(env, req.host);
  }

  // ---------------------------------------------------------------------------
  // key and pub

  /** key: the PKCS#8 PEM of the principal's leaf private key. */
  function Key(env: Environment, req: CertRequest): (r: Result<FileResponse>)
    ensures r.Failure? <==> !Truthy(env.secretString)
    ensures r.Failure? ==> r.error == SecretRequired
    ensures r.Success? ==> r.value.contentType == PemFile
  {
    var name := RequestPrincipal(env, req);
    match Ca(env, req.host)
    case Failure(e) => Failure(e)
    case Success(ca) =>
      var kp := KeyPair(env.prims, env.secretString, name, Some(ca.controller)).value;
      Success(FileResponse(PemFile, env.prims.pkcs8Pem(kp.keys.privateKey), ca.controller, ca.subject, kp.keys))
  }

  /** pub: the SPKI PEM of the principal's leaf public key. */
  function Pub(env: Environment, req: CertRequest): (r: Result<FileResponse>)
    ensures r.Failure? <==> !Truthy(env.secretString)
    ensures r.Failure? ==> r.error == SecretRequired
    ensures r.Success? ==> r.value.contentType == PemFile
  {
    var name := RequestPrincipal(env, req);
    match Ca(env, req.host)
    case Failure(e) => Failure(e)
    case Success(ca) =>
      var kp := KeyPair(env.prims, env.secretString, name, Some(ca.controller)).value;
      Success(FileResponse(PemFile, env.prims.spkiPem(kp.keys.publicKey), ca.controller, ca.subject, kp.keys))
  }

  /**
   * key and pub export the key pair cert certifies, and report the CA's
   * subject rather than the leaf's.
   */
  lemma ExportsMatchCert(env: Environment, req: CertRequest)
    requires Truthy(env.secretString)
    ensures Key(env, req).value.keys == Pub(env, req).value.keys == Cert(env, req).value.keys
    ensures Key(env, req).value.subject == Pub(env, req).value.subject == Ca(env, req.host).value.subject
    ensures Key(env, req).value.data == env.prims.pkcs8Pem(Cert(env, req).value.keys.privateKey)
    ensures Pub(env, req).value.data == env.prims.spkiPem(Cert(env, req).value.keys.publicKey)
  {
  }

  // ---------------------------------------------------------------------------
  // certRouter

  datatype Route = CaRoute | ClientCertRoute | ClientKeyRoute | ClientPubRoute

  /** The four entries of the path table, each naming its handler. */
  function RouteOf(path: string): (r: Option<Route>)
    ensures r.Some? <==> path in ["/ca.crt", "/client.crt", "/client.key", "/client.pub"]
    ensures r == Some(CaRoute) <==> path == "/ca.crt"
    ensures r == Some(ClientCertRoute) <==> path == "/client.crt"
    ensures r == Some(ClientKeyRoute) <==> path == "/client.key"
    ensures r == Some(ClientPubRoute) <==> path == "/client.pub"
  {
    if path == "/ca.crt" then Some(CaRoute)
    else if path == "/client.crt" then Some(ClientCertRoute)
    else if path == "/client.key" then Some(ClientKeyRoute)
    else if path == "/client.pub" then Some(ClientPubRoute)
    else None
  }

  /** The content type each route's handler resolves with. */
  function RouteContentType(route: Route): ContentType
  {
    match route
    case CaRoute => CaCert
    case ClientCertRoute => UserCert
    case ClientKeyRoute => PemFile
    case ClientPubRoute => PemFile
  }

  /**
   * The handler a route selects: it fails exactly without a secret, with the
   * secret message, and otherwise resolves with the route's content type.
   */
  function Handle(env: Environment, route: Route, req: CertRequest): (r: Result<FileResponse>)
    ensures r.Failure? <==> !Truthy(env.secretString)
    ensures r.Failure? ==> r.error == SecretRequired
    ensures r.Success? ==> r.value.contentType == RouteContentType(route)
  {
    match route
    case CaRoute => Ca(env, req.host)
    case ClientCertRoute => Cert(env, req)
    case ClientKeyRoute => Key(env, req)
    case ClientPubRoute => Pub(env, req)
  }

  /** The `Content-Disposition` of a download named `filename`. */
  function Attachment(filename: string): string
  {
    "attachment; filename=\"" + filename + "\""
  }

  /** The response the router sends: content type, disposition and body. */
  datatype Download = Download(contentType: string, contentDisposition: string, body: string)

  /**
   * certRouter: no response at all (an observable that never emits) outside
   * the table; otherwise the handler's outcome, sent as an attachment named
   * after the path without its leading `/`.
   */
  function CertRouter(env: Environment, req: CertRequest): (r: Option<Result<Download>>)
    ensures r.None? <==> req.path !in ["/ca.crt", "/client.crt", "/client.key", "/client.pub"]
    ensures r.Some? ==> (r.value.Failure? <==> !Truthy(env.secretString))
    ensures r.Some? && r.value.Failure? ==> r.value.error == SecretRequired
    ensures r.Some? && r.value.Success? ==>
      var file := Handle(env, RouteOf(req.path).value, req).value;
      && r.value.value.contentType == MimeType(file.contentType)
      && r.value.value.contentDisposition == Attachment(req.path[1..])
      && r.value.value.body == file.data
  {
    match RouteOf(req.path)
    case None => None
    case Some(route) =>
      Some(match Handle(env, route, req)
        case Failure(e) => Failure(e)
        case Success(file) =>
          Success(Download(MimeType(file.contentType), Attachment(req.path[1..]), file.data)))
  }

  /**
   * The path table as served: with a secret, each of the four paths sends its
   * own handler's data under that handler's MIME type, as an attachment named
   * after the path.
   */
  lemma CertRouterServes(env: Environment, req: CertRequest)
    requires Truthy(env.secretString)
    ensures req.path == "/ca.crt" ==> CertRouter(env, req) == Some(Success(Download(
      "application/x-x509-ca-cert", Attachment("ca.crt"), Ca(env, req.host).value.data)))
    ensures req.path == "/client.crt" ==> CertRouter(env, req) == Some(Success(Download(
      "application/x-x509-user-cert", Attachment("client.crt"), Cert(env, req).value.data)))
    ensures req.path == "/client.key" ==> CertRouter(env, req) == Some(Success(Download(
      "application/x-pem-file", Attachment("client.key"), Key(env, req).value.data)))
    ensures req.path == "/client.pub" ==> CertRouter(env, req) == Some(Success(Download(
      "application/x-pem-file", Attachment("client.pub"), Pub(env, req).value.data)))
  {
    if req.path == "/ca.crt" {
      assert req.path[1..] == "ca.crt";
      assert Handle(env, CaRoute, req) == Success(Ca(env, req.host).value);
    } else if req.path == "/client.crt" {
      assert req.path[1..] == "client.crt";
      assert Handle(env, ClientCertRoute, req) == Success(Cert(env, req).value);
    } else if req.path == "/client.key" {
      assert req.path[1..] == "client.key";
      assert Handle(env, ClientKeyRoute, req) == Success(Key(env, req).value);
    } else if req.path == "/client.pub" {
      assert req.path[1..] == "client.pub";
      assert Handle(env, ClientPubRoute, req) == Success(Pub(env, req).value);
    }
  }
}
