/**
 * Kubeconfig construction from an OIDC access token (src/kubeconfig.ts).
 *
 * Decoding the token (the JWT claims set of RFC 7519) is done by a foreign
 * library; its outcome is the input `decoded`: `None` when decoding throws,
 * otherwise the claims the builder reads. URL parsing is foreign too:
 * `urlHostname` gives the hostname of a parsable URL and `None` when
 * `new URL` throws.
 */
module Kubeconfig {
  import opened Wrappers
  import opened Strings
  import opened JsValue

  /** The claims of a decoded payload that the builder reads; an absent claim is `Undefined`. */
  datatype Payload = Payload(iss: Json, azp: Json, aud: Json, sub: Json, permissions: Json)

  datatype EnvVar = EnvVar(name: string, value: Json)

  datatype ExecConfig = ExecConfig(
    apiVersion: string,
    command: string,
    args: seq<string>,
    env: seq<EnvVar>,
    interactiveMode: string,
    provideClusterInfo: bool)

  datatype ContextEntry = ContextEntry(name: Json, cluster: Json, user: string)
  datatype ClusterEntry = ClusterEntry(name: Json, server: Json)
  datatype UserEntry = UserEntry(name: string, exec: ExecConfig)

  datatype Config = Config(
    apiVersion: string,
    kind: string,
    currentContext: Json,
    contexts: seq<ContextEntry>,
    clusters: seq<ClusterEntry>,
    users: seq<UserEntry>)

  const DefaultIssuer: string := "https://auth.sk8s.net/"
  const OfflineAccess: string := "offline_access"

  // The claim values the builder settles on, one function each.

  function Issuer(decoded: Option<Payload>): (r: string)
    ensures decoded.None? ==> r == DefaultIssuer
    ensures decoded.Some? && !JsValue.Truthy(decoded.value.iss) ==> r == DefaultIssuer
    ensures decoded.Some? && decoded.value.iss.Str? && decoded.value.iss.s != "" ==> r == decoded.value.iss.s
    ensures decoded.Some? && JsValue.Truthy(decoded.value.iss) ==> r == ToText(decoded.value.iss)
  {
    if decoded.None? then DefaultIssuer else TextOr(decoded.value.iss, DefaultIssuer)
  }

  function ClientId(decoded: Option<Payload>): (r: string)
    ensures decoded.None? || !JsValue.Truthy(decoded.value.azp) ==> r == ""
    ensures decoded.Some? && decoded.value.azp.Str? ==> r == decoded.value.azp.s
    ensures decoded.Some? && JsValue.Truthy(decoded.value.azp) ==> r == ToText(decoded.value.azp)
  {
    if decoded.None? then "" else TextOr(decoded.value.azp, "")
  }

  function Subject(decoded: Option<Payload>): (r: string)
    ensures decoded.None? || !JsValue.Truthy(decoded.value.sub) ==> r == ""
    ensures decoded.Some? && decoded.value.sub.Str? ==> r == decoded.value.sub.s
    ensures decoded.Some? && JsValue.Truthy(decoded.value.sub) ==> r == ToText(decoded.value.sub)
  {
    if decoded.None? then "" else TextOr(decoded.value.sub, "")
  }

  /** The first element of an array `aud` (not converted to text), else the text of `aud`, or "". */
  function Audience(decoded: Option<Payload>): (r: Json)
    ensures decoded.None? ==> r == Str("")
    ensures decoded.Some? && decoded.value.aud.Arr? && |decoded.value.aud.items| > 0
      ==> r == decoded.value.aud.items[0]
    ensures decoded.Some? && decoded.value.aud.Arr? && |decoded.value.aud.items| == 0 ==> r == Undefined
    ensures decoded.Some? && !decoded.value.aud.Arr? ==> r == Str(TextOr(decoded.value.aud, ""))
  {
    if decoded.None? then Str("")
    else match decoded.value.aud
      case Arr(items) => if |items| > 0 then items[0] else Undefined
      case _ => Str(TextOr(decoded.value.aud, ""))
  }

  /** `offline_access`, then the text of each permission when `permissions` is an array. */
  function Scopes(decoded: Option<Payload>): (r: seq<string>)
    ensures |r| >= 1 && r[0] == OfflineAccess
    ensures decoded.Some? && decoded.value.permissions.Arr? ==>
      r[1..] == Texts(decoded.value.permissions.items)
    ensures decoded.None? || !decoded.value.permissions.Arr? ==> r == [OfflineAccess]
  {
    [OfflineAccess]
    + if decoded.Some? && decoded.value.permissions.Arr? then Texts(decoded.value.permissions.items) else []
  }

  /** The hostname of the audience when it parses as a URL, else the audience itself. */
  function ContextName(decoded: Option<Payload>, urlHostname: string -> Option<string>): (r: Json)
    ensures urlHostname(ToText(Audience(decoded))).None? ==> r == Audience(decoded)
    ensures urlHostname(ToText(Audience(decoded))).Some? ==> r == Str(urlHostname(ToText(Audience(decoded))).value)
  {
    match urlHostname(ToText(Audience(decoded)))
    case Some(host) => Str(host)
    case None => Audience(decoded)
  }

  /**
   * generateKubeconfig: the local variables start at their defaults and, when
   * the token decodes, are overwritten claim by claim; the configuration is
   * then assembled from them.
   */
  method GenerateKubeconfig(decoded: Option<Payload>, urlHostname: string -> Option<string>) returns (k: Config)
    ensures k.apiVersion == "v1" && k.kind == "Config"
    ensures |k.contexts| == 1 && |k.clusters| == 1 && |k.users| == 1
    ensures k.currentContext == k.contexts[0].name == k.contexts[0].cluster == k.clusters[0].name
    ensures k.currentContext == ContextName(decoded, urlHostname)
    ensures k.clusters[0].server == Audience(decoded)
    ensures k.contexts[0].user == k.users[0].name == Issuer(decoded) + "#" + Subject(decoded)
    ensures k.users[0].exec.apiVersion == "client.authentication.k8s.io/v1"
    ensures k.users[0].exec.command == "kubectl"
    ensures k.users[0].exec.interactiveMode == "IfAvailable" && !k.users[0].exec.provideClusterInfo
    ensures k.users[0].exec.args == [
      "oidc-login", "get-token", "--oidc-use-access-token",
      "--oidc-issuer-url=" + Issuer(decoded),
      "--oidc-client-id=" + ClientId(decoded),
      "--oidc-extra-scope=" + Join(Scopes(decoded), ","),
      "--oidc-auth-request-extra-params=audience=" + ToText(Audience(decoded))]
    ensures k.users[0].exec.env == [
      EnvVar("OIDC_ISS", Str(Issuer(decoded))),
      EnvVar("OIDC_AZP", Str(ClientId(decoded))),
      EnvVar("OIDC_AUD", Audience(decoded)),
      EnvVar("OIDC_SUB", Str(Subject(decoded))),
      EnvVar("OIDC_SCP", Str(Join(Scopes(decoded), ",")))]
  {
    var issuer := DefaultIssuer;
    var clientId := "";
    var audience := Str("");
    var subject := "";
    var extraScopes := [OfflineAccess];

    if decoded.Some? {
      var payload := decoded.value;
      issuer := TextOr(payload.iss, issuer);
      clientId := TextOr(payload.azp, "");
      audience := if payload.aud.Arr?
        then (if |payload.aud.items| > 0 then payload.aud.items[0] else Undefined)
        else Str(TextOr(payload.aud, ""));
      subject := TextOr(payload.sub, "");
      extraScopes := extraScopes + if payload.permissions.Arr? then Texts(payload.permissions.items) else [];
    }

    var user := issuer + "#" + subject;
    var context := audience;
    var url := urlHostname(ToText(audience));
    if url.Some? {
      context := Str(url.value);
    }

    var scopes := Join(extraScopes, ",");
    var exec := ExecConfig(
      "client.authentication.k8s.io/v1",
      "kubectl",
      ["oidc-login", "get-token", "--oidc-use-access-token",
       "--oidc-issuer-url=" + issuer,
       "--oidc-client-id=" + clientId,
       "--oidc-extra-scope=" + scopes,
       "--oidc-auth-request-extra-params=audience=" + ToText(audience)],
      [EnvVar("OIDC_ISS", Str(issuer)),
       EnvVar("OIDC_AZP", Str(clientId)),
       EnvVar("OIDC_AUD", audience),
       EnvVar("OIDC_SUB", Str(subject)),
       EnvVar("OIDC_SCP", Str(scopes))],
      "IfAvailable",
      false);
    k := Config(
      "v1", "Config", context,
      [ContextEntry(context, context, user)],
      [ClusterEntry(context, audience)],
      [UserEntry(user, exec)]);
  }

  /** On a decode failure every claim takes its default. */
  lemma DecodeFailureDefaults()
    ensures Issuer(None) == DefaultIssuer && ClientId(None) == "" && Subject(None) == ""
    ensures Audience(None) == Str("") && Scopes(None) == [OfflineAccess]
  {
  }

  /** The comma-joined scope list starts with `offline_access` and then lists the permissions. */
  lemma {:induction false} ScopesText(decoded: Option<Payload>)
    ensures var r := Join(Scopes(decoded), ",");
      |r| >= |OfflineAccess| && r[..|OfflineAccess|] == OfflineAccess
    ensures decoded.Some? && decoded.value.permissions.Arr? && |decoded.value.permissions.items| > 0 ==>
      Join(Scopes(decoded), ",") == OfflineAccess + "," + Join(Texts(decoded.value.permissions.items), ",")
  {
    var s := Scopes(decoded);
    assert s == [OfflineAccess] + s[1..];
    if |s| > 1 {
      assert Join(s, ",") == OfflineAccess + "," + Join(s[1..], ",");
    }
  }
}
