/**
 * Caller identity resolution (src/_crt/identity.ts): four sources raced, the
 * first to emit wins.
 *
 * A source's observable is modelled by what it emits first: `None` when it
 * never emits, otherwise the time (milliseconds after subscription) and the
 * value. The AWS STS call is the input `sts`, which gives the time the answer
 * arrives and whether the promise resolved (with the reply's `UserId`) or was
 * rejected.
 */
module Identity {
  import opened Wrappers

  datatype Emission = Emission(time: nat, value: string)

  /** Request headers, by lower-case name. */
  type Headers = map<string, string>

  function Header(headers: Headers, name: string): Option<string>
  {
    if name in headers then Some(headers[name]) else None
  }

  // ---------------------------------------------------------------------------
  // race

  /**
   * Index of the winning source: the earliest emission, the leftmost one
   * among emissions at the same time; `None` when no source emits.
   */
  function Winner(sources: seq<Option<Emission>>): (r: Option<nat>)
    ensures r.None? <==> forall i :: 0 <= i < |sources| ==> sources[i].None?
    ensures r.Some? ==> r.value < |sources| && sources[r.value].Some?
    ensures r.Some? ==> forall i :: (0 <= i < |sources| && sources[i].Some?
      ==> sources[r.value].value.time <= sources[i].value.time)
    ensures r.Some? ==> forall i :: (0 <= i < r.value && sources[i].Some?
      ==> sources[r.value].value.time < sources[i].value.time)
  {
    if |sources| == 0 then None
    else
      var rest := Winner(sources[1..]);
      match sources[0]
      case None => if rest.None? then None else Some(rest.value + 1)
      case Some(e) =>
        if rest.Some? && sources[1..][rest.value].value.time < e.time then Some(rest.value + 1) else Some(0)
  }

  /** rxjs `race`: what the winning source emits. */
  function Race(sources: seq<Option<Emission>>): (r: Option<Emission>)
    ensures r.None? <==> forall i :: 0 <= i < |sources| ==> sources[i].None?
    ensures r.Some? ==> exists i :: 0 <= i < |sources| && sources[i] == r
    ensures r.Some? ==> forall i :: 0 <= i < |sources| && sources[i].Some? ==> r.value.time <= sources[i].value.time
  {
    match Winner(sources)
    case None => None
    case Some(i) => sources[i]
  }

  // ---------------------------------------------------------------------------
  // The sources

  datatype StsRequest = StsRequest(
    accessKeyId: string,
    secretAccessKey: string,
    sessionToken: Option<string>,
    region: string)

  /** How the GetCallerIdentity promise settles. */
  datatype StsOutcome = Rejected | Resolved(userId: Option<string>)

  datatype StsReply = StsReply(time: nat, outcome: StsOutcome)

  const AccessKeyHeader: string := "x-env-aws_access_key_id"
  const SecretKeyHeader: string := "x-env-aws_secret_access_key"
  const SessionTokenHeader: string := "x-env-aws_session_token"
  const RegionHeader: string := "x-env-aws_default_region"
  const DefaultRegion: string := "us-east-1"

  /** The credentials and region the STS client is built with. */
  function StsParams(headers: Headers): (r: StsRequest)
    requires Truthy(Header(headers, AccessKeyHeader)) && Truthy(Header(headers, SecretKeyHeader))
    ensures r.accessKeyId == headers[AccessKeyHeader] && r.secretAccessKey == headers[SecretKeyHeader]
    ensures r.sessionToken.Some? <==> Truthy(Header(headers, SessionTokenHeader))
    ensures r.sessionToken.Some? ==> r.sessionToken.value == headers[SessionTokenHeader]
    ensures !Truthy(Header(headers, RegionHeader)) ==> r.region == DefaultRegion
    ensures Truthy(Header(headers, RegionHeader)) ==> r.region == headers[RegionHeader]
  {
    StsRequest(
      headers[AccessKeyHeader],
      headers[SecretKeyHeader],
      if Truthy(Header(headers, SessionTokenHeader)) then Header(headers, SessionTokenHeader) else None,
      if Truthy(Header(headers, RegionHeader)) then headers[RegionHeader] else DefaultRegion)
  }

  /**
   * The AWS source: never emits without both credential headers; otherwise
   * emits the STS `UserId` when the call resolves with a non-empty one, and
   * nothing when it is rejected or the id is empty.
   */
  function Aws(headers: Headers, sts: StsRequest -> StsReply): (r: Option<Emission>)
    ensures !Truthy(Header(headers, AccessKeyHeader)) || !Truthy(Header(headers, SecretKeyHeader)) ==> r.None?
    ensures r.Some? ==> r.value.value != ""
    ensures r.Some? ==> var reply := sts(StsParams(headers));
      reply.outcome == Resolved(Some(r.value.value)) && r.value.time == reply.time
    ensures (Truthy(Header(headers, AccessKeyHeader)) && Truthy(Header(headers, SecretKeyHeader))
      && sts(StsParams(headers)).outcome.Resolved? && Truthy(sts(StsParams(headers)).outcome.userId))
      ==> r == Some(Emission(sts(StsParams(headers)).time, sts(StsParams(headers)).outcome.userId.value))
    ensures (Truthy(Header(headers, AccessKeyHeader)) && Truthy(Header(headers, SecretKeyHeader))
      && sts(StsParams(headers)).outcome.Rejected?) ==> r.None?
  {
    if !Truthy(Header(headers, AccessKeyHeader)) || !Truthy(Header(headers, SecretKeyHeader)) then None
    else
      var reply := sts(StsParams(headers));
      match reply.outcome
      case Rejected => None
      case Resolved(userId) => if Truthy(userId) then Some(Emission(reply.time, userId.value)) else None
  }

  /** Placeholder source: never emits. */
  function Github(headers: Headers): (r: Option<Emission>)
    ensures r.None?
  {
    None
  }

  /** Placeholder source: never emits. */
  function Jwt(headers: Headers): (r: Option<Emission>)
    ensures r.None?
  {
    None
  }

  const AnonymousPrincipal: string := "anonymous"
  const AnonymousDelay: nat := 5000

  /** `timer(timeout)` mapped to the literal principal: one emission at `timeout`. */
  function Anonymous(timeout: nat): (r: Option<Emission>)
    ensures r == Some(Emission(timeout, AnonymousPrincipal))
  {
    Some(Emission(timeout, AnonymousPrincipal))
  }

  function Sources(headers: Headers, sts: StsRequest -> StsReply): seq<Option<Emission>>
  {
    [Aws(headers, sts), Github(headers), Jwt(headers), Anonymous(AnonymousDelay)]
  }

  /** `identity(req)`: the race of the four sources. It always emits, by 5000 ms. */
  function ResolveIdentity(headers: Headers, sts: StsRequest -> StsReply): (r: Option<Emission>)
    ensures r.Some? && r.value.time <= AnonymousDelay
  {
    var s := Sources(headers, sts);
    assert s[3].Some?;
    Race(s)
  }

  /** The principal `firstValueFrom(identity(req))` resolves to. */
  function Principal(headers: Headers, sts: StsRequest -> StsReply): string
  {
    ResolveIdentity(headers, sts).value.value
  }

  /** AWS wins exactly when it emits no later than the fallback; otherwise the fallback wins. */
  lemma IdentityOutcome(headers: Headers, sts: StsRequest -> StsReply)
    ensures var aws := Aws(headers, sts);
      ResolveIdentity(headers, sts)
        == if aws.Some? && aws.value.time <= AnonymousDelay then aws else Anonymous(AnonymousDelay)
  {
    var s := Sources(headers, sts);
    var w := Winner(s);
    assert s[1].None? && s[2].None? && s[3].Some?;
    var aws := Aws(headers, sts);
    if aws.Some? && aws.value.time <= AnonymousDelay {
      assert w.value == 0;
    } else {
      assert w.value == 3;
    }
  }

  /** The STS `UserId` is the principal iff STS answers with one before the fallback fires. */
  lemma AwsWinsBeforeDeadline(headers: Headers, sts: StsRequest -> StsReply, userId: string, t: nat)
    requires Truthy(Header(headers, AccessKeyHeader)) && Truthy(Header(headers, SecretKeyHeader))
    requires sts(StsParams(headers)) == StsReply(t, Resolved(Some(userId))) && userId != ""
    ensures t <= AnonymousDelay ==> ResolveIdentity(headers, sts) == Some(Emission(t, userId))
    ensures t > AnonymousDelay ==> ResolveIdentity(headers, sts) == Some(Emission(AnonymousDelay, AnonymousPrincipal))
  {
    IdentityOutcome(headers, sts);
  }

  /** Without usable AWS credentials the principal is `anonymous`, at 5000 ms. */
  lemma NoCredentialsAnonymous(headers: Headers, sts: StsRequest -> StsReply)
    requires !Truthy(Header(headers, AccessKeyHeader)) || !Truthy(Header(headers, SecretKeyHeader))
    ensures ResolveIdentity(headers, sts) == Some(Emission(AnonymousDelay, AnonymousPrincipal))
  {
    IdentityOutcome(headers, sts);
  }
}
