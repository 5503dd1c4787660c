/**
 * The request middleware (src/middleware.ts): `sanitized` decides whether a
 * request is passed through untouched, gets a sanitised script record, or
 * fails; `errorHandler` chooses the status and form of an error response.
 *
 * Content negotiation and the browser parser are inputs: `accepted` is what
 * negotiation over `text/x-shellscript` and `application/json` picked, and
 * `browser` is what the User-Agent parser reports for the header.
 */
module Middleware {
  import opened Wrappers
  import opened Utils

  /** The outcome of negotiating between the two types the service produces. */
  datatype Accepted = ShellScript | Json | NeitherAccepted

  datatype Request = Request(
    userAgent: Option<string>,
    browser: BrowserInfo,
    accepted: Accepted,
    machineId: Option<string>,
    machineToken: Option<string>)

  datatype SanitizedScriptData = SanitizedScriptData(
    component: string,
    userAgent: string,
    machineId: string,
    machineToken: Option<string>,
    version: string)

  /** What `sanitized` hands to `next`: nothing, nothing after storing a record, or an error. */
  datatype Next = PassThrough | Stored(data: SanitizedScriptData) | Fail(message: string)

  const UnknownComponent: string := "Unknown component. User-Agent must specify a valid component."

  /** Every character of `s` is in the strict class. */
  predicate StrictOnly(s: string)
  {
    forall i :: 0 <= i < |s| ==> StrictChar(s[i])
  }

  function MachineIdOrDefault(machineId: Option<string>): string
  {
    if Truthy(machineId) then machineId.value else "unknown"
  }

  function VersionOrDefault(version: Option<string>): string
  {
    if Truthy(version) then version.value else "latest"
  }

  /**
   * The guard chain after the User-Agent is parsed: a missing component
   * fails, then the User-Agent, the machine id (default `unknown`) and the
   * version (default `latest`) are checked in strict mode in that order,
   * and an empty machine token is dropped.
   */
  function SanitizeScript(parsed: ParsedUserAgent, machineIdHeader: Option<string>, machineTokenHeader: Option<string>)
    : (r: Next)
    ensures r != PassThrough
    ensures r.Stored? ==>
      && parsed.component.Some? && r.data.component == parsed.component.value
      && r.data.userAgent == parsed.raw
      && r.data.machineId == MachineIdOrDefault(machineIdHeader)
      && r.data.version == VersionOrDefault(parsed.version)
      && r.data.machineToken == (if Truthy(machineTokenHeader) then machineTokenHeader else None)
  {
    if parsed.component.None? then Fail(UnknownComponent)
    else
      var machineId := MachineIdOrDefault(machineIdHeader);
      var version := VersionOrDefault(parsed.version);
      match SanitizeForBash(parsed.raw, "User-Agent", false)
      case Failure(e) => Fail(e)
      case Success(userAgent) =>
        match SanitizeForBash(machineId, "Machine ID", false)
        case Failure(e) => Fail(e)
        case Success(machineId') =>
          match SanitizeForBash(version, "Version", false)
          case Failure(e) => Fail(e)
          case Success(version') =>
            Stored(SanitizedScriptData(
              parsed.component.value,
              userAgent,
              machineId',
              if Truthy(machineTokenHeader) then machineTokenHeader else None,
              version'))
  }

  /**
   * A record is stored exactly when the component is known and the
   * User-Agent, the machine id and the version (after their defaults) pass
   * the strict sanitiser.
   */
  lemma StoredExactly(parsed: ParsedUserAgent, machineIdHeader: Option<string>, machineTokenHeader: Option<string>)
    ensures SanitizeScript(parsed, machineIdHeader, machineTokenHeader).Stored? <==>
      && parsed.component.Some?
      && StrictOnly(parsed.raw)
      && StrictOnly(MachineIdOrDefault(machineIdHeader))
      && StrictOnly(VersionOrDefault(parsed.version))
  {
  }

  /** The strict sanitiser keeps a strict value and rejects any other with the field's message. */
  lemma StrictCheck(value: string, fieldName: string)
    ensures SanitizeForBash(value, fieldName, false)
      == if StrictOnly(value) then Success(value) else Failure(UnsafeMessage(fieldName))
  {
  }

  /**
   * The field the strict checks reject first, in the order the record's
   * fields are written: the User-Agent, then the machine id, then the version.
   */
  function FirstUnsafeField(parsed: ParsedUserAgent, machineIdHeader: Option<string>): (r: Option<string>)
    ensures r.None? <==>
      StrictOnly(parsed.raw) && StrictOnly(MachineIdOrDefault(machineIdHeader)) && StrictOnly(VersionOrDefault(parsed.version))
  {
    if !StrictOnly(parsed.raw) then Some("User-Agent")
    else if !StrictOnly(MachineIdOrDefault(machineIdHeader)) then Some("Machine ID")
    else if !StrictOnly(VersionOrDefault(parsed.version)) then Some("Version")
    else None
  }

  /** An unknown component fails before any field is checked. */
  lemma UnknownComponentFirst(parsed: ParsedUserAgent, machineIdHeader: Option<string>, machineTokenHeader: Option<string>)
    requires parsed.component.None?
    ensures SanitizeScript(parsed, machineIdHeader, machineTokenHeader) == Fail(UnknownComponent)
  {
  }

  /**
   * With a known component, the first field that fails the strict check is
   * the one named in the error; when none fails, the record is stored.
   */
  lemma FirstFailureWins(parsed: ParsedUserAgent, machineIdHeader: Option<string>, machineTokenHeader: Option<string>)
    ensures var r := SanitizeScript(parsed, machineIdHeader, machineTokenHeader);
      var field := FirstUnsafeField(parsed, machineIdHeader);
      parsed.component.Some? ==>
        if field.Some? then r == Fail(UnsafeMessage(field.value)) else r.Stored?
  {
    StrictCheck(parsed.raw, "User-Agent");
    StrictCheck(MachineIdOrDefault(machineIdHeader), "Machine ID");
    StrictCheck(VersionOrDefault(parsed.version), "Version");
  }

  /**
   * The stored fields are strict; the defaults are never empty, so neither
   * is a stored machine id or version.
   */
  lemma StoredFieldsStrict(parsed: ParsedUserAgent, machineIdHeader: Option<string>, machineTokenHeader: Option<string>)
    requires SanitizeScript(parsed, machineIdHeader, machineTokenHeader).Stored?
    ensures var d := SanitizeScript(parsed, machineIdHeader, machineTokenHeader).data;
      && StrictOnly(d.userAgent)
      && d.machineId != "" && StrictOnly(d.machineId)
      && d.version != "" && StrictOnly(d.version)
  {
  }

  /** The decision of `sanitized` for one request. */
  function Sanitized(req: Request): (r: Next)
    ensures IsBrowser(req.userAgent, req.browser) ==> r == PassThrough
    ensures !IsBrowser(req.userAgent, req.browser) && req.accepted != ShellScript ==> r == PassThrough
    ensures !IsBrowser(req.userAgent, req.browser) && req.accepted == ShellScript ==>
      r == SanitizeScript(ParseUserAgent(req.userAgent, req.browser), req.machineId, req.machineToken)
  {
    if IsBrowser(req.userAgent, req.browser) then PassThrough
    else if req.accepted != ShellScript then PassThrough
    else SanitizeScript(ParseUserAgent(req.userAgent, req.browser), req.machineId, req.machineToken)
  }

  /**
   * A stored record holds the request's own User-Agent and the valid
   * component, and its user-controlled fields are all strict.
   */
  lemma StoredRecord(req: Request)
    requires Sanitized(req).Stored?
    ensures var d := Sanitized(req).data;
      && req.userAgent.Some? && d.userAgent == req.userAgent.value && d.userAgent != ""
      && d.component == DockerdKubelet
      && StrictOnly(d.userAgent) && StrictOnly(d.machineId) && StrictOnly(d.version)
  {
    var parsed := ParseUserAgent(req.userAgent, req.browser);
    StoredFieldsStrict(parsed, req.machineId, req.machineToken);
    assert parsed.component.Some?;
  }

  /**
   * An absent or empty User-Agent fails as an unknown component when a
   * script is asked for.
   */
  lemma MissingUserAgentFails(req: Request)
    requires !Truthy(req.userAgent) && req.accepted == ShellScript
    ensures Sanitized(req) == Fail(UnknownComponent)
  {
  }

  /**
   * A User-Agent with a parenthesised comment is refused by the strict check
   * even though the metadata class would admit it.
   */
  lemma ParenthesisedUserAgentRefused(req: Request, i: nat)
    requires !IsBrowser(req.userAgent, req.browser) && req.accepted == ShellScript
    requires ParseUserAgent(req.userAgent, req.browser).component.Some?
    requires req.userAgent.Some? && i < |req.userAgent.value| && req.userAgent.value[i] == '('
    ensures Sanitized(req) == Fail(UnsafeMessage("User-Agent"))
  {
    var parsed := ParseUserAgent(req.userAgent, req.browser);
    assert !StrictChar(parsed.raw[i]);
    FirstFailureWins(parsed, req.machineId, req.machineToken);
  }

  /** The characters a shell treats specially outside quotes. */
  const ShellSpecial: string := "$`\"'\\;|&<>(){}[]*?!~#= \t\n"

  /** A strict character is never special to the shell, so stored fields can be interpolated. */
  lemma StrictCharsNotSpecial(s: string)
    requires StrictOnly(s)
    ensures forall i, j :: 0 <= i < |s| && 0 <= j < |ShellSpecial| ==> s[i] != ShellSpecial[j]
  {
    forall i, j | 0 <= i < |s| && 0 <= j < |ShellSpecial|
      ensures s[i] != ShellSpecial[j]
    {
      assert StrictChar(s[i]);
    }
  }

  // ---------------------------------------------------------------------------
  // errorHandler

  datatype ErrorData = ErrorData(timestamp: string, message: string)

  /** The error script's data, or the JSON object `{error, message}`. */
  datatype ErrorBody = Script(data: ErrorData) | JsonError(error: string, message: string)

  datatype ErrorResponse = ErrorResponse(status: nat, contentType: Option<string>, body: ErrorBody)

  /**
   * errorHandler: a client that accepts shell scripts gets status 200 and an
   * error script (which exits non-zero), anyone else status 500 and JSON.
   * The timestamp is the clock reading, an input here.
   */
  function ErrorHandler(message: string, accepted: Accepted, timestamp: string): (r: ErrorResponse)
    ensures accepted == ShellScript <==> r.status == 200
    ensures accepted != ShellScript <==> r.status == 500
    ensures r.status == 200 ==>
      r.contentType == Some("text/x-shellscript") && r.body == Script(ErrorData(timestamp, message))
    ensures r.status == 500 ==> r.body == JsonError("Internal Server Error", message)
  {
    match accepted
    case ShellScript => ErrorResponse(200, Some("text/x-shellscript"), Script(ErrorData(timestamp, message)))
    case _ => ErrorResponse(500, None, JsonError("Internal Server Error", message))
  }

  /** The message the middleware raised reaches the client unchanged in either form. */
  lemma ErrorMessagePreserved(message: string, accepted: Accepted, timestamp: string)
    ensures var body := ErrorHandler(message, accepted, timestamp).body;
      (body.Script? && body.data.message == message)
      || (body.JsonError? && body.message == message)
  {
  }
}
