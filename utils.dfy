/**
 * User-Agent handling and shell-safety validation (src/utils.ts).
 *
 * UAParser is a foreign library: what it reports about a User-Agent (browser
 * name and version) is the input `BrowserInfo`. The regular expression
 * `(?:sk8s-)?([^/]+)\/([^\s(]+)` is modelled by a leftmost scan whose result is
 * proved to be the match JavaScript's backtracking matcher returns.
 */
module Utils {
  import opened Wrappers
  import opened Ascii

  // ---------------------------------------------------------------------------
  // sanitizeForBash

  /** A character of `[a-zA-Z0-9._:/-]`. */
  predicate StrictChar(c: char)
  {
    IsLetterOrDigit(c) || c == '.' || c == '_' || c == ':' || c == '/' || c == '-'
  }

  /** A character of `[a-zA-Z0-9._:/\-() ;]`. */
  predicate MetadataChar(c: char)
  {
    StrictChar(c) || c == '(' || c == ')' || c == ' ' || c == ';'
  }

  predicate SafeChar(c: char, allowMetadata: bool)
  {
    if allowMetadata then MetadataChar(c) else StrictChar(c)
  }

  /** Every character of `s` is in the character class of the mode. */
  function AllSafe(s: string, allowMetadata: bool): (r: bool)
    ensures r <==> forall i :: 0 <= i < |s| ==> SafeChar(s[i], allowMetadata)
  {
    |s| == 0 || (SafeChar(s[0], allowMetadata) && AllSafe(s[1..], allowMetadata))
  }

  function UnsafeMessage(fieldName: string): string
  {
    "Invalid " + fieldName
    + ": contains unsafe characters. Only alphanumeric, dash, underscore, dot, colon, and forward slash are allowed."
  }

  /**
   * sanitizeForBash: the empty string passes as it is; any other value passes
   * unchanged when it is all of the mode's character class, and is refused
   * with the field's message otherwise.
   */
  function SanitizeForBash(value: string, fieldName: string, allowMetadata: bool): (r: Result<string>)
    ensures r.Success? ==> r.value == value
    ensures r.Failure? ==> r.error == UnsafeMessage(fieldName)
    ensures r.Success? <==> value == "" || forall i :: 0 <= i < |value| ==> SafeChar(value[i], allowMetadata)
  {
    if value == "" then Success(value)
    else if |value| > 0 && AllSafe(value, allowMetadata) then Success(value)
    else Failure(UnsafeMessage(fieldName))
  }

  /** Strict mode accepts exactly the non-empty strings over `[A-Za-z0-9._:/-]` (and ""). */
  lemma StrictAcceptsExactly(value: string, fieldName: string)
    ensures SanitizeForBash(value, fieldName, false).Success?
      <==> value == "" || forall i :: 0 <= i < |value| ==> StrictChar(value[i])
  {
  }

  /** Whatever strict mode accepts, metadata mode accepts too, with the same result. */
  lemma StrictImpliesMetadata(value: string, fieldName: string)
    requires SanitizeForBash(value, fieldName, false).Success?
    ensures SanitizeForBash(value, fieldName, true) == SanitizeForBash(value, fieldName, false)
  {
  }

  /** Metadata mode adds exactly parentheses, space and semicolon. */
  lemma MetadataAdds(c: char)
    ensures MetadataChar(c) && !StrictChar(c) <==> c in "() ;"
  {
  }

  // ---------------------------------------------------------------------------
  // isValidComponent

  /** The one component the service recognises. */
  const DockerdKubelet: string := "dockerd-kubelet"

  /** isValidComponent: a non-empty value whose lower-case form is a known component. */
  function IsValidComponent(value: Option<string>): (r: bool)
    ensures r <==> value.Some? && EqualsIgnoreCase(value.value, DockerdKubelet)
    ensures r ==> Lower(value.value) == DockerdKubelet
  {
    value.Some? && value.value != "" && Lower(value.value) == DockerdKubelet
  }

  // ---------------------------------------------------------------------------
  // The custom User-Agent pattern `(?:sk8s-)?([^/]+)\/([^\s(]+)`

  const Sk8sPrefix: string := "sk8s-"

  /** JavaScript's `\s`: the WhiteSpace and LineTerminator code points. */
  predicate JsWhitespace(c: char)
  {
    c == '\t' || c == '\n' || c == '\U{000B}' || c == '\U{000C}' || c == '\r' || c == ' '
    || c == '\U{00A0}' || c == '\U{1680}' || ('\U{2000}' <= c <= '\U{200A}')
    || c == '\U{2028}' || c == '\U{2029}' || c == '\U{202F}' || c == '\U{205F}'
    || c == '\U{3000}' || c == '\U{FEFF}'
  }

  /** A character of `[^\s(]`. */
  predicate VersionChar(c: char) { !JsWhitespace(c) && c != '(' }

  /**
   * A match of the pattern in `s`: it starts at `start`, the first group is
   * `s[group1Start..slash]`, the `/` is at `slash` and the second group is
   * `s[slash + 1..end]`.
   */
  datatype UaMatch = UaMatch(start: nat, group1Start: nat, slash: nat, end: nat)

  /** Any way the pattern can match `s`, ignoring the matcher's preferences. */
  predicate IsMatch(s: string, m: UaMatch)
  {
    && m.start <= m.group1Start < m.slash && m.slash + 1 < m.end <= |s|
    && (m.group1Start == m.start
        || (m.group1Start == m.start + |Sk8sPrefix| && s[m.start..m.group1Start] == Sk8sPrefix))
    && s[m.slash] == '/'
    && (forall i :: m.group1Start <= i < m.slash ==> s[i] != '/')
    && (forall i :: m.slash < i < m.end ==> VersionChar(s[i]))
  }

  /**
   * The match a backtracking matcher reports: the leftmost start; there, the
   * optional `sk8s-` taken when the rest can still match; then the longest
   * second group (the first group is forced by the `/`).
   */
  ghost predicate IsReportedMatch(s: string, m: UaMatch)
  {
    && IsMatch(s, m)
    && (forall m' :: IsMatch(s, m') ==> m.start <= m'.start)
    && (forall m' :: IsMatch(s, m') && m'.start == m.start ==> m'.group1Start <= m.group1Start)
    && (forall m' :: IsMatch(s, m') && m'.start == m.start && m'.group1Start == m.group1Start
          ==> m'.end <= m.end)
  }

  function Group1(s: string, m: UaMatch): string
    requires m.group1Start <= m.slash <= |s|
  {
    s[m.group1Start..m.slash]
  }

  function Group2(s: string, m: UaMatch): string
    requires m.slash < m.end <= |s|
  {
    s[m.slash + 1..m.end]
  }

  /** Index of the first `/` at or after `i`, or |s|. */
  function NextSlash(s: string, i: nat): (k: nat)
    requires i <= |s|
    ensures i <= k <= |s|
    ensures k < |s| ==> s[k] == '/'
    ensures forall j :: i <= j < k ==> s[j] != '/'
    decreases |s| - i
  {
    if i == |s| || s[i] == '/' then i else NextSlash(s, i + 1)
  }

  /** End of the run of `[^\s(]` characters that begins at `i`. */
  function VersionEnd(s: string, i: nat): (k: nat)
    requires i <= |s|
    ensures i <= k <= |s|
    ensures k < |s| ==> !VersionChar(s[k])
    ensures forall j :: i <= j < k ==> VersionChar(s[j])
    decreases |s| - i
  {
    if i == |s| || !VersionChar(s[i]) then i else VersionEnd(s, i + 1)
  }

  /** `([^/]+)\/([^\s(]+)` with greedy groups, the first group starting at `g`. */
  function MatchGroupsFrom(s: string, start: nat, g: nat): Option<UaMatch>
    requires start <= g <= |s|
  {
    var k := NextSlash(s, g);
    if g < k && k + 1 < |s| && VersionChar(s[k + 1]) then Some(UaMatch(start, g, k, VersionEnd(s, k + 1)))
    else None
  }

  /** The whole pattern anchored at `p`: with the `sk8s-` prefix first, then without it. */
  function MatchAt(s: string, p: nat): Option<UaMatch>
    requires p <= |s|
  {
    if p + |Sk8sPrefix| <= |s| && s[p..p + |Sk8sPrefix|] == Sk8sPrefix
       && MatchGroupsFrom(s, p, p + |Sk8sPrefix|).Some?
    then MatchGroupsFrom(s, p, p + |Sk8sPrefix|)
    else MatchGroupsFrom(s, p, p)
  }

  /** Try each start position from `p` on, left to right. */
  function SearchFrom(s: string, p: nat): Option<UaMatch>
    requires p <= |s|
    decreases |s| - p
  {
    if p == |s| then None
    else match MatchAt(s, p)
      case Some(m) => Some(m)
      case None => SearchFrom(s, p + 1)
  }

  /** `userAgent.match(/(?:sk8s-)?([^/]+)\/([^\s(]+)/)`. */
  function CustomMatch(s: string): (r: Option<UaMatch>)
    ensures r.Some? ==> IsMatch(s, r.value)
  {
    var r := SearchFrom(s, 0);
    if r.Some? then SearchFromSound(s, 0); r else r
  }

  lemma MatchGroupsFromSound(s: string, start: nat, g: nat)
    requires start <= g <= |s|
    requires MatchGroupsFrom(s, start, g).Some?
    ensures var m := MatchGroupsFrom(s, start, g).value;
      m.start == start && m.group1Start == g && m.group1Start < m.slash && m.slash + 1 < m.end <= |s|
      && s[m.slash] == '/'
      && (forall i :: m.group1Start <= i < m.slash ==> s[i] != '/')
      && (forall i :: m.slash < i < m.end ==> VersionChar(s[i]))
  {
  }

  /** Every match with its first group at `g` is found, with no longer second group. */
  lemma MatchGroupsFromComplete(s: string, m': UaMatch)
    requires IsMatch(s, m')
    ensures MatchGroupsFrom(s, m'.start, m'.group1Start).Some?
    ensures var m := MatchGroupsFrom(s, m'.start, m'.group1Start).value;
      m.slash == m'.slash && m'.end <= m.end
  {
    var k := NextSlash(s, m'.group1Start);
    assert s[m'.slash] == '/';
    assert k == m'.slash;
    assert VersionChar(s[k + 1]);
    var e := VersionEnd(s, k + 1);
    assert m'.end <= e;
  }

  lemma MatchAtSound(s: string, p: nat)
    requires p <= |s|
    requires MatchAt(s, p).Some?
    ensures IsMatch(s, MatchAt(s, p).value) && MatchAt(s, p).value.start == p
  {
    if p + |Sk8sPrefix| <= |s| && s[p..p + |Sk8sPrefix|] == Sk8sPrefix
       && MatchGroupsFrom(s, p, p + |Sk8sPrefix|).Some? {
      MatchGroupsFromSound(s, p, p + |Sk8sPrefix|);
    } else {
      MatchGroupsFromSound(s, p, p);
    }
  }

  /** The anchored match, when any match starts at `p`, is the preferred one there. */
  lemma MatchAtComplete(s: string, m': UaMatch)
    requires IsMatch(s, m')
    ensures MatchAt(s, m'.start).Some?
    ensures var m := MatchAt(s, m'.start).value;
      m'.group1Start <= m.group1Start
      && (m'.group1Start == m.group1Start ==> m'.end <= m.end)
  {
    var p := m'.start;
    MatchGroupsFromComplete(s, m');
    var prefixed := p + |Sk8sPrefix| <= |s| && s[p..p + |Sk8sPrefix|] == Sk8sPrefix
                    && MatchGroupsFrom(s, p, p + |Sk8sPrefix|).Some?;
    if prefixed {
      MatchGroupsFromSound(s, p, p + |Sk8sPrefix|);
    }
  }

  lemma {:induction false} SearchFromSound(s: string, p: nat)
    requires p <= |s|
    requires SearchFrom(s, p).Some?
    ensures var m := SearchFrom(s, p).value;
      IsMatch(s, m) && p <= m.start && MatchAt(s, m.start) == Some(m)
      && forall q :: p <= q < m.start ==> MatchAt(s, q).None?
    decreases |s| - p
  {
    if MatchAt(s, p).Some? {
      MatchAtSound(s, p);
    } else {
      SearchFromSound(s, p + 1);
      var m := SearchFrom(s, p).value;
      forall q | p <= q < m.start
        ensures MatchAt(s, q).None?
      {
        if q > p {
          assert p + 1 <= q;
        }
      }
    }
  }

  lemma {:induction false} SearchFromNone(s: string, p: nat, q: nat)
    requires p <= q < |s|
    requires SearchFrom(s, p).None?
    ensures MatchAt(s, q).None?
    decreases q - p
  {
    if p < q {
      SearchFromNone(s, p + 1, q);
    }
  }

  lemma CustomMatchSound(s: string)
    ensures CustomMatch(s).Some? ==> IsMatch(s, CustomMatch(s).value)
  {
    if CustomMatch(s).Some? {
      SearchFromSound(s, 0);
    }
  }

  /** The scan finds exactly the match JavaScript reports. */
  lemma CustomMatchIsReported(s: string)
    requires CustomMatch(s).Some?
    ensures IsReportedMatch(s, CustomMatch(s).value)
  {
    var m := CustomMatch(s).value;
    SearchFromSound(s, 0);
    forall m' | IsMatch(s, m')
      ensures m.start <= m'.start
      ensures m'.start == m.start ==> m'.group1Start <= m.group1Start
      ensures m'.start == m.start && m'.group1Start == m.group1Start ==> m'.end <= m.end
    {
      MatchAtComplete(s, m');
    }
  }

  /** Whenever the pattern can match, the scan finds a match. */
  lemma CustomMatchComplete(s: string, m': UaMatch)
    requires IsMatch(s, m')
    ensures CustomMatch(s).Some?
  {
    MatchAtComplete(s, m');
    if CustomMatch(s).None? {
      SearchFromNone(s, 0, m'.start);
    }
  }

  /** Two matches whose first groups start at the same place share their `/`. */
  lemma SlashForced(s: string, m1: UaMatch, m2: UaMatch)
    requires IsMatch(s, m1) && IsMatch(s, m2) && m1.group1Start == m2.group1Start
    ensures m1.slash == m2.slash
  {
    assert s[m1.slash] == '/' && s[m2.slash] == '/';
  }

  /** The reported match is determined: any two are equal. */
  lemma ReportedMatchUnique(s: string, m1: UaMatch, m2: UaMatch)
    requires IsReportedMatch(s, m1) && IsReportedMatch(s, m2)
    ensures m1 == m2
  {
    SlashForced(s, m1, m2);
  }

  // ---------------------------------------------------------------------------
  // parseUserAgent

  /** What UAParser reports about a User-Agent's browser. */
  datatype BrowserInfo = BrowserInfo(name: Option<string>, version: Option<string>)

  datatype ParsedUserAgent = ParsedUserAgent(component: Option<string>, version: Option<string>, raw: string)

  /** The component named by a captured string, or none. */
  function ComponentOf(str: string): (r: Option<string>)
    ensures r.Some? <==> IsValidComponent(Some(str))
    ensures r.Some? ==> r.value == DockerdKubelet
  {
    if IsValidComponent(Some(str)) then Some(Lower(str)) else None
  }

  /** `userAgent.replace(/^sk8s-/, '')`. */
  function StripSk8s(s: string): (r: string)
    ensures |s| >= |Sk8sPrefix| && s[..|Sk8sPrefix|] == Sk8sPrefix ==> Sk8sPrefix + r == s
    ensures !(|s| >= |Sk8sPrefix| && s[..|Sk8sPrefix|] == Sk8sPrefix) ==> r == s
  {
    if |s| >= |Sk8sPrefix| && s[..|Sk8sPrefix|] == Sk8sPrefix then s[|Sk8sPrefix|..] else s
  }

  /** parseUserAgent. */
  function ParseUserAgent(userAgent: Option<string>, browser: BrowserInfo): (r: ParsedUserAgent)
    ensures !Truthy(userAgent) ==> r == ParsedUserAgent(None, None, "")
    ensures Truthy(userAgent) ==> r.raw == userAgent.value
    ensures r.component.Some? ==> r.component.value == DockerdKubelet
  {
    if !Truthy(userAgent) then ParsedUserAgent(None, None, "")
    else
      var ua := userAgent.value;
      match CustomMatch(ua)
      case Some(m) =>
        assert IsMatch(ua, m) by { SearchFromSound(ua, 0); }
        ParsedUserAgent(ComponentOf(Group1(ua, m)), Some(Group2(ua, m)), ua)
      case None =>
        if Truthy(browser.name) then
          var browserName := Lower(browser.name.value);
          var component := if IsValidComponent(Some(browserName)) then Some(browserName) else None;
          ParsedUserAgent(component, if Truthy(browser.version) then browser.version else None, ua)
        else
          var componentOnly := StripSk8s(ua);
          if IsValidComponent(Some(componentOnly)) then ParsedUserAgent(Some(Lower(componentOnly)), None, ua)
          else ParsedUserAgent(None, None, ua)
  }

  /**
   * When the pattern matches, the version is the second group of the reported
   * match and the component is that of its first group.
   */
  lemma ParseCustom(ua: string, browser: BrowserInfo)
    requires ua != "" && CustomMatch(ua).Some?
    ensures var m := CustomMatch(ua).value;
      IsReportedMatch(ua, m)
      && ParseUserAgent(Some(ua), browser).version == Some(Group2(ua, m))
      && ParseUserAgent(Some(ua), browser).component == ComponentOf(Group1(ua, m))
  {
    CustomMatchIsReported(ua);
  }

  /**
   * The component-only fallback: it is reached only when nothing matches the
   * pattern and UAParser names no browser; it strips one leading `sk8s-`.
   */
  lemma ParseComponentOnly(ua: string, browser: BrowserInfo)
    requires ua != "" && !Truthy(browser.name)
    requires forall m :: !IsMatch(ua, m)
    ensures ParseUserAgent(Some(ua), browser).version.None?
    ensures ParseUserAgent(Some(ua), browser).component == ComponentOf(StripSk8s(ua))
  {
    CustomMatchSound(ua);
    LowerIdempotent(StripSk8s(ua));
  }

  /**
   * The browser-name fallback: when nothing matches the pattern and UAParser
   * names a browser, the component is that name's (valid only when it is
   * `dockerd-kubelet` in some case), the version is UAParser's version when it
   * is not empty, and the raw text is the input.
   */
  lemma ParseBrowserName(ua: string, browser: BrowserInfo)
    requires ua != "" && Truthy(browser.name)
    requires forall m :: !IsMatch(ua, m)
    ensures ParseUserAgent(Some(ua), browser) == ParsedUserAgent(
      ComponentOf(browser.name.value),
      if Truthy(browser.version) then browser.version else None,
      ua)
  {
    CustomMatchSound(ua);
    LowerIdempotent(browser.name.value);
  }

  /** A non-null version from the pattern has no whitespace and no `(`. */
  lemma ParsedVersionNoSpace(ua: string, browser: BrowserInfo, i: nat)
    requires ua != "" && CustomMatch(ua).Some?
    requires ParseUserAgent(Some(ua), browser).version.Some?
    requires i < |ParseUserAgent(Some(ua), browser).version.value|
    ensures VersionChar(ParseUserAgent(Some(ua), browser).version.value[i])
  {
    SearchFromSound(ua, 0);
    var m := CustomMatch(ua).value;
    assert ParseUserAgent(Some(ua), browser).version.value[i] == ua[m.slash + 1 + i];
  }

  // ---------------------------------------------------------------------------
  // isBrowser

  const BrowserNames: seq<string> :=
    ["Chrome", "Firefox", "Safari", "Edge", "Opera", "IE", "Brave", "Vivaldi", "Samsung Browser"]

  /** The fallback patterns `/mozilla/i`, `/chrome/i`, ... as their literal text. */
  const BrowserPatterns: seq<string> := ["mozilla", "chrome", "safari", "firefox", "edge", "opera"]

  /** `needles.some(n => hay contains n, ignoring case)`. */
  function SomeContained(hay: string, needles: seq<string>): (r: bool)
    ensures r <==> exists i :: 0 <= i < |needles| && ContainsIgnoreCase(hay, needles[i])
  {
    if |needles| == 0 then false
    else ContainsIgnoreCase(hay, needles[0]) || SomeContained(hay, needles[1..])
  }

  /** isBrowser. */
  function IsBrowser(userAgent: Option<string>, browser: BrowserInfo): (r: bool)
    ensures !Truthy(userAgent) ==> !r
    ensures r <==> (Truthy(userAgent)
      && ((Truthy(browser.name) && exists i :: 0 <= i < |BrowserNames| && ContainsIgnoreCase(browser.name.value, BrowserNames[i]))
          || exists i :: 0 <= i < |BrowserPatterns| && ContainsIgnoreCase(userAgent.value, BrowserPatterns[i])))
  {
    if !Truthy(userAgent) then false
    else if Truthy(browser.name) && SomeContained(browser.name.value, BrowserNames) then true
    else SomeContained(userAgent.value, BrowserPatterns)
  }

  /** The substring fallback alone decides for a User-Agent containing a browser word. */
  lemma BrowserWordIsBrowser(ua: string, browser: BrowserInfo, i: nat)
    requires ua != "" && i < |BrowserPatterns| && ContainsIgnoreCase(ua, BrowserPatterns[i])
    ensures IsBrowser(Some(ua), browser)
  {
  }
}
