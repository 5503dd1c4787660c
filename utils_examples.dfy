/**
 * The User-Agent cases of src/utils.test.ts, derived from the declarative
 * description of the reported match (`IsReportedMatch`) rather than by running
 * the scanner.
 */
module UtilsExamples {
  import opened Wrappers
  import opened Ascii
  import opened Utils

  /** A match that no other match beats is the one the scan reports. */
  lemma ReportedIs(ua: string, m: UaMatch)
    requires IsMatch(ua, m)
    requires forall m' :: IsMatch(ua, m') ==> m.start <= m'.start
    requires forall m' :: IsMatch(ua, m') && m'.start == m.start ==> m'.group1Start <= m.group1Start
    requires forall m' :: (IsMatch(ua, m') && m'.start == m.start && m'.group1Start == m.group1Start
                           ==> m'.end <= m.end)
    ensures CustomMatch(ua) == Some(m)
  {
    CustomMatchComplete(ua, m);
    CustomMatchIsReported(ua);
    ReportedMatchUnique(ua, m, CustomMatch(ua).value);
  }

  lemma SliceIs(s: string, i: nat, j: nat, t: string)
    requires i <= j <= |s| && |t| == j - i
    requires forall k :: 0 <= k < |t| ==> s[i + k] == t[k]
    ensures s[i..j] == t
  {
  }

  /** A reported match whose first group is the component, in any branch of UAParser's report. */
  lemma ParseGivenMatch(ua: string, m: UaMatch, browser: BrowserInfo)
    requires ua != "" && IsMatch(ua, m) && CustomMatch(ua) == Some(m) && Group1(ua, m) == DockerdKubelet
    ensures ParseUserAgent(Some(ua), browser) == ParsedUserAgent(Some(DockerdKubelet), Some(Group2(ua, m)), ua)
  {
    assert Lower(DockerdKubelet) == DockerdKubelet;
  }

  lemma Sk8sPrefixedMatch(ua: string)
    requires ua == "sk8s-dockerd-kubelet/v1.29.0"
    ensures IsMatch(ua, UaMatch(0, 5, 20, 28)) && CustomMatch(ua) == Some(UaMatch(0, 5, 20, 28))
  {
    ReportedIs(ua, UaMatch(0, 5, 20, 28));
  }

  /** `sk8s-dockerd-kubelet/v1.29.0`: the prefix is skipped and the version is `v1.29.0`. */
  lemma ParseSk8sPrefixed(ua: string, browser: BrowserInfo)
    requires ua == "sk8s-dockerd-kubelet/v1.29.0"
    ensures ParseUserAgent(Some(ua), browser) == ParsedUserAgent(Some(DockerdKubelet), Some("v1.29.0"), ua)
  {
    var m := UaMatch(0, 5, 20, 28);
    Sk8sPrefixedMatch(ua);
    SliceIs(ua, 5, 20, DockerdKubelet);
    SliceIs(ua, 21, 28, "v1.29.0");
    ParseGivenMatch(ua, m, browser);
  }

  /**
   * A User-Agent of the form `<group>/<version>` with no `/` in the group, a
   * version of version characters running to the end, and no `s` first: the
   * whole text is the match.
   */
  lemma PlainMatch(ua: string, slash: nat)
    requires 0 < slash && slash + 1 < |ua| && ua[0] != 's' && ua[slash] == '/'
    requires forall i :: 0 <= i < slash ==> ua[i] != '/'
    requires forall i :: slash < i < |ua| ==> VersionChar(ua[i])
    ensures CustomMatch(ua) == Some(UaMatch(0, 0, slash, |ua|))
  {
    assert ua[0] != Sk8sPrefix[0];
    ReportedIs(ua, UaMatch(0, 0, slash, |ua|));
  }

  /** `dockerd-kubelet/v1.28.0`: the standard form. */
  lemma ParseStandard(ua: string, browser: BrowserInfo)
    requires ua == "dockerd-kubelet/v1.28.0"
    ensures ParseUserAgent(Some(ua), browser) == ParsedUserAgent(Some(DockerdKubelet), Some("v1.28.0"), ua)
  {
    PlainMatch(ua, 15);
    SliceIs(ua, 0, 15, DockerdKubelet);
    SliceIs(ua, 16, 23, "v1.28.0");
    ParseGivenMatch(ua, UaMatch(0, 0, 15, 23), browser);
  }

  /** `dockerd-kubelet/v1.34.5`: a `v`-prefixed version is kept whole. */
  lemma ParseVersionPrefix(ua: string, browser: BrowserInfo)
    requires ua == "dockerd-kubelet/v1.34.5"
    ensures ParseUserAgent(Some(ua), browser) == ParsedUserAgent(Some(DockerdKubelet), Some("v1.34.5"), ua)
  {
    PlainMatch(ua, 15);
    SliceIs(ua, 0, 15, DockerdKubelet);
    SliceIs(ua, 16, 23, "v1.34.5");
    ParseGivenMatch(ua, UaMatch(0, 0, 15, 23), browser);
  }

  /** The prefix of the metadata test's User-Agent, up to and including the space. */
  const MetadataHead: string := "dockerd-kubelet/1.34 "

  /** Whatever follows `dockerd-kubelet/1.34 `, the match stops the version at the space. */
  lemma MetadataMatch(ua: string)
    requires |MetadataHead| <= |ua| && ua[..|MetadataHead|] == MetadataHead
    ensures IsMatch(ua, UaMatch(0, 0, 15, 20)) && CustomMatch(ua) == Some(UaMatch(0, 0, 15, 20))
  {
    var m := UaMatch(0, 0, 15, 20);
    assert forall i :: 0 <= i < |MetadataHead| ==> ua[i] == MetadataHead[i];
    assert IsMatch(ua, m);
    assert ua[0] != Sk8sPrefix[0];
    forall m' | IsMatch(ua, m') && m'.start == 0 && m'.group1Start == 0
      ensures m'.end <= 20
    {
      SlashForced(ua, m, m');
      assert !VersionChar(ua[20]);
    }
    ReportedIs(ua, m);
  }

  /** Any User-Agent starting `dockerd-kubelet/1.34 `: the component and the version `1.34`. */
  lemma ParseWithMetadata(ua: string, browser: BrowserInfo)
    requires |MetadataHead| <= |ua| && ua[..|MetadataHead|] == MetadataHead
    ensures ParseUserAgent(Some(ua), browser) == ParsedUserAgent(Some(DockerdKubelet), Some("1.34"), ua)
  {
    var m := UaMatch(0, 0, 15, 20);
    MetadataMatch(ua);
    assert forall i :: 0 <= i < |MetadataHead| ==> ua[i] == MetadataHead[i];
    SliceIs(ua, 0, 15, DockerdKubelet);
    SliceIs(ua, 16, 20, "1.34");
    ParseGivenMatch(ua, m, browser);
  }

  /**
   * The metadata test's own User-Agent, parenthesised platform list included
   * (written as the head and the list, which concatenate to the test's text).
   */
  lemma ParseMetadataTest(ua: string, browser: BrowserInfo)
    requires ua == MetadataHead + "(cri-dockerd/0.3.21; crictl/1.33.0; cni/1.7.1; alpine; linux/arm64)"
    ensures ParseUserAgent(Some(ua), browser) == ParsedUserAgent(Some(DockerdKubelet), Some("1.34"), ua)
  {
    ParseWithMetadata(ua, browser);
  }

  /** Without a `/` the pattern cannot match. */
  lemma NoSlashNoMatch(ua: string)
    requires forall i :: 0 <= i < |ua| ==> ua[i] != '/'
    ensures forall m :: !IsMatch(ua, m)
  {
  }

  /**
   * `dockerd-kubelet` without a version: no match, and when UAParser names no
   * browser the component-only fallback gives the component and a null version.
   */
  lemma ParseComponentOnlyPlain(ua: string, browser: BrowserInfo)
    requires ua == "dockerd-kubelet" && !Truthy(browser.name)
    ensures ParseUserAgent(Some(ua), browser) == ParsedUserAgent(Some(DockerdKubelet), None, ua)
  {
    NoSlashNoMatch(ua);
    ParseComponentOnly(ua, browser);
    assert ua[0] != Sk8sPrefix[0];
    assert StripSk8s(ua) == DockerdKubelet;
    assert Lower(DockerdKubelet) == DockerdKubelet;
  }

  /** `sk8s-dockerd-kubelet` without a version: the fallback strips the prefix. */
  lemma ParseComponentOnlyPrefixed(ua: string, browser: BrowserInfo)
    requires ua == "sk8s-dockerd-kubelet" && !Truthy(browser.name)
    ensures ParseUserAgent(Some(ua), browser) == ParsedUserAgent(Some(DockerdKubelet), None, ua)
  {
    NoSlashNoMatch(ua);
    ParseComponentOnly(ua, browser);
    SliceIs(ua, 0, 5, Sk8sPrefix);
    SliceIs(ua, 5, 20, DockerdKubelet);
    assert StripSk8s(ua) == DockerdKubelet;
    assert Lower(DockerdKubelet) == DockerdKubelet;
  }

  /** `invalid/v1.0.0`: the pattern matches but `invalid` is not a component. */
  lemma ParseInvalidComponent(ua: string, browser: BrowserInfo)
    requires ua == "invalid/v1.0.0"
    ensures ParseUserAgent(Some(ua), browser) == ParsedUserAgent(None, Some("v1.0.0"), ua)
  {
    PlainMatch(ua, 7);
    SliceIs(ua, 8, 14, "v1.0.0");
    assert |Group1(ua, UaMatch(0, 0, 7, 14))| != |DockerdKubelet|;
  }

  /** `kubelet/v1.28.0`: the pattern matches but `kubelet` is not a component. */
  lemma ParseOtherComponent(ua: string, browser: BrowserInfo)
    requires ua == "kubelet/v1.28.0"
    ensures ParseUserAgent(Some(ua), browser) == ParsedUserAgent(None, Some("v1.28.0"), ua)
  {
    var m := UaMatch(0, 0, 7, 15);
    assert ua[0] != Sk8sPrefix[0];
    ReportedIs(ua, m);
    SliceIs(ua, 8, 15, "v1.28.0");
    assert |Group1(ua, m)| != |DockerdKubelet|;
  }
}
