/**
 * The URL splitter the client is constructed with: a simplified subset of
 * the generic syntax of section 3 of RFC 3986, cutting a URL into scheme,
 * host, port, path and query.
 */
module Url {
  import opened Wrappers
  import opened Text

  const Separator := "://"
  const DefaultPort := 80

  /**
   * What one `parse` call writes. Without "://" only the scheme is written
   * and the call returns early. `port == None` means the port field is not
   * written (the port text holds nothing but white space).
   */
  datatype Parsed =
    | SchemeOnly(protocol: string)
    | Parts(protocol: string, host: string, port: Option<int>, path: string, query: string)

  /** Index of the first "://", or |s|. */
  function SchemeEnd(s: string): (r: nat)
    ensures r <= |s|
    ensures r < |s| ==> r + |Separator| <= |s|
  {
    Search(s, Separator, 0)
  }

  /** Index of the first '/' or '?' at or after `from` (the start of the path). */
  function PathStart(s: string, from: nat): (r: nat)
    requires from <= |s|
    ensures from <= r <= |s|
    ensures forall j :: from <= j < r ==> s[j] != '/' && s[j] != '?'
    ensures r < |s| ==> s[r] == '/' || s[r] == '?'
  {
    var slash := Find(s, '/', from);
    var question := Find(s, '?', from);
    if slash <= question then slash else question
  }

  /**
   * The port colon: the first ':' after the host starts, provided it comes
   * before the path; `|s|` when there is none.
   */
  function PortColon(s: string, hostStart: nat, pathStart: nat): (r: nat)
    requires hostStart <= pathStart <= |s|
    ensures r == |s| || (hostStart <= r < pathStart && s[r] == ':')
    ensures forall j :: hostStart <= j < pathStart && j < r ==> s[j] != ':'
  {
    var colon := Find(s, ':', hostStart);
    if colon < pathStart then colon else |s|
  }

  /** What is written to the port: read from the text after the colon, or 80 without one. */
  function PortWritten(s: string, colon: nat, pathStart: nat): Option<int>
    requires colon <= |s| && pathStart <= |s|
    requires colon < |s| ==> colon < pathStart
  {
    if colon < |s| then ExtractShort(s[colon + 1..pathStart]) else Some(DefaultPort)
  }

  /** The path text and the query text for a path starting at `pathStart`. */
  function PathAndQuery(s: string, pathStart: nat): (r: (string, string))
    requires pathStart <= |s|
  {
    var queryStart := Find(s, '?', pathStart);
    var path := s[pathStart..queryStart];
    var query := if queryStart < |s| then s[queryStart + 1..] else [];
    (if path == [] then "/" else path, query)
  }

  /**
   * `Url_::parse`. The scheme is the lower-cased text before the first
   * "://" (all of the input when there is none); the host is the
   * lower-cased text after it up to the port colon, or up to the path when
   * there is no port; the port is read from the text between the colon and
   * the path, and is 80 without a colon; the path runs from the first '/'
   * or '?' to the first '?' and is "/" when empty; the query is the rest.
   */
  function ParseUrl(s: string): Parsed {
    var schemeEnd := SchemeEnd(s);
    if schemeEnd == |s| then SchemeOnly(ToLower(s)) else AfterScheme(s, schemeEnd)
  }

  /** What `parse` writes when "://" starts at `schemeEnd`. */
  function AfterScheme(s: string, schemeEnd: nat): Parsed
    requires schemeEnd + |Separator| <= |s|
  {
    WithScheme(s, schemeEnd, SplitAfterScheme(s, schemeEnd + |Separator|))
  }

  /** The fields written when "://" starts at `schemeEnd` and `rest` follows it. */
  function WithScheme(s: string, schemeEnd: nat, rest: Rest): Parsed
    requires schemeEnd <= |s|
  {
    Parts(ToLower(s[..schemeEnd]), rest.host, rest.port, rest.path, rest.query)
  }

  /** What `parse` takes from the text after "://". */
  datatype Rest = Rest(host: string, port: Option<int>, path: string, query: string)

  function SplitAfterScheme(s: string, hostStart: nat): Rest
    requires hostStart <= |s|
  {
    var pathStart := PathStart(s, hostStart);
    var colon := PortColon(s, hostStart, pathStart);
    var hostEnd := if colon < |s| then colon else pathStart;
    var pq := PathAndQuery(s, pathStart);
    Rest(ToLower(s[hostStart..hostEnd]), PortWritten(s, colon, pathStart), pq.0, pq.1)
  }

  /** Without "://" the whole input, lower-cased, is the scheme and nothing else is written. */
  lemma SchemeOnlyWithoutSeparator(s: string)
    ensures ParseUrl(s).SchemeOnly? <==> (forall j :: 0 <= j < |s| ==> !OccursAt(s, Separator, j))
    ensures ParseUrl(s).SchemeOnly? ==> ParseUrl(s).protocol == ToLower(s)
  {
  }

  /** With "://", the scheme is the lower-cased text before its first occurrence. */
  lemma SchemeBeforeFirstSeparator(s: string)
    requires ParseUrl(s).Parts?
    ensures var k := SchemeEnd(s);
      && k < |s| && OccursAt(s, Separator, k)
      && (forall j :: 0 <= j < k ==> !OccursAt(s, Separator, j))
      && ParseUrl(s).protocol == ToLower(s[..k])
  {
  }

  /** With "://", the host, port, path and query are those the text after it yields. */
  lemma PartsFields(s: string)
    requires ParseUrl(s).Parts?
    ensures SchemeEnd(s) + |Separator| <= |s|
    ensures ParseUrl(s).host == SplitAfterScheme(s, SchemeEnd(s) + |Separator|).host
    ensures ParseUrl(s).port == SplitAfterScheme(s, SchemeEnd(s) + |Separator|).port
    ensures ParseUrl(s).path == SplitAfterScheme(s, SchemeEnd(s) + |Separator|).path
    ensures ParseUrl(s).query == SplitAfterScheme(s, SchemeEnd(s) + |Separator|).query
  {
    var k := SchemeEnd(s);
    assert k < |s|;
    assert ParseUrl(s) == AfterScheme(s, k);
  }

  /**
   * For the text after "://" starting at `hs`: the port is 80 when no ':'
   * comes between `hs` and the path; otherwise it is read from the text
   * between that ':' and the path.
   */
  lemma PortFromColon(s: string, hs: nat)
    requires hs <= |s|
    ensures var ps := PathStart(s, hs); var port := SplitAfterScheme(s, hs).port;
      && ((forall j :: hs <= j < ps ==> s[j] != ':') ==> port == Some(DefaultPort))
      && (forall k :: hs <= k < ps && s[k] == ':' && (forall j :: hs <= j < k ==> s[j] != ':') ==>
            port == ExtractShort(s[k + 1..ps]))
  {
    var ps := PathStart(s, hs);
    forall k | hs <= k < ps && s[k] == ':' && (forall j :: hs <= j < k ==> s[j] != ':')
      ensures SplitAfterScheme(s, hs).port == ExtractShort(s[k + 1..ps])
    {
      FindIs(s, ':', hs, k);
    }
  }

  /**
   * With "://", the fields `parse` writes, stated on the input: the host is
   * the lower-cased text from after "://" up to the port colon or the
   * path; the port is 80 without a ':' before the path and is otherwise
   * read from the text between the first such ':' and the path; the path
   * starts with '/', holds no '?', and is "/" when the path text is empty;
   * the query is everything after the first '?' from the path start.
   */
  lemma ParsedComponents(s: string)
    requires ParseUrl(s).Parts?
    ensures var u := ParseUrl(s); var hs := SchemeEnd(s) + |Separator|;
      hs <= |s| &&
      var ps := PathStart(s, hs); var colon := PortColon(s, hs, ps);
      && u.host == ToLower(s[hs..if colon < |s| then colon else ps])
      && HostText(u.host)
      && ((forall j :: hs <= j < ps ==> s[j] != ':') ==> u.port == Some(DefaultPort))
      && (forall k :: hs <= k < ps && s[k] == ':' && (forall j :: hs <= j < k ==> s[j] != ':') ==>
            u.port == ExtractShort(s[k + 1..ps]))
    ensures var u := ParseUrl(s); var hs := SchemeEnd(s) + |Separator|;
      hs <= |s| &&
      var ps := PathStart(s, hs); var qs := Find(s, '?', ps);
      && |u.path| > 0 && u.path[0] == '/' && '?' !in u.path
      && (ps < qs ==> u.path == s[ps..qs])
      && (ps == qs ==> u.path == "/")
      && (qs < |s| ==> u.query == s[qs + 1..])
      && (qs == |s| ==> u.query == "")
  {
    var hs := SchemeEnd(s) + |Separator|;
    PartsFields(s);
    var r := SplitAfterScheme(s, hs);
    assert ParseUrl(s).host == r.host && ParseUrl(s).port == r.port;
    assert ParseUrl(s).path == r.path && ParseUrl(s).query == r.query;
    HostBetweenSchemeAndPort(s, hs);
    PortFromColon(s, hs);
    PathAndQueryShape(s, hs);
  }

  /** Text that can stand as a parsed host: no ':', '/' or '?', and no upper-case letter. */
  predicate HostText(h: string) {
    ':' !in h && '/' !in h && '?' !in h && NoUpper(h)
  }

  /**
   * For the text after "://" starting at `hs`: the host is the lower-cased
   * text up to the port colon or the path, and it is host text.
   */
  lemma HostBetweenSchemeAndPort(s: string, hs: nat)
    requires hs <= |s|
    ensures var ps := PathStart(s, hs); var colon := PortColon(s, hs, ps);
      SplitAfterScheme(s, hs).host == ToLower(s[hs..if colon < |s| then colon else ps])
    ensures HostText(SplitAfterScheme(s, hs).host)
  {
    var ps := PathStart(s, hs);
    var colon := PortColon(s, hs, ps);
    var he := if colon < |s| then colon else ps;
    var raw := s[hs..he];
    ToLowerNoUpper(raw);
    var h := ToLower(raw);
    forall i | 0 <= i < |h| ensures h[i] != ':' && h[i] != '/' && h[i] != '?' {
      assert raw[i] == s[hs + i];
      ToLowerAt(raw, i);
    }
  }

  /**
   * For the text after "://" starting at `hs`: the path starts with '/'
   * and holds no '?'; the query is everything after the first '?' of the
   * path part, and empty without one.
   */
  lemma PathAndQueryShape(s: string, hs: nat)
    requires hs <= |s|
    ensures var p := SplitAfterScheme(s, hs).path; |p| > 0 && p[0] == '/' && '?' !in p
    ensures var r := SplitAfterScheme(s, hs); var ps := PathStart(s, hs); var qs := Find(s, '?', ps);
      && (qs < |s| ==> r.query == s[qs + 1..])
      && (qs == |s| ==> r.query == "")
      && (ps < qs ==> r.path == s[ps..qs])
      && (ps == qs ==> r.path == "/")
  {
    PathQuerySplit(s, PathStart(s, hs));
  }

  lemma PathQuerySplit(s: string, ps: nat)
    requires ps <= |s|
    requires ps < |s| ==> s[ps] == '/' || s[ps] == '?'
    ensures var p := PathAndQuery(s, ps).0; |p| > 0 && p[0] == '/' && '?' !in p
    ensures var qs := Find(s, '?', ps); var q := PathAndQuery(s, ps).1;
      && (qs < |s| ==> q == s[qs + 1..])
      && (qs == |s| ==> q == "")
      && (ps < qs ==> PathAndQuery(s, ps).0 == s[ps..qs])
      && (ps == qs ==> PathAndQuery(s, ps).0 == "/")
  {
    var qs := Find(s, '?', ps);
    var raw := s[ps..qs];
    if raw != [] {
      assert raw[0] == s[ps] == '/';
      forall i | 0 <= i < |raw| ensures raw[i] != '?' {
        assert raw[i] == s[ps + i];
      }
    }
  }

  /**
   * `Url_::parse` as the source writes it: the colon is searched for in
   * the whole rest of the string. When that colon lies after the path
   * start, the loop copying the port digits never meets the path start and
   * walks off the end of the string; that case is None.
   */
  function ParseUrlAsWritten(s: string): Option<Parsed>
  {
    var schemeEnd := Search(s, Separator, 0);
    if schemeEnd == |s| then Some(SchemeOnly(ToLower(s))) else AfterSchemeAsWritten(s, schemeEnd)
  }

  /** The as-written parse once "://" is found at `schemeEnd`. */
  function AfterSchemeAsWritten(s: string, schemeEnd: nat): Option<Parsed>
    requires schemeEnd + |Separator| <= |s|
  {
    match SplitAfterSchemeAsWritten(s, schemeEnd + |Separator|)
    case None => None
    case Some(rest) => Some(WithScheme(s, schemeEnd, rest))
  }

  /** The as-written split of the text after "://"; None when the port loop overruns. */
  function SplitAfterSchemeAsWritten(s: string, hostStart: nat): Option<Rest>
    requires hostStart <= |s|
  {
    var pathStart := PathStart(s, hostStart);
    var colon := Find(s, ':', hostStart);
    if colon < |s| && pathStart < colon then None
    else
      var port := if colon < |s| then ExtractShort(s[colon + 1..pathStart]) else Some(DefaultPort);
      var hostEnd := if colon < |s| then colon else pathStart;
      var pq := PathAndQuery(s, pathStart);
      Some(Rest(ToLower(s[hostStart..hostEnd]), port, pq.0, pq.1))
  }

  /** When the first ':' does not lie past the path start, it is the port colon. */
  lemma PortColonIsFirstColon(s: string, hs: nat)
    requires hs <= |s|
    requires var colon := Find(s, ':', hs); !(colon < |s| && PathStart(s, hs) < colon)
    ensures PortColon(s, hs, PathStart(s, hs)) == Find(s, ':', hs)
  {
    var colon := Find(s, ':', hs);
    var ps := PathStart(s, hs);
    if colon < |s| {
      assert s[colon] == ':';
      assert ps < |s| ==> s[ps] != ':';
    }
  }

  /** The as-written split agrees with the corrected one unless the first ':' lies past the path start. */
  lemma SplitAsWrittenAgrees(s: string, hs: nat)
    requires hs <= |s|
    ensures SplitAfterSchemeAsWritten(s, hs).None? <==>
      (var colon := Find(s, ':', hs); colon < |s| && PathStart(s, hs) < colon)
    ensures SplitAfterSchemeAsWritten(s, hs).Some? ==>
      SplitAfterSchemeAsWritten(s, hs).value == SplitAfterScheme(s, hs)
  {
    var colon := Find(s, ':', hs);
    if !(colon < |s| && PathStart(s, hs) < colon) {
      PortColonIsFirstColon(s, hs);
    }
  }

  /** Where the source's parse is defined it agrees with the corrected one. */
  lemma AsWrittenAgrees(s: string)
    ensures ParseUrlAsWritten(s).Some? ==> ParseUrlAsWritten(s).value == ParseUrl(s)
  {
    var schemeEnd := SchemeEnd(s);
    if schemeEnd < |s| {
      AfterSchemeAgrees(s, schemeEnd);
    }
  }

  lemma AfterSchemeAgrees(s: string, schemeEnd: nat)
    requires schemeEnd + |Separator| <= |s|
    ensures AfterSchemeAsWritten(s, schemeEnd).Some? ==>
      AfterSchemeAsWritten(s, schemeEnd).value == AfterScheme(s, schemeEnd)
  {
    SplitAsWrittenAgrees(s, schemeEnd + |Separator|);
  }

  /** The source's parse is undefined exactly when the first ':' after "://" lies past the path start. */
  lemma AsWrittenUndefined(s: string)
    ensures ParseUrlAsWritten(s).None? <==>
      (SchemeEnd(s) < |s| &&
        var hs := SchemeEnd(s) + |Separator|; var colon := Find(s, ':', hs);
        colon < |s| && PathStart(s, hs) < colon)
  {
    var schemeEnd := SchemeEnd(s);
    if schemeEnd < |s| {
      AfterSchemeUndefined(s, schemeEnd);
    }
  }

  lemma AfterSchemeUndefined(s: string, schemeEnd: nat)
    requires schemeEnd + |Separator| <= |s|
    ensures AfterSchemeAsWritten(s, schemeEnd).None? <==>
      (var hs := schemeEnd + |Separator|; var colon := Find(s, ':', hs);
        colon < |s| && PathStart(s, hs) < colon)
  {
    SplitAsWrittenAgrees(s, schemeEnd + |Separator|);
  }

  /** A URL whose path holds a ':' and whose authority holds none. */
  const ColonInPath := "http://h/a:b"

  /** Where the scans of `parse` stop on `ColonInPath`. */
  lemma ColonInPathScans()
    ensures SchemeEnd(ColonInPath) == 4
    ensures PathStart(ColonInPath, 7) == 8
    ensures Find(ColonInPath, ':', 7) == 10
    ensures Find(ColonInPath, '?', 8) == |ColonInPath|
  {
    var s := ColonInPath;
    assert OccursAt(s, Separator, 4);
    forall j | 0 <= j < 4 ensures !OccursAt(s, Separator, j) {
      assert s[j..j + 3][0] == s[j] != ':';
    }
    assert s[8] == '/' && s[10] == ':';
  }

  /**
   * With a ':' in the path and none before it, the port-copying loop of the
   * source starts past the path start and never stops there, while the
   * corrected parse reads the URL as host "h", port 80, path "/a:b".
   */
  lemma ColonInPathOverruns()
    ensures ParseUrlAsWritten(ColonInPath) == None
    ensures ParseUrl(ColonInPath) == Parts("http", "h", Some(80), "/a:b", "")
    ensures PathStart(ColonInPath, 7) < Find(ColonInPath, ':', 7) < |ColonInPath|
  {
    var s := ColonInPath;
    ColonInPathScans();
    assert PortColon(s, 7, 8) == |s|;
    assert s[8..12] == "/a:b";
    assert PathAndQuery(s, 8) == ("/a:b", "");
    assert s[7..8] == "h";
    LowerSample();
    assert SplitAfterScheme(s, 7) == Rest("h", Some(80), "/a:b", "");
    assert s[..4] == "http";
  }

  lemma LowerSample()
    ensures ToLower("http") == "http" && ToLower("h") == "h"
  {
    assert NoUpper("http") by {
      forall i | 0 <= i < 4 ensures !('A' <= "http"[i] <= 'Z') {
        assert "http"[i] in "htp";
      }
    }
    ToLowerOfLower("http");
    ToLowerOfLower("h");
  }

  /** The components of a URL, as the accessors hand them out. */
  datatype Components = Components(scheme: string, host: string, port: nat, path: string, query: string)

  predicate WellFormed(c: Components) {
    && ':' !in c.scheme && NoUpper(c.scheme)
    && HostText(c.host)
    && c.port <= ShortMax
    && |c.path| > 0 && c.path[0] == '/' && '?' !in c.path
  }

  /** The URL text for `c`; the port is written unless it is the default one. */
  function Format(c: Components): string {
    c.scheme + Separator + c.host
      + (if c.port == DefaultPort then "" else ":" + NatToDecimal(c.port))
      + c.path
      + (if c.query == "" then "" else "?" + c.query)
  }

  lemma FindIs(s: string, ch: char, from: nat, k: nat)
    requires from <= k <= |s|
    requires k < |s| ==> s[k] == ch
    requires forall j :: from <= j < k ==> s[j] != ch
    ensures Find(s, ch, from) == k
  {
  }

  lemma SearchIs(s: string, pat: string, k: nat)
    requires k <= |s| && OccursAt(s, pat, k)
    requires forall j :: 0 <= j < k ==> !OccursAt(s, pat, j)
    ensures Search(s, pat, 0) == k
  {
  }

  function PortPart(c: Components): string {
    if c.port == DefaultPort then "" else ":" + NatToDecimal(c.port)
  }

  function QueryPart(c: Components): string {
    if c.query == "" then "" else "?" + c.query
  }

  /** Where each component starts in `Format(c)`. */
  function HostAt(c: Components): nat { |c.scheme| + |Separator| }
  function PortAt(c: Components): nat { HostAt(c) + |c.host| }
  function PathAt(c: Components): nat { PortAt(c) + |PortPart(c)| }
  function QueryAt(c: Components): nat { PathAt(c) + |c.path| }

  lemma FormatLayout(c: Components)
    ensures var s := Format(c);
      && |s| == QueryAt(c) + |QueryPart(c)|
      && s[..|c.scheme|] == c.scheme
      && s[|c.scheme|..HostAt(c)] == Separator
      && s[HostAt(c)..PortAt(c)] == c.host
      && s[PortAt(c)..PathAt(c)] == PortPart(c)
      && s[PathAt(c)..QueryAt(c)] == c.path
      && s[QueryAt(c)..] == QueryPart(c)
  {
    var s := Format(c);
    assert s == c.scheme + Separator + c.host + PortPart(c) + c.path + QueryPart(c);
  }

  lemma FormatSchemeEnd(c: Components)
    requires WellFormed(c)
    ensures SchemeEnd(Format(c)) == |c.scheme|
  {
    var s := Format(c);
    FormatLayout(c);
    forall j | 0 <= j < |c.scheme| ensures !OccursAt(s, Separator, j) {
      assert s[j] == s[..|c.scheme|][j] == c.scheme[j];
      assert s[j..j + 3][0] == s[j];
    }
    SearchIs(s, Separator, |c.scheme|);
  }

  lemma FormatPathStart(c: Components)
    requires WellFormed(c)
    ensures PathStart(Format(c), HostAt(c)) == PathAt(c)
    ensures forall j :: HostAt(c) <= j < PortAt(c) ==> Format(c)[j] != ':'
  {
    var s := Format(c);
    FormatLayout(c);
    forall j | HostAt(c) <= j < PathAt(c) ensures s[j] != '/' && s[j] != '?' && (j < PortAt(c) ==> s[j] != ':') {
      if j < PortAt(c) {
        assert s[j] == s[HostAt(c)..PortAt(c)][j - HostAt(c)] == c.host[j - HostAt(c)];
      } else {
        assert s[j] == s[PortAt(c)..PathAt(c)][j - PortAt(c)] == PortPart(c)[j - PortAt(c)];
        if j > PortAt(c) {
          assert PortPart(c)[j - PortAt(c)] == NatToDecimal(c.port)[j - PortAt(c) - 1];
        }
      }
    }
    assert s[PathAt(c)] == s[PathAt(c)..QueryAt(c)][0] == '/';
    FindIs(s, '/', HostAt(c), PathAt(c));
  }

  lemma FormatPort(c: Components)
    requires WellFormed(c)
    ensures var s := Format(c); var colon := PortColon(s, HostAt(c), PathAt(c));
      && colon == (if c.port == DefaultPort then |s| else PortAt(c))
      && PortWritten(s, colon, PathAt(c)) == Some(c.port)
  {
    FormatPortColon(c);
    if c.port != DefaultPort {
      FormatPortDigits(c);
      ExtractShortOfDecimal(c.port);
    }
  }

  lemma FormatPortColon(c: Components)
    requires WellFormed(c)
    ensures PathAt(c) <= |Format(c)|
    ensures PortColon(Format(c), HostAt(c), PathAt(c)) == if c.port == DefaultPort then |Format(c)| else PortAt(c)
  {
    var s := Format(c);
    FormatLayout(c);
    FormatPathStart(c);
    if c.port != DefaultPort {
      assert s[PortAt(c)] == s[PortAt(c)..PathAt(c)][0] == ':';
      FindIs(s, ':', HostAt(c), PortAt(c));
    }
  }

  lemma FormatPortDigits(c: Components)
    requires c.port != DefaultPort
    ensures PortAt(c) < PathAt(c) <= |Format(c)|
    ensures PortWritten(Format(c), PortAt(c), PathAt(c)) == ExtractShort(NatToDecimal(c.port))
  {
    var s := Format(c);
    FormatLayout(c);
    assert s[PortAt(c) + 1..PathAt(c)] == s[PortAt(c)..PathAt(c)][1..];
  }

  lemma FormatPathAndQuery(c: Components)
    requires WellFormed(c)
    ensures PathAndQuery(Format(c), PathAt(c)) == (c.path, c.query)
  {
    var s := Format(c);
    FormatLayout(c);
    FormatQueryStart(c);
    if c.query != "" {
      assert s[QueryAt(c) + 1..] == s[QueryAt(c)..][1..];
    }
  }

  lemma FormatQueryStart(c: Components)
    requires WellFormed(c)
    ensures QueryAt(c) <= |Format(c)|
    ensures Find(Format(c), '?', PathAt(c)) == QueryAt(c)
  {
    var s := Format(c);
    FormatLayout(c);
    forall j | PathAt(c) <= j < QueryAt(c) ensures s[j] != '?' {
      assert s[j] == s[PathAt(c)..QueryAt(c)][j - PathAt(c)] == c.path[j - PathAt(c)];
    }
    if c.query != "" {
      assert s[QueryAt(c)] == s[QueryAt(c)..][0] == '?';
    }
    FindIs(s, '?', PathAt(c), QueryAt(c));
  }

  /** Splitting the text of a well-formed URL gives back its components. */
  lemma ParseFormat(c: Components)
    requires WellFormed(c)
    ensures ParseUrl(Format(c)) == Parts(c.scheme, c.host, Some(c.port), c.path, c.query)
  {
    var s := Format(c);
    FormatLayout(c);
    FormatSchemeEnd(c);
    FormatPathStart(c);
    FormatPort(c);
    FormatPathAndQuery(c);
    ToLowerOfLower(c.scheme);
    var colon := PortColon(s, HostAt(c), PathAt(c));
    var hostEnd := if colon < |s| then colon else PathAt(c);
    assert hostEnd == PortAt(c);
    ToLowerOfLower(c.host);
    assert SplitAfterScheme(s, HostAt(c)) == Rest(c.host, Some(c.port), c.path, c.query);
  }

  /** The five fields of a URL object. */
  datatype Fields = Fields(protocol: string, host: string, port: int, path: string, query: string)

  /**
   * The fields after one `parse` call that produced `p`, starting from
   * `before`: scheme and host are appended (they are filled through a back
   * inserter), path and query are assigned, and the port is assigned when
   * `p` says so. A call that returns early writes the scheme alone.
   */
  function Written(before: Fields, p: Parsed): Fields {
    match p
    case SchemeOnly(protocol) => before.(protocol := before.protocol + protocol)
    case Parts(protocol, host, port, path, query) =>
      Fields(before.protocol + protocol, before.host + host, port.GetOr(before.port), path, query)
  }

  /**
   * The URL object. The accessors `protocol()`, `host()`, `port()`,
   * `path()` and `query()` return these fields unchanged, so the model
   * reads the fields directly.
   */
  class UrlObject {
    var protocol: string
    var host: string
    var port: int
    var path: string
    var query: string

    function Current(): Fields
      reads this
    {
      Fields(protocol, host, port, path, query)
    }

    /** The default constructor: empty strings; the port is left unset. */
    constructor ()
      ensures protocol == "" && host == "" && path == "" && query == ""
    {
      protocol, host, path, query := "", "", "", "";
    }

    /** `parse`. */
    method Parse(s: string)
      modifies this
      ensures Current() == Written(old(Current()), ParseUrl(s))
    {
      var p := Scan(s);
      protocol := protocol + p.protocol;
      if p.Parts? {
        port := p.port.GetOr(port);
        host := host + p.host;
        path := p.path;
        query := p.query;
      }
    }
  }

  /** The scans `parse` makes over the text, without the writes to the fields. */
  method Scan(s: string) returns (p: Parsed)
    ensures p == ParseUrl(s)
  {
    var schemeEnd := SchemeEnd(s);
    if schemeEnd == |s| {
      var scheme := LowerRange(s, 0, |s|);
      assert s[0..|s|] == s;
      p := SchemeOnly(scheme);
    } else {
      p := ScanAfterScheme(s, schemeEnd);
    }
  }

  /** The scans of `parse` once "://" is found at `schemeEnd`. */
  method ScanAfterScheme(s: string, schemeEnd: nat) returns (p: Parsed)
    requires schemeEnd + |Separator| <= |s|
    ensures p == AfterScheme(s, schemeEnd)
  {
    var scheme := LowerRange(s, 0, schemeEnd);
    assert s[0..schemeEnd] == s[..schemeEnd];
    var rest := ScanRest(s, schemeEnd + |Separator|);
    p := Parts(scheme, rest.host, rest.port, rest.path, rest.query);
  }

  /** The part of `parse` after the scheme: port, host, path and query. */
  method ScanRest(s: string, hostStart: nat) returns (rest: Rest)
    requires hostStart <= |s|
    ensures rest == SplitAfterScheme(s, hostStart)
  {
    var pathStart := PathStart(s, hostStart);
    var colon := PortColon(s, hostStart, pathStart);
    var hostEnd := pathStart;
    var written := Some(DefaultPort);
    if colon < |s| {
      hostEnd := colon;
      written := ReadPort(s, colon, pathStart);
    }
    assert written == PortWritten(s, colon, pathStart);
    var hostText := LowerRange(s, hostStart, hostEnd);
    var queryStart := Find(s, '?', pathStart);
    var path := s[pathStart..queryStart];
    if queryStart < |s| {
      queryStart := queryStart + 1;
    }
    var query := s[queryStart..];
    assert queryStart == |s| ==> query == [];
    if |path| == 0 {
      path := "/";
    }
    rest := Rest(hostText, written, path, query);
    assert (path, query) == PathAndQuery(s, pathStart);
  }

  /**
   * The port digits: the characters after the colon are copied one by one
   * into a string stream until the path start, and a `short` is extracted.
   */
  method ReadPort(s: string, colon: nat, pathStart: nat) returns (w: Option<int>)
    requires colon < pathStart <= |s|
    ensures w == ExtractShort(s[colon + 1..pathStart])
  {
    var i := colon + 1;
    var portText := "";
    while i != pathStart
      invariant colon + 1 <= i <= pathStart
      invariant portText == s[colon + 1..i]
    {
      portText := portText + [s[i]];
      i := i + 1;
    }
    w := ExtractShort(portText);
  }

  /** `transform(..., tolower)` over `s[lo..hi]`. */
  method LowerRange(s: string, lo: nat, hi: nat) returns (r: string)
    requires lo <= hi <= |s|
    ensures r == ToLower(s[lo..hi])
  {
    r := "";
    var i := lo;
    while i < hi
      invariant lo <= i <= hi
      invariant r == ToLower(s[lo..i])
    {
      assert s[lo..i + 1] == s[lo..i] + [s[i]];
      ToLowerSnoc(s[lo..i], s[i]);
      r := r + [LowerChar(s[i])];
      i := i + 1;
    }
  }
}
