/**
 * `EvHttpClient::buildRequest`: the text of an HTTP/1.1 request. The
 * request line follows section 3.1.1 of RFC 7230, the synthesised `Host`
 * field section 5.4, the synthesised `Content-Length` field section 3.3.2.
 */
module RequestText {
  import opened Text
  import Url

  const Crlf := "\r\n"
  const Version := " HTTP/1.1\r\n"
  const HostKey := "Host"
  const LengthKey := "Content-Length"

  /** One key/value entry of a `map<string, string>`. */
  type Entry = (string, string)

  /** The order `std::map<string, string>` keeps its keys in: lexicographic by character. */
  predicate KeyLess(a: string, b: string) {
    if a == [] then b != []
    else if b == [] then false
    else if a[0] != b[0] then a[0] < b[0]
    else KeyLess(a[1..], b[1..])
  }

  lemma {:induction false} KeyLessIrreflexive(a: string)
    ensures !KeyLess(a, a)
  {
    if a != [] {
      KeyLessIrreflexive(a[1..]);
    }
  }

  /** A `std::map` as the entries it iterates over: keys strictly ascending. */
  predicate MapEntries(h: seq<Entry>) {
    forall i, j :: 0 <= i < j < |h| ==> KeyLess(h[i].0, h[j].0)
  }

  /** `headers.find(k) != headers.end()`. */
  predicate HasKey(h: seq<Entry>, k: string) {
    exists i :: 0 <= i < |h| && h[i].0 == k
  }

  /** How many entries carry key `k`. */
  function CountKey(h: seq<Entry>, k: string): (n: nat)
    ensures n <= |h|
  {
    if h == [] then 0 else (if h[0].0 == k then 1 else 0) + CountKey(h[1..], k)
  }

  lemma {:induction false} CountKeyAppend(a: seq<Entry>, b: seq<Entry>, k: string)
    ensures CountKey(a + b, k) == CountKey(a, k) + CountKey(b, k)
  {
    if a != [] {
      assert (a + b)[1..] == a[1..] + b;
      CountKeyAppend(a[1..], b, k);
    } else {
      assert a + b == b;
    }
  }

  /** A map holds a key at most once, and once exactly when it holds it. */
  lemma {:induction false} CountKeyOfMap(h: seq<Entry>, k: string)
    requires MapEntries(h)
    ensures CountKey(h, k) == if HasKey(h, k) then 1 else 0
  {
    if h != [] {
      assert MapEntries(h[1..]) by {
        forall i, j | 0 <= i < j < |h[1..]| ensures KeyLess(h[1..][i].0, h[1..][j].0) {
          assert h[1..][i] == h[i + 1] && h[1..][j] == h[j + 1];
        }
      }
      CountKeyOfMap(h[1..], k);
      assert HasKey(h, k) <==> h[0].0 == k || HasKey(h[1..], k) by {
        if HasKey(h, k) {
          var i :| 0 <= i < |h| && h[i].0 == k;
          if i > 0 {
            assert h[1..][i - 1].0 == k;
          }
        }
        if HasKey(h[1..], k) {
          var i :| 0 <= i < |h[1..]| && h[1..][i].0 == k;
          assert h[i + 1].0 == k;
        }
      }
      if h[0].0 == k && HasKey(h[1..], k) {
        var i :| 0 <= i < |h[1..]| && h[1..][i].0 == k;
        assert KeyLess(h[0].0, h[i + 1].0);
        KeyLessIrreflexive(k);
        assert false;
      }
    }
  }

  /** One `k: v` header line. */
  function HeaderLine(e: Entry): string {
    e.0 + ": " + e.1 + Crlf
  }

  /** The header lines of `entries`, in order. */
  function HeaderLines(entries: seq<Entry>): string {
    if entries == [] then "" else HeaderLine(entries[0]) + HeaderLines(entries[1..])
  }

  lemma {:induction false} HeaderLinesAppend(a: seq<Entry>, b: seq<Entry>)
    ensures HeaderLines(a + b) == HeaderLines(a) + HeaderLines(b)
  {
    if a != [] {
      assert (a + b)[1..] == a[1..] + b;
      HeaderLinesAppend(a[1..], b);
    } else {
      assert a + b == b;
    }
  }

  /** The request target: the given path, or the client URL's path and query joined by '?'. */
  function Target(path: string, url: Url.Fields): string {
    if |path| == 0 then url.path + "?" + url.query else path
  }

  /** `METHOD SP target SP HTTP/1.1 CRLF`, the verb upper-cased. */
  function RequestLine(path: string, verb: string, url: Url.Fields): string {
    ToUpper(verb) + " " + Target(path, url) + Version
  }

  /** The synthesised `Host` value: the host, with ":port" unless the port is 80 or 443. */
  function HostValue(url: Url.Fields): string {
    url.host + if url.port != 80 && url.port != 443 then ":" + IntToDecimal(url.port) else ""
  }

  /**
   * The header fields the request carries, in the order they are written:
   * the caller's, then `Host` when the caller gave none, then
   * `Content-Length` when there is a body and the caller gave none.
   */
  function Fields(headers: seq<Entry>, body: string, url: Url.Fields): seq<Entry> {
    headers
    + (if !HasKey(headers, HostKey) then [(HostKey, HostValue(url))] else [])
    + (if |body| > 0 && !HasKey(headers, LengthKey) then [(LengthKey, NatToDecimal(|body|))] else [])
  }

  /** The `Host` line written when the caller's map has no "Host" key. */
  function HostLine(headers: seq<Entry>, url: Url.Fields): string {
    if !HasKey(headers, HostKey) then "Host: " + HostValue(url) + "\r\n" else ""
  }

  /** The `Content-Length` line written for a non-empty body when the caller's map has none. */
  function LengthLine(headers: seq<Entry>, body: string): string {
    if |body| > 0 && !HasKey(headers, LengthKey) then "Content-Length: " + NatToDecimal(|body|) + "\r\n" else ""
  }

  /**
   * `buildRequest`, appending piece by piece as the source's stream does.
   * The text is the request line, one line per header field, an empty
   * line, and the body.
   */
  function BuildRequest(path: string, verb: string, headers: seq<Entry>, body: string, url: Url.Fields): string {
    RequestLine(path, verb, url) + HeadersAndBody(headers, body, url)
  }

  /**
   * The pieces appended one by one are the request line, one line per
   * header field, an empty line and the body.
   */
  lemma RequestLayout(path: string, verb: string, headers: seq<Entry>, body: string, url: Url.Fields)
    ensures BuildRequest(path, verb, headers, body, url) ==
      RequestLine(path, verb, url) + HeaderLines(Fields(headers, body, url)) + Crlf + body
  {
    SynthesisedLines(headers, body, url);
    TrailerShape(headers, body, url);
    Regroup(BuildRequest(path, verb, headers, body, url), RequestLine(path, verb, url), HeadersAndBody(headers, body, url),
      HeaderLines(headers), HostLine(headers, url), LengthLine(headers, body), HeaderLines(Fields(headers, body, url)), body);
  }

  lemma TrailerShape(headers: seq<Entry>, body: string, url: Url.Fields)
    ensures HeadersAndBody(headers, body, url) ==
      HeaderLines(headers) + (HostLine(headers, url) + LengthLine(headers, body) + Crlf + body)
  {
  }

  lemma Regroup(r: string, line: string, rest: string, lines: string, host: string, length: string, all: string, body: string)
    requires r == line + rest && rest == lines + (host + length + Crlf + body) && all == lines + host + length
    ensures r == line + all + Crlf + body
  {
  }

  /** What follows the request line: caller headers, synthesised headers, an empty line, the body. */
  function HeadersAndBody(headers: seq<Entry>, body: string, url: Url.Fields): string {
    HeaderLines(headers) + Trailer(headers, body, url)
  }

  /** What follows the caller's headers. */
  function Trailer(headers: seq<Entry>, body: string, url: Url.Fields): string {
    HostLine(headers, url) + LengthLine(headers, body) + "\r\n" + body
  }

  /** A synthesised line is the header line of the synthesised field. */
  lemma SynthesisedLine(key: string, value: string)
    requires key == HostKey || key == LengthKey
    ensures HeaderLines([(key, value)]) == key + ": " + value + Crlf
  {
    assert [(key, value)][1..] == [];
  }

  /** The synthesised lines are the header lines of the synthesised fields. */
  lemma SynthesisedLines(headers: seq<Entry>, body: string, url: Url.Fields)
    ensures HeaderLines(Fields(headers, body, url)) == HeaderLines(headers) + HostLine(headers, url) + LengthLine(headers, body)
  {
    var hostPart: seq<Entry> := if !HasKey(headers, HostKey) then [(HostKey, HostValue(url))] else [];
    var lengthPart: seq<Entry> :=
      if |body| > 0 && !HasKey(headers, LengthKey) then [(LengthKey, NatToDecimal(|body|))] else [];
    assert Fields(headers, body, url) == headers + hostPart + lengthPart;
    HeaderLinesAppend(headers + hostPart, lengthPart);
    HeaderLinesAppend(headers, hostPart);
    if hostPart != [] {
      SynthesisedLine(HostKey, HostValue(url));
      assert "Host: " == HostKey + ": ";
    }
    if lengthPart != [] {
      SynthesisedLine(LengthKey, NatToDecimal(|body|));
      assert "Content-Length: " == LengthKey + ": ";
    }
  }

  /** The request line comes first. */
  lemma StartsWithRequestLine(path: string, verb: string, headers: seq<Entry>, body: string, url: Url.Fields, i: nat, j: nat)
    requires i <= j <= |RequestLine(path, verb, url)|
    ensures BuildRequest(path, verb, headers, body, url)[i..j] == RequestLine(path, verb, url)[i..j]
  {
    PrefixSlice(RequestLine(path, verb, url), HeadersAndBody(headers, body, url), i, j);
  }

  lemma PrefixSlice(a: string, b: string, i: nat, j: nat)
    requires i <= j <= |a|
    ensures (a + b)[i..j] == a[i..j]
  {
  }

  /**
   * The request starts with the upper-cased method and a space; the method
   * token holds no lower-case letter.
   */
  lemma RequestStartsWithVerb(path: string, verb: string, headers: seq<Entry>, body: string, url: Url.Fields)
    ensures var r := BuildRequest(path, verb, headers, body, url);
      var m := ToUpper(verb);
      && r[..|m|] == m
      && (forall i :: 0 <= i < |m| ==> !('a' <= m[i] <= 'z'))
      && r[|m|] == ' '
  {
    var m := ToUpper(verb);
    LineStartsWithVerb(path, verb, url);
    StartsWithRequestLine(path, verb, headers, body, url, 0, |m|);
    StartsWithRequestLine(path, verb, headers, body, url, |m|, |m| + 1);
    UpperHasNoLower(verb);
  }

  /** The request line's first part is the upper-cased method, then a space. */
  lemma LineStartsWithVerb(path: string, verb: string, url: Url.Fields)
    ensures var m := ToUpper(verb);
      RequestLine(path, verb, url)[..|m|] == m && RequestLine(path, verb, url)[|m|..|m| + 1] == " "
  {
    var m := ToUpper(verb);
    assert RequestLine(path, verb, url) == m + " " + (Target(path, url) + Version);
    Middle(m, " ", Target(path, url) + Version);
  }

  /** An upper-cased method holds no lower-case letter. */
  lemma UpperHasNoLower(verb: string)
    ensures forall i :: 0 <= i < |ToUpper(verb)| ==> !('a' <= ToUpper(verb)[i] <= 'z')
  {
    forall i | 0 <= i < |ToUpper(verb)| ensures !('a' <= ToUpper(verb)[i] <= 'z') {
      ToUpperAt(verb, i);
    }
  }

  /**
   * After the method and the space comes the target, then " HTTP/1.1\r\n";
   * an empty path makes the target the URL's path, a '?' and its query.
   */
  lemma RequestTargetAfterVerb(path: string, verb: string, headers: seq<Entry>, body: string, url: Url.Fields)
    ensures var r := BuildRequest(path, verb, headers, body, url);
      var k := |verb| + 1;
      var t := Target(path, url);
      && r[k..k + |t|] == t
      && (path == [] ==> t == url.path + "?" + url.query)
      && (path != [] ==> t == path)
      && r[k + |t|..k + |t| + |Version|] == Version
  {
    var head := ToUpper(verb) + " ";
    var t := Target(path, url);
    var line := RequestLine(path, verb, url);
    Middle(head, t, Version);
    StartsWithRequestLine(path, verb, headers, body, url, |head|, |head| + |t|);
    StartsWithRequestLine(path, verb, headers, body, url, |head| + |t|, |line|);
  }

  /** The middle part of a concatenation of three. */
  lemma Middle(a: string, b: string, c: string)
    ensures (a + b + c)[..|a|] == a
    ensures (a + b + c)[|a|..|a| + |b|] == b
    ensures (a + b + c)[|a| + |b|..] == c
  {
  }

  /** The request ends with an empty line followed by the body. */
  lemma EndsWithBody(path: string, verb: string, headers: seq<Entry>, body: string, url: Url.Fields)
    ensures var r := BuildRequest(path, verb, headers, body, url);
      |r| >= |Crlf| + |body| && r[|r| - |body| - |Crlf|..] == Crlf + body
  {
    TrailerEnds(headers, body, url);
    SuffixOfNested(RequestLine(path, verb, url), HeaderLines(headers), HostLine(headers, url) + LengthLine(headers, body), Crlf + body);
  }

  lemma TrailerEnds(headers: seq<Entry>, body: string, url: Url.Fields)
    ensures Trailer(headers, body, url) == HostLine(headers, url) + LengthLine(headers, body) + (Crlf + body)
  {
  }

  lemma SuffixOfNested(a: string, b: string, c: string, d: string)
    ensures var s := a + (b + (c + d)); |s| >= |d| && s[|s| - |d|..] == d
  {
  }

  /** Every caller header comes right after the request line, in map order, each as "k: v\r\n". */
  lemma CallerHeadersInOrder(path: string, verb: string, headers: seq<Entry>, body: string, url: Url.Fields)
    ensures var r := BuildRequest(path, verb, headers, body, url);
      var start := |RequestLine(path, verb, url)|;
      var lines := HeaderLines(headers);
      start + |lines| <= |r| && r[start..start + |lines|] == lines
  {
    MiddleOfNested(RequestLine(path, verb, url), HeaderLines(headers), Trailer(headers, body, url));
  }

  lemma MiddleOfNested(a: string, b: string, c: string)
    ensures |a| + |b| <= |a + (b + c)| && (a + (b + c))[|a|..|a| + |b|] == b
  {
  }


  /**
   * `Host` is written exactly once: the caller's field when the map holds
   * the key "Host", the synthesised one otherwise.
   */
  lemma HostExactlyOnce(headers: seq<Entry>, body: string, url: Url.Fields)
    requires MapEntries(headers)
    ensures CountKey(Fields(headers, body, url), HostKey) == 1
    ensures (HostKey, HostValue(url)) in Fields(headers, body, url) <== !HasKey(headers, HostKey)
    ensures HasKey(headers, HostKey) ==>
      Fields(headers, body, url)[|headers|..] ==
        if |body| > 0 && !HasKey(headers, LengthKey) then [(LengthKey, NatToDecimal(|body|))] else []
  {
    var hostPart: seq<Entry> := if !HasKey(headers, HostKey) then [(HostKey, HostValue(url))] else [];
    var lengthPart: seq<Entry> :=
      if |body| > 0 && !HasKey(headers, LengthKey) then [(LengthKey, NatToDecimal(|body|))] else [];
    var f := Fields(headers, body, url);
    assert f == headers + hostPart + lengthPart;
    CountKeyAppend(headers + hostPart, lengthPart, HostKey);
    CountKeyAppend(headers, hostPart, HostKey);
    CountKeyOfMap(headers, HostKey);
    assert CountKey(lengthPart, HostKey) == 0 by {
      if lengthPart != [] {
        assert lengthPart[0].0 == LengthKey != HostKey;
      }
    }
    if !HasKey(headers, HostKey) {
      assert f[|headers|] == (HostKey, HostValue(url));
    }
  }

  /**
   * `Content-Length` is written at most once: by the caller, or
   * synthesised exactly when there is a body and the caller gave none, in
   * which case its value is the decimal body length.
   */
  lemma ContentLengthOnce(headers: seq<Entry>, body: string, url: Url.Fields)
    requires MapEntries(headers)
    ensures var f := Fields(headers, body, url);
      CountKey(f, LengthKey) == if HasKey(headers, LengthKey) || |body| > 0 then 1 else 0
    ensures var f := Fields(headers, body, url);
      !HasKey(headers, LengthKey) && |body| > 0 ==>
        && f[|f| - 1].0 == LengthKey
        && AllDigits(f[|f| - 1].1)
        && DigitsValue(f[|f| - 1].1) == |body|
  {
    var hostPart: seq<Entry> := if !HasKey(headers, HostKey) then [(HostKey, HostValue(url))] else [];
    var lengthPart: seq<Entry> :=
      if |body| > 0 && !HasKey(headers, LengthKey) then [(LengthKey, NatToDecimal(|body|))] else [];
    var f := Fields(headers, body, url);
    assert f == headers + hostPart + lengthPart;
    CountKeyAppend(headers + hostPart, lengthPart, LengthKey);
    CountKeyAppend(headers, hostPart, LengthKey);
    CountKeyOfMap(headers, LengthKey);
    assert CountKey(hostPart, LengthKey) == 0 by {
      if hostPart != [] {
        assert hostPart[0].0 == HostKey != LengthKey;
      }
    }
    if !HasKey(headers, LengthKey) && |body| > 0 {
      DecimalRoundTrip(|body|);
    }
  }

  /**
   * The synthesised `Host` value is the host alone for ports 80 and 443;
   * otherwise the host, a ':' and the decimal port, which reads back as
   * the port. A host from the URL splitter holds no ':', so the ':' shows
   * which case applies.
   */
  lemma HostValuePort(url: Url.Fields)
    requires ':' !in url.host
    ensures var v := HostValue(url);
      && v[..|url.host|] == url.host
      && (':' in v <==> url.port != 80 && url.port != 443)
      && (url.port != 80 && url.port != 443 && url.port >= 0 ==>
            var digits := v[|url.host| + 1..]; AllDigits(digits) && DigitsValue(digits) == url.port)
  {
    var v := HostValue(url);
    if url.port != 80 && url.port != 443 {
      var d := IntToDecimal(url.port);
      assert v == url.host + ":" + d;
      assert v[|url.host|] == ':';
      assert v[|url.host| + 1..] == d;
      if url.port >= 0 {
        DecimalRoundTrip(url.port);
      }
    } else {
      assert v == url.host;
    }
  }
}
