/** `urllib.parse.urlsplit` and the parts of its result, as in CPython 3.12, for URLs without
    a default scheme; authority as in section 3.2 of RFC 3986. */
module Urls {
  import opened Options
  import opened Text

  /** Library behaviour given from outside: `ip_address` in its canonical text, whether NFKC
      normalisation turns up a delimiter, and `lower` on any text. */
  datatype Library = Library(ip: string -> Option<string>, clash: string -> bool, lower: string -> string) {
    ghost predicate Valid() {
      && (forall s :: Ascii(s) ==> lower(s) == Lower(s))
      && (forall h :: ip(h).Some? ==> Canonical(h, ip(h).value) && ip(ip(h).value) == ip(h))
    }
  }

  predicate AddressChar(c: char) { Digit(c) || 'a' <= c <= 'f' || c == ':' || c == '.' }

  /** From the percent sign on. */
  function Zone(h: string): string { h[IndexOf(h, '%')..] }
  function Body(h: string): string { Before(h, '%') }

  /** IPv4 text is its own canonical form; IPv6 is lower-case hexadecimal followed by the
      zone, which is kept as it is. */
  predicate Canonical(h: string, c: string) {
    if ':' in h then
      && Zone(c) == Zone(h) && |Zone(h)| != 1 && (Zone(h) != "" ==> '%' !in Zone(h)[1..])
      && ':' in Body(c) && forall i :: 0 <= i < |Body(c)| ==> AddressChar(Body(c)[i])
    else c == h && h != "" && forall i :: 0 <= i < |h| ==> Digit(h[i]) || h[i] == '.'
  }

  datatype Url = Url(scheme: string, netloc: string, path: string, query: string, fragment: string)

  // ---------- Cleaning ----------

  function StripControls(s: string): string {
    if s != "" && s[0] as int <= 0x20 then StripControls(s[1..]) else s
  }

  predicate Dropped(c: char) { c == '\t' || c == '\r' || c == '\n' }

  function DropBreaks(s: string): (r: string)
    ensures forall i :: 0 <= i < |r| ==> !Dropped(r[i])
  {
    if s == "" then "" else (if Dropped(s[0]) then "" else [s[0]]) + DropBreaks(s[1..])
  }

  function Cleaned(raw: string): string { DropBreaks(StripControls(raw)) }

  // ---------- Scheme ----------

  predicate Letter(c: char) { 'a' <= c <= 'z' || 'A' <= c <= 'Z' }
  predicate SchemeChar(c: char) { Letter(c) || Digit(c) || c == '+' || c == '-' || c == '.' }

  predicate HasScheme(url: string) {
    var i := IndexOf(url, ':');
    0 < i < |url| && Letter(url[0]) && forall j :: 0 <= j < i ==> SchemeChar(url[j])
  }

  // ---------- Authority ----------

  predicate EndsNetloc(c: char) { c == '/' || c == '?' || c == '#' }
  predicate NoEnd(s: string) { forall i :: 0 <= i < |s| ==> !EndsNetloc(s[i]) }

  function NetlocEnd(s: string): (i: nat)
    ensures i <= |s|
  {
    if s == "" || EndsNetloc(s[0]) then 0 else 1 + NetlocEnd(s[1..])
  }

  predicate HexDigit(c: char) { Digit(c) || 'a' <= c <= 'f' || 'A' <= c <= 'F' }

  function HexRun(s: string): (n: nat)
    ensures n <= |s|
  {
    if s == "" || !HexDigit(s[0]) then 0 else 1 + HexRun(s[1..])
  }

  predicate FutureAddress(h: string) {
    h != "" && h[0] == 'v' &&
    var k := 1 + HexRun(h[1..]);
    1 < k && k + 1 < |h| && h[k] == '.'
  }

  /** `_check_bracketed_host`. */
  predicate BracketedHostOk(lib: Library, h: string) {
    if h != "" && h[0] == 'v' then FutureAddress(h)
    else lib.ip(h).Some? && ':' in lib.ip(h).value
  }

  /** `_check_bracketed_netloc` on host and port; reached only when both brackets occur. */
  predicate BracketsOk(lib: Library, hostPort: string) {
    if '[' in hostPort then
      var bracketed := After(hostPort, '[');
      var port := After(bracketed, ']');
      && Before(hostPort, '[') == ""
      && (port != "" ==> port[0] == ':')
      && BracketedHostOk(lib, Before(bracketed, ']'))
    else BracketedHostOk(lib, Before(hostPort, ':'))
  }

  predicate NetlocOk(lib: Library, netloc: string) {
    && ('[' in netloc <==> ']' in netloc)
    && ('[' in netloc ==> BracketsOk(lib, AfterLast(netloc, '@')))
    && (Ascii(netloc) || !lib.clash(netloc))
  }

  /** None stands for the ValueError. */
  function UrlSplit(lib: Library, raw: string): Option<Url> {
    var url := Cleaned(raw);
    var i := IndexOf(url, ':');
    if HasScheme(url) then SplitRest(lib, Lower(url[..i]), url[i + 1..]) else SplitRest(lib, "", url)
  }

  function SplitRest(lib: Library, scheme: string, rest: string): Option<Url> {
    if |rest| >= 2 && rest[..2] == "//" then
      var n := 2 + NetlocEnd(rest[2..]);
      if NetlocOk(lib, rest[2..n]) then Some(SplitTail(scheme, rest[2..n], rest[n..])) else None
    else Some(SplitTail(scheme, "", rest))
  }

  function SplitTail(scheme: string, netloc: string, tail: string): Url {
    var beforeFragment := Before(tail, '#');
    Url(scheme, netloc, Before(beforeFragment, '?'), After(beforeFragment, '?'), After(tail, '#'))
  }

  function HostText(hostPort: string): string {
    if '[' in hostPort then Before(After(hostPort, '['), ']') else Before(hostPort, ':')
  }

  function PortText(hostPort: string): string {
    if '[' in hostPort then After(After(After(hostPort, '['), ']'), ':') else After(hostPort, ':')
  }

  /** `hostname`: lower case up to a zone. */
  function Hostname(lib: Library, url: Url): Option<string> {
    var h := HostText(AfterLast(url.netloc, '@'));
    if h == "" then None else Some(lib.lower(Body(h)) + Zone(h))
  }

  datatype Port = NoPort | BadPort | Port(n: nat)

  function PortOf(url: Url): Port {
    var text := PortText(AfterLast(url.netloc, '@'));
    if text == "" then NoPort
    else if !Digits(text) || FromDecimal(text) > 65535 then BadPort
    else Port(FromDecimal(text))
  }

  function Username(url: Url): Option<string> {
    if '@' in url.netloc then Some(Before(BeforeLast(url.netloc, '@'), ':')) else None
  }

  function Password(url: Url): Option<string> {
    var userInfo := BeforeLast(url.netloc, '@');
    if '@' in url.netloc && ':' in userInfo then Some(After(userInfo, ':')) else None
  }

  // ---------- Splitting scheme://netloc ----------

  lemma {:induction false} NothingDropped(s: string)
    requires forall i :: 0 <= i < |s| ==> !Dropped(s[i])
    ensures DropBreaks(s) == s
  {
    if s != "" { NothingDropped(s[1..]); }
  }

  lemma {:induction false} DropConcat(a: string, b: string)
    ensures DropBreaks(a + b) == DropBreaks(a) + DropBreaks(b)
  {
    if a == "" {
      assert a + b == b;
    } else {
      assert (a + b)[1..] == a[1..] + b;
      DropConcat(a[1..], b);
    }
  }

  lemma {:induction false} NetlocEndIsAll(s: string)
    requires NoEnd(s)
    ensures NetlocEnd(s) == |s|
  {
    if s != "" { NetlocEndIsAll(s[1..]); }
  }

  predicate IsScheme(s: string) { s == "http" || s == "socks5" }

  lemma SchemeFound(scheme: string, rest: string)
    requires IsScheme(scheme)
    ensures var url := scheme + [':'] + rest;
      HasScheme(url) && IndexOf(url, ':') == |scheme| && Lower(url[..|scheme|]) == scheme && url[|scheme| + 1..] == rest
  {
    var url := scheme + [':'] + rest;
    PartitionAt(scheme, ':', rest);
    assert |Before(url, ':')| == IndexOf(url, ':');
    assert forall j :: 0 <= j < |scheme| ==> url[j] == scheme[j] && SchemeChar(scheme[j]);
    assert url[..|scheme|] == scheme;
    var low := Lower(scheme);
    assert low == scheme;
  }

  lemma SplitRestPrinted(lib: Library, scheme: string, netloc: string)
    requires NoEnd(netloc)
    ensures SplitRest(lib, scheme, "//" + netloc) == if NetlocOk(lib, netloc) then Some(Url(scheme, netloc, "", "", "")) else None
  {
    var rest := "//" + netloc;
    NetlocEndIsAll(netloc);
    assert rest[..2] == "//" && rest[2..] == netloc && rest[2..|rest|] == netloc && rest[|rest|..] == "";
    assert SplitTail(scheme, netloc, "") == Url(scheme, netloc, "", "", "");
  }

  lemma CleanedFront(front: string, s: string)
    requires front != "" && forall i :: 0 <= i < |front| ==> front[i] as int > 0x20
    ensures Cleaned(front + s) == front + DropBreaks(s)
  {
    assert (front + s)[0] == front[0];
    DropConcat(front, s);
    NothingDropped(front);
  }

  lemma Associate(a: string, b: string, c: string, d: string)
    ensures a + (b + c) + d == a + b + (c + d)
  {
  }

  lemma CleanedPrinted(scheme: string, slashes: string, netloc: string)
    requires IsScheme(scheme) && slashes == "//"
    ensures Cleaned(scheme + ([':'] + slashes) + netloc) == scheme + [':'] + (slashes + DropBreaks(netloc))
  {
    CleanedFront(scheme + ([':'] + slashes), netloc);
    Associate(scheme, [':'], slashes, DropBreaks(netloc));
  }

  /** What is read back from an authority without delimiters of its own; breaks in it are
      lost. */
  lemma SplitPrinted(lib: Library, scheme: string, netloc: string)
    requires IsScheme(scheme) && NoEnd(netloc)
    ensures var kept := DropBreaks(netloc);
      UrlSplit(lib, scheme + "://" + netloc) == if NetlocOk(lib, kept) then Some(Url(scheme, kept, "", "", "")) else None
  {
    var kept := DropBreaks(netloc);
    CleanedPrinted(scheme, "//", netloc);
    assert [':'] + "//" == "://";
    SchemeFound(scheme, "//" + kept);
    DropKeepsNoEnd(netloc);
    SplitRestPrinted(lib, scheme, kept);
  }

  lemma {:induction false} DropKeepsNoEnd(s: string)
    requires NoEnd(s)
    ensures NoEnd(DropBreaks(s))
  {
    if s != "" { DropKeepsNoEnd(s[1..]); }
  }

  // ---------- What follows the authority ----------

  lemma {:induction false} NetlocEndsAtTail(s: string, tail: string)
    requires NoEnd(s) && tail != "" && EndsNetloc(tail[0])
    ensures NetlocEnd(s + tail) == |s|
  {
    if s == "" {
      assert s + tail == tail;
    } else {
      assert (s + tail)[1..] == s[1..] + tail;
      NetlocEndsAtTail(s[1..], tail);
    }
  }

  lemma SplitRestWithTail(lib: Library, scheme: string, netloc: string, tail: string)
    requires NoEnd(netloc) && tail != "" && EndsNetloc(tail[0])
    ensures SplitRest(lib, scheme, "//" + (netloc + tail))
         == if NetlocOk(lib, netloc) then Some(SplitTail(scheme, netloc, tail)) else None
  {
    var rest := "//" + (netloc + tail);
    assert rest[..2] == "//" && rest[2..] == netloc + tail;
    NetlocEndsAtTail(netloc, tail);
    assert rest[2..2 + |netloc|] == netloc && rest[2 + |netloc|..] == tail;
  }

  lemma SplitWithTail(lib: Library, scheme: string, netloc: string, tail: string)
    requires IsScheme(scheme) && NoEnd(netloc) && tail != "" && EndsNetloc(tail[0])
    requires DropBreaks(netloc + tail) == netloc + tail
    ensures UrlSplit(lib, scheme + "://" + (netloc + tail))
         == if NetlocOk(lib, netloc) then Some(SplitTail(scheme, netloc, tail)) else None
  {
    CleanedPrinted(scheme, "//", netloc + tail);
    assert [':'] + "//" == "://";
    SchemeFound(scheme, "//" + (netloc + tail));
    SplitRestWithTail(lib, scheme, netloc, tail);
  }

  /** A tail that adds nothing: a slash and empty query and fragment at most. */
  predicate EmptyTail(tail: string) {
    tail == "" || tail == "/" || tail == "?" || tail == "#" || tail == "/?" || tail == "/#" || tail == "?#" || tail == "/?#"
  }

  lemma PartitionJoins(s: string, c: char)
    ensures s == if c in s then Before(s, c) + [c] + After(s, c) else Before(s, c)
  {
    if IndexOf(s, c) == |s| { assert c !in s; }
  }

  lemma EmptyTailExact(tail: string)
    ensures var url := SplitTail("", "", tail);
      (url.path == "" || url.path == "/") && url.query == "" && url.fragment == "" <==> EmptyTail(tail)
  {
    var front := Before(tail, '#');
    PartitionJoins(tail, '#');
    PartitionJoins(front, '?');
    if EmptyTail(tail) { EmptyTailSplits(tail); }
  }

  lemma CutAtEnd(s: string, c: char)
    requires s != "" && c !in s[..|s| - 1]
    ensures Before(s, c) == (if s[|s| - 1] == c then s[..|s| - 1] else s) && After(s, c) == ""
  {
    var front := s[..|s| - 1];
    if s[|s| - 1] == c {
      PartitionAt(front, c, "");
      assert s == front + [c] + "";
    } else {
      assert s == front + [s[|s| - 1]];
      PartitionNowhere(s, c);
    }
  }

  lemma EmptyTailSplits(tail: string)
    requires EmptyTail(tail)
    ensures var url := SplitTail("", "", tail);
      (url.path == "" || url.path == "/") && url.query == "" && url.fragment == ""
  {
    if tail != "" { CutAtEnd(tail, '#'); }
    var front := Before(tail, '#');
    assert front == "" || front == "/" || front == "?" || front == "/?";
    if front != "" { CutAtEnd(front, '?'); }
  }
}
