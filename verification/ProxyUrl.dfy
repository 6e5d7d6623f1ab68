/** The proxy URL: its printer (backend/services/proxy_settings.py) and the two parsers that
    unquote credentials (the same file and backend/utils/socket_proxy.py).

    Passwords are plain text here; an absent text is the empty one, as for the source's
    `or ""`. */
module ProxyUrl {
  import opened Options
  import opened Text
  import opened Urls
  import opened PercentEncoding

  datatype Error =
    | HostTooLong | HostDelimiter | HostMalformed | BadScheme | PortRange | Incomplete
    | UserTooLong | PasswordTooLong | PasswordAlone | BadNoProxy | Empty | BadUrl | HasPath
  datatype Result<+T> = Ok(value: T) | Err(error: Error)

  /** `noProxyOk` stands for the check of the bypass list. */
  datatype Settings = Settings(
    enabled: bool, scheme: string, host: string, port: Option<int>, username: string, noProxyOk: bool)

  datatype Proxy = Proxy(
    scheme: string, host: string, port: nat, username: Option<string>, password: Option<string>)

  const MAX_HOST := 253
  const MAX_LABEL := 63
  const MAX_USERNAME := 256
  const MAX_PASSWORD := 1024
  const ENCRYPTED_PREFIX := "fernet:"

  // ---------- Normalising the fields ----------

  function Unbracketed(h: string): string {
    if |h| >= 2 && h[0] == '[' && h[|h| - 1] == ']' then Strip(h[1..|h| - 1]) else h
  }

  predicate NameChar(c: char) { Letter(c) || Digit(c) || c == '_' || c == '.' || c == '-' }

  function StripDots(h: string): string {
    if h != "" && h[|h| - 1] == '.' then StripDots(h[..|h| - 1]) else h
  }

  predicate LabelOk(l: string) { l != "" && |l| <= MAX_LABEL && l[0] != '-' && l[|l| - 1] != '-' }

  /** Every dot-separated label is in order. */
  predicate LabelsOk(s: string)
    decreases |s|
  {
    var i := IndexOf(s, '.');
    LabelOk(s[..i]) && (i < |s| ==> LabelsOk(s[i + 1..]))
  }

  predicate NameOk(h: string) {
    && h != "" && (forall i :: 0 <= i < |h| ==> NameChar(h[i]))
    && LabelsOk(StripDots(h))
  }

  predicate HostDelimiterChar(c: char) { EndsNetloc(c) || c == '@' }
  predicate NoDelimiter(s: string) { forall i :: 0 <= i < |s| ==> !HostDelimiterChar(s[i]) }

  /** `_normalize_host`. */
  function NormalizeHost(lib: Library, value: string): Result<Option<string>> {
    var host := Unbracketed(Strip(value));
    if Strip(value) == "" then Ok(None)
    else if |host| > MAX_HOST then Err(HostTooLong)
    else if !NoDelimiter(host) then Err(HostDelimiter)
    else if lib.ip(host).Some? then Ok(lib.ip(host))
    else if !NameOk(host) then Err(HostMalformed)
    else Ok(Some(StripDots(host)))
  }

  function NormalizeScheme(lib: Library, value: string): Result<string> {
    var scheme := lib.lower(Strip(if value == "" then "http" else value));
    if IsScheme(scheme) then Ok(scheme) else Err(BadScheme)
  }

  function NormalizePort(port: Option<int>): Result<Option<int>> {
    if port.Some? && !(1 <= port.value <= 65535) then Err(PortRange) else Ok(port)
  }

  predicate Encrypted(password: string) {
    |password| >= |ENCRYPTED_PREFIX| && password[..|ENCRYPTED_PREFIX|] == ENCRYPTED_PREFIX
  }

  /** `validate_proxy_settings`: the first complaint, if any. */
  function Complaint(lib: Library, s: Settings, password: string): Option<Error> {
    var scheme := NormalizeScheme(lib, s.scheme);
    var host := NormalizeHost(lib, s.host);
    var port := NormalizePort(s.port);
    var username := Strip(s.username);
    if scheme.Err? then Some(scheme.error)
    else if host.Err? then Some(host.error)
    else if port.Err? then Some(port.error)
    else if s.enabled && (host.value.None? || port.value.None?) then Some(Incomplete)
    else if |username| > MAX_USERNAME then Some(UserTooLong)
    else if !Encrypted(password) && |password| > MAX_PASSWORD then Some(PasswordTooLong)
    else if password != "" && username == "" then Some(PasswordAlone)
    else if !s.noProxyOk then Some(BadNoProxy)
    else None
  }

  // ---------- Printer ----------

  function Given(s: string): Option<string> { if s == "" then None else Some(s) }

  /** The proxy the settings describe. */
  function Described(lib: Library, s: Settings, password: string): Result<Option<Proxy>> {
    if !s.enabled then Ok(None)
    else if Complaint(lib, s, password).Some? then Err(Complaint(lib, s, password).value)
    else
      Ok(Some(Proxy(NormalizeScheme(lib, s.scheme).value, NormalizeHost(lib, s.host).value.value,
                    s.port.value, Given(Strip(s.username)), Given(password))))
  }

  function UserInfo(username: string, password: Option<string>): string {
    Quote(username) + if password.Some? then [':'] + Quote(password.value) else ""
  }

  function Front(p: Proxy): string {
    if p.username.Some? then UserInfo(p.username.value, p.password) + ['@'] else ""
  }

  function Display(host: string): string {
    if ':' in host then ['['] + host + [']'] else host
  }

  function HostPort(display: string, port: nat): string { display + ([':'] + ToDecimal(port)) }

  function Netloc(p: Proxy): string {
    Front(p) + HostPort(Display(p.host), p.port)
  }

  function Printed(p: Proxy): string { p.scheme + "://" + Netloc(p) }

  /** `build_proxy_url`. */
  function Build(lib: Library, s: Settings, password: string): Result<Option<string>> {
    match Described(lib, s, password)
    case Err(e) => Err(e)
    case Ok(None) => Ok(None)
    case Ok(Some(p)) => Ok(Some(Printed(p)))
  }

  // ---------- Parsers ----------

  predicate MarkAt(s: string, i: nat) { i + 3 <= |s| && s[i..i + 3] == "://" }
  predicate HasSchemeMark(s: string) { exists i :: 0 <= i < |s| && MarkAt(s, i) }

  /** `normalize_proxy_url`. */
  function NormalizeUrl(raw: string): string {
    var value := Strip(raw);
    if value == "" || HasSchemeMark(value) then value
    else if '@' in value then "socks5://" + value
    else FromParts(value, Split(value, ':'))
  }

  function FromParts(value: string, parts: seq<string>): string {
    if |parts| == 2 then "socks5://" + parts[0] + ":" + parts[1]
    else if |parts| == 4 then "socks5://" + parts[2] + ":" + parts[3] + "@" + parts[0] + ":" + parts[1]
    else "socks5://" + value
  }

  function TextOf(o: Option<string>): string { if o.Some? then o.value else "" }

  function Unquoted(o: Option<string>): Option<string> { if o.Some? then Some(Unquote(o.value)) else None }

  /** `parse_legacy_proxy_url`. */
  function ParseLegacy(lib: Library, raw: string): Result<Proxy> {
    var value := NormalizeUrl(raw);
    if value == "" then Err(Empty)
    else
      match UrlSplit(lib, value)
      case None => Err(BadUrl)
      case Some(url) => LegacyUrl(lib, url)
  }

  function LegacyUrl(lib: Library, url: Url): Result<Proxy> {
    if PortOf(url).BadPort? then Err(BadUrl)
    else if (url.path != "" && url.path != "/") || url.query != "" || url.fragment != "" then Err(HasPath)
    else LegacyFields(lib, url.scheme, Hostname(lib, url), PortOf(url), Username(url), Password(url))
  }

  function LegacyFields(
    lib: Library, urlScheme: string, hostname: Option<string>, port: Port,
    quotedUser: Option<string>, quotedPassword: Option<string>): Result<Proxy>
    requires !port.BadPort?
  {
    var host := NormalizeHost(lib, TextOf(hostname));
    if host.Err? then Err(host.error)
    else if host.value.None? || port.NoPort? then Err(Incomplete)
    else
      var scheme := NormalizeScheme(lib, urlScheme);
      var inRange := NormalizePort(Some(port.n));
      if scheme.Err? then Err(scheme.error)
      else if inRange.Err? then Err(inRange.error)
      else
        var username := Unquoted(Given(TextOf(quotedUser)));
        var password := Unquoted(Given(TextOf(quotedPassword)));
        var settings := Settings(true, scheme.value, host.value.value, Some(port.n), TextOf(username), true);
        var complaint := Complaint(lib, settings, TextOf(password));
        if complaint.Some? then Err(complaint.value)
        else Ok(Proxy(scheme.value, host.value.value, port.n, username, password))
  }

  /** `parse_socket_proxy`. */
  function ParseSocket(lib: Library, raw: string): Result<Proxy> {
    var value := Strip(raw);
    if value == "" then Err(Empty)
    else
      match UrlSplit(lib, value)
      case None => Err(BadUrl)
      case Some(url) => SocketUrl(lib, url)
  }

  function SocketUrl(lib: Library, url: Url): Result<Proxy> {
    if PortOf(url).BadPort? then Err(BadUrl)
    else SocketFields(url.scheme, Hostname(lib, url), PortOf(url), Username(url), Password(url))
  }

  function SocketFields(
    scheme: string, hostname: Option<string>, port: Port,
    quotedUser: Option<string>, quotedPassword: Option<string>): Result<Proxy>
    requires !port.BadPort?
  {
    if !IsScheme(scheme) then Err(BadScheme)
    else if hostname.None? || port.NoPort? then Err(Incomplete)
    else Ok(Proxy(scheme, hostname.value, port.n, Unquoted(quotedUser), Unquoted(quotedPassword)))
  }

  // ---------- What a normalised host looks like ----------

  function LowerHost(h: string): string { Lower(Body(h)) + Zone(h) }

  predicate Trimmed(s: string) { s != "" && !IsSpace(s[0]) && !IsSpace(s[|s| - 1]) }

  predicate NormalForm(lib: Library, h: string) {
    && Trimmed(h) && NoDelimiter(h)
    && (lib.ip(h) == Some(h) || (lib.ip(h).None? && NameOk(h) && StripDots(h) == h))
  }

  lemma TrimmedStays(s: string)
    requires Trimmed(s)
    ensures Strip(s) == s
  {
  }

  lemma {:induction false} StripLeftTrims(s: string)
    ensures StripLeft(s) == "" || !IsSpace(StripLeft(s)[0])
  {
    if s != "" { StripLeftTrims(s[1..]); }
  }

  lemma {:induction false} StripRightTrims(s: string)
    ensures StripRight(s) <= s && (StripRight(s) == "" || !IsSpace(StripRight(s)[|StripRight(s)| - 1]))
  {
    if s != "" { StripRightTrims(s[..|s| - 1]); }
  }

  lemma StripTrims(s: string)
    ensures Strip(s) == "" || Trimmed(Strip(s))
  {
    StripLeftTrims(s);
    StripRightTrims(StripLeft(s));
  }

  lemma {:induction false} StripDotsStrips(h: string)
    ensures StripDots(h) <= h && (StripDots(h) == "" || StripDots(h)[|StripDots(h)| - 1] != '.')
    ensures StripDots(StripDots(h)) == StripDots(h)
  {
    if h != "" { StripDotsStrips(h[..|h| - 1]); }
  }

  lemma JoinedIsTrimmed(body: string, zone: string, host: string)
    requires body != "" && forall i :: 0 <= i < |body| ==> AddressChar(body[i])
    requires Trimmed(host) && NoDelimiter(host)
    requires |zone| <= |host| && zone == host[|host| - |zone|..]
    ensures Trimmed(body + zone) && NoDelimiter(body + zone)
  {
    var c := body + zone;
    assert c[0] == body[0];
    if zone == "" {
      assert c[|c| - 1] == body[|body| - 1];
    } else {
      assert c[|c| - 1] == zone[|zone| - 1] == host[|host| - 1];
    }
    forall i | 0 <= i < |c| ensures !HostDelimiterChar(c[i]) {
      if i < |body| { assert AddressChar(body[i]); } else { assert c[i] == host[|host| - |zone| + (i - |body|)]; }
    }
  }

  lemma AddressIsNormal(lib: Library, host: string)
    requires lib.Valid() && lib.ip(host).Some? && Trimmed(host) && NoDelimiter(host)
    ensures NormalForm(lib, lib.ip(host).value)
  {
    var c := lib.ip(host).value;
    if ':' in host {
      JoinedIsTrimmed(Body(c), Zone(c), host);
      assert c == Body(c) + Zone(c);
    }
  }

  lemma NameIsNormal(lib: Library, host: string)
    requires lib.Valid() && NameOk(host)
    ensures NormalForm(lib, StripDots(host))
  {
    StripDotsStrips(host);
    var name := StripDots(host);
    assert name != "";
    assert forall i :: 0 <= i < |name| ==> name[i] == host[i] && NameChar(name[i]);
    assert ':' !in name;
  }

  lemma HostIsNormal(lib: Library, value: string)
    requires lib.Valid() && NormalizeHost(lib, value).Ok? && NormalizeHost(lib, value).value.Some?
    ensures NormalForm(lib, NormalizeHost(lib, value).value.value)
  {
    var host := Unbracketed(Strip(value));
    StripTrims(value);
    if host != Strip(value) { StripTrims(Strip(value)[1..|Strip(value)| - 1]); }
    if lib.ip(host).Some? {
      AddressIsNormal(lib, host);
    } else {
      NameIsNormal(lib, host);
    }
  }

  /** A normalised host normalises to itself, unless it has become too long. */
  lemma NormalAgain(lib: Library, h: string)
    requires lib.Valid() && NormalForm(lib, h)
    ensures NormalizeHost(lib, h) == if |h| <= MAX_HOST then Ok(Some(h)) else Err(HostTooLong)
  {
    TrimmedStays(h);
    assert h[0] != '[';
  }

  // ---------- Lower-casing a normalised host ----------

  lemma LowerSlice(s: string, i: nat, j: nat)
    requires i <= j <= |s|
    ensures Lower(s)[i..j] == Lower(s[i..j])
  {
  }

  lemma LowerIndex(s: string, c: char)
    requires LowerChar(c) == c && !Letter(c)
    ensures IndexOf(Lower(s), c) == IndexOf(s, c)
  {
    var low := Lower(s);
    assert forall j :: 0 <= j < |s| ==> (low[j] == c <==> s[j] == c);
  }

  lemma LowerLabelOk(l: string)
    requires LabelOk(l)
    ensures LabelOk(Lower(l))
  {
  }

  lemma LabelsStep(s: string, head: string, tail: string)
    requires LabelOk(head) && LabelsOk(tail) && IndexOf(s, '.') == |head| && s == head + ['.'] + tail
    ensures LabelsOk(s)
  {
    assert s[..|head|] == head && s[|head| + 1..] == tail;
  }

  lemma LowerAround(s: string, i: nat)
    requires i < |s| && s[i] == '.'
    ensures Lower(s) == Lower(s[..i]) + ['.'] + Lower(s[i + 1..])
  {
  }

  lemma {:induction false} LowerLabelsOk(s: string)
    requires LabelsOk(s)
    ensures LabelsOk(Lower(s))
    decreases |s|
  {
    var i := IndexOf(s, '.');
    LowerIndex(s, '.');
    if i < |s| {
      LowerLabelOk(s[..i]);
      LowerLabelsOk(s[i + 1..]);
      LowerAround(s, i);
      LabelsStep(Lower(s), Lower(s[..i]), Lower(s[i + 1..]));
    } else {
      LabelsLast(s);
      LowerLabelOk(s);
      LabelsLast(Lower(s));
    }
  }

  lemma LabelsLast(s: string)
    requires IndexOf(s, '.') == |s|
    ensures LabelsOk(s) <==> LabelOk(s)
  {
    assert s[..|s|] == s;
  }

  lemma NameAvoids(h: string, c: char)
    requires (forall i :: 0 <= i < |h| ==> NameChar(h[i])) && !NameChar(c)
    ensures c !in h
  {
  }

  lemma NamesHaveNoZone(h: string)
    requires forall i :: 0 <= i < |h| ==> NameChar(h[i])
    ensures Body(h) == h && Zone(h) == "" && ':' !in h
  {
    NameAvoids(h, '%');
    NameAvoids(h, ':');
    PartitionNowhere(h, '%');
  }

  lemma LowerNameOk(h: string)
    requires NameOk(h) && StripDots(h) == h
    ensures NameOk(Lower(h)) && StripDots(Lower(h)) == Lower(h)
  {
    StripDotsStrips(h);
    var low := Lower(h);
    assert StripDots(low) == low;
    LowerLabelsOk(h);
    forall i | 0 <= i < |low| ensures NameChar(low[i]) { assert NameChar(h[i]); }
  }

  lemma LowerNameIsNormal(lib: Library, h: string)
    requires lib.Valid() && NameOk(h) && StripDots(h) == h
    ensures NormalForm(lib, Lower(h))
  {
    LowerNameOk(h);
    NameIsNormal(lib, Lower(h));
  }

  lemma AddressIsLower(lib: Library, h: string)
    requires lib.Valid() && lib.ip(h) == Some(h)
    ensures Lower(Body(h)) == Body(h) && Ascii(Body(h)) && LowerHost(h) == h
  {
    assert Canonical(h, h);
    assert Lower(Body(h)) == Body(h);
    assert h == Body(h) + Zone(h);
  }

  /** The lower-cased host is what `hostname` gives, and it is a normalised host again. */
  lemma LowerHostIsNormal(lib: Library, h: string)
    requires lib.Valid() && NormalForm(lib, h)
    ensures lib.lower(Body(h)) + Zone(h) == LowerHost(h)
    ensures NormalForm(lib, LowerHost(h)) && |LowerHost(h)| == |h|
  {
    if lib.ip(h) == Some(h) {
      AddressIsLower(lib, h);
    } else {
      NamesHaveNoZone(h);
      LowerNameIsNormal(lib, h);
      assert Lower(h) + "" == Lower(h);
    }
  }

  // ---------- Reading host and port back ----------

  lemma PortReadsBack(port: nat)
    requires 1 <= port <= 65535
    ensures var text := ToDecimal(port);
      text != "" && Digits(text) && FromDecimal(text) == port && '[' !in text && ']' !in text && ':' !in text && '@' !in text
  {
    DecimalRoundTrip(port);
  }

  lemma NameReadsBack(h: string, text: string)
    requires ':' !in h && '[' !in h && '[' !in text
    ensures var hostPort := h + ([':'] + text);
      '[' !in hostPort && HostText(hostPort) == h && PortText(hostPort) == text
  {
    PartitionAt(h, ':', text);
    assert h + [':'] + text == h + ([':'] + text);
  }

  /** The pieces of "[h]" + rest when no bracket closes inside h. */
  lemma BracketPieces(h: string, rest: string)
    requires ']' !in h
    ensures var s := ['['] + h + [']'] + rest;
      '[' in s && Before(s, '[') == "" && Before(After(s, '['), ']') == h && After(After(s, '['), ']') == rest
  {
    var s, inner := ['['] + h + [']'] + rest, h + [']'] + rest;
    assert s == "" + ['['] + inner && s[0] == '[';
    PartitionAt("", '[', inner);
    PartitionAt(h, ']', rest);
  }

  lemma AddressReadsBack(lib: Library, h: string, rest: string)
    requires ']' !in h && rest != "" && rest[0] == ':'
    ensures var hostPort := ['['] + h + [']'] + rest;
      && HostText(hostPort) == h && PortText(hostPort) == After(rest, ':')
      && (BracketsOk(lib, hostPort) <==> BracketedHostOk(lib, h))
  {
    BracketPieces(h, rest);
  }

  lemma ColonFirst(text: string)
    ensures After([':'] + text, ':') == text
  {
    PartitionAt("", ':', text);
    assert "" + [':'] + text == [':'] + text;
  }

  // ---------- Reading the credentials back ----------

  lemma PlainAvoids(s: string, c: char)
    requires Plain(s) && !PlainChar(c)
    ensures c !in s
  {
  }

  lemma AuthorityParts(p: Proxy, hostPort: string)
    requires '@' !in hostPort
    ensures AfterLast(Front(p) + hostPort, '@') == hostPort
    ensures p.username.Some? <==> '@' in Front(p) + hostPort
    ensures p.username.Some? ==> BeforeLast(Front(p) + hostPort, '@') == UserInfo(p.username.value, p.password)
  {
    if p.username.Some? {
      var u := UserInfo(p.username.value, p.password);
      PartitionAtLast(u, '@', hostPort);
      assert (u + ['@'] + hostPort)[|u|] == '@';
    } else {
      assert "" + hostPort == hostPort;
      PartitionNowhere(hostPort, '@');
    }
  }

  lemma UserInfoReadsBack(username: string, password: Option<string>)
    ensures var u := UserInfo(username, password);
      && Before(u, ':') == Quote(username)
      && (password.Some? <==> ':' in u)
      && (password.Some? ==> After(u, ':') == Quote(password.value))
  {
    QuoteIsPlain(username);
    PlainAvoids(Quote(username), ':');
    if password.Some? {
      var q := Quote(username) + [':'] + Quote(password.value);
      PartitionAt(Quote(username), ':', Quote(password.value));
      assert UserInfo(username, password) == q && q[|Quote(username)|] == ':';
    } else {
      assert Quote(username) + "" == Quote(username);
      PartitionNowhere(Quote(username), ':');
    }
  }

  function QuotedIn(o: Option<string>): Option<string> { if o.Some? then Some(Quote(o.value)) else None }

  lemma CredentialsReadBack(p: Proxy, hostPort: string, url: Url)
    requires '@' !in hostPort && url.netloc == Front(p) + hostPort && (p.password.Some? ==> p.username.Some?)
    ensures Username(url) == QuotedIn(p.username) && Password(url) == QuotedIn(p.password)
  {
    AuthorityParts(p, hostPort);
    if p.username.Some? { UserInfoReadsBack(p.username.value, p.password); }
  }

  // ---------- The characters of an authority ----------

  predicate FrontChar(c: char) { PlainChar(c) || c == ':' || c == '@' }

  lemma FrontIsTame(p: Proxy)
    ensures forall i :: 0 <= i < |Front(p)| ==> FrontChar(Front(p)[i])
  {
    if p.username.Some? {
      QuoteIsPlain(p.username.value);
      if p.password.Some? { QuoteIsPlain(p.password.value); }
    }
  }

  predicate NoBreaks(s: string) { forall i :: 0 <= i < |s| ==> !Dropped(s[i]) }

  /** Characters that neither end nor bracket an authority. */
  predicate TameChar(c: char) {
    !EndsNetloc(c) && !Dropped(c) && c as int < 0x80 && c != '[' && c != ']'
  }
  predicate Tame(s: string) { forall i :: 0 <= i < |s| ==> TameChar(s[i]) }

  lemma TameParts(s: string)
    requires Tame(s)
    ensures NoEnd(s) && NoBreaks(s) && Ascii(s) && '[' !in s && ']' !in s
  {
  }

  lemma TameConcat(a: string, b: string)
    requires Tame(a) && Tame(b)
    ensures Tame(a + b)
  {
  }

  lemma FrontIsSafe(p: Proxy)
    ensures Tame(Front(p))
  {
    FrontIsTame(p);
    var f := Front(p);
    forall i | 0 <= i < |f| ensures TameChar(f[i]) { assert FrontChar(f[i]); }
  }

  /** A host without a colon is made of name characters. */
  lemma PlainHost(lib: Library, h: string)
    requires lib.Valid() && NormalForm(lib, h) && ':' !in h
    ensures forall i :: 0 <= i < |h| ==> NameChar(h[i])
  {
  }

  lemma AddressHost(lib: Library, h: string)
    requires lib.Valid() && NormalForm(lib, h) && ':' in h
    ensures lib.ip(h) == Some(h) && LowerHost(h) == h && h[0] != 'v'
  {
    if lib.ip(h) != Some(h) { NameAvoids(h, ':'); }
    AddressIsLower(lib, h);
    assert h == Body(h) + Zone(h) && h[0] == Body(h)[0];
  }

  // ---------- Reading the authority back ----------

  /** What `Described` yields. */
  predicate Printable(lib: Library, p: Proxy) {
    && IsScheme(p.scheme) && NormalForm(lib, p.host) && 1 <= p.port <= 65535
    && (p.username.Some? ==> p.username.value != "" && Strip(p.username.value) == p.username.value && |p.username.value| <= MAX_USERNAME)
    && (p.password.Some? ==> p.username.Some? && p.password.value != ""
                             && (Encrypted(p.password.value) || |p.password.value| <= MAX_PASSWORD))
  }

  lemma TextIsTame(port: nat)
    requires 1 <= port <= 65535
    ensures Tame([':'] + ToDecimal(port)) && '@' !in [':'] + ToDecimal(port) && '[' !in ToDecimal(port)
  {
    var rest := [':'] + ToDecimal(port);
    assert forall i :: 0 <= i < |rest| ==> rest[i] == ':' || Digit(rest[i]);
  }

  lemma TameName(h: string)
    requires forall i :: 0 <= i < |h| ==> NameChar(h[i])
    ensures Tame(h) && '@' !in h && ':' !in h && '[' !in h
  {
    NameAvoids(h, '@');
    NameAvoids(h, ':');
    NameAvoids(h, '[');
  }

  lemma NameAuthority(lib: Library, p: Proxy)
    requires lib.Valid() && Printable(lib, p) && ':' !in p.host
    ensures var netloc, hostPort := Netloc(p), HostPort(p.host, p.port);
      && netloc == Front(p) + hostPort && '@' !in hostPort
      && Tame(netloc) && NetlocOk(lib, netloc)
      && HostText(hostPort) == p.host && PortText(hostPort) == ToDecimal(p.port)
  {
    PlainHost(lib, p.host);
    TameName(p.host);
    TextIsTame(p.port);
    FrontIsSafe(p);
    TameConcat(p.host, [':'] + ToDecimal(p.port));
    TameConcat(Front(p), HostPort(p.host, p.port));
    TameParts(Netloc(p));
    NameReadsBack(p.host, ToDecimal(p.port));
  }

  lemma NoEndConcat(a: string, b: string)
    requires NoEnd(a) && NoEnd(b)
    ensures NoEnd(a + b)
  {
  }

  lemma AddressAuthority(lib: Library, p: Proxy, k: string)
    requires 1 <= p.port <= 65535 && '@' !in k && ']' !in k
    ensures var hostPort := HostPort(['['] + k + [']'], p.port);
      && '@' !in hostPort && AfterLast(Front(p) + hostPort, '@') == hostPort
      && HostText(hostPort) == k && PortText(hostPort) == ToDecimal(p.port)
      && '[' in Front(p) + hostPort && ']' in Front(p) + hostPort
      && (BracketsOk(lib, hostPort) <==> BracketedHostOk(lib, k))
  {
    var hostPort := HostPort(['['] + k + [']'], p.port);
    TextIsTame(p.port);
    AddressReadsBack(lib, k, [':'] + ToDecimal(p.port));
    ColonFirst(ToDecimal(p.port));
    AuthorityParts(p, hostPort);
    HasBoth(Front(p), hostPort, |k| + 1);
  }

  lemma HasBoth(front: string, s: string, k: nat)
    requires k < |s| && s[0] == '[' && s[k] == ']'
    ensures '[' in front + s && ']' in front + s
  {
    assert (front + s)[|front|] == '[' && (front + s)[|front| + k] == ']';
  }

  lemma SplitAtBracket(k: string, tail: string) returns (inner: string, zone: string)
    requires ']' in k
    ensures ']' !in inner && ['['] + k + [']'] + tail == ['['] + inner + [']'] + (zone + [']'] + tail)
  {
    var i := IndexOf(k, ']');
    inner, zone := k[..i], k[i + 1..];
    assert k == inner + [']'] + zone;
  }

  lemma EarlyBracketIn(lib: Library, k: string, text: string)
    requires ']' in k
    ensures var hostPort := ['['] + k + [']'] + ([':'] + text);
      BracketsOk(lib, hostPort) ==> PortText(hostPort) != "" && !Digits(PortText(hostPort))
  {
    var inner, zone := SplitAtBracket(k, [':'] + text);
    BracketPieces(inner, zone + [']'] + ([':'] + text));
    if zone != "" && zone[0] == ':' { BracketInPort(zone, text); }
  }

  /** A bracket inside the zone ends the host early: no port can be read. */
  lemma EarlyBracket(lib: Library, p: Proxy, k: string, url: Url)
    requires 1 <= p.port <= 65535 && '@' !in k && ']' in k
    requires url.netloc == Front(p) + HostPort(['['] + k + [']'], p.port)
    ensures NetlocOk(lib, url.netloc) ==> PortOf(url).BadPort?
  {
    var hostPort := HostPort(['['] + k + [']'], p.port);
    TextIsTame(p.port);
    AuthorityParts(p, hostPort);
    HasBoth(Front(p), hostPort, |k| + 1);
    EarlyBracketIn(lib, k, ToDecimal(p.port));
  }

  lemma BracketInPort(zone: string, text: string)
    requires zone != "" && zone[0] == ':'
    ensures var port := After(zone + [']'] + ([':'] + text), ':');
      port != "" && !Digits(port)
  {
    var rest := zone + [']'] + ([':'] + text);
    ColonFirst(rest[1..]);
    assert rest == [':'] + rest[1..];
    assert rest[1..][|zone| - 1] == ']';
  }

  // ---------- Reading the URL back ----------

  /** Nothing in the host is lost on the way: no bracket or line break in a zone, and no
      delimiter that normalisation would turn up. */
  predicate Safe(lib: Library, p: Proxy) {
    ']' !in p.host && NoBreaks(p.host) && (Ascii(Netloc(p)) || !lib.clash(Netloc(p)))
  }

  /** The URL's parts are those of the proxy, with the given host. */
  predicate ReadsAs(lib: Library, url: Url, p: Proxy, host: string) {
    && url.scheme == p.scheme && url.path == "" && url.query == "" && url.fragment == ""
    && Hostname(lib, url) == Some(host)
    && PortOf(url) == Port(p.port)
    && Username(url) == QuotedIn(p.username) && Password(url) == QuotedIn(p.password)
  }

  lemma PartsReadBack(lib: Library, p: Proxy, hostPort: string)
    requires lib.Valid() && Printable(lib, p) && '@' !in hostPort
    requires HostText(hostPort) == p.host && PortText(hostPort) == ToDecimal(p.port)
    ensures ReadsAs(lib, Url(p.scheme, Front(p) + hostPort, "", "", ""), p, LowerHost(p.host))
  {
    AuthorityParts(p, hostPort);
    CredentialsReadBack(p, hostPort, Url(p.scheme, Front(p) + hostPort, "", "", ""));
    LowerHostIsNormal(lib, p.host);
    PortReadsBack(p.port);
  }

  lemma NameUrl(lib: Library, p: Proxy)
    requires lib.Valid() && Printable(lib, p) && ':' !in p.host
    ensures UrlSplit(lib, Printed(p)) == Some(Url(p.scheme, Netloc(p), "", "", ""))
    ensures ReadsAs(lib, Url(p.scheme, Netloc(p), "", "", ""), p, LowerHost(p.host))
    ensures Safe(lib, p)
  {
    NameAuthority(lib, p);
    TameParts(Netloc(p));
    NothingDropped(Netloc(p));
    SplitPrinted(lib, p.scheme, Netloc(p));
    PartsReadBack(lib, p, HostPort(p.host, p.port));
    PlainHost(lib, p.host);
    TameName(p.host);
  }

  lemma TameStays(s: string)
    requires Tame(s)
    ensures DropBreaks(s) == s
  {
    NothingDropped(s);
  }

  lemma DropInBrackets(h: string)
    ensures DropBreaks(['['] + h + [']']) == ['['] + DropBreaks(h) + [']']
  {
    DropConcat(['['] + h, [']']);
    DropConcat(['['], h);
    NothingDropped(['[']);
    NothingDropped([']']);
  }

  /** The dropping only happens inside the brackets. */
  lemma DropInAuthority(p: Proxy)
    requires ':' in p.host && 1 <= p.port <= 65535
    ensures DropBreaks(Netloc(p)) == Front(p) + HostPort(['['] + DropBreaks(p.host) + [']'], p.port)
  {
    var rest := [':'] + ToDecimal(p.port);
    FrontIsSafe(p);
    TextIsTame(p.port);
    TameStays(Front(p));
    TameStays(rest);
    DropConcat(Front(p), Display(p.host) + rest);
    DropConcat(Display(p.host), rest);
    DropInBrackets(p.host);
  }

  lemma AuthorityHasNoEnd(p: Proxy)
    requires NoDelimiter(p.host) && 1 <= p.port <= 65535
    ensures NoEnd(Netloc(p))
  {
    FrontIsSafe(p);
    TameParts(Front(p));
    TextIsTame(p.port);
    TameParts([':'] + ToDecimal(p.port));
    NoEndConcat(['['], p.host);
    NoEndConcat(['['] + p.host, [']']);
    NoEndConcat(Display(p.host), [':'] + ToDecimal(p.port));
    NoEndConcat(Front(p), HostPort(Display(p.host), p.port));
  }

  /** What `urlsplit` makes of an authority with an address: breaks are dropped from it. */
  lemma AddressSplit(lib: Library, p: Proxy)
    requires lib.Valid() && Printable(lib, p) && ':' in p.host
    ensures var kept := Front(p) + HostPort(['['] + DropBreaks(p.host) + [']'], p.port);
      UrlSplit(lib, Printed(p)) == if NetlocOk(lib, kept) then Some(Url(p.scheme, kept, "", "", "")) else None
  {
    AuthorityHasNoEnd(p);
    DropInAuthority(p);
    SplitPrinted(lib, p.scheme, Netloc(p));
  }

  lemma AddressNetlocOk(lib: Library, p: Proxy)
    requires lib.Valid() && Printable(lib, p) && ':' in p.host && Safe(lib, p)
    ensures NetlocOk(lib, Netloc(p))
    ensures var hostPort := HostPort(Display(p.host), p.port);
      '@' !in hostPort && HostText(hostPort) == p.host && PortText(hostPort) == ToDecimal(p.port)
  {
    AddressHost(lib, p.host);
    AddressAuthority(lib, p, p.host);
  }

  lemma AddressUrl(lib: Library, p: Proxy)
    requires lib.Valid() && Printable(lib, p) && ':' in p.host && Safe(lib, p)
    ensures UrlSplit(lib, Printed(p)) == Some(Url(p.scheme, Netloc(p), "", "", ""))
    ensures ReadsAs(lib, Url(p.scheme, Netloc(p), "", "", ""), p, LowerHost(p.host))
  {
    AddressSplit(lib, p);
    NothingDropped(p.host);
    AddressNetlocOk(lib, p);
    PartsReadBack(lib, p, HostPort(Display(p.host), p.port));
  }

  lemma ReadBack(lib: Library, p: Proxy)
    requires lib.Valid() && Printable(lib, p) && Safe(lib, p)
    ensures UrlSplit(lib, Printed(p)) == Some(Url(p.scheme, Netloc(p), "", "", ""))
    ensures ReadsAs(lib, Url(p.scheme, Netloc(p), "", "", ""), p, LowerHost(p.host))
  {
    if ':' in p.host { AddressUrl(lib, p); } else { NameUrl(lib, p); }
  }

  // ---------- When something is lost ----------

  lemma {:induction false} DropKeepsAt(s: string)
    requires '@' !in s
    ensures '@' !in DropBreaks(s)
  {
    if s != "" { DropKeepsAt(s[1..]); }
  }

  lemma BodyAndZone(body: string, after: string)
    requires '%' !in body
    ensures Body(body + (['%'] + after)) == body && Zone(body + (['%'] + after)) == ['%'] + after
  {
    var s := body + ['%'] + after;
    assert s == body + (['%'] + after);
    PartitionAt(body, '%', after);
    assert |Before(s, '%')| == |body|;
  }

  lemma BodyAlone(body: string)
    requires '%' !in body
    ensures Body(body) == body && Zone(body) == ""
  {
    PartitionNowhere(body, '%');
  }

  lemma DropZone(zone: string)
    requires zone != "" && zone[0] == '%'
    ensures DropBreaks(zone) == ['%'] + DropBreaks(zone[1..])
  {
  }

  /** The host read back from an address with dropped breaks has none left. */
  lemma DroppedHostname(h: string)
    requires forall i :: 0 <= i < |Body(h)| ==> AddressChar(Body(h)[i])
    ensures Body(DropBreaks(h)) == Body(h) && NoBreaks(Zone(DropBreaks(h)))
  {
    assert h == Body(h) + Zone(h);
    DroppedParts(Body(h), Zone(h));
  }

  lemma DroppedParts(body: string, zone: string)
    requires (forall i :: 0 <= i < |body| ==> AddressChar(body[i])) && (zone != "" ==> zone[0] == '%')
    ensures Body(DropBreaks(body + zone)) == body && NoBreaks(Zone(DropBreaks(body + zone)))
  {
    DropConcat(body, zone);
    NothingDropped(body);
    if zone == "" {
      assert body + "" == body;
      BodyAlone(body);
    } else {
      DropZone(zone);
      BodyAndZone(body, DropBreaks(zone[1..]));
    }
  }

  lemma NoBreaksConcat(a: string, b: string)
    requires NoBreaks(a) && NoBreaks(b)
    ensures NoBreaks(a + b)
  {
  }

  lemma DroppedLower(lib: Library, h: string)
    requires lib.Valid() && lib.ip(h) == Some(h) && ':' in h
    ensures var k := DropBreaks(h);
      k != "" && NoBreaks(lib.lower(Body(k)) + Zone(k))
  {
    assert Canonical(h, h);
    DroppedHostname(h);
    AddressIsLower(lib, h);
    NoBreaksConcat(Body(h), Zone(DropBreaks(h)));
  }

  lemma DroppedIsRead(lib: Library, p: Proxy, url: Url)
    requires lib.Valid() && Printable(lib, p) && ':' in p.host && ']' !in DropBreaks(p.host)
    requires url.netloc == Front(p) + HostPort(['['] + DropBreaks(p.host) + [']'], p.port)
    ensures Hostname(lib, url).Some? && NoBreaks(Hostname(lib, url).value)
  {
    DropKeepsAt(p.host);
    AddressAuthority(lib, p, DropBreaks(p.host));
    AddressHost(lib, p.host);
    DroppedLower(lib, p.host);
  }

  lemma ClashIsRefused(lib: Library, p: Proxy)
    requires lib.Valid() && Printable(lib, p) && ':' in p.host && ']' !in p.host && !Safe(lib, p) && NoBreaks(p.host)
    ensures !NetlocOk(lib, Netloc(p))
  {
  }

  /** Either urlsplit or the port refuses the URL, or its host lacks the breaks of the
      original one. */
  lemma LostHost(lib: Library, p: Proxy)
    requires lib.Valid() && Printable(lib, p) && !Safe(lib, p)
    ensures var u := UrlSplit(lib, Printed(p));
      u.None? || PortOf(u.value).BadPort? ||
      (!NoBreaks(p.host) && Hostname(lib, u.value).Some? && NoBreaks(Hostname(lib, u.value).value))
  {
    if ':' !in p.host {
      NameUrl(lib, p);
    } else {
      var k := DropBreaks(p.host);
      var url := Url(p.scheme, Front(p) + HostPort(['['] + k + [']'], p.port), "", "", "");
      AddressSplit(lib, p);
      DropKeepsAt(p.host);
      if ']' in k {
        EarlyBracket(lib, p, k, url);
      } else if NoBreaks(p.host) {
        NothingDropped(p.host);
        ClashIsRefused(lib, p);
      } else {
        DroppedIsRead(lib, p, url);
      }
    }
  }

  // ---------- Main results ----------

  lemma DescribedIsPrintable(lib: Library, s: Settings, password: string)
    requires lib.Valid() && Described(lib, s, password).Ok? && Described(lib, s, password).value.Some?
    ensures Printable(lib, Described(lib, s, password).value.value)
  {
    HostIsNormal(lib, s.host);
    StripTrims(s.username);
    if Strip(s.username) != "" { TrimmedStays(Strip(s.username)); }
  }

  /** A label of a host name: 1 to 63 characters, no hyphen at either end. */
  predicate GoodLabel(l: string) { 1 <= |l| <= 63 && l[0] != '-' && l[|l| - 1] != '-' }

  lemma {:induction false} LabelsExact(s: string)
    ensures LabelsOk(s) <==> forall l :: l in Split(s, '.') ==> GoodLabel(l)
    decreases |s|
  {
    var i := IndexOf(s, '.');
    if i < |s| {
      LabelsExact(s[i + 1..]);
      LabelsApart(s, i, s[..i], s[i + 1..]);
      AllOfCons(s[..i], Split(s[i + 1..], '.'));
    } else {
      assert s[..i] == s && Split(s, '.') == [s] && s in Split(s, '.');
    }
  }

  lemma LabelsApart(s: string, i: nat, head: string, tail: string)
    requires i == IndexOf(s, '.') < |s| && head == s[..i] && tail == s[i + 1..]
    ensures LabelsOk(s) <==> GoodLabel(head) && LabelsOk(tail)
    ensures Split(s, '.') == [head] + Split(tail, '.')
  {
  }

  lemma AllOfCons(l: string, rest: seq<string>)
    ensures (forall k :: k in [l] + rest ==> GoodLabel(k)) <==> GoodLabel(l) && forall k :: k in rest ==> GoodLabel(k)
  {
    assert l in [l] + rest && forall k :: k in rest ==> k in [l] + rest;
  }

  /** A host that may be used: not blank, at most 253 characters without brackets, none of the
      delimiters of a URL, and either an address or a name of letters, digits, hyphens, dots and
      underscores whose labels are good, trailing dots aside. */
  predicate UsableHost(lib: Library, value: string) {
    var host := Unbracketed(Strip(value));
    && Strip(value) != "" && |host| <= 253
    && (forall i :: 0 <= i < |host| ==> host[i] !in "/?#@")
    && (lib.ip(host).Some?
        || (host != "" && (forall i :: 0 <= i < |host| ==> NameChar(host[i]))
            && forall l :: l in Split(StripDots(host), '.') ==> GoodLabel(l)))
  }

  lemma UsableExact(lib: Library, value: string)
    ensures UsableHost(lib, value) <==> NormalizeHost(lib, value).Ok? && NormalizeHost(lib, value).value.Some?
    ensures NormalizeHost(lib, value) == Ok(None) <==> Strip(value) == ""
  {
    var host := Unbracketed(Strip(value));
    LabelsExact(StripDots(host));
    assert NoDelimiter(host) <==> forall i :: 0 <= i < |host| ==> host[i] !in "/?#@" by {
      forall i | 0 <= i < |host| ensures HostDelimiterChar(host[i]) <==> host[i] in "/?#@" {}
    }
  }

  /** Enabled settings are accepted if and only if the scheme, in lower case and by default
      `http`, is `http` or `socks5`, the host is usable, the port is there and in range, the user
      name, trimmed, has at most 256 characters, a password comes with a user name and has at
      most 1024 characters unless it is encrypted, and the bypass list is in order.  They then
      describe that proxy; disabled ones describe none. */
  lemma AcceptedExact(lib: Library, s: Settings, password: string)
    ensures !s.enabled ==> Described(lib, s, password) == Ok(None)
    ensures s.enabled ==>
      var scheme, user := lib.lower(Strip(if s.scheme == "" then "http" else s.scheme)), Strip(s.username);
      && (Described(lib, s, password).Ok? <==>
            && (scheme == "http" || scheme == "socks5")
            && UsableHost(lib, s.host) && s.port.Some? && 1 <= s.port.value <= 65535
            && |user| <= 256 && (password != "" ==> user != "")
            && (Encrypted(password) || |password| <= 1024) && s.noProxyOk)
      && (Described(lib, s, password).Ok? ==>
            var p := Described(lib, s, password).value;
            && p.Some? && p.value.scheme == scheme && Some(p.value.port) == s.port
            && (p.value.username == if user == "" then None else Some(user))
            && (p.value.password == if password == "" then None else Some(password)))
  {
    UsableExact(lib, s.host);
  }

  /** The printed URL of a proxy with credentials of unreserved characters, part by part. */
  lemma PrintedExact(p: Proxy, user: string, password: string)
    requires p.username == Some(user) && p.password == Some(password)
    requires forall i :: 0 <= i < |user| ==> Unreserved(user[i])
    requires forall i :: 0 <= i < |password| ==> Unreserved(password[i])
    ensures Printed(p) == p.scheme + "://" + user + ":" + password + "@"
                          + (if ':' in p.host then "[" + p.host + "]" else p.host) + ":" + ToDecimal(p.port)
  {
    QuoteUnreserved(user);
    QuoteUnreserved(password);
    FrontThenHost(p.scheme, user, password, Display(p.host), ToDecimal(p.port));
  }

  lemma FrontThenHost(scheme: string, user: string, password: string, display: string, port: string)
    ensures scheme + "://" + (user + ([':'] + password) + ['@'] + (display + ([':'] + port)))
         == scheme + "://" + user + ":" + password + "@" + display + ":" + port
  {
  }

  lemma UnquotedQuoted(o: Option<string>)
    requires o.Some? ==> o.value != ""
    ensures Unquoted(QuotedIn(o)) == o && Unquoted(Given(TextOf(QuotedIn(o)))) == o
  {
    if o.Some? {
      UnquoteQuote(o.value);
      QuoteIsPlain(o.value);
    }
  }

  lemma PrintedStays(p: Proxy)
    requires IsScheme(p.scheme)
    ensures Strip(Printed(p)) == Printed(p) && NormalizeUrl(Printed(p)) == Printed(p) && Printed(p) != ""
  {
    var url, text := Printed(p), ToDecimal(p.port);
    assert url[0] == p.scheme[0];
    assert url[|url| - 1] == text[|text| - 1] && Digit(text[|text| - 1]);
    TrimmedStays(url);
    assert MarkAt(url, |p.scheme|);
  }

  lemma SocketFieldsRead(lib: Library, p: Proxy, host: string)
    requires Printable(lib, p)
    ensures SocketFields(p.scheme, Some(host), Port(p.port), QuotedIn(p.username), QuotedIn(p.password)) == Ok(p.(host := host))
  {
    UnquotedQuoted(p.username);
    UnquotedQuoted(p.password);
  }

  /** The socket parser recovers every field, the host in lower case ... */
  lemma SocketReadsLower(lib: Library, p: Proxy)
    requires lib.Valid() && Printable(lib, p) && Safe(lib, p)
    ensures ParseSocket(lib, Printed(p)) == Ok(p.(host := LowerHost(p.host)))
  {
    PrintedStays(p);
    ReadBack(lib, p);
    SocketFieldsRead(lib, p, LowerHost(p.host));
  }

  /** ... and so the setting itself exactly when its host is lower-case and nothing in a
      zone gets lost. */
  lemma SocketRoundTrip(lib: Library, p: Proxy)
    requires lib.Valid() && Printable(lib, p)
    ensures ParseSocket(lib, Printed(p)) == Ok(p) <==> Safe(lib, p) && LowerHost(p.host) == p.host
  {
    if Safe(lib, p) {
      SocketReadsLower(lib, p);
    } else {
      PrintedStays(p);
      LostHost(lib, p);
    }
  }

  lemma NoComplaint(lib: Library, p: Proxy, host: string)
    requires lib.Valid() && Printable(lib, p) && NormalForm(lib, host) && |host| <= MAX_HOST
    ensures Complaint(lib, Settings(true, p.scheme, host, Some(p.port), TextOf(p.username), true), TextOf(p.password)).None?
  {
    NormalAgain(lib, host);
    SchemeAgain(lib, p.scheme);
  }

  lemma LegacyFieldsRead(lib: Library, p: Proxy, host: string)
    requires lib.Valid() && Printable(lib, p) && NormalForm(lib, host)
    ensures LegacyFields(lib, p.scheme, Some(host), Port(p.port), QuotedIn(p.username), QuotedIn(p.password))
         == if |host| <= MAX_HOST then Ok(p.(host := host)) else Err(HostTooLong)
  {
    NormalAgain(lib, host);
    if |host| <= MAX_HOST {
      UnquotedQuoted(p.username);
      UnquotedQuoted(p.password);
      SchemeAgain(lib, p.scheme);
      NoComplaint(lib, p, host);
    }
  }

  lemma LegacyUrlRead(lib: Library, p: Proxy, url: Url, host: string)
    requires lib.Valid() && Printable(lib, p) && NormalForm(lib, host) && ReadsAs(lib, url, p, host)
    ensures LegacyUrl(lib, url) == if |host| <= MAX_HOST then Ok(p.(host := host)) else Err(HostTooLong)
  {
    LegacyFieldsRead(lib, p, host);
  }

  lemma SchemeAgain(lib: Library, scheme: string)
    requires lib.Valid() && IsScheme(scheme)
    ensures NormalizeScheme(lib, scheme) == Ok(scheme)
  {
    TrimmedStays(scheme);
    assert Ascii(scheme);
    assert Lower(scheme) == scheme;
  }

  /** The settings parser does the same, and in addition refuses a host that normalisation
      has made too long. */
  lemma LegacyReadsLower(lib: Library, p: Proxy)
    requires lib.Valid() && Printable(lib, p) && Safe(lib, p)
    ensures ParseLegacy(lib, Printed(p)) == if |p.host| <= MAX_HOST then Ok(p.(host := LowerHost(p.host))) else Err(HostTooLong)
  {
    PrintedStays(p);
    ReadBack(lib, p);
    LowerHostIsNormal(lib, p.host);
    LegacyUrlRead(lib, p, Url(p.scheme, Netloc(p), "", "", ""), LowerHost(p.host));
  }

  /** A normalised host has no line breaks when the text it comes from has none. */
  lemma NormalHostHasNoBreaks(lib: Library, value: string)
    requires lib.Valid() && NoBreaks(value)
    requires NormalizeHost(lib, value).Ok? && NormalizeHost(lib, value).value.Some?
    ensures NoBreaks(NormalizeHost(lib, value).value.value)
  {
    var host := Unbracketed(Strip(value));
    StripHasNoBreaks(value);
    if host != Strip(value) { StripHasNoBreaks(Strip(value)[1..|Strip(value)| - 1]); }
    if lib.ip(host).Some? {
      AddressHasNoBreaks(host, lib.ip(host).value);
    } else {
      StripDotsStrips(host);
    }
  }

  lemma {:induction false} StripHasNoBreaks(s: string)
    requires NoBreaks(s)
    ensures NoBreaks(Strip(s))
    decreases |s|
  {
    if s != "" && IsSpace(s[0]) {
      StripHasNoBreaks(s[1..]);
    } else {
      StripRightTrims(s);
    }
  }

  lemma AddressHasNoBreaks(host: string, c: string)
    requires Canonical(host, c) && NoBreaks(host)
    ensures NoBreaks(c)
  {
    if ':' in host {
      assert c == Body(c) + Zone(c) && NoBreaks(Body(c)) && NoBreaks(Zone(host));
      NoBreaksConcat(Body(c), Zone(c));
    }
  }

  lemma LegacyRoundTrip(lib: Library, p: Proxy)
    requires lib.Valid() && Printable(lib, p)
    ensures ParseLegacy(lib, Printed(p)) == Ok(p) <==> Safe(lib, p) && LowerHost(p.host) == p.host && |p.host| <= MAX_HOST
  {
    if Safe(lib, p) {
      LegacyReadsLower(lib, p);
    } else {
      PrintedStays(p);
      LostHost(lib, p);
      LegacyLosesHost(lib, p);
    }
  }

  lemma FieldsHaveNoBreaks(
    lib: Library, scheme: string, hostname: string, port: Port, user: Option<string>, password: Option<string>)
    requires lib.Valid() && NoBreaks(hostname) && !port.BadPort?
    requires LegacyFields(lib, scheme, Some(hostname), port, user, password).Ok?
    ensures NoBreaks(LegacyFields(lib, scheme, Some(hostname), port, user, password).value.host)
  {
    NormalHostHasNoBreaks(lib, hostname);
  }

  lemma LegacyLosesHost(lib: Library, p: Proxy)
    requires lib.Valid() && NormalizeUrl(Printed(p)) == Printed(p) && Printed(p) != ""
    requires var u := UrlSplit(lib, Printed(p));
      u.None? || PortOf(u.value).BadPort? ||
      (!NoBreaks(p.host) && Hostname(lib, u.value).Some? && NoBreaks(Hostname(lib, u.value).value))
    ensures ParseLegacy(lib, Printed(p)) != Ok(p)
  {
    var u := UrlSplit(lib, Printed(p));
    if ParseLegacy(lib, Printed(p)).Ok? {
      FieldsHaveNoBreaks(lib, u.value.scheme, Hostname(lib, u.value).value, PortOf(u.value), Username(u.value), Password(u.value));
    }
  }

  // ---------- In terms of the settings ----------

  /** For all settings that can be printed: parsing the built URL gives back scheme, host,
      port, user name and password if and only if the normalised host is lower-case, its
      zone (if any) has neither a closing bracket nor a line break, normalisation turns up
      no delimiter, and (for the settings parser) the host is within its length. */
  lemma BuildParses(lib: Library, s: Settings, password: string)
    requires lib.Valid() && Build(lib, s, password).Ok? && Build(lib, s, password).value.Some?
    ensures Described(lib, s, password).Ok? && Described(lib, s, password).value.Some?
    ensures var url, p := Build(lib, s, password).value.value, Described(lib, s, password).value.value;
      && (ParseSocket(lib, url) == Ok(p) <==> Safe(lib, p) && LowerHost(p.host) == p.host)
      && (ParseLegacy(lib, url) == Ok(p) <==> Safe(lib, p) && LowerHost(p.host) == p.host && |p.host| <= MAX_HOST)
  {
    DescribedIsPrintable(lib, s, password);
    var p := Described(lib, s, password).value.value;
    SocketRoundTrip(lib, p);
    LegacyRoundTrip(lib, p);
  }

  lemma NameLowers(lib: Library, h: string)
    requires lib.Valid() && NormalForm(lib, h) && ':' !in h
    ensures LowerHost(h) == Lower(h)
  {
    PlainHost(lib, h);
    NamesHaveNoZone(h);
    assert Lower(h) + "" == Lower(h);
  }

  /** For hosts without a colon - names and IPv4 - only the letter case can be lost. */
  lemma NamesParse(lib: Library, p: Proxy)
    requires lib.Valid() && Printable(lib, p) && ':' !in p.host && |p.host| <= MAX_HOST
    ensures ParseSocket(lib, Printed(p)) == Ok(p.(host := Lower(p.host)))
    ensures ParseLegacy(lib, Printed(p)) == Ok(p.(host := Lower(p.host)))
  {
    NameUrl(lib, p);
    NameLowers(lib, p.host);
    SocketReadsLower(lib, p);
    LegacyReadsLower(lib, p);
  }

  /** A plain IPv6 address without a zone is always recovered. */
  lemma PlainAddressesParse(lib: Library, p: Proxy)
    requires lib.Valid() && Printable(lib, p) && ':' in p.host && '%' !in p.host && |p.host| <= MAX_HOST
    ensures ParseSocket(lib, Printed(p)) == Ok(p) && ParseLegacy(lib, Printed(p)) == Ok(p)
  {
    AddressHost(lib, p.host);
    assert Canonical(p.host, p.host);
    BodyAlone(p.host);
    AddressTextIsSafe(lib, p);
    SocketRoundTrip(lib, p);
    LegacyRoundTrip(lib, p);
  }

  lemma AddressTextIsSafe(lib: Library, p: Proxy)
    requires forall i :: 0 <= i < |p.host| ==> AddressChar(p.host[i])
    requires ':' in p.host && 1 <= p.port <= 65535
    ensures Safe(lib, p)
  {
    FrontIsSafe(p);
    TameParts(Front(p));
    TextIsTame(p.port);
    TameParts([':'] + ToDecimal(p.port));
    assert ']' !in p.host;
    AsciiConcat(['['] + p.host, [']']);
    AsciiConcat(Display(p.host), [':'] + ToDecimal(p.port));
    AsciiConcat(Front(p), HostPort(Display(p.host), p.port));
  }

  lemma AsciiConcat(a: string, b: string)
    requires Ascii(a) && Ascii(b)
    ensures Ascii(a + b)
  {
  }

  // ---------- Settings that are not recovered ----------

  /** An enabled HTTP proxy on this host without credentials. */
  function OnHost(host: string): Settings { Settings(true, "http", host, Some(8080), "", true) }

  lemma DescribedOnHost(lib: Library, host: string)
    requires lib.Valid() && NormalizeHost(lib, host) == Ok(Some(host))
    ensures Described(lib, OnHost(host), "") == Ok(Some(Proxy("http", host, 8080, None, None)))
  {
    SchemeAgain(lib, "http");
    assert Strip("") == "";
  }

  lemma UpperCaseIsNormal(lib: Library, host: string)
    requires lib.Valid() && host == "P"
    ensures NormalizeHost(lib, host) == Ok(Some(host)) && LowerHost(host) != host
  {
    TrimmedStays(host);
    assert host[0] == 'P' && NameChar('P') && !Digit('P');
    assert lib.ip(host).None?;
    LabelsLast(host);
    NamesHaveNoZone(host);
    assert Lower(host)[0] == 'p';
  }

  /** A host with an upper-case letter is accepted and printed, and neither parser gives the
      setting back. */
  lemma UpperCaseIsLost(lib: Library)
    requires lib.Valid()
    ensures var build, p := Build(lib, OnHost("P"), ""), Proxy("http", "P", 8080, None, None);
      && build.Ok? && build.value.Some? && Described(lib, OnHost("P"), "") == Ok(Some(p))
      && ParseSocket(lib, build.value.value) != Ok(p) && ParseLegacy(lib, build.value.value) != Ok(p)
  {
    UpperCaseIsNormal(lib, "P");
    DescribedOnHost(lib, "P");
    BuildParses(lib, OnHost("P"), "");
  }

  lemma BracketZoneIsNormal(lib: Library, host: string)
    requires host == "fe80::1%a]" && lib.ip(host) == Some(host)
    ensures NormalizeHost(lib, host) == Ok(Some(host)) && ']' in host
  {
    assert host[0] == 'f' && host[|host| - 1] == ']';
    TrimmedStays(host);
  }

  /** `ip_address` accepts a closing bracket in a zone; such a host is printed, and neither
      parser gives the setting back. */
  lemma BracketZoneIsLost(lib: Library)
    requires lib.Valid() && lib.ip("fe80::1%a]") == Some("fe80::1%a]")
    ensures var host := "fe80::1%a]";
      var build, p := Build(lib, OnHost(host), ""), Proxy("http", host, 8080, None, None);
      && build.Ok? && build.value.Some? && Described(lib, OnHost(host), "") == Ok(Some(p))
      && ParseSocket(lib, build.value.value) != Ok(p) && ParseLegacy(lib, build.value.value) != Ok(p)
  {
    var host := "fe80::1%a]";
    BracketZoneIsNormal(lib, host);
    DescribedOnHost(lib, host);
    BuildParses(lib, OnHost(host), "");
  }

  // ---------- A path, query or fragment after the authority ----------

  lemma TailedStays(p: Proxy, tail: string)
    requires IsScheme(p.scheme) && tail != "" && !IsSpace(tail[|tail| - 1])
    ensures Strip(Printed(p) + tail) == Printed(p) + tail && NormalizeUrl(Printed(p) + tail) == Printed(p) + tail
    ensures Printed(p) + tail != ""
  {
    var url := Printed(p) + tail;
    assert url[0] == p.scheme[0] && url[|url| - 1] == tail[|tail| - 1];
    TrimmedStays(url);
    assert MarkAt(url, |p.scheme|);
  }

  lemma NetlocAccepted(lib: Library, p: Proxy)
    requires lib.Valid() && Printable(lib, p) && Safe(lib, p)
    ensures NetlocOk(lib, Netloc(p))
  {
    if ':' in p.host { AddressNetlocOk(lib, p); } else { NameAuthority(lib, p); }
  }

  lemma TailedUrl(lib: Library, p: Proxy, tail: string)
    requires lib.Valid() && Printable(lib, p) && Safe(lib, p)
    requires NoBreaks(tail) && tail != "" && EndsNetloc(tail[0])
    ensures UrlSplit(lib, Printed(p) + tail) == Some(SplitTail(p.scheme, Netloc(p), tail))
  {
    NetlocAccepted(lib, p);
    NetlocIsWhole(lib, p);
    NoBreaksConcat(Netloc(p), tail);
    NothingDropped(Netloc(p) + tail);
    Regrouped(p.scheme + "://", Netloc(p), tail);
    SplitWithTail(lib, p.scheme, Netloc(p), tail);
  }

  lemma Regrouped(a: string, b: string, c: string)
    ensures a + b + c == a + (b + c)
  {
  }

  lemma NetlocIsWhole(lib: Library, p: Proxy)
    requires lib.Valid() && Printable(lib, p) && Safe(lib, p)
    ensures NoEnd(Netloc(p)) && NoBreaks(Netloc(p))
  {
    if ':' in p.host {
      AuthorityHasNoEnd(p);
      DropInAuthority(p);
      NothingDropped(p.host);
    } else {
      NameAuthority(lib, p);
      TameParts(Netloc(p));
    }
  }

  /** After a built URL the settings parser tolerates a slash, an empty query and an empty
      fragment and refuses everything else; the socket parser ignores any such tail. */
  lemma TailExact(lib: Library, p: Proxy, tail: string)
    requires lib.Valid() && Printable(lib, p) && Safe(lib, p)
    requires NoBreaks(tail) && tail != "" && EndsNetloc(tail[0]) && !IsSpace(tail[|tail| - 1])
    ensures ParseLegacy(lib, Printed(p) + tail) == if EmptyTail(tail) then ParseLegacy(lib, Printed(p)) else Err(HasPath)
    ensures ParseSocket(lib, Printed(p) + tail) == ParseSocket(lib, Printed(p))
  {
    PrintedStays(p);
    TailedStays(p, tail);
    TailedUrl(lib, p, tail);
    ReadBack(lib, p);
    SameAuthority(lib, Url(p.scheme, Netloc(p), "", "", ""), p.scheme, Netloc(p), tail);
  }

  lemma SameAuthority(lib: Library, u: Url, scheme: string, netloc: string, tail: string)
    requires u == Url(scheme, netloc, "", "", "") && !PortOf(u).BadPort?
    ensures LegacyUrl(lib, SplitTail(scheme, netloc, tail)) == if EmptyTail(tail) then LegacyUrl(lib, u) else Err(HasPath)
    ensures SocketUrl(lib, SplitTail(scheme, netloc, tail)) == SocketUrl(lib, u)
  {
    EmptyTailExact(tail);
    var v := SplitTail(scheme, netloc, tail);
    assert Hostname(lib, u) == Hostname(lib, v) && PortOf(u) == PortOf(v);
    assert Username(u) == Username(v) && Password(u) == Password(v);
  }

  // ---------- The legacy notations without a scheme ----------

  lemma SplitLast(a: string)
    requires ':' !in a
    ensures Split(a, ':') == [a]
  {
    PartitionNowhere(a, ':');
  }

  lemma SplitCons(a: string, rest: string, parts: seq<string>)
    requires ':' !in a && Split(rest, ':') == parts
    ensures Split(a + [':'] + rest, ':') == [a] + parts
  {
    var s := a + [':'] + rest;
    PartitionAt(a, ':', rest);
    assert |Before(s, ':')| == IndexOf(s, ':');
  }

  lemma SplitTwo(a: string, b: string)
    requires ':' !in a && ':' !in b
    ensures Split(a + [':'] + b, ':') == [a, b]
  {
    SplitLast(b);
    SplitCons(a, b, [b]);
  }

  lemma SplitThree(a: string, b: string, c: string)
    requires ':' !in a && ':' !in b && ':' !in c
    ensures Split(a + [':'] + (b + [':'] + c), ':') == [a, b, c]
  {
    SplitTwo(b, c);
    SplitCons(a, b + [':'] + c, [b, c]);
  }

  lemma SplitMore(a: string, rest: string, parts: seq<string>, s: string, all: seq<string>)
    requires ':' !in a && Split(rest, ':') == parts && s == a + [':'] + rest && all == [a] + parts
    ensures Split(s, ':') == all
  {
    SplitCons(a, rest, parts);
  }

  lemma SplitFour(a: string, b: string, c: string, d: string, rest: string, s: string)
    requires ':' !in a && ':' !in b && ':' !in c && ':' !in d
    requires rest == b + [':'] + (c + [':'] + d) && s == a + [':'] + rest
    ensures Split(s, ':') == [a, b, c, d]
  {
    SplitThree(b, c, d);
    SplitMore(a, rest, [b, c, d], s, [a, b, c, d]);
  }

  /** Host, port and quoted credentials are written with these characters. */
  predicate FieldChar(c: char) { NameChar(c) || PlainChar(c) }
  predicate Field(s: string) { s != "" && forall i :: 0 <= i < |s| ==> FieldChar(s[i]) }

  /** Fields and the colons between them. */
  predicate Fields(s: string) {
    && s != "" && FieldChar(s[0]) && FieldChar(s[|s| - 1])
    && forall i :: 0 <= i < |s| ==> FieldChar(s[i]) || s[i] == ':'
  }

  lemma JoinFields(a: string, rest: string)
    requires Field(a) && Fields(rest)
    ensures Fields(a + [':'] + rest) && Fields(a)
  {
    var s := a + [':'] + rest;
    assert s[0] == a[0] && s[|s| - 1] == rest[|rest| - 1];
  }

  lemma FieldHasNoColon(a: string)
    requires Field(a)
    ensures ':' !in a && Fields(a)
  {
    assert !FieldChar(':');
  }

  lemma NoSlashNoMark(s: string)
    requires '/' !in s
    ensures !HasSchemeMark(s)
  {
    var mark := "://";
    assert mark[1] == '/';
    forall i: nat | i < |s| ensures !MarkAt(s, i) {
      assert i + 3 <= |s| ==> s[i..i + 3][1] == s[i + 1];
    }
  }

  /** Without scheme, slash and at sign the colons decide. */
  lemma FieldsAreSplit(s: string)
    requires Fields(s)
    ensures NormalizeUrl(s) == FromParts(s, Split(s, ':'))
  {
    assert !FieldChar('/') && !FieldChar('@');
    assert '/' !in s && '@' !in s;
    TrimmedStays(s);
    NoSlashNoMark(s);
  }

  /** `host:port:user:password` is read as a SOCKS5 proxy with these four fields in their
      places, and `host:port` as one without credentials. */
  lemma LegacyNotation(host: string, port: string, user: string, password: string)
    requires Field(host) && Field(port) && Field(user) && Field(password)
    ensures NormalizeUrl(host + [':'] + (port + [':'] + (user + [':'] + password)))
         == "socks5://" + user + ":" + password + "@" + host + ":" + port
    ensures NormalizeUrl(host + [':'] + port) == "socks5://" + host + ":" + port
  {
    FieldHasNoColon(host);
    FieldHasNoColon(port);
    FieldHasNoColon(user);
    FieldHasNoColon(password);
    var rest := port + [':'] + (user + [':'] + password);
    var all := host + [':'] + rest;
    JoinFields(user, password);
    JoinFields(port, user + [':'] + password);
    JoinFields(host, rest);
    JoinFields(host, port);
    FieldsAreSplit(all);
    FieldsAreSplit(host + [':'] + port);
    SplitFour(host, port, user, password, rest, all);
    SplitTwo(host, port);
  }

  lemma SchemeIsAdded(s: string)
    requires Trimmed(s) && '@' in s && '/' !in s
    ensures NormalizeUrl(s) == "socks5://" + s
  {
    TrimmedStays(s);
    NoSlashNoMark(s);
  }

  lemma CredentialsFirst(user: string, rest: string, s: string)
    requires user != "" && Plain(user) && rest != "" && Digit(rest[|rest| - 1]) && s == user + rest
    ensures Trimmed(s)
  {
    assert s[0] == user[0] && s[|s| - 1] == rest[|rest| - 1] && PlainChar(user[0]);
  }

  lemma NoEndNoSlash(s: string)
    requires NoEnd(s)
    ensures '/' !in s
  {
    assert EndsNetloc('/');
  }

  /** The built URL of a SOCKS5 proxy with credentials may be written without its scheme: the
      settings parser reads the same URL. */
  lemma SchemeMayBeLeftOut(lib: Library, p: Proxy)
    requires Printable(lib, p) && p.scheme == "socks5" && p.username.Some?
    ensures NormalizeUrl(Netloc(p)) == Printed(p)
  {
    NetlocIsBare(p);
    SchemeIsAdded(Netloc(p));
    SchemeJoined(Netloc(p));
  }

  lemma SchemeJoined(s: string)
    ensures "socks5" + "://" + s == "socks5://" + s
  {
  }

  lemma NetlocIsBare(p: Proxy)
    requires NoDelimiter(p.host) && 1 <= p.port <= 65535 && p.username.Some? && p.username.value != ""
    ensures Trimmed(Netloc(p)) && '@' in Netloc(p) && '/' !in Netloc(p)
  {
    AuthorityHasNoEnd(p);
    NoEndNoSlash(Netloc(p));
    QuoteIsPlain(p.username.value);
    var user := Quote(p.username.value);
    var rest := (if p.password.Some? then [':'] + Quote(p.password.value) else "") + ['@'] + HostPort(Display(p.host), p.port);
    NetlocParts(p, user, rest);
    CredentialsFirst(user, rest, Netloc(p));
  }

  lemma NetlocParts(p: Proxy, user: string, rest: string)
    requires p.username.Some? && user == Quote(p.username.value)
    requires rest == (if p.password.Some? then [':'] + Quote(p.password.value) else "") + ['@'] + HostPort(Display(p.host), p.port)
    ensures Netloc(p) == user + rest && '@' in Netloc(p) && Digit(rest[|rest| - 1])
  {
    var text := ToDecimal(p.port);
    assert rest[|rest| - 1] == text[|text| - 1];
    assert '@' in rest;
  }
}
