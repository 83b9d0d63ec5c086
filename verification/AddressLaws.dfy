/** Deparsing an address and parsing the URL again. */
module AddressLaws {
  import opened Values
  import opened Address

  predicate KnownScheme(scheme: string) {
    scheme == "tcp" || scheme == "http" || scheme == "https" || scheme == "ws" || scheme == "wss"
  }

  /** The host holds neither a colon nor a slash. */
  predicate HostChars(host: string) { forall i :: 0 <= i < |host| ==> host[i] != ':' && host[i] != '/' }

  /** The path holds none of the four line terminators. */
  predicate DotChars(path: string) {
    forall i :: 0 <= i < |path| ==> path[i] !in {'\n', '\r', '\U{2028}', '\U{2029}'}
  }

  function WithoutSlash(path: string): string { if StartsWithSlash(path) then path[1..] else path }

  /** The path that survives: none for tcp, otherwise without one leading slash. */
  function KeptPath(a: Address): Option<string> {
    if a.scheme == "tcp" || a.path.None? then None else Some(WithoutSlash(a.path.value))
  }

  /** What the last group of the regular expression matches: something, and no line terminator. */
  predicate Matchable(path: Option<string>) { path.Some? ==> path.value != "" && DotChars(path.value) }

  predicate GoodPath(a: Address) { Matchable(KeptPath(a)) }

  lemma SchemeChars(scheme: string)
    requires KnownScheme(scheme)
    ensures 2 <= |scheme| <= 5 && forall i :: 0 <= i < |scheme| ==> IsLower(scheme[i])
  {}

  lemma {:induction false} ExtentIs(s: string, i: nat, e: nat, p: char -> bool)
    requires i <= e <= |s| && (forall k :: i <= k < e ==> p(s[k])) && (e < |s| ==> !p(s[e]))
    ensures Extent(s, i, p) == e
  {}

  // ---------------------------------------------------------------- matching a URL from the end

  function PathText(path: Option<string>): string { if path.Some? then "/" + path.value else "" }

  function PortText(port: Option<nat>): string { if port.Some? then ":" + Decimal(port.value) else "" }

  lemma PathMatches(s: string, e: nat, path: Option<string>)
    requires e <= |s| && s[e..] == PathText(path)
    requires Matchable(path)
    ensures PathAt(s, e) == Some(path)
  {
    if path.Some? {
      assert s[e] == s[e..][0] == '/';
      assert s[e + 1..] == s[e..][1..] == path.value;
      forall k | e + 1 <= k < |s| ensures IsDot(s[k]) { assert s[k] == s[e + 1..][k - (e + 1)]; }
      ExtentIs(s, e + 1, |s|, IsDot);
      assert s[e + 1..|s|] == path.value;
    } else {
      assert |s[e..]| == 0;
    }
  }

  lemma Cut(s: string, i: nat, a: string, b: string)
    requires i <= |s| && s[i..] == a + b
    ensures i + |a| <= |s| && s[i..i + |a|] == a && s[i + |a|..] == b
  {
    assert s[i..i + |a|] == s[i..][..|a|];
    assert s[i + |a|..] == s[i..][|a|..];
  }

  lemma DigitsMatch(s: string, j: nat, digits: string, path: Option<string>)
    requires j <= |s| && s[j..] == ":" + digits + PathText(path)
    requires digits != "" && AllDigits(digits)
    requires Matchable(path)
    ensures TailAt(s, j) == Some(Tail(Some(digits), path))
  {
    var e := j + 1 + |digits|;
    Cut(s, j, ":" + digits, PathText(path));
    assert s[j] == s[j..e][0] && s[j + 1..e] == s[j..e][1..];
    forall k | j + 1 <= k < e ensures IsDigit(s[k]) { assert s[k] == s[j + 1..e][k - (j + 1)]; }
    if e < |s| { assert s[e] == s[e..][0] == '/'; }
    ExtentIs(s, j + 1, e, IsDigit);
    PathMatches(s, e, path);
    assert PortFrom(s, j, e) == Some(Tail(Some(s[j + 1..e]), path));
  }

  lemma TailMatches(s: string, j: nat, port: Option<nat>, path: Option<string>)
    requires j <= |s| && s[j..] == PortText(port) + PathText(path)
    requires Matchable(path)
    ensures TailAt(s, j) == Some(Tail(if port.Some? then Some(Decimal(port.value)) else None, path))
  {
    if port.None? {
      assert s[j..] == PathText(path);
      if j < |s| { assert s[j] == s[j..][0]; }
      PathMatches(s, j, path);
    } else {
      ParsePrinted(port.value);
      DigitsMatch(s, j, Decimal(port.value), path);
    }
  }

  lemma HostMatches(s: string, i: nat, host: string, port: Option<nat>, path: Option<string>)
    requires i <= |s| && s[i..] == host + PortText(port) + PathText(path)
    requires host != "" && HostChars(host)
    requires Matchable(path)
    ensures HostAt(s, i) == Some(Match(None, host, if port.Some? then Some(Decimal(port.value)) else None, path))
  {
    var j, tail := i + |host|, PortText(port) + PathText(path);
    Associate("", host, PortText(port), PathText(path));
    HostThenTail(s, i, host, tail);
    TailStart(port, path);
    if j < |s| { assert s[j] == s[j..][0]; }
    ExtentIs(s, i, j, IsHost);
    TailMatches(s, j, port, path);
  }

  lemma HostThenTail(s: string, i: nat, host: string, tail: string)
    requires i <= |s| && s[i..] == host + tail && HostChars(host)
    ensures i + |host| <= |s| && s[i..i + |host|] == host && s[i + |host|..] == tail
    ensures forall k :: i <= k < i + |host| ==> IsHost(s[k])
  {
    var j := i + |host|;
    Cut(s, i, host, tail);
    forall k | i <= k < j ensures IsHost(s[k]) { assert s[k] == s[i..j][k - i]; }
  }

  lemma TailStart(port: Option<nat>, path: Option<string>)
    ensures var tail := PortText(port) + PathText(path); tail != "" ==> tail[0] == ':' || tail[0] == '/'
  {}

  function Url(scheme: string, host: string, port: Option<nat>, path: Option<string>): string {
    scheme + "://" + (host + PortText(port) + PathText(path))
  }

  lemma SchemePart(scheme: string, rest: string)
    ensures var s, e := scheme + "://" + rest, |scheme|;
      s[0..e] == scheme && s[e..e + 3] == "://" && s[e] == ':' && s[e + 3..] == rest
  {
    var s, e := scheme + "://" + rest, |scheme|;
    assert s[0..e] == scheme && s[e..e + 3] == "://" && s[e + 3..] == rest;
    assert s[e] == s[e..e + 3][0];
  }

  /** A scheme at the start of the text, with a match behind it, is what the search finds first. */
  lemma SchemeFirst(s: string, e: nat)
    requires 2 <= e <= 5 && e + 3 <= |s| && s[e..e + 3] == "://" && s[e] == ':'
    requires (forall k :: 0 <= k < e ==> IsLower(s[k])) && HostAt(s, e + 3).Some?
    ensures Leftmost(s, 0) == Some(HostAt(s, e + 3).value.(scheme := Some(s[0..e])))
  {
    ExtentIs(s, 0, e, IsLower);
    assert SchemeFrom(s, 0, e) == Some(HostAt(s, e + 3).value.(scheme := Some(s[0..e])));
    assert MatchAt(s, 0) == SchemeFrom(s, 0, e);
  }

  lemma UrlMatches(scheme: string, host: string, port: Option<nat>, path: Option<string>)
    requires KnownScheme(scheme) && host != "" && HostChars(host)
    requires Matchable(path)
    ensures Leftmost(Url(scheme, host, port, path), 0) ==
      Some(Match(Some(scheme), host, if port.Some? then Some(Decimal(port.value)) else None, path))
  {
    var s, e := Url(scheme, host, port, path), |scheme|;
    SchemeChars(scheme);
    SchemePart(scheme, host + PortText(port) + PathText(path));
    HostMatches(s, e + 3, host, port, path);
    SchemeFirst(s, e);
  }

  lemma NotPortOnly(s: string, i: nat)
    requires i < |s| && s[i] == ':'
    ensures !PortOnly(s)
  {
    assert !IsDigit(s[i]);
  }

  lemma Associate(a: string, b: string, c: string, d: string)
    ensures a + b + c + d == a + (b + c + d)
  {}

  lemma DeparseIsUrl(a: Address)
    requires a.scheme != "tcp" && a.path.Some? ==> WithoutSlash(a.path.value) != ""
    ensures DeparseTcpAddress(a) == Url(a.scheme, a.host, if ShowsPort(a) then Some(a.port) else None, KeptPath(a))
  {
    var port := if ShowsPort(a) then Some(a.port) else None;
    var tail := if a.scheme != "tcp" && a.path.Some?
                then (if StartsWithSlash(a.path.value) then "" else "/") + a.path.value else "";
    assert tail == PathText(KeptPath(a));
    Associate(a.scheme + "://", a.host, PortText(port), tail);
  }

  /** The address that should come back. */
  function Kept(a: Address): Address { a.(path := KeptPath(a)) }

  /**
   * Round trip: whatever the defaults, as long as they have no path, a URL parses to the address it
   * was made from. The port is left out of the URL when the scheme implies it, and found again.
   */
  lemma RoundTrip(a: Address, defaults: Address)
    requires KnownScheme(a.scheme) && a.host != "" && HostChars(a.host) && GoodPath(a)
    requires defaults.path == None
    ensures ParseTcpAddress(Text(DeparseTcpAddress(a)), defaults) == Ok(Kept(a))
  {
    var port := if ShowsPort(a) then Some(a.port) else None;
    DeparseIsUrl(a);
    UrlMatches(a.scheme, a.host, port, KeptPath(a));
    var s := DeparseTcpAddress(a);
    assert s[|a.scheme|] == ':';
    NotPortOnly(s, |a.scheme|);
    ParsePrinted(a.port);
  }

  // ---------------------------------------------------------------- what cannot match

  lemma {:induction false} PathMatched(s: string, e: nat, f: nat)
    requires e < f <= |s| && forall k :: e + 1 <= k < f ==> IsDot(s[k])
    ensures Matchable(PathFrom(s, e, f))
    decreases f
  {
    if f > e + 1 { PathMatched(s, e, f - 1); }
  }

  lemma EndMatched(s: string, e: nat)
    requires e <= |s|
    ensures PathAt(s, e).Some? ==> Matchable(PathAt(s, e).value)
  {
    if e < |s| { PathMatched(s, e, Extent(s, e + 1, IsDot)); }
  }

  lemma {:induction false} PortMatched(s: string, j: nat, e: nat)
    requires j < e <= |s|
    ensures PortFrom(s, j, e).Some? ==> Matchable(PortFrom(s, j, e).value.path)
    decreases e
  {
    if e > j + 1 {
      EndMatched(s, e);
      PortMatched(s, j, e - 1);
    }
  }

  predicate GoodHost(host: string) { host != "" && HostChars(host) }

  /** A match has a host, and a path that can be matched, if any. */
  predicate Sound(m: Option<Match>) { m.Some? ==> GoodHost(m.value.host) && Matchable(m.value.path) }

  lemma {:induction false} HostMatched(s: string, i: nat, j: nat)
    requires i <= j <= |s| && forall k :: i <= k < j ==> IsHost(s[k])
    ensures Sound(HostFrom(s, i, j))
    decreases j
  {
    if i < j {
      assert forall k :: 0 <= k < j - i ==> s[i..j][k] == s[i + k];
      EndMatched(s, j);
      if j < |s| { PortMatched(s, j, Extent(s, j + 1, IsDigit)); }
      HostMatched(s, i, j - 1);
    }
  }

  lemma {:induction false} SchemeMatched(s: string, i: nat, e: nat)
    requires i <= e <= |s|
    ensures Sound(SchemeFrom(s, i, e))
    decreases e
  {
    if e >= i + 2 {
      if e + 3 <= |s| { HostMatched(s, e + 3, Extent(s, e + 3, IsHost)); }
      SchemeMatched(s, i, e - 1);
    }
  }

  lemma {:induction false} MatchesAreSound(s: string, i: nat)
    requires i <= |s|
    ensures Sound(Leftmost(s, i))
    decreases |s| - i
  {
    var e := Extent(s, i, IsLower);
    SchemeMatched(s, i, if e > i + 5 then i + 5 else e);
    HostMatched(s, i, Extent(s, i, IsHost));
    if i < |s| { MatchesAreSound(s, i + 1); }
  }

  /**
   * The round trip exactly: it succeeds if and only if the host is not empty, and neither is the
   * path that should survive, nor does it hold a line terminator. A tcp address has no such path.
   */
  lemma RoundTripExactly(a: Address, defaults: Address)
    requires KnownScheme(a.scheme) && HostChars(a.host) && defaults.path == None
    ensures ParseTcpAddress(Text(DeparseTcpAddress(a)), defaults) == Ok(Kept(a)) <==> a.host != "" && GoodPath(a)
  {
    if a.host != "" && GoodPath(a) {
      RoundTrip(a, defaults);
    } else {
      var s := DeparseTcpAddress(a);
      assert s[|a.scheme|] == ':';
      NotPortOnly(s, |a.scheme|);
      MatchesAreSound(s, 0);
    }
  }

  /**
   * Text that was parsed is deparsed to a URL that parses to the same address, its path without a
   * leading slash, unless that path is a slash and nothing else. Then it does not parse at all.
   */
  lemma ParsedRoundTrips(text: string, defaults: Address)
    requires defaults.path == None && ParseTcpAddress(Text(text), defaults).Ok?
    requires KnownScheme(ParseTcpAddress(Text(text), defaults).address.scheme)
    requires PortOnly(text) ==> GoodHost(defaults.host)
    ensures var a := ParseTcpAddress(Text(text), defaults).address;
      && GoodHost(a.host) && Matchable(a.path)
      && ParseTcpAddress(Text(DeparseTcpAddress(a)), defaults) ==
           if a.scheme == "tcp" || a.path != Some("/") then Ok(Kept(a)) else Unparseable
  {
    MatchesAreSound(text, 0);
    MatchedRoundTrips(ParseTcpAddress(Text(text), defaults).address, defaults);
  }

  lemma MatchedRoundTrips(a: Address, defaults: Address)
    requires KnownScheme(a.scheme) && GoodHost(a.host) && Matchable(a.path) && defaults.path == None
    ensures ParseTcpAddress(Text(DeparseTcpAddress(a)), defaults) ==
      if a.scheme == "tcp" || a.path != Some("/") then Ok(Kept(a)) else Unparseable
  {
    if a.scheme == "tcp" || a.path != Some("/") {
      SurvivingPath(a);
      RoundTrip(a, defaults);
    } else {
      BareSlashUrl(a);
      TrailingSlashRejected(a.scheme, a.host, if ShowsPort(a) then Some(a.port) else None, defaults);
    }
  }

  lemma SurvivingPath(a: Address)
    requires Matchable(a.path) && (a.scheme == "tcp" || a.path != Some("/"))
    ensures GoodPath(a)
  {
    if a.path.Some? && StartsWithSlash(a.path.value) && |a.path.value| == 1 { assert a.path.value == "/"; }
  }

  lemma BareSlashUrl(a: Address)
    requires a.scheme != "tcp" && a.path == Some("/")
    ensures DeparseTcpAddress(a) == a.scheme + "://" + a.host + PortText(if ShowsPort(a) then Some(a.port) else None) + "/"
  {}

  /** A path of two slashes is parsed to one slash, and that is where the round trip ends. */
  lemma TwoSlashesDoNotRoundTrip(defaults: Address)
    requires defaults.path == None
    ensures ParseTcpAddress(Text("http://a//"), defaults) == Ok(Address("http", "a", 80, Some("/")))
    ensures ParseTcpAddress(Text(DeparseTcpAddress(Address("http", "a", 80, Some("/")))), defaults) == Unparseable
  {
    UrlMatches("http", "a", None, Some("/"));
    assert Url("http", "a", None, Some("/")) == "http://a//";
    NotPortOnly("http://a//", 4);
    MatchedRoundTrips(Address("http", "a", 80, Some("/")), defaults);
  }

  /** No position behind a character of a host or a port starts a complete path. */
  predicate DeadEnds(s: string) {
    forall e :: 0 < e <= |s| && s[e - 1] != ':' && s[e - 1] != '/' ==> PathAt(s, e) == None
  }

  lemma {:induction false} NoPort(s: string, j: nat, e: nat)
    requires DeadEnds(s) && j < e <= |s| && forall k :: j + 1 <= k < e ==> IsDigit(s[k])
    ensures PortFrom(s, j, e) == None
    decreases e
  {
    if e > j + 1 {
      assert IsDigit(s[e - 1]);
      NoPort(s, j, e - 1);
    }
  }

  lemma {:induction false} NoHost(s: string, i: nat, j: nat)
    requires DeadEnds(s) && i <= j <= |s| && forall k :: i <= k < j ==> IsHost(s[k])
    ensures HostFrom(s, i, j) == None
    decreases j
  {
    if i < j {
      assert IsHost(s[j - 1]);
      if j < |s| && s[j] == ':' { NoPort(s, j, Extent(s, j + 1, IsDigit)); }
      NoHost(s, i, j - 1);
    }
  }

  lemma {:induction false} NoScheme(s: string, i: nat, e: nat)
    requires DeadEnds(s) && i <= e <= |s|
    ensures SchemeFrom(s, i, e) == None
    decreases e
  {
    if e >= i + 2 {
      if e + 3 <= |s| { NoHost(s, e + 3, Extent(s, e + 3, IsHost)); }
      NoScheme(s, i, e - 1);
    }
  }

  lemma {:induction false} NoMatch(s: string, i: nat)
    requires DeadEnds(s) && i <= |s|
    ensures Leftmost(s, i) == None
    decreases |s| - i
  {
    var e := Extent(s, i, IsLower);
    NoScheme(s, i, if e > i + 5 then i + 5 else e);
    NoHost(s, i, Extent(s, i, IsHost));
    if i < |s| { NoMatch(s, i + 1); }
  }

  lemma BareSlashIsDeadEnd(s: string, c: nat)
    requires c + 3 < |s| && s[|s| - 1] == '/' && s[c] == ':' && s[c + 1] == '/'
    requires forall e :: 0 <= e < |s| - 1 && s[e] == '/' ==> e == c + 1 || e == c + 2
    ensures DeadEnds(s)
  {
    forall e | 0 < e <= |s| && s[e - 1] != ':' && s[e - 1] != '/' ensures PathAt(s, e) == None {
      assert e != |s|;
      if s[e] == '/' { assert e == |s| - 1; }
    }
  }

  /** A URL that ends with a bare slash, with or without a port, does not parse. */
  lemma TrailingSlashRejected(scheme: string, host: string, port: Option<nat>, defaults: Address)
    requires KnownScheme(scheme) && HostChars(host)
    ensures ParseTcpAddress(Text(scheme + "://" + host + PortText(port) + "/"), defaults) == Unparseable
  {
    var digits := PortText(port);
    var s, c := scheme + "://" + host + digits + "/", |scheme|;
    SchemeChars(scheme);
    NoSlashInPort(port);
    forall e | 0 <= e < |s| - 1 && e != c + 1 && e != c + 2 ensures s[e] != '/' {
      if e < c { assert IsLower(scheme[e]); }
      if c + 3 <= e < c + 3 + |host| { assert s[e] == host[e - (c + 3)]; }
      if c + 3 + |host| <= e { assert s[e] == digits[e - (c + 3 + |host|)]; }
    }
    BareSlashIsDeadEnd(s, c);
    NotPortOnly(s, c);
    NoMatch(s, 0);
  }

  lemma NoSlashInPort(port: Option<nat>)
    ensures forall k :: 0 <= k < |PortText(port)| ==> PortText(port)[k] != '/'
  {
    if port.Some? {
      ParsePrinted(port.value);
      forall k | 0 < k < |PortText(port)| ensures PortText(port)[k] != '/' {
        assert IsDigit(Decimal(port.value)[k - 1]);
      }
    }
  }
}
