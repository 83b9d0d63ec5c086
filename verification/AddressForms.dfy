/** The other forms in which an address may be given: numbers, parts, and text without a scheme. */
module AddressForms {
  import opened Values
  import opened Address
  import opened AddressLaws

  /** The port that goes with a scheme when none is given. */
  function PortFor(scheme: string, port: Option<nat>, default: nat): nat {
    match port
    case Some(p) => p
    case None =>
      match scheme
      case "http" => 80
      case "ws" => 80
      case "https" => 443
      case "wss" => 443
      case _ => default
  }

  /** Parts that are given are kept, the others are those of the defaults; a missing port goes with the scheme. */
  lemma PartsAreKept(scheme: Option<string>, host: Option<string>, port: Option<nat>, path: Option<string>, defaults: Address)
    ensures var s := if scheme.Some? then scheme.value else defaults.scheme;
      ParseTcpAddress(Parts(scheme, host, port, path), defaults) ==
        Ok(Address(s, if host.Some? then host.value else defaults.host, PortFor(s, port, defaults.port),
                   if path.Some? then path else defaults.path))
    ensures ParseTcpAddress(Absent, defaults) == ParseTcpAddress(Parts(None, None, None, None), defaults)
    ensures port.Some? ==> ParseTcpAddress(Port(port.value), defaults) == Ok(defaults.(port := port.value))
  {}

  // ---------------------------------------------------------------- text that is a number

  function Power10(k: nat): (p: nat)
    ensures p > 0
  {
    if k == 0 then 1 else 10 * Power10(k - 1)
  }

  lemma {:induction false} DecimalLength(n: nat, k: nat)
    requires k > 0
    ensures |Decimal(n)| <= k <==> n < Power10(k)
    decreases k
  {
    assert Power10(1) == 10;
    if n >= 10 {
      if k == 1 {
        ParsePrinted(n / 10);
      } else {
        DecimalLength(n / 10, k - 1);
      }
    }
  }

  /** The text of a number from 10 to 99999, and of no other, is a port and nothing else. */
  lemma NumberIsPort(n: nat, defaults: Address)
    ensures PortOnly(Decimal(n)) <==> 10 <= n < 100000
    ensures 10 <= n < 100000 ==> ParseTcpAddress(Text(Decimal(n)), defaults) == Ok(defaults.(port := n))
  {
    ParsePrinted(n);
    DecimalLength(n, 1);
    DecimalLength(n, 5);
    assert Power10(2) == 100 && Power10(3) == 1000 && Power10(5) == 100000;
  }

  // ---------------------------------------------------------------- text without a scheme

  /** Where no colon comes before a slash there is no scheme. */
  lemma {:induction false} NoSchemeThere(s: string, i: nat, e: nat)
    requires i <= e <= |s| && forall k :: i <= k <= e && k + 1 < |s| && s[k] == ':' ==> s[k + 1] != '/'
    ensures SchemeFrom(s, i, e) == None
    decreases e
  {
    if e >= i + 2 {
      if e + 3 <= |s| { assert s[e] == s[e..e + 3][0] && s[e + 1] == s[e..e + 3][1]; }
      NoSchemeThere(s, i, e - 1);
    }
  }

  lemma HostStartsText(host: string, port: Option<nat>, path: Option<string>)
    requires GoodHost(host)
    ensures var s := host + PortText(port) + PathText(path);
      && (forall k :: 0 <= k < |host| ==> s[k] == host[k])
      && (forall k :: 0 <= k <= |host| && k + 1 < |s| && s[k] == ':' ==> s[k + 1] != '/')
      && (|host| < |s| ==> !IsLower(s[|host|]))
  {
    if port.Some? { ParsePrinted(port.value); }
  }

  lemma {:induction false} ExtentWithin(s: string, i: nat, n: nat)
    requires i <= n <= |s| && (n < |s| ==> !IsLower(s[n]))
    ensures Extent(s, i, IsLower) <= n
    decreases n - i
  {
    if i < n && IsLower(s[i]) { ExtentWithin(s, i + 1, n); }
  }

  lemma SchemelessMatches(host: string, port: Option<nat>, path: Option<string>)
    requires GoodHost(host) && Matchable(path)
    ensures Leftmost(host + PortText(port) + PathText(path), 0) ==
      Some(Match(None, host, if port.Some? then Some(Decimal(port.value)) else None, path))
  {
    var s := host + PortText(port) + PathText(path);
    HostStartsText(host, port, path);
    assert s[0..] == s;
    ExtentWithin(s, 0, |host|);
    var e := Extent(s, 0, IsLower);
    NoSchemeThere(s, 0, if e > 5 then 5 else e);
    HostMatches(s, 0, host, port, path);
  }

  /** A host, with or without a port and a path, is completed by the defaults. */
  lemma SchemelessParses(host: string, port: Option<nat>, path: Option<string>, defaults: Address)
    requires GoodHost(host) && Matchable(path) && !PortOnly(host + PortText(port) + PathText(path))
    ensures ParseTcpAddress(Text(host + PortText(port) + PathText(path)), defaults) ==
      Ok(Address(defaults.scheme, host, PortFor(defaults.scheme, port, defaults.port),
                 if path.Some? then path else defaults.path))
  {
    SchemelessMatches(host, port, path);
    if port.Some? { ParsePrinted(port.value); }
  }

  // ---------------------------------------------------------------- where the search starts

  /** What no host can start with is skipped. */
  lemma SearchSkips(s: string)
    requires s != "" && !IsHost(s[0])
    ensures Leftmost(s, 0) == Leftmost(s, 1)
  {
    assert !IsLower(s[0]);
    assert Extent(s, 0, IsLower) == 0 && Extent(s, 0, IsHost) == 0;
  }

  lemma {:induction false} NoHostIn(s: string, n: nat, i: nat, j: nat)
    requires i <= j <= n && n + 1 < |s| && s[n] == ':' && s[n + 1] == '/'
    requires forall k :: 0 <= k < n ==> IsLower(s[k])
    ensures HostFrom(s, i, j) == None
    decreases j
  {
    if i < j {
      if j == n { assert Extent(s, n + 1, IsDigit) == n + 1; }
      assert PathAt(s, j) == None;
      NoHostIn(s, n, i, j - 1);
    }
  }

  lemma LettersOnly(s: string, n: nat, i: nat)
    requires i + 5 < n && n + 1 < |s| && s[n] == ':' && s[n + 1] == '/'
    requires forall k :: 0 <= k < n ==> IsLower(s[k])
    ensures Leftmost(s, i) == Leftmost(s, i + 1)
  {
    NoSchemeThere(s, i, i + 5);
    ExtentIs(s, i, n, IsLower);
    ExtentIs(s, i, n, IsHost);
    NoHostIn(s, n, i, n);
  }

  lemma {:induction false} SkipTo(s: string, n: nat, i: nat)
    requires i + 5 <= n && n + 1 < |s| && s[n] == ':' && s[n + 1] == '/'
    requires forall k :: 0 <= k < n ==> IsLower(s[k])
    ensures Leftmost(s, i) == Leftmost(s, n - 5)
    decreases n - i
  {
    if i + 5 < n {
      LettersOnly(s, n, i);
      SkipTo(s, n, i + 1);
    }
  }

  /** A scheme has at most five letters: of a longer one only the last five are taken for it. */
  lemma LongSchemeIsCut(word: string, host: string, port: Option<nat>, path: Option<string>)
    requires |word| >= 5 && (forall k :: 0 <= k < |word| ==> 'a' <= word[k] <= 'z') && GoodHost(host) && Matchable(path)
    ensures Leftmost(Url(word, host, port, path), 0) ==
      Some(Match(Some(word[|word| - 5..]), host, if port.Some? then Some(Decimal(port.value)) else None, path))
  {
    var s, n := Url(word, host, port, path), |word|;
    SchemePart(word, host + PortText(port) + PathText(path));
    assert forall k :: 0 <= k < n ==> s[k] == word[k];
    assert s[n + 1] == s[n..n + 3][1];
    SkipTo(s, n, 0);
    HostMatches(s, n + 3, host, port, path);
    ExtentIs(s, n - 5, n, IsLower);
    assert s[n - 5..n] == word[n - 5..];
    assert SchemeFrom(s, n - 5, n) == Some(HostAt(s, n + 3).value.(scheme := Some(s[n - 5..n])));
  }
}
