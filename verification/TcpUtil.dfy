/** The step-by-step forms of the address functions, and `expandAddress` of src/tcp/util.ts. */
module TcpUtil {
  import opened Values
  import opened Address
  import opened AddressLaws

  method Parse(address: Initializer, defaults: Address) returns (r: Parsed)
    ensures r == ParseTcpAddress(address, defaults)
  {
    var scheme, host, path := defaults.scheme, defaults.host, defaults.path;
    var port: Option<nat> := None;
    match address {
      case Absent =>
      case Port(number) => port := Some(number);
      case Parts(s, h, p, q) =>
        if s.Some? { scheme := s.value; }
        if h.Some? { host := h.value; }
        port := p;
        if q.Some? { path := q; }
      case Text(text) =>
        if PortOnly(text) {
          port := Some(ParseInt(text));
        } else {
          var m := Leftmost(text, 0);
          if m.None? { return Unparseable; }
          PortIsDigits(text, 0);
          if m.value.scheme.Some? { scheme := m.value.scheme.value; }
          host := m.value.host;
          if m.value.port.Some? { port := Some(ParseInt(m.value.port.value)); }
          if m.value.path.Some? { path := m.value.path; }
        }
    }
    if port.None? {
      if scheme == "http" || scheme == "ws" { port := Some(80); }
      else if scheme == "https" || scheme == "wss" { port := Some(443); }
      else { port := Some(defaults.port); }
    }
    r := Ok(Address(scheme, host, port.value, path));
  }

  method Deparse(a: Address) returns (url: string)
    ensures url == DeparseTcpAddress(a)
    ensures KnownScheme(a.scheme) && HostChars(a.host) ==> forall defaults: Address :: defaults.path == None ==>
      (ParseTcpAddress(Text(url), defaults) == Ok(Kept(a)) <==> a.host != "" && GoodPath(a))
  {
    url := a.scheme + "://" + a.host;
    if ShowsPort(a) { url := url + ":" + Decimal(a.port); }
    if a.scheme != "tcp" && a.path.Some? {
      if !StartsWithSlash(a.path.value) { url := url + "/"; }
      url := url + a.path.value;
    }
    assert url == DeparseTcpAddress(a);
    if KnownScheme(a.scheme) && HostChars(a.host) {
      forall defaults: Address | defaults.path == None
        ensures ParseTcpAddress(Text(url), defaults) == Ok(Kept(a)) <==> a.host != "" && GoodPath(a)
      {
        RoundTripExactly(a, defaults);
      }
    }
  }

  // ---------------------------------------------------------------- expandAddress

  /** `parts` groups of digits, separated by dots, and nothing else. */
  predicate Dotted(s: string, parts: nat)
    decreases parts
  {
    var e := Extent(s, 0, IsDigit);
    && parts > 0 && e > 0
    && if parts == 1 then e == |s| else e < |s| && s[e] == '.' && Dotted(s[e + 1..], parts - 1)
  }

  predicate IsLoopback(host: string) { host == "127.0.0.1" || host == "localhost" }

  predicate IsSecure(scheme: string) { scheme == "https" || scheme == "wss" }

  /** The address on this machine or network: there, secure schemes are not used. */
  function Near(a: Address, host: string): Address {
    if a.scheme == "https" then a.(scheme := "http", port := 8000, host := host)
    else if a.scheme == "wss" then a.(scheme := "ws", port := 9000, host := host)
    else a.(host := host)
  }

  /** An IP address, other than the wildcard for any of them. */
  predicate IsIP(host: string) { Dotted(host, 4) && host != "0.0.0.0" }

  /**
   * An address at which the server should be offered: the given one unless it is the wildcard, and
   * beyond this machine also one on it, one on the local network, and one on the global network if
   * the given one is a domain name or the wildcard.
   */
  predicate Reaches(orig: Address, local: string, global: string, a: Address) {
    || (a == orig && orig.host != "0.0.0.0")
    || (!IsLoopback(orig.host) &&
        (|| a == Near(orig, "127.0.0.1")
         || (a == Near(orig, local) && !(IsIP(orig.host) && orig.host == local))
         || (a == orig.(host := global) && !IsIP(orig.host) && orig.host != global)))
  }

  /** These addresses and no others: the given one first, then the global, the local, and this machine's. */
  method Expand(orig: Address, local: string, global: string) returns (addresses: seq<Address>)
    ensures forall a :: a in addresses <==> Reaches(orig, local, global, a)
    ensures addresses != [] && IsLoopback(addresses[|addresses| - 1].host)
    ensures orig.host != "0.0.0.0" ==> addresses[0] == orig
    ensures !IsLoopback(orig.host) ==> addresses[|addresses| - 1] == Near(orig, "127.0.0.1")
    ensures !IsLoopback(orig.host) && !(IsIP(orig.host) && orig.host == local) ==>
      |addresses| > 1 && addresses[|addresses| - 2] == Near(orig, local)
    ensures |addresses| <= 4
  {
    addresses := [];
    if IsLoopback(orig.host) {
      addresses := addresses + [orig];
    } else if IsIP(orig.host) {
      addresses := addresses + [orig];
      if orig.host != local { addresses := addresses + [Near(orig, local)]; }
      addresses := addresses + [Near(orig, "127.0.0.1")];
    } else {
      if orig.host != "0.0.0.0" { addresses := addresses + [orig]; }
      if orig.host != global { addresses := addresses + [orig.(host := global)]; }
      addresses := addresses + [Near(orig, local)];
      addresses := addresses + [Near(orig, "127.0.0.1")];
    }
  }

  /** What the addresses have in common with the given one: everything but host, port, and a secure scheme. */
  lemma ReachesAlike(orig: Address, local: string, global: string, a: Address)
    requires KnownScheme(orig.scheme) && GoodHost(orig.host) && GoodHost(local) && GoodHost(global)
    requires Reaches(orig, local, global, a)
    ensures KnownScheme(a.scheme) && GoodHost(a.host) && a.path == orig.path
    ensures a.scheme == "tcp" <==> orig.scheme == "tcp"
    ensures a == orig || a == orig.(host := global) || !IsSecure(a.scheme)
  {}

  method DeparseAll(addresses: seq<Address>) returns (urls: seq<string>)
    ensures |urls| == |addresses|
    ensures forall i :: 0 <= i < |urls| ==> urls[i] == DeparseTcpAddress(addresses[i])
  {
    urls := [];
    for i := 0 to |addresses|
      invariant |urls| == i
      invariant forall j :: 0 <= j < i ==> urls[j] == DeparseTcpAddress(addresses[j])
    {
      var url := Deparse(addresses[i]);
      urls := urls + [url];
    }
  }

  /**
   * The URLs of those addresses, and no others. Given a known scheme and proper hosts, each parses
   * again to the address it was made from, unless the path was parsed to a bare slash and the scheme
   * is not tcp: then none of them parses. The type of the defaults has no path.
   */
  method ExpandAddress(address: string, defaults: Address, local: string, global: string)
    returns (urls: Option<seq<string>>)
    requires defaults.path == None
    ensures urls.None? <==> ParseTcpAddress(Text(address), defaults).Unparseable?
    ensures urls.Some? ==> forall url :: url in urls.value <==>
      exists a :: Reaches(ParseTcpAddress(Text(address), defaults).address, local, global, a) && url == DeparseTcpAddress(a)
    ensures urls.Some? && GoodHost(local) && GoodHost(global) && (PortOnly(address) ==> GoodHost(defaults.host)) ==>
      var orig := ParseTcpAddress(Text(address), defaults).address;
      KnownScheme(orig.scheme) ==>
        forall a :: Reaches(orig, local, global, a) ==>
          ParseTcpAddress(Text(DeparseTcpAddress(a)), defaults) ==
            if orig.scheme == "tcp" || orig.path != Some("/") then Ok(Kept(a)) else Unparseable
  {
    var parsed := Parse(Text(address), defaults);
    if parsed.Unparseable? { return None; }
    var orig := parsed.address;
    var addresses := Expand(orig, local, global);
    var deparsed := DeparseAll(addresses);
    forall url ensures url in deparsed <==> exists a :: Reaches(orig, local, global, a) && url == DeparseTcpAddress(a) {
      if url in deparsed {
        var i :| 0 <= i < |deparsed| && deparsed[i] == url;
        assert addresses[i] in addresses;
      }
      forall a | Reaches(orig, local, global, a) && url == DeparseTcpAddress(a) ensures url in deparsed {
        var i :| 0 <= i < |addresses| && addresses[i] == a;
        assert deparsed[i] == url;
      }
    }
    if GoodHost(local) && GoodHost(global) && (PortOnly(address) ==> GoodHost(defaults.host)) && KnownScheme(orig.scheme) {
      ParsedRoundTrips(address, defaults);
      forall a | Reaches(orig, local, global, a)
        ensures ParseTcpAddress(Text(DeparseTcpAddress(a)), defaults) ==
          if orig.scheme == "tcp" || orig.path != Some("/") then Ok(Kept(a)) else Unparseable
      {
        ReachesAlike(orig, local, global, a);
        MatchedRoundTrips(a, defaults);
      }
    }
    urls := Some(deparsed);
  }

  // ---------------------------------------------------------------- near addresses, and IP addresses

  function PathPart(path: Option<string>): string {
    match path
    case None => ""
    case Some(p) => if p != "" && p[0] == '/' then p else "/" + p
  }

  /** On this machine and network, secure schemes become plain ones on fixed ports; others stay as they are. */
  lemma NearUrl(a: Address, host: string)
    ensures DeparseTcpAddress(Near(a, host)) ==
      match a.scheme
      case "https" => "http://" + host + ":8000" + PathPart(a.path)
      case "wss" => "ws://" + host + ":9000" + PathPart(a.path)
      case _ => DeparseTcpAddress(a.(host := host))
  {
    FixedPorts();
  }

  lemma FixedPorts()
    ensures Decimal(8000) == "8000" && Decimal(9000) == "9000"
  {
    Printed(80, "8", '0');
    Printed(800, "80", '0');
    Printed(8000, "800", '0');
    Printed(90, "9", '0');
    Printed(900, "90", '0');
    Printed(9000, "900", '0');
  }

  lemma Printed(n: nat, init: string, last: char)
    requires n >= 10 && Decimal(n / 10) == init && Digit(n % 10) == last
    ensures Decimal(n) == init + [last]
  {}

  predicate Digits(s: string) { s != "" && AllDigits(s) }

  lemma DottedJoin(d: string, rest: string, parts: nat)
    requires Digits(d) && parts > 0
    ensures Dotted(d, 1) && (Dotted(d + "." + rest, parts + 1) <==> Dotted(rest, parts))
  {
    var s := d + "." + rest;
    assert s[|d|] == '.';
    ExtentIs(s, 0, |d|, IsDigit);
    ExtentIs(d, 0, |d|, IsDigit);
    assert s[|d| + 1..] == rest;
  }

  lemma DottedSplit(s: string, parts: nat) returns (d: string)
    requires Dotted(s, parts)
    ensures Digits(d)
    ensures if parts == 1 then s == d else |d| < |s| && s == d + "." + s[|d| + 1..] && Dotted(s[|d| + 1..], parts - 1)
  {
    var e := Extent(s, 0, IsDigit);
    d := s[..e];
    if parts == 1 { assert s == d; } else { assert s == s[..e] + [s[e]] + s[e + 1..]; }
  }

  lemma FourGroups(a: string, b: string, c: string, d: string)
    requires Digits(a) && Digits(b) && Digits(c) && Digits(d)
    ensures var s := a + "." + (b + "." + (c + "." + d)); IsIP(s) <==> s != "0.0.0.0"
  {
    DottedJoin(d, "", 1);
    DottedJoin(c, d, 1);
    DottedJoin(b, c + "." + d, 2);
    DottedJoin(a, b + "." + (c + "." + d), 3);
  }

  /** An IP address is four groups of digits, separated by dots. */
  lemma IPIsFour(s: string) returns (a: string, b: string, c: string, d: string)
    requires IsIP(s)
    ensures s != "0.0.0.0"
    ensures Digits(a) && Digits(b) && Digits(c) && Digits(d) && s == a + "." + (b + "." + (c + "." + d))
  {
    a := DottedSplit(s, 4);
    var s1 := s[|a| + 1..];
    b := DottedSplit(s1, 3);
    var s2 := s1[|b| + 1..];
    c := DottedSplit(s2, 2);
    d := DottedSplit(s2[|c| + 1..], 1);
  }
}
