/** Parsing and deparsing of TCP, HTTP and WebSocket addresses: src/base/Transports.ts. */
module Address {
  import opened Values

  datatype Address = Address(scheme: string, host: string, port: nat, path: Option<string>)

  /** What an address may be given as. A missing part is None. */
  datatype Initializer =
    | Absent
    | Port(number: nat)
    | Text(text: string)
    | Parts(scheme: Option<string>, host: Option<string>, port: Option<nat>, path: Option<string>)

  // ---------------------------------------------------------------- the regular expression

  predicate IsHost(c: char) { c != ':' && c != '/' }

  /** What a dot matches: any character but a line terminator. */
  predicate IsDot(c: char) { c != '\n' && c != '\r' && c != '\U{2028}' && c != '\U{2029}' }

  /** The captured groups. */
  datatype Match = Match(scheme: Option<string>, host: string, port: Option<string>, path: Option<string>)

  datatype Tail = Tail(port: Option<string>, path: Option<string>)

  /** The end of the longest run of such characters that starts at `i`: how far a greedy repetition goes. */
  function Extent(s: string, i: nat, p: char -> bool): (e: nat)
    requires i <= |s|
    ensures i <= e <= |s| && (forall k :: i <= k < e ==> p(s[k])) && (e < |s| ==> !p(s[e]))
    decreases |s| - i
  {
    if i < |s| && p(s[i]) then Extent(s, i + 1, p) else i
  }

  /**
   * The regular expression is matched by backtracking, as JavaScript does: a repetition first goes
   * as far as it can and then gives up one character at a time, and an optional group is tried
   * before it is skipped. Each function below matches the rest of the expression from one of its
   * parts on; the `From` functions do the giving up. This one matches `(\/(.+))?$`.
   */
  function PathAt(s: string, e: nat): Option<Option<string>>
    requires e <= |s|
  {
    var path := if e < |s| && s[e] == '/' then PathFrom(s, e, Extent(s, e + 1, IsDot)) else None;
    if path.Some? then Some(path) else if e == |s| then Some(None) else None
  }

  function PathFrom(s: string, e: nat, f: nat): Option<string>
    requires e < f <= |s|
    decreases f
  {
    if f == e + 1 then None
    else if f == |s| then Some(s[e + 1..f])
    else PathFrom(s, e, f - 1)
  }

  /** Matches `(:(\d+))?` and what follows it. */
  function TailAt(s: string, j: nat): Option<Tail>
    requires j <= |s|
  {
    var ported := if j < |s| && s[j] == ':' then PortFrom(s, j, Extent(s, j + 1, IsDigit)) else None;
    if ported.Some? then ported
    else
      match PathAt(s, j)
      case Some(path) => Some(Tail(None, path))
      case None => None
  }

  function PortFrom(s: string, j: nat, e: nat): Option<Tail>
    requires j < e <= |s|
    decreases e
  {
    if e == j + 1 then None
    else
      match PathAt(s, e)
      case Some(path) => Some(Tail(Some(s[j + 1..e]), path))
      case None => PortFrom(s, j, e - 1)
  }

  /** Matches `([^:/]+)` and what follows it. */
  function HostAt(s: string, i: nat): Option<Match>
    requires i <= |s|
  {
    HostFrom(s, i, Extent(s, i, IsHost))
  }

  function HostFrom(s: string, i: nat, j: nat): Option<Match>
    requires i <= j <= |s|
    decreases j
  {
    if i == j then None
    else
      match TailAt(s, j)
      case Some(Tail(port, path)) => Some(Match(None, s[i..j], port, path))
      case None => HostFrom(s, i, j - 1)
  }

  /** Matches `(([a-z]{2,5}):\/\/)?` and what follows it. */
  function MatchAt(s: string, i: nat): Option<Match>
    requires i <= |s|
  {
    var e := Extent(s, i, IsLower);
    var schemed := SchemeFrom(s, i, if e > i + 5 then i + 5 else e);
    if schemed.Some? then schemed else HostAt(s, i)
  }

  function SchemeFrom(s: string, i: nat, e: nat): Option<Match>
    requires i <= e <= |s|
    decreases e
  {
    if e < i + 2 then None
    else
      var m := if e + 3 <= |s| && s[e..e + 3] == "://" then HostAt(s, e + 3) else None;
      match m
      case Some(Match(_, host, port, path)) => Some(Match(Some(s[i..e]), host, port, path))
      case None => SchemeFrom(s, i, e - 1)
  }

  /** The expression is not anchored at its start: the leftmost match counts. */
  function Leftmost(s: string, i: nat): Option<Match>
    requires i <= |s|
    decreases |s| - i
  {
    var m := MatchAt(s, i);
    if m.Some? then m else if i < |s| then Leftmost(s, i + 1) else None
  }

  // ---------------------------------------------------------------- parse and deparse

  datatype Parsed = Ok(address: Address) | Unparseable

  predicate PortOnly(s: string) { 2 <= |s| <= 5 && AllDigits(s) }

  function DefaultPort(scheme: string, port: Option<nat>, default: nat): nat {
    if port.Some? then port.value
    else if scheme == "http" || scheme == "ws" then 80
    else if scheme == "https" || scheme == "wss" then 443
    else default
  }

  function Or<T>(o: Option<T>, default: T): T { if o.Some? then o.value else default }

  function OrElse<T>(o: Option<T>, other: Option<T>): Option<T> { if o.Some? then o else other }

  lemma PortIsDigits(s: string, i: nat)
    requires i <= |s|
    ensures Leftmost(s, i).Some? && Leftmost(s, i).value.port.Some? ==> AllDigits(Leftmost(s, i).value.port.value)
    decreases |s| - i
  {
    var e := Extent(s, i, IsLower);
    SchemePort(s, i, if e > i + 5 then i + 5 else e);
    HostPort(s, i, Extent(s, i, IsHost));
    if i < |s| { PortIsDigits(s, i + 1); }
  }

  lemma HostPort(s: string, i: nat, j: nat)
    requires i <= j <= |s|
    ensures var m := HostFrom(s, i, j); m.Some? && m.value.port.Some? ==> AllDigits(m.value.port.value)
    decreases j
  {
    if i < j {
      if j < |s| && s[j] == ':' { TailPort(s, j, Extent(s, j + 1, IsDigit)); }
      HostPort(s, i, j - 1);
    }
  }

  lemma TailPort(s: string, j: nat, e: nat)
    requires j < e <= |s| && forall k :: j + 1 <= k < e ==> IsDigit(s[k])
    ensures var t := PortFrom(s, j, e); t.Some? && t.value.port.Some? ==> AllDigits(t.value.port.value)
    decreases e
  {
    if e > j + 1 { TailPort(s, j, e - 1); }
  }

  lemma SchemePort(s: string, i: nat, e: nat)
    requires i <= e <= |s|
    ensures var m := SchemeFrom(s, i, e); m.Some? && m.value.port.Some? ==> AllDigits(m.value.port.value)
    decreases e
  {
    if e >= i + 2 {
      if e + 3 <= |s| { HostPort(s, e + 3, Extent(s, e + 3, IsHost)); }
      SchemePort(s, i, e - 1);
    }
  }

  function ParseTcpAddress(address: Initializer, defaults: Address): Parsed {
    match address
    case Absent => Ok(defaults.(port := DefaultPort(defaults.scheme, None, defaults.port)))
    case Port(n) => Ok(defaults.(port := n))
    case Parts(scheme, host, port, path) =>
      var scheme := Or(scheme, defaults.scheme);
      Ok(Address(scheme, Or(host, defaults.host), DefaultPort(scheme, port, defaults.port),
                 OrElse(path, defaults.path)))
    case Text(text) =>
      if PortOnly(text) then Ok(defaults.(port := ParseInt(text)))
      else
        match Leftmost(text, 0)
        case None => Unparseable
        case Some(Match(scheme, host, digits, path)) =>
          PortIsDigits(text, 0);
          var scheme := Or(scheme, defaults.scheme);
          var port := if digits.Some? then Some(ParseInt(digits.value)) else None;
          Ok(Address(scheme, host, DefaultPort(scheme, port, defaults.port), OrElse(path, defaults.path)))
  }

  predicate ShowsPort(a: Address) {
    || a.scheme == "tcp"
    || ((a.scheme == "http" || a.scheme == "ws") && a.port != 80)
    || ((a.scheme == "https" || a.scheme == "wss") && a.port != 443)
  }

  predicate StartsWithSlash(path: string) { path != "" && path[0] == '/' }

  function DeparseTcpAddress(a: Address): string {
    a.scheme + "://" + a.host
    + (if ShowsPort(a) then ":" + Decimal(a.port) else "")
    + (if a.scheme != "tcp" && a.path.Some?
       then (if StartsWithSlash(a.path.value) then "" else "/") + a.path.value
       else "")
  }
}
