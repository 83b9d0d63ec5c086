/** The JSON Pointer branch of `query` in src/base/Worker.ts. */
module Pointer {
  import opened Values

  /** `s.split('/')`: always at least one part. */
  function Split(s: string): (parts: seq<string>)
    ensures parts != []
  {
    if s == "" then [""]
    else
      var rest := Split(s[1..]);
      if s[0] == '/' then [""] + rest else [[s[0]] + rest[0]] + rest[1..]
  }

  /** `s.replace('~' + code, replacement)`: a string pattern replaces its first occurrence only. */
  function ReplaceFirst(s: string, code: char, replacement: char): string {
    if |s| < 2 then s
    else if s[0] == '~' && s[1] == code then [replacement] + s[2..]
    else [s[0]] + ReplaceFirst(s[1..], code, replacement)
  }

  function Unescape(s: string): string { ReplaceFirst(ReplaceFirst(s, '1', '/'), '0', '~') }

  function UnescapeAll(parts: seq<string>): seq<string> {
    if parts == [] then [] else [Unescape(parts[0])] + UnescapeAll(parts[1..])
  }

  function PathOf(query: string): seq<string> { UnescapeAll(Split(query)) }

  // ---------------------------------------------------------------- tokens

  /** The escaping of a token in section 4 of RFC 6901. */
  function Escape(token: string): string {
    if token == "" then ""
    else
      (match token[0] case '~' => "~0" case '/' => "~1" case c => [c]) + Escape(token[1..])
  }

  function Count(s: string, c: char): nat {
    if s == "" then 0 else (if s[0] == c then 1 else 0) + Count(s[1..], c)
  }

  predicate Tame(token: string) { Count(token, '/') <= 1 && Count(token, '~') <= 1 }

  /** Escaping that may spare the first slash, and the first tilde. */
  function Half(token: string, slash: bool, tilde: bool): string {
    if token == "" then ""
    else if token[0] == '/' then (if slash then "/" else "~1") + Half(token[1..], false, tilde)
    else if token[0] == '~' then (if tilde then "~" else "~0") + Half(token[1..], slash, false)
    else [token[0]] + Half(token[1..], slash, tilde)
  }

  lemma {:induction false} EscapeIsHalf(token: string)
    ensures Half(token, false, false) == Escape(token)
  {
    if token != "" { EscapeIsHalf(token[1..]); }
  }

  lemma ReplaceSkips(c: char, s: string, code: char, replacement: char)
    requires c != '~' || (s != "" && s[0] != code)
    ensures ReplaceFirst([c] + s, code, replacement) == [c] + ReplaceFirst(s, code, replacement)
  {
    assert ([c] + s)[1..] == s;
  }

  lemma ReplaceSkipsTwo(c: char, s: string, code: char, replacement: char)
    requires c != code && c != '~'
    ensures ReplaceFirst(['~', c] + s, code, replacement) == ['~', c] + ReplaceFirst(s, code, replacement)
  {
    assert ['~', c] + s == ['~'] + ([c] + s);
    ReplaceSkips(c, s, code, replacement);
    ReplaceSkips('~', [c] + s, code, replacement);
    assert ['~', c] + ReplaceFirst(s, code, replacement) == ['~'] + ([c] + ReplaceFirst(s, code, replacement));
  }

  lemma ReplaceHits(s: string, code: char, replacement: char)
    ensures ReplaceFirst(['~', code] + s, code, replacement) == [replacement] + s
  {
    assert (['~', code] + s)[2..] == s;
  }

  /** The first replacement spares the first slash. */
  lemma {:induction false} SlashReplaced(token: string)
    ensures ReplaceFirst(Half(token, false, false), '1', '/') == Half(token, true, false)
  {
    if token != "" {
      var rest := Half(token[1..], false, false);
      SlashReplaced(token[1..]);
      if token[0] == '/' {
        ReplaceHits(rest, '1', '/');
      } else if token[0] == '~' {
        ReplaceSkipsTwo('0', rest, '1', '/');
      } else {
        ReplaceSkips(token[0], rest, '1', '/');
      }
    }
  }

  /** The second one spares the first tilde. */
  lemma {:induction false} TildeReplaced(token: string, slash: bool)
    ensures ReplaceFirst(Half(token, slash, false), '0', '~') == Half(token, slash, true)
  {
    if token != "" {
      if token[0] == '/' {
        var rest := Half(token[1..], false, false);
        TildeReplaced(token[1..], false);
        if slash { ReplaceSkips('/', rest, '0', '~'); } else { ReplaceSkipsTwo('1', rest, '0', '~'); }
      } else if token[0] == '~' {
        ReplaceHits(Half(token[1..], slash, false), '0', '~');
      } else {
        TildeReplaced(token[1..], slash);
        ReplaceSkips(token[0], Half(token[1..], slash, false), '0', '~');
      }
    }
  }

  function Excess(n: nat, spared: bool): nat { if spared && n > 0 then n - 1 else n }

  lemma {:induction false} HalfLength(token: string, slash: bool, tilde: bool)
    ensures |Half(token, slash, tilde)| ==
      |token| + Excess(Count(token, '/'), slash) + Excess(Count(token, '~'), tilde)
  {
    if token != "" {
      HalfLength(token[1..], if token[0] == '/' then false else slash, if token[0] == '~' then false else tilde);
    }
  }

  lemma {:induction false} HalfIsToken(token: string, slash: bool, tilde: bool)
    requires Excess(Count(token, '/'), slash) == 0 && Excess(Count(token, '~'), tilde) == 0
    ensures Half(token, slash, tilde) == token
  {
    if token != "" {
      HalfIsToken(token[1..], if token[0] == '/' then false else slash, if token[0] == '~' then false else tilde);
      assert token == [token[0]] + token[1..];
    }
  }

  /** The code's unescaping undoes the standard escaping just for tokens with at most one slash and one tilde. */
  lemma UnescapeUndoesEscape(token: string)
    ensures Unescape(Escape(token)) == token <==> Tame(token)
  {
    EscapeIsHalf(token);
    SlashReplaced(token);
    TildeReplaced(token, true);
    HalfLength(token, true, true);
    if Tame(token) { HalfIsToken(token, true, true); }
  }

  // ---------------------------------------------------------------- pointers

  function Join(tokens: seq<string>): string {
    if tokens == [] then ""
    else if |tokens| == 1 then Escape(tokens[0])
    else Escape(tokens[0]) + "/" + Join(tokens[1..])
  }

  lemma {:induction false} EscapeHasNoSlash(token: string)
    ensures '/' !in Escape(token)
  {
    if token != "" { EscapeHasNoSlash(token[1..]); }
  }

  lemma {:induction false} SplitWord(word: string)
    requires '/' !in word
    ensures Split(word) == [word]
  {
    if word != "" {
      SplitWord(word[1..]);
      assert word == [word[0]] + word[1..];
    }
  }

  lemma {:induction false} SplitAfter(word: string, s: string)
    requires '/' !in word
    ensures Split(word + "/" + s) == [word] + Split(s)
  {
    if word == "" {
      assert word + "/" + s == "/" + s;
      assert ("/" + s)[1..] == s;
    } else {
      SplitAfter(word[1..], s);
      assert (word + "/" + s)[1..] == word[1..] + "/" + s;
      assert word == [word[0]] + word[1..];
    }
  }

  function EscapeAll(tokens: seq<string>): seq<string> {
    if tokens == [] then [] else [Escape(tokens[0])] + EscapeAll(tokens[1..])
  }

  lemma {:induction false} SplitJoined(tokens: seq<string>)
    requires tokens != []
    ensures Split(Join(tokens)) == EscapeAll(tokens)
  {
    EscapeHasNoSlash(tokens[0]);
    if |tokens| == 1 {
      SplitWord(Escape(tokens[0]));
      assert EscapeAll(tokens[1..]) == [];
    } else {
      SplitJoined(tokens[1..]);
      SplitAfter(Escape(tokens[0]), Join(tokens[1..]));
    }
  }

  lemma {:induction false} UnescapeEscaped(tokens: seq<string>)
    ensures UnescapeAll(EscapeAll(tokens)) == tokens <==> forall t <- tokens :: Tame(t)
  {
    if tokens != [] {
      UnescapeEscaped(tokens[1..]);
      UnescapeUndoesEscape(tokens[0]);
      var e := EscapeAll(tokens);
      assert e[1..] == EscapeAll(tokens[1..]);
      assert tokens == [tokens[0]] + tokens[1..];
      var u := UnescapeAll(e);
      assert u[0] == Unescape(Escape(tokens[0])) && u[1..] == UnescapeAll(EscapeAll(tokens[1..]));
    }
  }

  /** The path of a pointer is the list of its tokens if and only if every token is tame. */
  lemma PathIsTokens(tokens: seq<string>)
    requires tokens != []
    ensures PathOf(Join(tokens)) == tokens <==> forall t <- tokens :: Tame(t)
  {
    SplitJoined(tokens);
    UnescapeEscaped(tokens);
  }

  /** A pointer as RFC 6901 writes it, with a leading slash, is looked up from an extra empty key. */
  lemma LeadingSlash(pointer: string)
    ensures PathOf("/" + pointer) == [""] + PathOf(pointer)
  {
    assert ("/" + pointer)[1..] == pointer;
    assert Unescape("") == "";
    assert ([""] + Split(pointer))[1..] == Split(pointer);
  }

  // ---------------------------------------------------------------- querying

  /** Reading a property of null throws. */
  datatype Looked = Found(value: Option<Json>) | TypeError

  /** Reading a property of a value that is not null: own, inherited or computed. */
  type Properties = (Json, string) -> Option<Json>

  /** Looking up the tokens one by one, until there is no value any more. */
  function LookUp(get: Properties, node: Json, tokens: seq<string>): Looked
    decreases |tokens|
  {
    if tokens == [] then Found(Some(node))
    else if node == Null then TypeError
    else
      match get(node, tokens[0])
      case None => Found(None)
      case Some(child) => LookUp(get, child, tokens[1..])
  }

  method Query(get: Properties, node: Json, query: string) returns (r: Looked)
    ensures r == LookUp(get, node, PathOf(query))
  {
    var path := PathOf(query);
    var child := Some(node);
    var i := 0;
    while i < |path| && child.Some?
      invariant 0 <= i <= |path|
      invariant LookUp(get, node, path) == if child.Some? then LookUp(get, child.value, path[i..]) else Found(None)
    {
      if child.value == Null { return TypeError; }
      child := get(child.value, path[i]);
      assert path[i..][1..] == path[i + 1..];
      i := i + 1;
    }
    r := Found(child);
  }

  /** Querying the escaped join of tame tokens is looking the tokens up one by one. */
  lemma QueryLooksUpTokens(get: Properties, node: Json, tokens: seq<string>)
    requires tokens != [] && forall t <- tokens :: Tame(t)
    ensures LookUp(get, node, PathOf(Join(tokens))) == LookUp(get, node, tokens)
  {
    PathIsTokens(tokens);
  }

  /** So a pointer with a leading slash finds nothing in an object without an empty key. */
  lemma LeadingSlashFindsNothing(get: Properties, node: Json, pointer: string)
    requires node != Null && get(node, "") == None
    ensures LookUp(get, node, PathOf("/" + pointer)) == Found(None)
  {
    LeadingSlash(pointer);
  }

  /** One token is one property. */
  lemma LookUpOne(get: Properties, node: Json, token: string)
    ensures LookUp(get, node, []) == Found(Some(node))
    ensures LookUp(get, node, [token]) == if node == Null then TypeError else Found(get(node, token))
  {
    assert [token][1..] == [];
  }

  /** Tokens are looked up one after the other, each in what the ones before it found. */
  lemma {:induction false} LookUpDescends(get: Properties, node: Json, xs: seq<string>, ys: seq<string>)
    ensures LookUp(get, node, xs + ys) ==
      match LookUp(get, node, xs)
      case Found(Some(child)) => LookUp(get, child, ys)
      case ended => ended
    decreases |xs|
  {
    if xs == [] {
      assert xs + ys == ys;
    } else {
      assert (xs + ys)[1..] == xs[1..] + ys;
      if node != Null && get(node, xs[0]).Some? { LookUpDescends(get, get(node, xs[0]).value, xs[1..], ys); }
    }
  }
}
