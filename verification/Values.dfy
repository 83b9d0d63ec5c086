/** The values that the executors exchange: JSON documents, and parameters keyed by name. */
module Values {

  datatype Option<+T> = None | Some(value: T)

  /** A JSON value. The entries of an object keep their insertion order, as in JavaScript. */
  datatype Json =
    | Null
    | Bool(b: bool)
    | Num(n: real)
    | Str(s: string)
    | Arr(items: seq<Json>)
    | Obj(entries: seq<Entry>)

  datatype Entry = Entry(key: string, value: Json)

  /** The parameters of a call. A missing key stands for `undefined`. */
  type Params = map<string, Json>

  function Lookup<T>(m: map<string, T>, key: string): Option<T> {
    if key in m then Some(m[key]) else None
  }

  /** `Put(m, key, None)` leaves `key` undefined, whatever it was before. */
  function Put<T>(m: map<string, T>, key: string, value: Option<T>): map<string, T> {
    match value
    case Some(v) => m[key := v]
    case None => m - {key}
  }

  /** The own properties of an object; the last entry with a given key wins. */
  function Fields(entries: seq<Entry>): Params {
    if entries == [] then map[]
    else Fields(entries[..|entries| - 1])[entries[|entries| - 1].key := entries[|entries| - 1].value]
  }

  predicate IsLower(c: char) { 'a' <= c <= 'z' }

  function Digit(d: nat): char
    requires d < 10
  {
    ('0' as int + d) as char
  }

  function Decimal(n: nat): string {
    if n < 10 then [Digit(n)] else Decimal(n / 10) + [Digit(n % 10)]
  }

  predicate IsDigit(c: char) { '0' <= c <= '9' }

  function DigitValue(c: char): nat
    requires IsDigit(c)
  {
    c as int - '0' as int
  }

  predicate AllDigits(s: string) { forall i :: 0 <= i < |s| ==> IsDigit(s[i]) }

  function ParseInt(s: string): nat
    requires AllDigits(s)
  {
    if s == "" then 0 else 10 * ParseInt(s[..|s| - 1]) + DigitValue(s[|s| - 1])
  }

  lemma {:induction false} ParsePrinted(n: nat)
    ensures Decimal(n) != "" && AllDigits(Decimal(n)) && ParseInt(Decimal(n)) == n
  {
    if n >= 10 {
      ParsePrinted(n / 10);
      var d := Decimal(n);
      assert d[..|d| - 1] == Decimal(n / 10);
    } else {
      assert Decimal(n)[..0] == "";
    }
  }

  function Indexed(items: seq<Json>): Params {
    if items == [] then map[]
    else Indexed(items[..|items| - 1])[Decimal(|items| - 1) := items[|items| - 1]]
  }

  lemma {:induction false} IndexedAt(items: seq<Json>, i: nat)
    requires i < |items|
    ensures Decimal(i) in Indexed(items) && Indexed(items)[Decimal(i)] == items[i]
  {
    var n := |items| - 1;
    if i < n {
      IndexedAt(items[..n], i);
      ParsePrinted(i);
      ParsePrinted(n);
    }
  }

  lemma {:induction false} IndexedOf(items: seq<Json>, key: string) returns (i: nat)
    requires key in Indexed(items)
    ensures i < |items| && key == Decimal(i) && Indexed(items)[key] == items[i]
  {
    var n := |items| - 1;
    if key == Decimal(n) { i := n; } else { i := IndexedOf(items[..n], key); }
  }

  /** What `...value` contributes to an object: nothing for null, booleans and numbers. */
  function Spread(value: Json): Params {
    match value
    case Obj(entries) => Fields(entries)
    case Arr(items) => Indexed(items)
    case Str(s) => Indexed(seq(|s|, i requires 0 <= i < |s| => Str([s[i]])))
    case _ => map[]
  }

  function Size(node: Json): nat {
    match node
    case Arr(items) => 1 + SizeSum(items)
    case Obj(entries) => 1 + SizeEntries(entries)
    case _ => 1
  }

  function SizeSum(nodes: seq<Json>): nat {
    if nodes == [] then 0 else 1 + Size(nodes[0]) + SizeSum(nodes[1..])
  }

  function SizeEntries(entries: seq<Entry>): nat {
    if entries == [] then 0 else 1 + Size(entries[0].value) + SizeEntries(entries[1..])
  }

  lemma {:induction false} SizeOfItem(items: seq<Json>, i: nat)
    requires i < |items|
    ensures Size(items[i]) < SizeSum(items)
  {
    if i > 0 { SizeOfItem(items[1..], i - 1); }
  }

  lemma {:induction false} SizeOfEntry(entries: seq<Entry>, i: nat)
    requires i < |entries|
    ensures Size(entries[i].value) < SizeEntries(entries)
  {
    if i > 0 { SizeOfEntry(entries[1..], i - 1); }
  }

  /** The position of the last entry with a key: the one that counts. */
  lemma {:induction false} FieldAt(entries: seq<Entry>, key: string) returns (i: nat)
    requires key in Fields(entries)
    ensures i < |entries| && entries[i].key == key && Fields(entries)[key] == entries[i].value
    ensures forall j :: i < j < |entries| ==> entries[j].key != key
  {
    var n := |entries| - 1;
    if entries[n].key == key { i := n; } else { i := FieldAt(entries[..n], key); }
  }

  lemma {:induction false} HasField(entries: seq<Entry>, i: nat)
    requires i < |entries|
    ensures entries[i].key in Fields(entries)
  {
    var n := |entries| - 1;
    if i < n { HasField(entries[..n], i); }
  }

  lemma FieldIsSmall(entries: seq<Entry>, key: string)
    requires key in Fields(entries)
    ensures Size(Fields(entries)[key]) < SizeEntries(entries)
  {
    var i := FieldAt(entries, key);
    SizeOfEntry(entries, i);
  }

  /** Deep equality: the order of the entries of an object does not matter. */
  predicate Same(a: Json, b: Json)
    decreases Size(a)
  {
    match a
    case Arr(items) =>
      && b.Arr? && |items| == |b.items|
      && forall i :: 0 <= i < |items| ==> (SizeOfItem(items, i); Same(items[i], b.items[i]))
    case Obj(entries) => b.Obj? && SameFields(entries, Fields(b.entries))
    case _ => a == b
  }

  predicate SameFields(entries: seq<Entry>, fields: Params)
    decreases SizeEntries(entries)
  {
    && Fields(entries).Keys == fields.Keys
    && forall key <- fields :: key in Fields(entries) && (FieldIsSmall(entries, key); Same(Fields(entries)[key], fields[key]))
  }
}
