/** The sortable identifiers of src/base/uid.ts. */
module Uid {
  import opened Values
  import opened Arithmetic

  const EPOCH: int := 1500000000000

  const TIME_DIGITS := 10

  /** The first time whose hexadecimal form has more than ten digits. */
  const BOUND: nat := 0x100_0000_0000

  predicate IsHex(c: char) { '0' <= c <= '9' || 'a' <= c <= 'f' }

  function HexDigit(d: nat): char
    requires d < 16
    ensures IsHex(HexDigit(d))
  {
    if d < 10 then ('0' as int + d) as char else ('a' as int + d - 10) as char
  }

  /** `n.toString(16)` for a time that is not before the epoch. */
  function Hex(n: nat): string {
    if n < 16 then [HexDigit(n)] else Hex(n / 16) + [HexDigit(n % 16)]
  }

  function HexOf(n: int): string { if n < 0 then "-" + Hex(-n) else Hex(n) }

  function Zeros(n: nat): string { if n == 0 then "" else "0" + Zeros(n - 1) }

  function PadStart(s: string, width: nat): string {
    if |s| >= width then s else Zeros(width - |s|) + s
  }

  function Family(code: string): string {
    if |code| == 2 then code
    else if |code| == 0 then "uu"
    else if |code| == 1 then code + code
    else code[..2]
  }

  /** The value of an identifier generated at a time in milliseconds, with that random part. */
  function Generate(code: string, now: int, rand: string): string {
    Family(code) + "." + PadStart(HexOf(now - EPOCH), TIME_DIGITS) + "." + rand
  }

  // ---------------------------------------------------------------- parse

  predicate IsAlphanumeric(c: char) { '0' <= c <= '9' || 'A' <= c <= 'Z' || 'a' <= c <= 'z' }

  function HexValue(c: char): nat
    requires IsHex(c)
  {
    if c <= '9' then c as int - '0' as int else c as int - 'a' as int + 10
  }

  predicate AllHex(s: string) { forall i :: 0 <= i < |s| ==> IsHex(s[i]) }

  function ParseHex(s: string): nat
    requires AllHex(s)
  {
    if s == "" then 0 else 16 * ParseHex(s[..|s| - 1]) + HexValue(s[|s| - 1])
  }

  datatype Parts = Parts(family: string, time: int, rand: string)

  /** Two letters, eight hexadecimal digits and twenty alphanumerics, separated by dots. */
  predicate Matches(id: string) {
    && |id| == 32 && id[2] == '.' && id[11] == '.'
    && (forall i :: 0 <= i < 2 ==> IsLower(id[i]))
    && (forall i :: 3 <= i < 11 ==> IsHex(id[i]))
    && (forall i :: 12 <= i < 32 ==> IsAlphanumeric(id[i]))
  }

  function Parse(id: string): Option<Parts> {
    if Matches(id) then
      assert forall i :: 0 <= i < 8 ==> id[3..11][i] == id[i + 3];
      Some(Parts(id[..2], ParseHex(id[3..11]) + EPOCH, id[12..]))
    else None
  }

  // ---------------------------------------------------------------- hexadecimal numbers

  lemma {:induction false} ZerosAll(n: nat)
    ensures |Zeros(n)| == n && forall i :: 0 <= i < n ==> Zeros(n)[i] == '0'
  {
    if n > 0 { ZerosAll(n - 1); }
  }

  function Power16(k: nat): nat
    ensures Power16(k) > 0
  {
    if k == 0 then 1 else 16 * Power16(k - 1)
  }

  lemma {:induction false} HexLaw(n: nat)
    ensures Hex(n) != "" && AllHex(Hex(n)) && ParseHex(Hex(n)) == n
  {
    if n >= 16 {
      HexLaw(n / 16);
      var h := Hex(n);
      assert h[..|h| - 1] == Hex(n / 16);
    } else {
      assert Hex(n)[..0] == "";
    }
  }

  lemma {:induction false} HexLength(n: nat, k: nat)
    requires k > 0 && n < Power16(k)
    ensures |Hex(n)| <= k
  {
    assert Power16(1) == 16;
    if n >= 16 { HexLength(n / 16, k - 1); }
  }

  lemma {:induction false} ParseZeros(n: nat, s: string)
    requires AllHex(s)
    ensures AllHex(Zeros(n) + s) && ParseHex(Zeros(n) + s) == ParseHex(s)
    decreases n + |s|
  {
    ZerosAll(n);
    if s == "" {
      assert Zeros(n) + s == Zeros(n);
      if n > 0 {
        ParseZeros(n - 1, "");
        assert Zeros(n)[..n - 1] == Zeros(n - 1) + "" by { ZerosAll(n - 1); }
      }
    } else {
      var t := Zeros(n) + s;
      ParseZeros(n, s[..|s| - 1]);
      assert t[..|t| - 1] == Zeros(n) + s[..|s| - 1];
    }
  }

  /** `k` digits are enough for a number below 16^k: padding gives exactly `k`, with the same value. */
  lemma PaddedHex(n: nat, k: nat)
    requires k > 0 && n < Power16(k)
    ensures var p := PadStart(Hex(n), k); |p| == k && AllHex(p) && ParseHex(p) == n
  {
    HexLaw(n);
    HexLength(n, k);
    ZerosAll(k - |Hex(n)|);
    ParseZeros(k - |Hex(n)|, Hex(n));
  }

  // ---------------------------------------------------------------- order

  /** Strings compare by their first difference; a proper prefix comes first. */
  predicate Less(a: string, b: string) {
    exists k :: 0 <= k <= |a| && k < |b| && a[..k] == b[..k] && (k == |a| || a[k] < b[k])
  }

  /** Among hexadecimal numbers of one length the smaller comes first. */
  lemma {:induction false} HexOrder(a: string, b: string) returns (k: nat)
    requires AllHex(a) && AllHex(b) && |a| == |b| && ParseHex(a) < ParseHex(b)
    ensures k < |a| && a[..k] == b[..k] && a[k] < b[k]
  {
    var n := |a| - 1;
    assert HexValue(a[n]) < 16 && HexValue(b[n]) < 16;
    if ParseHex(a[..n]) == ParseHex(b[..n]) {
      k := n;
      SameNumber(a[..n], b[..n]);
    } else {
      k := HexOrder(a[..n], b[..n]);
      assert a[..k] == a[..n][..k] && b[..k] == b[..n][..k];
    }
  }

  lemma {:induction false} SameNumber(a: string, b: string)
    requires AllHex(a) && AllHex(b) && |a| == |b| && ParseHex(a) == ParseHex(b)
    ensures a == b
  {
    if a != "" {
      var n := |a| - 1;
      assert HexValue(a[n]) < 16 && HexValue(b[n]) < 16;
      assert ParseHex(a[..n]) == ParseHex(b[..n]) && HexValue(a[n]) == HexValue(b[n]);
      SameNumber(a[..n], b[..n]);
      assert a == a[..n] + [a[n]];
      assert b == b[..n] + [b[n]];
    }
  }

  lemma TenDigits()
    ensures Power16(TIME_DIGITS) == BOUND
  {
    assert Power16(2) == 256;
    assert Power16(4) == 0x1_0000;
    assert Power16(6) == 0x100_0000;
    assert Power16(8) == 0x1_0000_0000;
  }

  lemma LessInside(f: string, a: string, b: string, u: string, v: string, k: nat)
    requires k < |a| && k < |b| && a[..k] == b[..k] && a[k] < b[k]
    ensures Less(f + a + u, f + b + v)
  {
    var x, y, m := f + a + u, f + b + v, |f| + k;
    assert x[..m] == f + a[..k] && y[..m] == f + b[..k];
    assert x[m] == a[k] && y[m] == b[k];
  }

  /** The time as it is written in an identifier. */
  function Padded(t: nat): string { PadStart(Hex(t), TIME_DIGITS) }

  lemma PaddedLaw(t: nat)
    ensures |Padded(t)| >= TIME_DIGITS && |Padded(t)| >= |Hex(t)| && AllHex(Padded(t)) && ParseHex(Padded(t)) == t
    ensures |Padded(t)| == if |Hex(t)| < TIME_DIGITS then TIME_DIGITS else |Hex(t)|
  {
    HexLaw(t);
    if |Hex(t)| < TIME_DIGITS {
      ZerosAll(TIME_DIGITS - |Hex(t)|);
      ParseZeros(TIME_DIGITS - |Hex(t)|, Hex(t));
    }
  }

  lemma {:induction false} HexGrows(t1: nat, t2: nat)
    requires t1 <= t2
    ensures |Hex(t1)| <= |Hex(t2)|
    decreases t2
  {
    HexLaw(t1);
    if t1 >= 16 { HexGrows(t1 / 16, t2 / 16); }
  }

  /** Dropping digits is dividing. */
  lemma {:induction false} PrefixDivides(s: string, k: nat)
    requires AllHex(s) && k <= |s|
    ensures ParseHex(s[..|s| - k]) == ParseHex(s) / Power16(k)
    decreases k
  {
    var n := |s|;
    if k == 0 {
      assert s[..n] == s;
    } else {
      var init := s[..n - 1];
      PrefixDivides(init, k - 1);
      assert init[..n - 1 - (k - 1)] == s[..n - k];
      DivideUnique(ParseHex(s), 16, ParseHex(init), HexValue(s[n - 1]));
      DivideTwice(ParseHex(s), 16, Power16(k - 1));
    }
  }

  function Id(f: string, time: string, rand: string): string { f + time + ("." + rand) }

  lemma IdIsGenerated(code: string, t: nat, rand: string)
    ensures Generate(code, EPOCH + t, rand) == Id(Family(code) + ".", Padded(t), rand)
  {}

  lemma SameLengthSorts(f: string, t1: nat, t2: nat, rand1: string, rand2: string)
    requires t1 < t2 && |Padded(t1)| == |Padded(t2)|
    ensures Less(Id(f, Padded(t1), rand1), Id(f, Padded(t2), rand2))
  {
    PaddedLaw(t1);
    PaddedLaw(t2);
    var k := HexOrder(Padded(t1), Padded(t2));
    LessInside(f, Padded(t1), Padded(t2), "." + rand1, "." + rand2, k);
  }

  lemma LeadingSmaller(f: string, a: string, b: string, u: string, v: string, k: nat)
    requires |a| < |b| && k < |a| && a[..k] == b[..|a|][..k] && a[k] < b[..|a|][k]
    ensures Less(f + a + u, f + b + v)
  {
    assert b[..|a|][..k] == b[..k];
    LessInside(f, a, b, u, v, k);
  }

  /** After equal leading digits a dot is compared with a digit, and comes first. */
  lemma LeadingEqual(f: string, a: string, b: string, u: string, v: string)
    requires AllHex(b) && |a| < |b| && a == b[..|a|]
    ensures Less(f + a + ("." + u), f + b + v)
  {
    assert (a + ".")[..|a|] == a;
    assert f + a + ("." + u) == f + (a + ".") + u;
    assert IsHex(b[|a|]);
    LessInside(f, a + ".", b, u, v, |a|);
  }

  lemma LeadingGreater(f: string, a: string, b: string, u: string, v: string, k: nat)
    requires |a| < |b| && k < |a| && b[..|a|][..k] == a[..k] && b[..|a|][k] < a[k]
    ensures !Less(f + a + u, f + b + v)
  {
    var x, y, m := f + a + u, f + b + v, |f| + k;
    assert b[..|a|][..k] == b[..k];
    assert x[..m] == f + a[..k] && y[..m] == f + b[..k];
    assert x[m] == a[k] && y[m] == b[k];
    Greater(x, y, m);
  }

  /** A longer number sorts behind a shorter one just if its leading digits are not smaller. */
  lemma LongerSorts(f: string, a: string, b: string, rand1: string, rand2: string)
    requires AllHex(a) && AllHex(b) && |a| < |b|
    ensures Less(Id(f, a, rand1), Id(f, b, rand2)) <==> ParseHex(a) <= ParseHex(b[..|a|])
  {
    var b' := b[..|a|];
    if ParseHex(a) < ParseHex(b') {
      var k := HexOrder(a, b');
      LeadingSmaller(f, a, b, "." + rand1, "." + rand2, k);
    } else if ParseHex(a) == ParseHex(b') {
      SameNumber(a, b');
      LeadingEqual(f, a, b, rand1, "." + rand2);
    } else {
      var k := HexOrder(b', a);
      LeadingGreater(f, a, b, "." + rand1, "." + rand2, k);
    }
  }

  /**
   * Identifiers of one family sort by time, whatever their random parts, if and only if their times
   * are written with equally many digits, or the longer one does not start with a smaller number.
   */
  lemma IdsSortExactly(code: string, t1: nat, t2: nat, rand1: string, rand2: string)
    requires t1 < t2
    ensures |Padded(t1)| <= |Padded(t2)|
    ensures Less(Generate(code, EPOCH + t1, rand1), Generate(code, EPOCH + t2, rand2)) <==>
      |Padded(t1)| == |Padded(t2)| || t1 <= t2 / Power16(|Padded(t2)| - |Padded(t1)|)
  {
    var f, a, b := Family(code) + ".", Padded(t1), Padded(t2);
    IdIsGenerated(code, t1, rand1);
    IdIsGenerated(code, t2, rand2);
    PaddedLaw(t1);
    PaddedLaw(t2);
    HexGrows(t1, t2);
    if |a| == |b| {
      SameLengthSorts(f, t1, t2, rand1, rand2);
    } else {
      LongerSorts(f, a, b, rand1, rand2);
      PrefixDivides(b, |b| - |a|);
    }
  }

  /** Below the bound they always do: there all times are written with ten digits. */
  lemma IdsSortByTime(code: string, t1: nat, t2: nat, rand1: string, rand2: string)
    requires t1 < t2 < BOUND
    ensures Less(Generate(code, EPOCH + t1, rand1), Generate(code, EPOCH + t2, rand2))
  {
    TenDigits();
    PaddedHex(t1, TIME_DIGITS);
    PaddedHex(t2, TIME_DIGITS);
    IdsSortExactly(code, t1, t2, rand1, rand2);
  }

  /** The bound is tight: at the bound an eleventh digit appears, and the order is reversed. */
  lemma OrderFailsAtBound(code: string, rand1: string, rand2: string)
    ensures Less(Generate(code, EPOCH + BOUND, rand2), Generate(code, EPOCH + BOUND - 1, rand1))
    ensures !Less(Generate(code, EPOCH + BOUND - 1, rand1), Generate(code, EPOCH + BOUND, rand2))
  {
    LastBelowBound();
    FirstAtBound();
    var a, b := Hex(BOUND - 1), Hex(BOUND);
    var f := Family(code) + ".";
    var x, y := Generate(code, EPOCH + BOUND - 1, rand1), Generate(code, EPOCH + BOUND, rand2);
    PadLong(a);
    PadLong(b);
    assert x == f + a + "." + rand1 && y == f + b + "." + rand2;
    assert x[..|f|] == f && y[..|f|] == f;
    assert x[|f|] == a[0] && y[|f|] == b[0];
    Greater(x, y, |f|);
  }

  lemma Greater(x: string, y: string, m: nat)
    requires m < |x| && m < |y| && x[..m] == y[..m] && y[m] < x[m]
    ensures !Less(x, y)
  {
    forall k | m < k <= |x| && k < |y| ensures x[..k] != y[..k] {
      assert x[..k][m] != y[..k][m];
    }
    forall k | 0 <= k < m ensures x[k] == y[k] {
      assert x[..m][k] == y[..m][k];
    }
  }

  lemma PadLong(s: string)
    requires |s| >= TIME_DIGITS
    ensures PadStart(s, TIME_DIGITS) == s
  {}

  lemma {:induction false} AllOnes(k: nat)
    requires k > 0
    ensures Hex(Power16(k) - 1) != "" && Hex(Power16(k) - 1)[0] == 'f' && |Hex(Power16(k) - 1)| == k
  {
    if k > 1 {
      AllOnes(k - 1);
      var n := Power16(k) - 1;
      assert n / 16 == Power16(k - 1) - 1;
    } else {
      assert Power16(1) == 16;
    }
  }

  lemma {:induction false} OneAndZeros(k: nat)
    ensures Hex(Power16(k)) != "" && Hex(Power16(k))[0] == '1' && |Hex(Power16(k))| == k + 1
  {
    if k > 0 {
      OneAndZeros(k - 1);
      assert Power16(k) / 16 == Power16(k - 1);
    }
  }

  lemma LastBelowBound()
    ensures |Hex(BOUND - 1)| == TIME_DIGITS && Hex(BOUND - 1)[0] == 'f'
  {
    TenDigits();
    AllOnes(TIME_DIGITS);
  }

  lemma FirstAtBound()
    ensures |Hex(BOUND)| == TIME_DIGITS + 1 && Hex(BOUND)[0] == '1'
  {
    TenDigits();
    OneAndZeros(TIME_DIGITS);
  }

  // ---------------------------------------------------------------- parse against generate

  /** The characters of a random part. */
  predicate LetterOrDigit(c: char) { ('0' <= c && c <= '9') || ('a' <= c && c <= 'z') || ('A' <= c && c <= 'Z') }

  /** `parse` inverts the form with eight digits that it expects. */
  lemma ParseInvertsEightDigits(family: string, t: nat, rand: string)
    requires |family| == 2 && (forall i :: 0 <= i < 2 ==> 'a' <= family[i] <= 'z')
    requires |rand| == 20 && (forall i :: 0 <= i < 20 ==> LetterOrDigit(rand[i]))
    requires t < Power16(8)
    ensures Parse(family + "." + PadStart(Hex(t), 8) + "." + rand) == Some(Parts(family, t + 1500000000000, rand))
  {
    var h := PadStart(Hex(t), 8);
    PaddedHex(t, 8);
    Slices(family, h, rand);
  }

  /** What `parse` accepts is the form it inverts, and nothing else. */
  lemma ParseIsExact(id: string)
    requires Parse(id).Some?
    ensures var p := Parse(id).value; var t := p.time - 1500000000000;
      && 0 <= t < Power16(8) && |p.family| == 2 && |p.rand| == 20
      && (forall i :: 0 <= i < 2 ==> 'a' <= p.family[i] <= 'z')
      && (forall i :: 0 <= i < 20 ==> LetterOrDigit(p.rand[i]))
      && id == p.family + "." + PadStart(Hex(t), 8) + "." + p.rand
  {
    var p, h := Parse(id).value, id[3..11];
    var t := p.time - EPOCH;
    assert forall i :: 0 <= i < 8 ==> h[i] == id[i + 3];
    HexBound(h);
    PaddedHex(t, 8);
    SameNumber(h, PadStart(Hex(t), 8));
    assert id == id[..2] + [id[2]] + id[3..11] + [id[11]] + id[12..];
  }

  lemma {:induction false} HexBound(s: string)
    requires AllHex(s)
    ensures ParseHex(s) < Power16(|s|)
  {
    if s != "" { HexBound(s[..|s| - 1]); }
  }

  /** An identifier starts with its two-letter family, and a dot; other codes are cut, doubled, or unknown. */
  lemma FamilyComesFirst(code: string, now: int, rand: string)
    ensures var id := Generate(code, now, rand);
      && |id| > 3 && id[2] == '.'
      && (|code| >= 2 ==> id[..2] == code[..2])
      && (|code| == 1 ==> id[..2] == code + code)
      && (code == "" ==> id[..2] == "uu")
  {
    var id := Generate(code, now, rand);
    assert id[..2] == Family(code);
    TimeIsLong(now - EPOCH);
  }

  lemma Slices(family: string, h: string, rand: string)
    requires |family| == 2 && |h| == 8 && |rand| == 20
    ensures var id := family + "." + h + "." + rand;
      && |id| == 32 && id[2] == '.' && id[11] == '.'
      && id[..2] == family && id[3..11] == h && id[12..] == rand
      && (forall i :: 0 <= i < 2 ==> id[i] == family[i])
      && (forall i :: 3 <= i < 11 ==> id[i] == h[i - 3])
      && (forall i :: 12 <= i < 32 ==> id[i] == rand[i - 12])
  {}

  lemma TimeIsLong(n: int)
    ensures var p := PadStart(HexOf(n), TIME_DIGITS); |p| >= TIME_DIGITS && forall i :: 0 <= i < |p| ==> p[i] != '.'
  {
    HexLaw(if n < 0 then -n else n);
    var s := HexOf(n);
    NoDots(s);
  }

  lemma NoDots(s: string)
    requires forall i :: 0 <= i < |s| ==> s[i] == '-' || IsHex(s[i])
    ensures var p := PadStart(s, TIME_DIGITS); |p| >= TIME_DIGITS && forall i :: 0 <= i < |p| ==> p[i] != '.'
  {
    if |s| < TIME_DIGITS { ZerosAll(TIME_DIGITS - |s|); }
  }

  /** It rejects every identifier that `generate` can produce, at any time: the time has ten digits or more. */
  lemma ParseRejectsGenerated(code: string, now: int, rand: string)
    ensures Parse(Generate(code, now, rand)) == None
  {
    var p := PadStart(HexOf(now - EPOCH), TIME_DIGITS);
    TimeIsLong(now - EPOCH);
    var id := Generate(code, now, rand);
    assert |Family(code)| == 2;
    assert id[11] == p[8];
  }
}
