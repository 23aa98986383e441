/** Instants as Go's UTC().Format(time.RFC3339Nano) writes them: the date-time of
    RFC 3339, section 5.6, with Z for the offset and no trailing zeros in the fraction. */
module Timestamps {
  /** A UTC date and time of a four-digit year; one instant has exactly one. */
  datatype Instant = Instant(year: nat, month: nat, day: nat, hour: nat, minute: nat, second: nat, nanos: nat) {
    predicate Valid() {
      && year < 10000 && 1 <= month <= 12 && 1 <= day <= 31
      && hour < 24 && minute < 60 && second < 60 && nanos < 1_000_000_000
    }

    /** time.IsZero: January 1 of year 1. */
    predicate IsZero() {
      this == Instant(1, 1, 1, 0, 0, 0, 0)
    }

    /** time.After, field by field. */
    predicate After(other: Instant) {
      if year != other.year then year > other.year
      else if month != other.month then month > other.month
      else if day != other.day then day > other.day
      else if hour != other.hour then hour > other.hour
      else if minute != other.minute then minute > other.minute
      else if second != other.second then second > other.second
      else nanos > other.nanos
    }
  }

  // -------------------------------------------------------------- the order

  /** The fields, the weightiest first. */
  function Parts(t: Instant): seq<nat> {
    [t.year, t.month, t.day, t.hour, t.minute, t.second, t.nanos]
  }

  predicate FirstDiffers(a: seq<nat>, b: seq<nat>, k: nat)
    requires k < |a| == |b|
  {
    a[..k] == b[..k] && a[k] < b[k]
  }

  /** Smaller at the first field in which they differ. */
  predicate Earlier(a: Instant, b: Instant) {
    exists k: nat :: k < 7 && FirstDiffers(Parts(a), Parts(b), k)
  }

  /** After is the lexicographic order of the fields. */
  lemma AfterIsLater(a: Instant, b: Instant)
    ensures a.After(b) <==> Earlier(b, a)
  {
    var x, y := Parts(a), Parts(b);
    if a.After(b) {
      var k := if a.year != b.year then 0 else if a.month != b.month then 1 else if a.day != b.day then 2
               else if a.hour != b.hour then 3 else if a.minute != b.minute then 4
               else if a.second != b.second then 5 else 6;
      assert y[..k] == x[..k];
      assert FirstDiffers(y, x, k);
    }
    if k: nat :| k < 7 && FirstDiffers(y, x, k) {
      assert forall j :: 0 <= j < k ==> y[j] == y[..k][j] == x[..k][j] == x[j];
      assert x[0] == a.year && x[1] == a.month && x[2] == a.day && x[3] == a.hour;
      assert x[4] == a.minute && x[5] == a.second;
      assert y[0] == b.year && y[1] == b.month && y[2] == b.day && y[3] == b.hour;
      assert y[4] == b.minute && y[5] == b.second;
    }
  }

  /** It is a strict total order. */
  lemma OrderIsTotal(a: Instant, b: Instant, c: Instant)
    ensures a == b || a.After(b) || b.After(a)
    ensures !(a.After(b) && b.After(a)) && !a.After(a)
    ensures a.After(b) && b.After(c) ==> a.After(c)
  {
  }

  // ----------------------------------------------------------------- digits

  predicate IsDigit(c: char) {
    '0' <= c <= '9'
  }

  /** The last w decimal digits of n. */
  function Digits(n: nat, w: nat): (s: string)
    ensures |s| == w && forall k :: 0 <= k < w ==> IsDigit(s[k])
  {
    if w == 0 then [] else Digits(n / 10, w - 1) + ['0' + (n % 10) as char]
  }

  function Power10(w: nat): (p: nat)
    ensures p >= 1
  {
    if w == 0 then 1 else 10 * Power10(w - 1)
  }

  lemma {:induction false} DigitsInjective(a: nat, b: nat, w: nat)
    requires a < Power10(w) && b < Power10(w) && Digits(a, w) == Digits(b, w)
    ensures a == b
  {
    if w > 0 {
      var x, y := Digits(a, w), Digits(b, w);
      assert x[..w - 1] == Digits(a / 10, w - 1) && y[..w - 1] == Digits(b / 10, w - 1);
      assert x[w - 1] == '0' + (a % 10) as char && y[w - 1] == '0' + (b % 10) as char;
      DigitsInjective(a / 10, b / 10, w - 1);
    }
  }

  function Unpadded(s: string): (r: string)
    ensures |r| <= |s|
  {
    if s != [] && s[|s| - 1] == '0' then Unpadded(s[..|s| - 1]) else s
  }

  function Zeros(n: nat): (s: string)
    ensures |s| == n
  {
    if n == 0 then [] else Zeros(n - 1) + ['0']
  }

  /** Nothing but zeros is stripped. */
  lemma {:induction false} UnpaddedZeros(s: string)
    ensures s == Unpadded(s) + Zeros(|s| - |Unpadded(s)|)
    ensures forall k :: 0 <= k < |Unpadded(s)| ==> Unpadded(s)[k] == s[k]
  {
    if s != [] && s[|s| - 1] == '0' {
      UnpaddedZeros(s[..|s| - 1]);
      assert s == s[..|s| - 1] + ['0'];
    }
  }

  function Fraction(nanos: nat): string {
    if nanos == 0 then [] else ['.'] + Unpadded(Digits(nanos, 9))
  }

  /** Everything up to the fraction has a fixed width. */
  function Head(t: Instant): (s: string)
    ensures |s| == 19
  {
    Digits(t.year, 4) + "-" + Digits(t.month, 2) + "-" + Digits(t.day, 2) + "T"
    + Digits(t.hour, 2) + ":" + Digits(t.minute, 2) + ":" + Digits(t.second, 2)
  }

  function Format(t: Instant): string {
    Head(t) + Fraction(t.nanos) + "Z"
  }

  lemma PowersOfTen()
    ensures Power10(2) == 100 && Power10(4) == 10000 && Power10(9) == 1_000_000_000
  {
    assert Power10(3) == 1000;
    assert Power10(6) == 1_000_000;
  }

  lemma HeadInjective(a: Instant, b: Instant)
    requires a.Valid() && b.Valid() && Head(a) == Head(b)
    ensures a.(nanos := 0) == b.(nanos := 0)
  {
    var s, t := Head(a), Head(b);
    assert s[0..4] == Digits(a.year, 4) && t[0..4] == Digits(b.year, 4);
    assert s[5..7] == Digits(a.month, 2) && t[5..7] == Digits(b.month, 2);
    assert s[8..10] == Digits(a.day, 2) && t[8..10] == Digits(b.day, 2);
    assert s[11..13] == Digits(a.hour, 2) && t[11..13] == Digits(b.hour, 2);
    assert s[14..16] == Digits(a.minute, 2) && t[14..16] == Digits(b.minute, 2);
    assert s[17..19] == Digits(a.second, 2) && t[17..19] == Digits(b.second, 2);
    PowersOfTen();
    DigitsInjective(a.year, b.year, 4);
    DigitsInjective(a.month, b.month, 2);
    DigitsInjective(a.day, b.day, 2);
    DigitsInjective(a.hour, b.hour, 2);
    DigitsInjective(a.minute, b.minute, 2);
    DigitsInjective(a.second, b.second, 2);
  }

  lemma FractionInjective(a: nat, b: nat)
    requires a < 1_000_000_000 && b < 1_000_000_000 && Fraction(a) == Fraction(b)
    ensures a == b
  {
    if a != 0 {
      assert Fraction(a)[1..] == Unpadded(Digits(a, 9)) && Fraction(b)[1..] == Unpadded(Digits(b, 9));
      UnpaddedZeros(Digits(a, 9));
      UnpaddedZeros(Digits(b, 9));
      PowersOfTen();
      DigitsInjective(a, b, 9);
    }
  }

  /** Two instants that are written alike are the same. */
  lemma FormatInjective(a: Instant, b: Instant)
    requires a.Valid() && b.Valid() && Format(a) == Format(b)
    ensures a == b
  {
    var s, t := Format(a), Format(b);
    assert s[..19] == Head(a) && t[..19] == Head(b);
    HeadInjective(a, b);
    assert s[19..|s| - 1] == Fraction(a.nanos) && t[19..|t| - 1] == Fraction(b.nanos);
    FractionInjective(a.nanos, b.nanos);
  }

  /** The characters of a formatted instant; no bar is among them, and Z comes last. */
  lemma FormatChars(t: Instant)
    ensures var s := Format(t);
            s[|s| - 1] == 'Z' && forall k :: 0 <= k < |s| ==> IsDigit(s[k]) || s[k] in {'-', 'T', ':', '.', 'Z'}
  {
    UnpaddedZeros(Digits(t.nanos, 9));
    HeadChars(t);
  }

  lemma HeadChars(t: Instant)
    ensures forall k :: 0 <= k < |Head(t)| ==> IsDigit(Head(t)[k]) || Head(t)[k] in {'-', 'T', ':'}
  {
  }

  // ------------------------------------------------ the places of the fields

  predicate AllDigits(s: string) {
    forall k :: 0 <= k < |s| ==> IsDigit(s[k])
  }

  function DigitValue(c: char): nat
    requires IsDigit(c)
  {
    c as nat - '0' as nat
  }

  /** The number that decimal digits stand for. */
  function ValueOf(s: string): nat
    requires AllDigits(s)
  {
    if s == [] then 0 else 10 * ValueOf(s[..|s| - 1]) + DigitValue(s[|s| - 1])
  }

  lemma {:induction false} ValueOfDigits(n: nat, w: nat)
    requires n < Power10(w)
    ensures ValueOf(Digits(n, w)) == n
  {
    if w > 0 {
      var s := Digits(n, w);
      assert s[..w - 1] == Digits(n / 10, w - 1);
      ValueOfDigits(n / 10, w - 1);
    }
  }

  lemma {:induction false} ZerosAreDigits(z: nat)
    ensures AllDigits(Zeros(z))
  {
    if z > 0 { ZerosAreDigits(z - 1); }
  }

  lemma Times10(v: nat, p: nat, q: nat)
    requires q == 10 * p
    ensures 10 * (v * p) == v * q
  {
  }

  lemma {:induction false} ValueOfZeros(s: string, z: nat)
    requires AllDigits(s)
    ensures AllDigits(s + Zeros(z)) && ValueOf(s + Zeros(z)) == ValueOf(s) * Power10(z)
  {
    ZerosAreDigits(z);
    if z == 0 {
      assert s + Zeros(0) == s;
    } else {
      ValueOfZeros(s, z - 1);
      var all := s + Zeros(z);
      assert all[..|all| - 1] == s + Zeros(z - 1);
      assert all[|all| - 1] == '0';
      Times10(ValueOf(s), Power10(z - 1), Power10(z));
    }
  }

  /** These places of the text are the digits of this number. */
  predicate Stands(s: string, i: nat, j: nat, n: nat) {
    i <= j <= |s| && AllDigits(s[i..j]) && ValueOf(s[i..j]) == n
  }

  lemma StandsAt(s: string, i: nat, n: nat, w: nat)
    requires i + w <= |s| && s[i..i + w] == Digits(n, w) && n < Power10(w)
    ensures Stands(s, i, i + w, n)
  {
    ValueOfDigits(n, w);
  }

  lemma HeadPlaces(t: Instant)
    requires t.Valid()
    ensures var s := Head(t);
            && Stands(s, 0, 4, t.year) && Stands(s, 5, 7, t.month) && Stands(s, 8, 10, t.day)
            && Stands(s, 11, 13, t.hour) && Stands(s, 14, 16, t.minute) && Stands(s, 17, 19, t.second)
            && s[4] == '-' && s[7] == '-' && s[10] == 'T' && s[13] == ':' && s[16] == ':'
  {
    var s := Head(t);
    PowersOfTen();
    assert s[0..4] == Digits(t.year, 4) && s[5..7] == Digits(t.month, 2) && s[8..10] == Digits(t.day, 2);
    assert s[11..13] == Digits(t.hour, 2) && s[14..16] == Digits(t.minute, 2) && s[17..19] == Digits(t.second, 2);
    StandsAt(s, 0, t.year, 4);
    StandsAt(s, 5, t.month, 2);
    StandsAt(s, 8, t.day, 2);
    StandsAt(s, 11, t.hour, 2);
    StandsAt(s, 14, t.minute, 2);
    StandsAt(s, 17, t.second, 2);
  }

  /** What the text of a fraction is: nothing, or a dot and digits without zeros at their end. */
  predicate StandsFor(f: string, nanos: nat) {
    if nanos == 0 then f == []
    else
      && 2 <= |f| <= 10 && f[0] == '.' && f[|f| - 1] != '0'
      && AllDigits(f[1..]) && ValueOf(f[1..]) * Power10(10 - |f|) == nanos
  }

  lemma FractionPlaces(nanos: nat)
    requires nanos < 1_000_000_000
    ensures StandsFor(Fraction(nanos), nanos)
  {
    if nanos != 0 {
      var d := Digits(nanos, 9);
      var u := Unpadded(d);
      UnpaddedZeros(d);
      PowersOfTen();
      ValueOfDigits(nanos, 9);
      assert AllDigits(u);
      ValueOfZeros(u, 9 - |u|);
      assert Fraction(nanos)[1..] == u;
      UnpaddedEnd(d);
      EmptyIsZero(u);
    }
  }

  lemma EmptyIsZero(u: string)
    requires AllDigits(u)
    ensures u == [] ==> ValueOf(u) == 0
  {
  }

  lemma {:induction false} UnpaddedEnd(s: string)
    ensures Unpadded(s) != [] ==> Unpadded(s)[|Unpadded(s)| - 1] != '0'
  {
    if s != [] && s[|s| - 1] == '0' { UnpaddedEnd(s[..|s| - 1]); }
  }

  lemma PlacesOfHead(s: string, h: string, i: nat, j: nat, n: nat)
    requires |h| == 19 <= |s| && s[..19] == h && i <= j <= 19 && Stands(h, i, j, n)
    ensures Stands(s, i, j, n)
  {
    PartOfHead(s, 19, i, j);
  }

  lemma PartOfHead(s: string, n: nat, i: nat, j: nat)
    requires i <= j <= n <= |s|
    ensures s[..n][i..j] == s[i..j]
  {
    forall k | 0 <= k < j - i ensures s[..n][i..j][k] == s[i..j][k] {
    }
  }

  lemma FormatCut(h: string, f: string, s: string)
    requires |h| == 19 && s == h + f + "Z"
    ensures |s| == 20 + |f| && s[..19] == h && s[19..|s| - 1] == f && s[|s| - 1] == 'Z'
  {
  }

  /** Where each field of an instant stands in its text. */
  lemma FormatPlaces(t: Instant)
    requires t.Valid()
    ensures var s := Format(t);
            && |s| >= 20 && s[|s| - 1] == 'Z' && StandsFor(s[19..|s| - 1], t.nanos)
            && Stands(s, 0, 4, t.year) && s[4] == '-' && Stands(s, 5, 7, t.month) && s[7] == '-'
            && Stands(s, 8, 10, t.day) && s[10] == 'T' && Stands(s, 11, 13, t.hour) && s[13] == ':'
            && Stands(s, 14, 16, t.minute) && s[16] == ':' && Stands(s, 17, 19, t.second)
  {
    var s, h := Format(t), Head(t);
    HeadPlaces(t);
    FractionPlaces(t.nanos);
    var f := Fraction(t.nanos);
    FormatCut(h, f, s);
    assert s[4] == h[4] && s[7] == h[7] && s[10] == h[10] && s[13] == h[13] && s[16] == h[16];
    PlacesOfHead(s, h, 0, 4, t.year);
    PlacesOfHead(s, h, 5, 7, t.month);
    PlacesOfHead(s, h, 8, 10, t.day);
    PlacesOfHead(s, h, 11, 13, t.hour);
    PlacesOfHead(s, h, 14, 16, t.minute);
    PlacesOfHead(s, h, 17, 19, t.second);
  }
}
