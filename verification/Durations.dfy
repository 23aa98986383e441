/** Durations as Go's time.ParseDuration takes them: the steps that a query may have. */
module Durations {
  import opened GoStrings
  import opened Timestamps

  predicate IsNumberChar(c: char) {
    IsDigit(c) || c == '.'
  }

  function DigitRun(s: string): (n: nat)
    ensures n <= |s| && (forall k :: 0 <= k < n ==> IsDigit(s[k])) && (n < |s| ==> !IsDigit(s[n]))
  {
    if s != [] && IsDigit(s[0]) then 1 + DigitRun(s[1..]) else 0
  }

  /** Up to the next digit or point. */
  function UnitRun(s: string): (n: nat)
    ensures n <= |s| && (forall k :: 0 <= k < n ==> !IsNumberChar(s[k])) && (n < |s| ==> IsNumberChar(s[n]))
  {
    if s != [] && !IsNumberChar(s[0]) then 1 + UnitRun(s[1..]) else 0
  }

  predicate IsUnit(u: string) {
    u == "ns" || u == "us" || u == "\U{B5}s" || u == "\U{3BC}s" || u == "ms" || u == "s" || u == "m" || u == "h"
  }

  /** The digits, the point and the digits of one number, and how many digits. */
  function NumberRun(s: string): (r: (nat, nat))
    ensures r.0 <= |s| && forall k :: 0 <= k < r.0 ==> IsNumberChar(s[k])
  {
    var whole := DigitRun(s);
    if whole < |s| && s[whole] == '.' then
      var part := DigitRun(s[whole + 1..]);
      (whole + 1 + part, whole + part)
    else (whole, whole)
  }

  /** Numbers with units, one after the other, as time.ParseDuration takes them. */
  predicate IsUnits(s: string)
    decreases |s|
  {
    if s == [] then true
    else
      var (n, digits) := NumberRun(s);
      var u := UnitRun(s[n..]);
      digits > 0 && IsUnit(s[n..][..u]) && IsUnits(s[n..][u..])
  }

  /** time.ParseDuration accepts the text (numbers that overflow apart). */
  predicate IsDuration(s: string) {
    var t := if s != [] && (s[0] == '+' || s[0] == '-') then s[1..] else s;
    t == "0" || (t != [] && IsUnits(t))
  }

  // ------------------------------------------------------------- the grammar

  /** One number with its unit, as in 15m, 1.5h or .5s. */
  datatype Piece = Piece(whole: string, point: bool, part: string, unit: string) {
    predicate Valid() {
      && All(whole, IsDigit) && All(part, IsDigit) && (!point ==> part == [])
      && whole + part != []
      && unit in {"ns", "us", "\U{B5}s", "\U{3BC}s", "ms", "s", "m", "h"}
    }

    function Number(): string {
      whole + ((if point then "." else []) + part)
    }
  }

  /** The pieces, one after the other. */
  function Spell(pieces: seq<Piece>): string {
    if pieces == [] then [] else pieces[0].Number() + (pieces[0].unit + Spell(pieces[1..]))
  }

  ghost predicate AllValid(pieces: seq<Piece>) {
    forall k :: 0 <= k < |pieces| ==> pieces[k].Valid()
  }

  lemma {:induction false} DigitRunOf(digits: string, rest: string)
    requires All(digits, IsDigit) && (rest != [] ==> !IsDigit(rest[0]))
    ensures DigitRun(digits + rest) == |digits|
  {
    if digits == [] {
      assert digits + rest == rest;
    } else {
      assert (digits + rest)[1..] == digits[1..] + rest;
      DigitRunOf(digits[1..], rest);
    }
  }

  lemma {:induction false} UnitRunOf(unit: string, rest: string)
    requires (forall k :: 0 <= k < |unit| ==> !IsNumberChar(unit[k])) && (rest != [] ==> IsNumberChar(rest[0]))
    ensures UnitRun(unit + rest) == |unit|
  {
    if unit == [] {
      assert unit + rest == rest;
    } else {
      assert (unit + rest)[1..] == unit[1..] + rest;
      UnitRunOf(unit[1..], rest);
    }
  }

  lemma WholeRun(whole: string, rest: string, s: string)
    requires All(whole, IsDigit) && s == whole + rest && (rest != [] ==> !IsNumberChar(rest[0]))
    ensures NumberRun(s) == (|whole|, |whole|)
  {
    DigitRunOf(whole, rest);
  }

  lemma PointRun(whole: string, part: string, rest: string, s: string)
    requires All(whole, IsDigit) && All(part, IsDigit) && s == whole + (['.'] + (part + rest))
    requires rest != [] ==> !IsNumberChar(rest[0])
    ensures NumberRun(s) == (|whole| + 1 + |part|, |whole| + |part|)
  {
    DigitRunOf(whole, ['.'] + (part + rest));
    DigitRunOf(part, rest);
    assert s[|whole| + 1..] == part + rest;
  }

  lemma NumberRunOf(p: Piece, rest: string, s: string)
    requires p.Valid() && (rest != [] ==> !IsNumberChar(rest[0])) && s == p.Number() + rest
    ensures NumberRun(s) == (|p.Number()|, |p.whole| + |p.part|)
  {
    if p.point {
      assert s == p.whole + (['.'] + (p.part + rest));
      PointRun(p.whole, p.part, rest, s);
    } else {
      assert s == p.whole + rest;
      WholeRun(p.whole, rest, s);
    }
  }

  lemma UnitLetters(u: string)
    requires IsUnit(u)
    ensures u != [] && forall k :: 0 <= k < |u| ==> !IsNumberChar(u[k])
  {
    assert |u| <= 2;
  }

  lemma SpellStarts(pieces: seq<Piece>)
    requires AllValid(pieces)
    ensures pieces != [] ==> Spell(pieces) != [] && IsNumberChar(Spell(pieces)[0])
  {
    if pieces != [] {
      var p := pieces[0];
      assert p.Valid();
      if p.whole != [] { assert Spell(pieces)[0] == p.whole[0]; }
    }
  }

  lemma OnePiece(p: Piece, rest: string, s: string)
    requires p.Valid() && (rest != [] ==> IsNumberChar(rest[0])) && s == p.Number() + (p.unit + rest)
    requires IsUnits(rest)
    ensures IsUnits(s)
  {
    var n, t := |p.Number()|, p.unit + rest;
    UnitLetters(p.unit);
    NumberRunOf(p, t, s);
    UnitRunOf(p.unit, rest);
    assert s[n..] == t && t[..|p.unit|] == p.unit && t[|p.unit|..] == rest;
  }

  lemma {:induction false} SpelledIsUnits(pieces: seq<Piece>)
    requires AllValid(pieces)
    ensures IsUnits(Spell(pieces))
  {
    if pieces != [] {
      SpelledIsUnits(pieces[1..]);
      SpellStarts(pieces[1..]);
      assert pieces[0].Valid();
      OnePiece(pieces[0], Spell(pieces[1..]), Spell(pieces));
    }
  }

  lemma NumberSplits(s: string) returns (whole: string, point: bool, part: string)
    ensures All(whole, IsDigit) && All(part, IsDigit) && (!point ==> part == [])
    ensures NumberRun(s).1 == |whole + part| && NumberRun(s).0 <= |s|
    ensures s[..NumberRun(s).0] == whole + ((if point then "." else []) + part)
  {
    var w := DigitRun(s);
    point := w < |s| && s[w] == '.';
    whole, part := s[..w], [];
    if point {
      var tail := s[w + 1..];
      var m := DigitRun(tail);
      part := tail[..m];
      assert s[..w + 1 + m] == whole + (['.'] + part);
    }
  }

  /** The piece at the front of a text, and what is behind it. */
  lemma FirstPiece(s: string) returns (p: Piece, rest: string)
    requires s != [] && IsUnits(s)
    ensures p.Valid() && s == p.Number() + (p.unit + rest) && IsUnits(rest) && |rest| < |s|
  {
    var whole, point, part := NumberSplits(s);
    var n := NumberRun(s).0;
    var t := s[n..];
    var u := UnitRun(t);
    UnitOf(t[..u]);
    p, rest := Piece(whole, point, part, t[..u]), t[u..];
    Rejoin(s, n, t, u);
  }

  lemma UnitOf(u: string)
    requires IsUnit(u)
    ensures u != [] && u in {"ns", "us", "\U{B5}s", "\U{3BC}s", "ms", "s", "m", "h"}
  {
  }

  lemma Rejoin(s: string, n: nat, t: string, u: nat)
    requires n <= |s| && t == s[n..] && u <= |t|
    ensures s == s[..n] + (t[..u] + t[u..])
  {
  }

  lemma {:induction false} UnitsAreSpelled(s: string) returns (pieces: seq<Piece>)
    requires IsUnits(s)
    ensures AllValid(pieces) && Spell(pieces) == s
    decreases |s|
  {
    pieces := [];
    if s != [] {
      var p, rest := FirstPiece(s);
      var more := UnitsAreSpelled(rest);
      pieces := [p] + more;
      assert pieces[1..] == more;
    }
  }

  /** A sign or none, and then either a bare zero or the pieces. */
  ghost predicate Writes(s: string, sign: string, pieces: seq<Piece>) {
    && sign in {[], "+", "-"} && AllValid(pieces)
    && (s == sign + "0" || (pieces != [] && s == sign + Spell(pieces)))
  }

  /** Accepted are exactly a sign or none, and then a bare zero, or one or more numbers with
      a unit each. */
  lemma DurationsExactly(s: string)
    ensures IsDuration(s) <==> exists sign, pieces :: Writes(s, sign, pieces)
  {
    if IsDuration(s) { var sign, pieces := Written(s); }
    if sign, pieces :| Writes(s, sign, pieces) { Read(s, sign, pieces); }
  }

  lemma Written(s: string) returns (sign: string, pieces: seq<Piece>)
    requires IsDuration(s)
    ensures Writes(s, sign, pieces)
  {
    sign := if s != [] && (s[0] == '+' || s[0] == '-') then [s[0]] else [];
    assert sign in {[], "+", "-"};
    var t := s[|sign|..];
    assert s == sign + t;
    pieces := [];
    if t != "0" {
      pieces := UnitsAreSpelled(t);
      assert pieces != [];
    }
  }

  lemma Read(s: string, sign: string, pieces: seq<Piece>)
    requires Writes(s, sign, pieces)
    ensures IsDuration(s)
  {
    SpelledIsUnits(pieces);
    SpellStarts(pieces);
    var t := if s == sign + "0" then "0" else Spell(pieces);
    Signed(s, sign, t);
  }

  lemma Signed(s: string, sign: string, t: string)
    requires sign in {[], "+", "-"} && s == sign + t && (t == "0" || (t != [] && IsNumberChar(t[0]) && IsUnits(t)))
    ensures IsDuration(s)
  {
    if sign == [] {
      assert s == t;
    } else {
      assert s[1..] == t;
    }
  }

  // ------------------------------------------------- the characters of a step

  predicate IsDurationChar(c: char) {
    IsNumberChar(c) || IsUnitChar(c) || c == '+' || c == '-'
  }

  predicate IsUnitChar(c: char) {
    c == 'n' || c == 's' || c == 'u' || c == '\U{B5}' || c == '\U{3BC}' || c == 'm' || c == 'h'
  }

  predicate EndsDuration(c: char) {
    c == 's' || c == 'm' || c == 'h' || c == '0'
  }

  lemma UnitChars(u: string)
    requires IsUnit(u)
    ensures u != [] && EndsDuration(u[|u| - 1]) && All(u, IsDurationChar)
  {
    assert |u| <= 2;
  }

  lemma AllBoth(a: string, b: string, p: char -> bool)
    requires All(a, p) && All(b, p)
    ensures All(a + b, p)
  {
  }

  lemma PieceChars(p: Piece)
    requires p.Valid()
    ensures All(p.Number(), IsDurationChar) && All(p.unit, IsDurationChar)
    ensures p.unit != [] && EndsDuration(p.unit[|p.unit| - 1])
  {
    UnitChars(p.unit);
  }

  lemma {:induction false} UnitsChars(s: string)
    requires IsUnits(s)
    ensures All(s, IsDurationChar) && (s != [] ==> EndsDuration(s[|s| - 1]))
    decreases |s|
  {
    if s != [] {
      var p, rest := FirstPiece(s);
      PieceChars(p);
      UnitsChars(rest);
      AllBoth(p.unit, rest, IsDurationChar);
      AllBoth(p.Number(), p.unit + rest, IsDurationChar);
    }
  }

  lemma UnsignedChars(t: string)
    requires t == "0" || (t != [] && IsUnits(t))
    ensures t != [] && EndsDuration(t[|t| - 1]) && All(t, IsDurationChar)
  {
    if t != "0" { UnitsChars(t); }
  }

  /** A step that the server lets pass holds no bar and ends like no other part. */
  lemma DurationChars(s: string)
    requires IsDuration(s)
    ensures s != [] && EndsDuration(s[|s| - 1]) && All(s, IsDurationChar)
  {
    if s[0] == '+' || s[0] == '-' {
      UnsignedChars(s[1..]);
      AllBoth([s[0]], s[1..], IsDurationChar);
      assert s == [s[0]] + s[1..];
    } else {
      UnsignedChars(s);
    }
  }
}
