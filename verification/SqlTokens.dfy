/** The tokens of SQL that stand without quotes: names, whose parts are regular
    identifiers (ISO/IEC 9075-2, section 5.2), and numeric literals (section 5.3), with a
    reader that takes the longest one. */
module SqlTokens {
  import opened Wrappers
  import opened GoStrings

  predicate IsDigit(c: char) {
    '0' <= c <= '9'
  }

  /** What a part of a name begins with. */
  predicate IsLetter(c: char) {
    'a' <= c <= 'z' || 'A' <= c <= 'Z' || c == '_' || (c > '\U{7F}' && !IsSpace(c))
  }

  predicate IsNameChar(c: char) {
    IsLetter(c) || IsDigit(c)
  }

  predicate IsPart(w: string) {
    w != [] && IsLetter(w[0]) && All(w, IsNameChar)
  }

  /** Parts with single dots between them. */
  predicate IsName(w: string) {
    forall k :: 0 <= k < |Split(w, ".")| ==> IsPart(Split(w, ".")[k])
  }

  predicate IsSign(c: char) {
    c == '-' || c == '+'
  }

  /** Nothing, or a dot and any digits. */
  predicate IsFraction(w: string) {
    w != [] ==> w[0] == '.' && All(w[1..], IsDigit)
  }

  /** Nothing, or e, perhaps a sign, and digits. */
  predicate IsExponent(w: string) {
    w != [] ==>
      && (w[0] == 'e' || w[0] == 'E')
      && exists k :: 1 <= k <= 2 && k < |w| && (k == 2 ==> IsSign(w[1])) && All(w[k..], IsDigit)
  }

  /** Digits, a fraction and an exponent, with a digit before the exponent. */
  ghost predicate IsNumberOf(w: string, whole: string, fraction: string, exponent: string) {
    && w == whole + (fraction + exponent)
    && All(whole, IsDigit) && IsFraction(fraction) && IsExponent(exponent)
    && (whole != [] || |fraction| > 1)
  }

  ghost predicate IsNumber(w: string) {
    exists whole, fraction, exponent :: IsNumberOf(w, whole, fraction, exponent)
  }

  function Unsigned(w: string): string {
    if w != [] && IsSign(w[0]) then w[1..] else w
  }

  /** A name or a number, perhaps with one sign. */
  ghost predicate IsOperand(w: string) {
    IsName(Unsigned(w)) || IsNumber(Unsigned(w))
  }

  // ------------------------------------------------------------- the reader

  /** The longest run of such characters, and what follows it. */
  function Span(s: string, p: char -> bool): (r: (string, string))
    ensures r.0 + r.1 == s && All(r.0, p) && (r.1 != [] ==> !p(r.1[0]))
  {
    if s == [] || !p(s[0]) then ([], s)
    else
      var r := Span(s[1..], p);
      ([s[0]] + r.0, r.1)
  }

  function ReadName(s: string): (r: Option<(string, string)>)
    ensures r.Some? ==> r.value.0 != [] && r.value.0 + r.value.1 == s
    decreases |s|
  {
    if s == [] || !IsLetter(s[0]) then None
    else
      var (part, t) := Span(s, IsNameChar);
      if |t| > 1 && t[0] == '.' && IsLetter(t[1]) then
        match ReadName(t[1..])
        case None => None
        case Some((more, u)) => Some((part + ("." + more), u))
      else Some((part, t))
  }

  function ReadFraction(s: string): (r: (string, string))
    ensures r.0 + r.1 == s
  {
    if s == [] || s[0] != '.' then ([], s)
    else
      var (digits, t) := Span(s[1..], IsDigit);
      (s[..1] + digits, t)
  }

  function ReadExponent(s: string): (r: (string, string))
    ensures r.0 + r.1 == s
  {
    if s == [] || (s[0] != 'e' && s[0] != 'E') then ([], s)
    else
      var k := if |s| > 1 && IsSign(s[1]) then 2 else 1;
      var (digits, t) := Span(s[k..], IsDigit);
      if digits == [] then ([], s) else (s[..k] + digits, t)
  }

  function ReadNumber(s: string): (r: Option<(string, string)>)
    ensures r.Some? ==> r.value.0 != [] && r.value.0 + r.value.1 == s
  {
    var (whole, t) := Span(s, IsDigit);
    var (fraction, u) := ReadFraction(t);
    var (exponent, v) := ReadExponent(u);
    Regroup(whole, fraction + exponent, v);
    Regroup(fraction, exponent, v);
    if whole == [] && |fraction| <= 1 then None else Some((whole + (fraction + exponent), v))
  }

  function ReadUnsigned(s: string): (r: Option<(string, string)>)
    ensures r.Some? ==> r.value.0 != [] && r.value.0 + r.value.1 == s
  {
    if s != [] && IsLetter(s[0]) then ReadName(s) else ReadNumber(s)
  }

  function ReadOperand(s: string): (r: Option<(string, string)>)
    ensures r.Some? ==> r.value.0 != [] && r.value.0 + r.value.1 == s
  {
    if s != [] && IsSign(s[0]) then
      match ReadUnsigned(s[1..])
      case None => None
      case Some((w, t)) => Some(([s[0]] + w, t))
    else ReadUnsigned(s)
  }

  // ------------------------------------------- it reads nothing but operands

  lemma {:induction false} NameParts(part: string, more: string)
    requires IsPart(part) && IsName(more)
    ensures IsName(part + ("." + more))
  {
    var w := part + ("." + more);
    Regroup(part, ".", more);
    CutAt(part, ".", more);
    assert Split(w, ".") == [part] + Split(more, ".");
  }

  lemma OnePart(part: string)
    requires IsPart(part)
    ensures IsName(part)
  {
    if Contains(part, ".") { FirstCharIn(part, "."); }
    assert Split(part, ".") == [part];
  }

  lemma {:induction false} ReadsNames(s: string)
    ensures ReadName(s).Some? ==> IsName(ReadName(s).value.0)
    decreases |s|
  {
    if ReadName(s).Some? {
      var (part, t) := Span(s, IsNameChar);
      assert part != [] && part[0] == s[0];
      if |t| > 1 && t[0] == '.' && IsLetter(t[1]) {
        ReadsNames(t[1..]);
        NameParts(part, ReadName(t[1..]).value.0);
      } else {
        OnePart(part);
      }
    }
  }

  lemma ReadsExponents(s: string)
    ensures IsExponent(ReadExponent(s).0)
  {
    if s != [] && (s[0] == 'e' || s[0] == 'E') {
      var k := if |s| > 1 && IsSign(s[1]) then 2 else 1;
      var (digits, t) := Span(s[k..], IsDigit);
      var w := s[..k] + digits;
      assert w[k..] == digits;
      if digits != [] { assert w[0] == s[0] && (k == 2 ==> w[1] == s[1]); }
    }
  }

  lemma ReadsNumbers(s: string)
    ensures ReadNumber(s).Some? ==> IsNumber(ReadNumber(s).value.0)
  {
    if ReadNumber(s).Some? {
      var (whole, t) := Span(s, IsDigit);
      var (fraction, u) := ReadFraction(t);
      ReadsExponents(u);
      if fraction != [] { assert fraction[1..] == Span(t[1..], IsDigit).0; }
      assert IsNumberOf(ReadNumber(s).value.0, whole, fraction, ReadExponent(u).0);
    }
  }

  lemma ReadsUnsigned(s: string)
    ensures ReadUnsigned(s).Some? ==> IsName(ReadUnsigned(s).value.0) || IsNumber(ReadUnsigned(s).value.0)
  {
    ReadsNames(s);
    ReadsNumbers(s);
  }

  /** Whatever text stands before it, the reader takes an operand or nothing. */
  lemma ReadsOperands(s: string)
    ensures ReadOperand(s).Some? ==> IsOperand(ReadOperand(s).value.0)
  {
    if s != [] && IsSign(s[0]) { ReadsUnsigned(s[1..]); } else { ReadsUnsigned(s); }
  }

  // ------------------------------------------------- it reads every operand

  /** Here every token before it ends. */
  predicate Ends(rest: string) {
    rest != [] ==> !IsNameChar(rest[0]) && rest[0] != '.'
  }

  lemma {:induction false} SpanOf(w: string, rest: string, p: char -> bool)
    requires All(w, p) && (rest != [] ==> !p(rest[0]))
    ensures Span(w + rest, p) == (w, rest)
  {
    if w == [] {
      assert w + rest == rest;
    } else {
      assert (w + rest)[1..] == w[1..] + rest;
      SpanOf(w[1..], rest, p);
      assert [w[0]] + w[1..] == w;
    }
  }

  lemma NameStart(w: string)
    requires IsName(w)
    ensures w != [] && IsLetter(w[0])
  {
    var part := Split(w, ".")[0];
    assert IsPart(part);
    if Contains(w, ".") { assert part[0] == w[0]; }
  }

  lemma {:induction false} NameChars(w: string)
    requires IsName(w)
    ensures All(w, c => IsNameChar(c) || c == '.')
    decreases |w|
  {
    var part := Split(w, ".")[0];
    assert IsPart(part);
    if Contains(w, ".") {
      CutFirst(w, ".");
      var more := Cut(w, ".").1;
      assert Split(w, ".")[1..] == Split(more, ".");
      NameChars(more);
      assert w == part + "." + more;
    }
  }

  lemma {:induction false} ReadNameOf(w: string, rest: string)
    requires IsName(w) && Ends(rest)
    ensures ReadName(w + rest) == Some((w, rest))
    decreases |w|
  {
    NameStart(w);
    var part := Split(w, ".")[0];
    assert IsPart(part);
    if Contains(w, ".") {
      var more := Cut(w, ".").1;
      CutFirst(w, ".");
      assert Split(w, ".")[1..] == Split(more, ".");
      Regroup(part, ".", more);
      Regroup(part, "." + more, rest);
      Regroup(".", more, rest);
      NameStart(more);
      ReadNameOf(more, rest);
      SpanOf(part, "." + (more + rest), IsNameChar);
      DropPrefix(".", more + rest);
    } else {
      SpanOf(w, rest, IsNameChar);
    }
  }

  lemma ReadFractionOf(w: string, rest: string)
    requires IsFraction(w) && (rest != [] ==> !IsDigit(rest[0]) && rest[0] != '.')
    ensures ReadFraction(w + rest) == (w, rest)
  {
    if w == [] {
      assert w + rest == rest;
    } else {
      assert (w + rest)[1..] == w[1..] + rest;
      SpanOf(w[1..], rest, IsDigit);
      assert (w + rest)[..1] + w[1..] == w;
    }
  }

  lemma ReadDigitsOf(w: string, k: nat, rest: string)
    requires 1 <= k <= 2 && k < |w| && (w[0] == 'e' || w[0] == 'E') && (k == 2 ==> IsSign(w[1]))
    requires All(w[k..], IsDigit) && Ends(rest)
    ensures ReadExponent(w + rest) == (w, rest)
  {
    var s := w + rest;
    assert w == w[..k] + w[k..];
    Regroup(w[..k], w[k..], rest);
    DropPrefix(w[..k], w[k..] + rest);
    assert s[0] == w[0] && s[1] == w[1] && s[..k] == w[..k] && (k == 1 ==> w[k..][0] == w[1]);
    SpanOf(w[k..], rest, IsDigit);
  }

  lemma ReadExponentOf(w: string, rest: string)
    requires IsExponent(w) && Ends(rest)
    ensures ReadExponent(w + rest) == (w, rest)
  {
    if w == [] {
      assert w + rest == rest;
    } else {
      var k :| 1 <= k <= 2 && k < |w| && (k == 2 ==> IsSign(w[1])) && All(w[k..], IsDigit);
      ReadDigitsOf(w, k, rest);
    }
  }

  lemma ReadNumberOf(w: string, rest: string)
    requires IsNumber(w) && Ends(rest)
    ensures ReadNumber(w + rest) == Some((w, rest))
  {
    var whole, fraction, exponent :| IsNumberOf(w, whole, fraction, exponent);
    Regroup(whole, fraction + exponent, rest);
    Regroup(fraction, exponent, rest);
    var tail := exponent + rest;
    assert tail != [] ==> tail[0] == if exponent != [] then exponent[0] else rest[0];
    ReadExponentOf(exponent, rest);
    ReadFractionOf(fraction, tail);
    assert fraction + tail != [] ==> (fraction + tail)[0] == if fraction != [] then fraction[0] else tail[0];
    SpanOf(whole, fraction + tail, IsDigit);
  }

  lemma NumberStart(w: string)
    requires IsNumber(w)
    ensures w != [] && !IsLetter(w[0]) && !IsSign(w[0])
  {
    var whole, fraction, exponent :| IsNumberOf(w, whole, fraction, exponent);
    assert w[0] == if whole != [] then whole[0] else fraction[0];
  }

  lemma ReadUnsignedOf(w: string, rest: string)
    requires (IsName(w) || IsNumber(w)) && Ends(rest)
    ensures ReadUnsigned(w + rest) == Some((w, rest))
    ensures w != [] && !IsSign(w[0])
  {
    if IsName(w) {
      NameStart(w);
      ReadNameOf(w, rest);
    } else {
      NumberStart(w);
      ReadNumberOf(w, rest);
    }
  }

  /** Every operand is read as itself, up to anything that cannot continue it. */
  lemma ReadOperandOf(w: string, rest: string)
    requires IsOperand(w) && Ends(rest)
    ensures ReadOperand(w + rest) == Some((w, rest))
  {
    ReadUnsignedOf(Unsigned(w), rest);
    if w != [] && IsSign(w[0]) {
      assert (w + rest)[1..] == w[1..] + rest;
      assert [w[0]] + w[1..] == w;
    }
  }

  /** The reader knows exactly the operands. */
  lemma OperandsExactly(w: string)
    ensures ReadOperand(w) == Some((w, [])) <==> IsOperand(w)
  {
    assert w + [] == w;
    if IsOperand(w) { ReadOperandOf(w, []); }
    ReadsOperands(w);
  }

  /** A number with a unit behind it is no operand: the number ends at the unit. */
  lemma UnitIsNoOperand(digits: string, unit: string)
    requires digits != [] && All(digits, IsDigit)
    requires unit != [] && IsLetter(unit[0]) && unit[0] != 'e' && unit[0] != 'E'
    ensures !IsOperand(digits + unit) && ReadOperand(digits + unit) == Some((digits, unit))
  {
    SpanOf(digits, unit, IsDigit);
    assert digits + ([] + []) == digits;
    OperandsExactly(digits + unit);
  }
}
