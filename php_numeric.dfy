/** PHP's `is_numeric` on a string, and the sign of the number such a
    string denotes (the `(float) $price <= 0` test). The grammar is PHP 8's
    numeric-string grammar: optional leading whitespace, an optional sign,
    a decimal mantissa with at most one point and at least one digit, an
    optional exponent, optional trailing whitespace. */
module PhpNumeric {
  import opened PhpText

  /** The whitespace a numeric string may carry at either end: space, tab,
      line feed, carriage return, vertical tab and form feed. */
  const NumericWhitespace: set<char> := {' ', '\t', '\n', '\r', '\U{B}', '\U{C}'}

  /** The first position of `s` holding a character from `cs`, or `|s|`. */
  function FirstIndexIn(s: string, cs: set<char>): (k: nat)
    ensures k <= |s|
    ensures k < |s| ==> s[k] in cs
    ensures forall i | 0 <= i < k :: s[i] !in cs
  {
    if s == [] || s[0] in cs then 0 else 1 + FirstIndexIn(s[1..], cs)
  }

  /** The string without the whitespace allowed around a number. */
  function Body(s: string): string
  {
    StripEnd(StripStart(s, NumericWhitespace), NumericWhitespace)
  }

  predicate IsSign(c: char)
  {
    c == '+' || c == '-'
  }

  /** The body without its sign, if it has one. */
  function Unsigned(b: string): string
  {
    if b != [] && IsSign(b[0]) then b[1..] else b
  }

  /** Where the exponent marker stands in an unsigned body (`|u|` if none). */
  function ExponentAt(u: string): nat
  {
    FirstIndexIn(u, {'e', 'E'})
  }

  /** Digits with at most one decimal point and at least one digit:
      "12", "1.", ".5", "1.25". */
  predicate IsMantissa(m: string)
  {
    var d := FirstIndexIn(m, {'.'});
    if d == |m| then |m| >= 1 && AllDigits(m)
    else |m| >= 2 && AllDigits(m[..d]) && AllDigits(m[d + 1..])
  }

  /** What may follow the exponent marker: an optional sign, then digits. */
  predicate IsExponent(x: string)
  {
    var digits := if x != [] && IsSign(x[0]) then x[1..] else x;
    |digits| >= 1 && AllDigits(digits)
  }

  /** A number without whitespace or sign: mantissa, then optionally an
      exponent marker and exponent. */
  predicate IsUnsignedNumber(u: string)
  {
    var e := ExponentAt(u);
    IsMantissa(u[..e]) && (e == |u| || IsExponent(u[e + 1..]))
  }

  /** PHP `is_numeric($s)` for a string `s`. A numeric string holds a
      digit, so in particular "" is not numeric. */
  predicate IsNumeric(s: string)
    ensures IsNumeric(s) ==> exists k | 0 <= k < |s| :: IsDigit(s[k])
  {
    if IsUnsignedNumber(Unsigned(Body(s))) then NumberHasDigit(s); true else false
  }

  /** The mantissa of an unsigned number has a digit other than 0. */
  predicate HasNonZeroDigit(u: string)
  {
    var m := u[..ExponentAt(u)];
    exists k | 0 <= k < |m| :: '1' <= m[k] <= '9'
  }

  /** For a numeric string: the number it denotes is greater than 0, that
      is, it has no minus sign and its mantissa has a non-zero digit. */
  predicate DenotesPositive(s: string)
    ensures DenotesPositive(s) ==> exists k | 0 <= k < |s| :: '1' <= s[k] <= '9'
    ensures DenotesPositive(s) ==>
              var t := StripStart(s, NumericWhitespace); t != [] && t[0] != '-'
  {
    var b := Body(s);
    if !(b != [] && b[0] == '-') && HasNonZeroDigit(Unsigned(b)) then
      NonZeroDigitInInput(s); true
    else false
  }

  /** The body, and the unsigned body after it, are slices of the input:
      `Unsigned(Body(s))` starts past the leading whitespace and the sign. */
  lemma UnsignedInInput(s: string)
    ensures var t := StripStart(s, NumericWhitespace);
      var b := Body(s);
      var off := (|s| - |t|) + (if b != [] && IsSign(b[0]) then 1 else 0);
      b == t[..|b|] && off + |Unsigned(b)| <= |s| &&
      forall j | 0 <= j < |Unsigned(b)| :: Unsigned(b)[j] == s[off + j]
  {
  }

  /** The mantissa of an unsigned number holds a digit, so the input does. */
  lemma NumberHasDigit(s: string)
    requires IsUnsignedNumber(Unsigned(Body(s)))
    ensures exists k | 0 <= k < |s| :: IsDigit(s[k])
  {
    var t := StripStart(s, NumericWhitespace);
    var b := Body(s);
    var u := Unsigned(b);
    var m := u[..ExponentAt(u)];
    var d := FirstIndexIn(m, {'.'});
    var j := if d == 0 then 1 else 0;
    assert IsDigit(m[j]);
    var off := (|s| - |t|) + (if b != [] && IsSign(b[0]) then 1 else 0);
    UnsignedInInput(s);
    assert s[off + j] == m[j];
  }

  /** A non-zero mantissa digit is a non-zero digit of the input; without a
      minus sign, the first non-whitespace character is not '-'. */
  lemma NonZeroDigitInInput(s: string)
    requires HasNonZeroDigit(Unsigned(Body(s)))
    requires var b := Body(s); !(b != [] && b[0] == '-')
    ensures exists k | 0 <= k < |s| :: '1' <= s[k] <= '9'
    ensures var t := StripStart(s, NumericWhitespace); t != [] && t[0] != '-'
  {
    var t := StripStart(s, NumericWhitespace);
    var b := Body(s);
    var u := Unsigned(b);
    var m := u[..ExponentAt(u)];
    var j :| 0 <= j < |m| && '1' <= m[j] <= '9';
    var off := (|s| - |t|) + (if b != [] && IsSign(b[0]) then 1 else 0);
    UnsignedInInput(s);
    assert s[off + j] == m[j];
    assert b != [] && t[0] == b[0];
  }

  /** A string with no whitespace at its ends is its own body. */
  lemma BodyOfBare(s: string)
    requires s != [] && s[0] !in NumericWhitespace && s[|s| - 1] !in NumericWhitespace
    ensures Body(s) == s
  {
    assert LeadingRun(s, NumericWhitespace) == 0;
    assert StripStart(s, NumericWhitespace) == s;
    assert TrailingRun(s, NumericWhitespace) == 0;
  }

  /** Searching a string that holds none of `cs` runs off its end. */
  lemma {:induction false} FirstIndexInAbsent(s: string, cs: set<char>)
    requires forall k | 0 <= k < |s| :: s[k] !in cs
    ensures FirstIndexIn(s, cs) == |s|
  {
    if s != [] {
      FirstIndexInAbsent(s[1..], cs);
    }
  }

  /** An unsigned integer literal of plain digits is numeric, and it
      denotes a positive number exactly when one of its digits is not 0. */
  lemma DigitsAreNumeric(s: string)
    requires s != [] && AllDigits(s)
    ensures Body(s) == s && Unsigned(s) == s && IsUnsignedNumber(s)
    ensures IsNumeric(s)
    ensures HasNonZeroDigit(s) <==> exists k | 0 <= k < |s| :: s[k] != '0'
    ensures DenotesPositive(s) <==> exists k | 0 <= k < |s| :: s[k] != '0'
  {
    BodyOfBare(s);
    FirstIndexInAbsent(s, {'e', 'E'});
    FirstIndexInAbsent(s, {'.'});
    assert s[..|s|] == s;
  }

  /** Digits, a decimal point, digits: no whitespace, no sign and no
      exponent to take off. */
  lemma PointLiteralShape(a: string, b: string)
    requires AllDigits(a) && AllDigits(b)
    ensures var s := a + "." + b;
      Body(s) == s && Unsigned(s) == s && ExponentAt(s) == |s| && FirstIndexIn(s, {'.'}) == |a|
  {
    var s := a + "." + b;
    assert forall k | 0 <= k < |s| :: s[k] == '.' || IsDigit(s[k]);
    assert Body(s) == s by {
      assert s[0] !in NumericWhitespace && s[|s| - 1] !in NumericWhitespace;
      BodyOfBare(s);
    }
    assert ExponentAt(s) == |s| by {
      FirstIndexInAbsent(s, {'e', 'E'});
    }
    assert FirstIndexIn(s, {'.'}) == |a| by {
      FirstIndexInPrefix(s, |a|, {'.'});
    }
  }

  /** Digits, a decimal point, digits, with at least one digit, is numeric. */
  lemma PointLiteralIsNumeric(a: string, b: string)
    requires AllDigits(a) && AllDigits(b) && |a| + |b| >= 1
    ensures IsNumeric(a + "." + b)
  {
    var s := a + "." + b;
    PointLiteralShape(a, b);
    assert IsMantissa(s) by {
      assert s[..|a|] == a;
      assert s[|a| + 1..] == b;
    }
    assert s[..|s|] == s;
  }

  /** Such a literal with a non-zero digit before the point is positive. */
  lemma PointLiteralPositive(a: string, b: string, k: nat)
    requires AllDigits(a) && AllDigits(b) && k < |a| && a[k] != '0'
    ensures DenotesPositive(a + "." + b)
  {
    var s := a + "." + b;
    PointLiteralShape(a, b);
    var m := s[..ExponentAt(s)];
    assert m == s && m[k] == a[k];
    assert HasNonZeroDigit(s);
  }

  /** When the first `n` characters hold none of `cs` and the next one
      does, the search stops at `n`. */
  lemma {:induction false} FirstIndexInPrefix(s: string, n: nat, cs: set<char>)
    requires n < |s| && s[n] in cs
    requires forall k | 0 <= k < n :: s[k] !in cs
    ensures FirstIndexIn(s, cs) == n
  {
    if n > 0 {
      FirstIndexInPrefix(s[1..], n - 1, cs);
    }
  }

  /** A string that starts with anything but whitespace, a sign, a digit or
      a decimal point is not numeric. */
  lemma NotNumericAtStart(s: string)
    requires s != [] && s[0] !in NumericWhitespace && !IsSign(s[0]) && !IsDigit(s[0]) && s[0] != '.'
    ensures !IsNumeric(s)
  {
    assert LeadingRun(s, NumericWhitespace) == 0;
    var b := Body(s);
    assert b != [] && b[0] == s[0];
    var u := Unsigned(b);
    assert u == b;
    var m := u[..ExponentAt(u)];
    if m != [] {
      assert m[0] == s[0];
      var d := FirstIndexIn(m, {'.'});
      assert d != 0;
    }
  }
}
