/** The PHP string built-ins the request handler relies on: `trim`, the
    `empty` test on a string, and the decimal text of an integer produced by
    string concatenation. Strings are sequences of characters, so a length
    is a character count, as with `mb_strlen`. */
module PhpText {

  /** The characters `trim` strips when it is given no character list:
      space, tab, line feed, carriage return, NUL and vertical tab. */
  const TrimChars: set<char> := {' ', '\t', '\n', '\r', '\0', '\U{B}'}

  /** How many characters from `ws` stand at the start of `s`. */
  function LeadingRun(s: string, ws: set<char>): (n: nat)
    ensures n <= |s|
    ensures forall k | 0 <= k < n :: s[k] in ws
    ensures n < |s| ==> s[n] !in ws
  {
    if s != [] && s[0] in ws then 1 + LeadingRun(s[1..], ws) else 0
  }

  /** How many characters from `ws` stand at the end of `s`. */
  function TrailingRun(s: string, ws: set<char>): (n: nat)
    ensures n <= |s|
    ensures forall k | |s| - n <= k < |s| :: s[k] in ws
    ensures n < |s| ==> s[|s| - 1 - n] !in ws
  {
    if s != [] && s[|s| - 1] in ws then 1 + TrailingRun(s[..|s| - 1], ws) else 0
  }

  /** `s` with every leading character from `ws` removed. */
  function StripStart(s: string, ws: set<char>): string
  {
    s[LeadingRun(s, ws)..]
  }

  /** `s` with every trailing character from `ws` removed. */
  function StripEnd(s: string, ws: set<char>): string
  {
    s[..|s| - TrailingRun(s, ws)]
  }

  /** Neither end of `s` is a character `trim` would strip. */
  predicate Trimmed(s: string)
  {
    s == [] || (s[0] !in TrimChars && s[|s| - 1] !in TrimChars)
  }

  /** `r` is the piece of `s` starting at offset `a`, and everything of `s`
      before and after that piece is whitespace `trim` strips. */
  predicate CutAt(s: string, r: string, a: int)
  {
    && 0 <= a <= |s| - |r|
    && r == s[a..a + |r|]
    && (forall k | 0 <= k < a :: s[k] in TrimChars)
    && (forall k | a + |r| <= k < |s| :: s[k] in TrimChars)
  }

  /** PHP `trim($s)`: the middle of `s` left once the whitespace runs at
      both ends are cut off. */
  function Trim(s: string): (r: string)
    ensures Trimmed(r)
    ensures exists a :: CutAt(s, r, a)
  {
    var t := StripStart(s, TrimChars);
    var r := StripEnd(t, TrimChars);
    assert CutAt(s, r, |s| - |t|);
    r
  }

  /** Trimming changes nothing once a string is trimmed. */
  lemma TrimOfTrimmed(s: string)
    requires Trimmed(s)
    ensures Trim(s) == s
  {
    assert LeadingRun(s, TrimChars) == 0;
    assert StripStart(s, TrimChars) == s;
    assert TrailingRun(s, TrimChars) == 0;
  }

  /** `trim` is idempotent. */
  lemma TrimIdempotent(s: string)
    ensures Trim(Trim(s)) == Trim(s)
  {
    TrimOfTrimmed(Trim(s));
  }

  /** PHP `empty($s)` for a string: true exactly for "" and "0". */
  predicate PhpEmpty(s: string)
  {
    s == "" || s == "0"
  }

  predicate IsDigit(c: char)
  {
    '0' <= c <= '9'
  }

  predicate AllDigits(s: string)
  {
    forall k | 0 <= k < |s| :: IsDigit(s[k])
  }

  function DigitChar(d: nat): (c: char)
    requires d < 10
    ensures IsDigit(c) && c as int - '0' as int == d
  {
    ('0' as int + d) as char
  }

  /** The decimal text PHP produces when an integer is concatenated to a
      string (`'...' . $newId`), for the non-negative ids used here. */
  function Decimal(n: nat): (r: string)
    ensures |r| >= 1 && AllDigits(r)
    ensures |r| > 1 ==> r[0] != '0'
  {
    if n < 10 then [DigitChar(n)] else Decimal(n / 10) + [DigitChar(n % 10)]
  }

  /** The number a string of decimal digits denotes. */
  function DigitsValue(s: string): nat
    requires AllDigits(s)
  {
    if s == [] then 0
    else DigitsValue(s[..|s| - 1]) * 10 + (s[|s| - 1] as int - '0' as int)
  }

  /** Reading the decimal text of `n` back gives `n`. */
  lemma {:induction false} DecimalRoundTrip(n: nat)
    ensures DigitsValue(Decimal(n)) == n
  {
    var r := Decimal(n);
    if n >= 10 {
      DecimalRoundTrip(n / 10);
      assert r[..|r| - 1] == Decimal(n / 10);
    }
  }

  /** Different numbers have different decimal texts. */
  lemma DecimalInjective(m: nat, n: nat)
    requires Decimal(m) == Decimal(n)
    ensures m == n
  {
    DecimalRoundTrip(m);
    DecimalRoundTrip(n);
  }
}
