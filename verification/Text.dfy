/** Characters, decimal numbers and the order of texts, as the program's libraries define them. */
module Text {
  import opened Options

  type Text = seq<char>

  predicate IsSpace(c: char) {
    c == ' ' || c == '\t' || c == '\n' || c == '\r'
  }

  /** What the C library takes for space. */
  predicate IsLibrarySpace(c: char) {
    IsSpace(c) || c as int == 11 || c as int == 12
  }

  predicate IsDigit(c: char) {
    '0' <= c <= '9'
  }

  function DigitOf(c: char): (d: nat)
    requires IsDigit(c)
    ensures d < 10
  {
    c as int - '0' as int
  }

  function CharOf(d: nat): (c: char)
    requires d < 10
    ensures IsDigit(c) && DigitOf(c) == d
  {
    (d + '0' as int) as char
  }

  function Spaces(n: nat): (s: Text)
    ensures |s| == n && (forall c | c in s :: c == ' ') && forall i | 0 <= i < n :: s[i] == ' '
  {
    if n == 0 then [] else Spaces(n - 1) + [' ']
  }

  // ---------- decimal numbers ----------

  /** The decimal digits of a number, without leading zeros. */
  function Decimal(n: nat): (s: Text)
    ensures s != [] && forall c | c in s :: IsDigit(c)
  {
    if n < 10 then [CharOf(n)] else Decimal(n / 10) + [CharOf(n % 10)]
  }

  function ReadDecimal(s: Text): nat
    requires forall c | c in s :: IsDigit(c)
  {
    if s == [] then 0 else 10 * ReadDecimal(s[..|s| - 1]) + DigitOf(s[|s| - 1])
  }

  lemma {:induction false} DecimalRoundTrip(n: nat)
    ensures ReadDecimal(Decimal(n)) == n
  {
    if n < 10 {
      assert [CharOf(n)][..0] == [];
    } else {
      DecimalRoundTrip(n / 10);
      var s := Decimal(n / 10);
      assert (s + [CharOf(n % 10)])[..|s|] == s;
    }
  }

  function IntText(n: int): (s: Text)
    ensures s != [] && (s[0] == '-' || IsDigit(s[0]))
  {
    if n < 0 then ['-'] + Decimal(-n) else Decimal(n)
  }

  const INT64_MIN: int := -0x8000_0000_0000_0000
  const INT64_MAX: int := 0x7fff_ffff_ffff_ffff

  /** `std::stoll` on an optional minus sign and digits. */
  function ReadInt64(s: Text): Option<int>
    requires s == [] || s[0] == '-' || IsDigit(s[0])
    requires forall i | 1 <= i < |s| :: IsDigit(s[i])
  {
    var digits := if s != [] && s[0] == '-' then s[1..] else s;
    if digits == [] then None
    else
      var value: int := if digits == s then ReadDecimal(digits) else 0 - ReadDecimal(digits);
      if INT64_MIN <= value <= INT64_MAX then Some(value) else None
  }

  lemma IntTextDigits(n: int)
    ensures forall i | 1 <= i < |IntText(n)| :: IsDigit(IntText(n)[i])
    ensures n < 0 ==> IntText(n)[1..] == Decimal(-n)
  {
    if n < 0 {
      assert forall i | 1 <= i < |IntText(n)| :: IntText(n)[i] in Decimal(-n);
    } else {
      assert forall i | 0 <= i < |IntText(n)| :: IntText(n)[i] in Decimal(n);
    }
  }

  lemma Int64RoundTrip(n: int)
    requires INT64_MIN <= n <= INT64_MAX
    requires forall i | 1 <= i < |IntText(n)| :: IsDigit(IntText(n)[i])
    ensures ReadInt64(IntText(n)) == Some(n)
  {
    IntTextDigits(n);
    if n < 0 {
      DecimalRoundTrip(-n);
    } else {
      DecimalRoundTrip(n);
      assert Decimal(n)[0] in Decimal(n);
    }
  }

  // ---------- splitting off a prefix ----------

  predicate IsSuffix(r: Text, s: Text) {
    |r| <= |s| && r == s[|s| - |r|..]
  }

  /** What is left after the leading characters that satisfy `p`. */
  function SkipWhile(s: Text, p: char -> bool): (r: Text)
    ensures |r| <= |s|
    ensures r != [] ==> !p(r[0])
  {
    if s == [] || !p(s[0]) then s else SkipWhile(s[1..], p)
  }

  lemma {:induction false} SkipWhileSuffix(s: Text, p: char -> bool)
    ensures IsSuffix(SkipWhile(s, p), s)
    ensures forall i | 0 <= i < |s| - |SkipWhile(s, p)| :: p(s[i])
  {
    if s != [] && p(s[0]) {
      SkipWhileSuffix(s[1..], p);
    }
  }

  lemma {:induction false} SkipWhileExact(a: Text, b: Text, p: char -> bool)
    requires forall c | c in a :: p(c)
    requires b == [] || !p(b[0])
    ensures SkipWhile(a + b, p) == b
  {
    if a == [] {
      assert a + b == b;
    } else {
      assert (a + b)[1..] == a[1..] + b;
      SkipWhileExact(a[1..], b, p);
    }
  }

  function SkipSpaces(s: Text): (r: Text)
    ensures |r| <= |s|
    ensures r != [] ==> !IsSpace(r[0])
  {
    SkipWhile(s, IsSpace)
  }

  function SkipDigitsOf(s: Text): (r: Text)
    ensures |r| <= |s| && (s != [] && IsDigit(s[0]) ==> |r| < |s|)
    ensures r != [] ==> !IsDigit(r[0])
  {
    SkipWhile(s, IsDigit)
  }

  lemma {:induction false} SkipMoreSpaces(a: Text, b: Text)
    requires forall c | c in a :: IsSpace(c)
    ensures SkipSpaces(a + b) == SkipSpaces(b)
  {
    if a == [] {
      assert a + b == b;
    } else {
      assert (a + b)[1..] == a[1..] + b;
      SkipMoreSpaces(a[1..], b);
    }
  }

  // ---------- the order of texts ----------

  /** Lexicographic by character code, a prefix first. */
  predicate TextLess(a: Text, b: Text) {
    b != [] && (a == [] || a[0] < b[0] || (a[0] == b[0] && TextLess(a[1..], b[1..])))
  }

  lemma {:induction false} TextLessTotal(a: Text, b: Text)
    ensures TextLess(a, b) || a == b || TextLess(b, a)
  {
    if a != [] && b != [] && a[0] == b[0] {
      TextLessTotal(a[1..], b[1..]);
      assert a == [a[0]] + a[1..] && b == [b[0]] + b[1..];
    }
  }

  lemma {:induction false} TextLessTransitive(a: Text, b: Text, c: Text)
    requires TextLess(a, b) && TextLess(b, c)
    ensures TextLess(a, c)
  {
    if a != [] && a[0] == b[0] && b[0] == c[0] {
      TextLessTransitive(a[1..], b[1..], c[1..]);
    }
  }

  lemma {:induction false} TextLessIrreflexive(a: Text)
    ensures !TextLess(a, a)
  {
    if a != [] { TextLessIrreflexive(a[1..]); }
  }
}
