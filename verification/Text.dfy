/** The string operations of the Go standard library that the controller relies on. */
module Text {

  const INT64_MIN := -0x8000_0000_0000_0000
  const INT64_MAX := 0x7fff_ffff_ffff_ffff
  const U32 := 0x1_0000_0000

  type int64 = x: int | INT64_MIN <= x <= INT64_MAX
  type uint32 = x: int | 0 <= x < U32

  predicate OccursAt(s: string, t: string, i: int) {
    0 <= i <= |s| - |t| && s[i..i + |t|] == t
  }

  /** strings.Contains */
  predicate Contains(s: string, t: string) {
    exists i | 0 <= i <= |s| :: OccursAt(s, t, i)
  }

  predicate IsSuffix(t: string, s: string) {
    |t| <= |s| && s[|s| - |t|..] == t
  }

  /** strings.Split with a one-character separator. */
  function Split(s: string, sep: char): (parts: seq<string>)
    ensures |parts| >= 1
    ensures forall i :: 0 <= i < |parts| ==> sep !in parts[i]
  {
    if s == [] then
      [""]
    else
      var rest := Split(s[1..], sep);
      if s[0] == sep then [""] + rest else [[s[0]] + rest[0]] + rest[1..]
  }

  function Join(parts: seq<string>, sep: char): string
    requires |parts| >= 1
  {
    if |parts| == 1 then parts[0] else parts[0] + [sep] + Join(parts[1..], sep)
  }

  /** Splitting loses nothing: joining the parts gives the string back. */
  lemma {:induction false} JoinSplit(s: string, sep: char)
    ensures Join(Split(s, sep), sep) == s
  {
    if s != [] {
      var rest := Split(s[1..], sep);
      JoinSplit(s[1..], sep);
      if s[0] == sep {
        assert Split(s, sep)[1..] == rest;
      } else if |rest| > 1 {
        assert Split(s, sep)[1..] == rest[1..];
      }
      assert s == [s[0]] + s[1..];
    }
  }

  lemma {:induction false} SplitNone(s: string, sep: char)
    requires sep !in s
    ensures Split(s, sep) == [s]
  {
    if s != [] {
      SplitNone(s[1..], sep);
      assert s[0] in s;
      assert s == [s[0]] + s[1..];
    }
  }

  /** Two parts without the separator are recovered from their join. */
  lemma {:induction false} SplitTwo(a: string, b: string, sep: char)
    requires sep !in a && sep !in b
    ensures Split(a + [sep] + b, sep) == [a, b]
  {
    if a == [] {
      SplitNone(b, sep);
      assert (a + [sep] + b)[1..] == b;
    } else {
      SplitTwo(a[1..], b, sep);
      assert a[0] in a;
      assert (a + [sep] + b)[1..] == a[1..] + [sep] + b;
      assert [a[0]] + a[1..] == a;
    }
  }

  predicate IsDigit(c: char) {
    '0' <= c <= '9'
  }

  function Digit(n: nat): (c: char)
    requires n < 10
    ensures IsDigit(c)
  {
    '0' + n as char
  }

  function DigitValue(c: char): nat
    requires IsDigit(c)
  {
    (c - '0') as nat
  }

  /** Decimal notation without sign, most significant digit first. */
  function FormatNat(n: nat): (s: string)
    ensures s != "" && forall c :: c in s ==> IsDigit(c)
  {
    if n < 10 then [Digit(n)] else FormatNat(n / 10) + [Digit(n % 10)]
  }

  /** fmt.Sprintf("%d", n) */
  function FormatInt(n: int): (s: string)
    ensures s != "" && forall c :: c in s ==> IsDigit(c) || c == '-'
  {
    if n < 0 then "-" + FormatNat(-n) else FormatNat(n)
  }

  /** The number that a sequence of digits denotes; nothing if some character is not a digit. */
  function ParseDigits(s: string): int {
    if s == "" then
      0
    else if !IsDigit(s[|s| - 1]) then
      -1
    else
      var high := ParseDigits(s[..|s| - 1]);
      if high < 0 then -1 else 10 * high + DigitValue(s[|s| - 1])
  }

  datatype Parsed = Parsed(value: int64, ok: bool)

  /** strconv.Atoi on a 64-bit platform: a syntax error yields 0, a range error the nearest bound. */
  function Atoi(s: string): Parsed {
    var negative := s != "" && s[0] == '-';
    var digits := if s != "" && (s[0] == '-' || s[0] == '+') then s[1..] else s;
    var magnitude := ParseDigits(digits);
    if digits == "" || magnitude < 0 then
      Parsed(0, false)
    else
      var n := if negative then -magnitude else magnitude;
      if n > INT64_MAX then Parsed(INT64_MAX, false)
      else if n < INT64_MIN then Parsed(INT64_MIN, false)
      else Parsed(n, true)
  }

  lemma {:induction false} ParseFormatNat(n: nat)
    ensures ParseDigits(FormatNat(n)) == n
  {
    if n >= 10 {
      ParseFormatNat(n / 10);
      assert FormatNat(n)[..|FormatNat(n)| - 1] == FormatNat(n / 10);
    } else {
      assert FormatNat(n)[..0] == "";
    }
  }

  /** Reading what "%d" printed returns the number, for every 64-bit integer. */
  lemma AtoiOfPrinted(n: int64)
    ensures Atoi(FormatInt(n)) == Parsed(n, true)
  {
    if n < 0 {
      var magnitude: nat := -(n as int);
      ParseFormatNat(magnitude);
      assert FormatInt(n)[1..] == FormatNat(magnitude);
    } else {
      ParseFormatNat(n);
      assert IsDigit(FormatNat(n)[0]);
    }
  }

  lemma FormatNatInjective(m: nat, n: nat)
    requires FormatNat(m) == FormatNat(n)
    ensures m == n
  {
    hide FormatNat, ParseDigits;
    ParseFormatNat(m);
    ParseFormatNat(n);
  }

  /** A number is printed with a sign exactly if it is negative. */
  lemma SignOfPrinted(n: int)
    ensures FormatInt(n)[0] == '-' <==> n < 0
    ensures n < 0 ==> FormatInt(n)[1..] == FormatNat(-n)
  {
    if n >= 0 {
      assert FormatNat(n)[0] in FormatNat(n);
    }
  }

  /** Decimal notation is injective on all integers. */
  lemma FormatIntInjective(m: int, n: int)
    requires FormatInt(m) == FormatInt(n)
    ensures m == n
  {
    hide FormatNat;
    SignOfPrinted(m);
    SignOfPrinted(n);
    if m < 0 {
      FormatNatInjective(-m, -n);
    } else {
      FormatNatInjective(m, n);
    }
  }
}
