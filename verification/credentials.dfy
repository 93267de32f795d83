/** The two small credential policies of `AuthService`: the password
    strength rule that `resetPassword` re-checks, and the six-digit login
    code that `generateTwoFactorCode` draws. */
module Credentials {

  // ---------------------------------------------------------------------
  // Password strength: /^(?=.*[a-z])(?=.*[A-Z])(?=.*\d)(?=.*[^A-Za-z0-9]).{8,}$/

  predicate IsLower(c: char) { 'a' <= c <= 'z' }
  predicate IsUpper(c: char) { 'A' <= c <= 'Z' }
  predicate IsDigit(c: char) { '0' <= c <= '9' }
  predicate IsAlnum(c: char) { IsLower(c) || IsUpper(c) || IsDigit(c) }

  /** The characters a JavaScript `.` does not match without the `s` flag. */
  predicate IsLineTerminator(c: char)
  {
    c == '\n' || c == '\r' || c as int == 0x2028 || c as int == 0x2029
  }

  /** JavaScript strings count UTF-16 code units: a character outside the
      basic plane is two of them, and `.{8,}` counts units. */
  function Utf16Width(c: char): nat
  {
    if c as int > 0xFFFF then 2 else 1
  }

  function Utf16Length(s: string): nat
  {
    if |s| == 0 then 0 else Utf16Length(s[..|s| - 1]) + Utf16Width(s[|s| - 1])
  }

  /** The strength rule read as a set of conditions: the whole string is one
      line of at least eight code units containing a lower-case letter, an
      upper-case letter, a digit and a character that is none of those.
      (A surrogate half matches `[^A-Za-z0-9]`, so a character outside the
      basic plane counts as the special character.) */
  predicate StrongPassword(p: string)
  {
    && Utf16Length(p) >= 8
    && (forall i :: 0 <= i < |p| ==> !IsLineTerminator(p[i]))
    && (exists i :: 0 <= i < |p| && IsLower(p[i]))
    && (exists i :: 0 <= i < |p| && IsUpper(p[i]))
    && (exists i :: 0 <= i < |p| && IsDigit(p[i]))
    && (exists i :: 0 <= i < |p| && !IsAlnum(p[i]))
  }

  /** `passwordRegex.test(p)` as a single left-to-right scan, the way the
      anchored pattern consumes its input; it accepts exactly the strong
      passwords. */
  method TestPasswordRegex(p: string) returns (ok: bool)
    ensures ok <==> StrongPassword(p)
  {
    var units := 0;
    var lower, upper, digit, special, oneLine := false, false, false, false, true;
    var i := 0;
    while i < |p|
      invariant 0 <= i <= |p|
      invariant units == Utf16Length(p[..i])
      invariant oneLine <==> forall j :: 0 <= j < i ==> !IsLineTerminator(p[j])
      invariant lower <==> exists j :: 0 <= j < i && IsLower(p[j])
      invariant upper <==> exists j :: 0 <= j < i && IsUpper(p[j])
      invariant digit <==> exists j :: 0 <= j < i && IsDigit(p[j])
      invariant special <==> exists j :: 0 <= j < i && !IsAlnum(p[j])
    {
      var c := p[i];
      assert p[..i + 1][..i] == p[..i];
      units := units + Utf16Width(c);
      oneLine := oneLine && !IsLineTerminator(c);
      lower := lower || IsLower(c);
      upper := upper || IsUpper(c);
      digit := digit || IsDigit(c);
      special := special || !IsAlnum(c);
      i := i + 1;
    }
    assert p[..|p|] == p;
    ok := oneLine && units >= 8 && lower && upper && digit && special;
  }

  // ---------------------------------------------------------------------
  // Two-factor login codes: String(Math.floor(100000 + Math.random() * 900000))

  const CODE_MIN: nat := 100000
  const CODE_SPAN: nat := 900000

  function DigitChar(d: nat): char
    requires d < 10
  {
    (48 + d) as char
  }

  /** `String(n)` for a non-negative integer: decimal, no leading zeros. */
  function DecimalString(n: nat): string
  {
    if n < 10 then [DigitChar(n)] else DecimalString(n / 10) + [DigitChar(n % 10)]
  }

  predicate AllDigits(s: string)
  {
    forall i :: 0 <= i < |s| ==> IsDigit(s[i])
  }

  /** The numeric value of a string of decimal digits. */
  function DigitsValue(s: string): nat
    requires AllDigits(s)
  {
    if |s| == 0 then 0
    else DigitsValue(s[..|s| - 1]) * 10 + ((s[|s| - 1] as int - 48) as nat)
  }

  function Pow10(k: nat): nat
  {
    if k == 0 then 1 else 10 * Pow10(k - 1)
  }

  /** A code as stored and mailed: exactly six decimal digits, the first
      not zero. */
  predicate IsSixDigitCode(s: string)
  {
    |s| == 6 && AllDigits(s) && s[0] != '0'
  }

  /** Printing and reading back a number gives the number; the printed form
      has no leading zero and exactly as many digits as the number has. */
  lemma {:induction false} DecimalStringFacts(n: nat, k: nat)
    requires 0 < k && (k == 1 || Pow10(k - 1) <= n) && n < Pow10(k)
    ensures AllDigits(DecimalString(n))
    ensures DigitsValue(DecimalString(n)) == n
    ensures |DecimalString(n)| == k
    ensures (n != 0 ==> DecimalString(n)[0] != '0')
    decreases k
  {
    var s := DecimalString(n);
    if n < 10 {
      if k > 1 {
        Pow10AtLeastTen(k - 1);
      }
      assert DigitsValue(s) == DigitsValue(s[..0]) * 10 + n;
    } else {
      assert k > 1;
      var k' := k - 1;
      assert n / 10 < Pow10(k');
      assert k' == 1 || Pow10(k' - 1) <= n / 10;
      DecimalStringFacts(n / 10, k');
      var t := DecimalString(n / 10);
      assert s == t + [DigitChar(n % 10)];
      assert s[..|s| - 1] == t;
      assert s[0] == t[0];
    }
  }

  lemma {:induction false} Pow10AtLeastTen(k: nat)
    requires k >= 1
    ensures Pow10(k) >= 10
  {
    if k > 1 {
      Pow10AtLeastTen(k - 1);
    }
  }

  /** `generateTwoFactorCode()`: `draw` stands for the integer part of
      `Math.random() * 900000`; the code is the decimal string of
      `100000 + draw`, always six digits. */
  function GenerateTwoFactorCode(draw: nat): (code: string)
    requires draw < CODE_SPAN
    ensures IsSixDigitCode(code)
    ensures DigitsValue(code) == CODE_MIN + draw
  {
    assert Pow10(5) == 100000 && Pow10(6) == 1000000;
    DecimalStringFacts(CODE_MIN + draw, 6);
    DecimalString(CODE_MIN + draw)
  }

  /** Different draws give different codes, so the code identifies the draw. */
  lemma CodesAreDistinct(a: nat, b: nat)
    requires a < CODE_SPAN && b < CODE_SPAN && a != b
    ensures GenerateTwoFactorCode(a) != GenerateTwoFactorCode(b)
  {
    assert DigitsValue(GenerateTwoFactorCode(a)) != DigitsValue(GenerateTwoFactorCode(b));
  }
}
