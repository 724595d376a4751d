/** The text of the per-user attempt counter file: how it is written
    (`to_string` of an i32) and how it is read back (`trim`, then an i32
    parse whose failure counts as 0). */
module AttemptCounter {
  import opened Wrappers

  const I32_MIN: int := -0x8000_0000
  const I32_MAX: int := 0x7FFF_FFFF

  predicate InI32(n: int) {
    I32_MIN <= n <= I32_MAX
  }

  /** The Unicode White_Space property, which is what `trim` strips. */
  predicate IsWhitespace(c: char) {
    var n := c as int;
    || (0x09 <= n <= 0x0D) || n == 0x20 || n == 0x85 || n == 0xA0 || n == 0x1680
    || (0x2000 <= n <= 0x200A) || n == 0x2028 || n == 0x2029 || n == 0x202F
    || n == 0x205F || n == 0x3000
  }

  /** Drops leading whitespace: the result is the suffix of `s` that starts
      at its first non-whitespace character. */
  function TrimStart(s: string): (r: string)
    ensures |r| <= |s| && r == s[|s| - |r|..]
    ensures r == [] || !IsWhitespace(r[0])
    ensures forall k :: 0 <= k < |s| - |r| ==> IsWhitespace(s[k])
  {
    if s != [] && IsWhitespace(s[0]) then TrimStart(s[1..]) else s
  }

  /** Drops trailing whitespace: the result is the prefix of `s` that ends
      at its last non-whitespace character. */
  function TrimEnd(s: string): (r: string)
    ensures |r| <= |s| && r == s[..|r|]
    ensures r == [] || !IsWhitespace(r[|r| - 1])
    ensures forall k :: |r| <= k < |s| ==> IsWhitespace(s[k])
  {
    if s != [] && IsWhitespace(s[|s| - 1]) then TrimEnd(s[..|s| - 1]) else s
  }

  function Trim(s: string): string {
    TrimEnd(TrimStart(s))
  }

  /** Text that neither starts nor ends with whitespace is left as it is. */
  lemma TrimKeepsTrimmed(s: string)
    requires s != [] && !IsWhitespace(s[0]) && !IsWhitespace(s[|s| - 1])
    ensures Trim(s) == s
  {
    assert TrimStart(s) == s;
  }

  predicate IsDigit(c: char) {
    '0' <= c <= '9'
  }

  predicate AllDigits(s: string) {
    forall k :: 0 <= k < |s| ==> IsDigit(s[k])
  }

  function DigitValue(c: char): (d: nat)
    requires IsDigit(c)
    ensures d < 10
  {
    (c as int) - ('0' as int)
  }

  function DigitChar(d: nat): (c: char)
    requires d < 10
    ensures IsDigit(c) && DigitValue(c) == d
  {
    (('0' as int) + d) as char
  }

  /** The value of a run of decimal digits, most significant first. */
  function DigitsValue(s: string): nat
    requires AllDigits(s)
  {
    if s == [] then 0 else DigitsValue(s[..|s| - 1]) * 10 + DigitValue(s[|s| - 1])
  }

  /** `str::parse::<i32>`: an optional '+' or '-', then one or more ASCII
      digits, and a value inside the i32 range; anything else is an error. */
  function ParseI32(s: string): (r: Option<int>)
    ensures r.Some? ==> InI32(r.value)
  {
    var signed := |s| > 0 && (s[0] == '+' || s[0] == '-');
    var digits := if signed then s[1..] else s;
    if digits == [] || !AllDigits(digits) then None
    else
      var magnitude: int := DigitsValue(digits);
      var v := if signed && s[0] == '-' then -magnitude else magnitude;
      if InI32(v) then Some(v) else None
  }

  /** The counter as the helper reads it from the file's text: unparsable
      text counts as 0. */
  function ParseAttempts(content: string): (n: int)
    ensures InI32(n)
    ensures ParseI32(Trim(content)).None? ==> n == 0
  {
    match ParseI32(Trim(content))
    case Some(v) => v
    case None => 0
  }

  /** Decimal digits of a natural number, without leading zeros. */
  function NatToDecimal(n: nat): (r: string)
    ensures r != [] && AllDigits(r)
    ensures |r| > 1 ==> r[0] != '0'
  {
    if n < 10 then [DigitChar(n)] else NatToDecimal(n / 10) + [DigitChar(n % 10)]
  }

  /** `i32::to_string`: a '-' for negative values, then the digits. */
  function Render(n: int): string {
    if n < 0 then "-" + NatToDecimal(-n) else NatToDecimal(n)
  }

  lemma {:induction false} DecimalRoundTrip(n: nat)
    ensures DigitsValue(NatToDecimal(n)) == n
  {
    if n >= 10 {
      var p := NatToDecimal(n / 10);
      var r := NatToDecimal(n);
      assert r == p + [DigitChar(n % 10)];
      assert r[..|r| - 1] == p;
      DecimalRoundTrip(n / 10);
    }
  }

  /** What the helper writes, it reads back: rendering an i32 counter and
      parsing the file's text gives the counter again. */
  lemma RenderParseRoundTrip(n: int)
    requires InI32(n)
    ensures ParseAttempts(Render(n)) == n
  {
    var s := Render(n);
    RenderIsTrimmed(n);
    TrimKeepsTrimmed(s);
    RenderParses(n);
  }

  lemma RenderIsTrimmed(n: int)
    ensures var s := Render(n); s != [] && !IsWhitespace(s[0]) && !IsWhitespace(s[|s| - 1])
  {
    var m: nat := if n < 0 then -n else n;
    var digits := NatToDecimal(m);
    var s := Render(n);
    assert IsDigit(digits[|digits| - 1]);
    if n < 0 {
      assert s == "-" + digits;
      assert s[|s| - 1] == digits[|digits| - 1];
    } else {
      assert IsDigit(digits[0]);
    }
  }

  lemma RenderParses(n: int)
    requires InI32(n)
    ensures ParseI32(Render(n)) == Some(n)
  {
    var m: nat := if n < 0 then -n else n;
    var digits := NatToDecimal(m);
    var s := Render(n);
    DecimalRoundTrip(m);
    if n < 0 {
      assert s[1..] == digits;
    } else {
      assert IsDigit(s[0]);
    }
  }
}
