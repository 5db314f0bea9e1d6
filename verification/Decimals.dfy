/** Decimal text as printf writes an unsigned number and as the server reads one back. */
module Decimals {
  import opened Options

  const U64_MAX: nat := 0xFFFF_FFFF_FFFF_FFFF

  function Digit(d: nat): char
    requires d < 10
  {
    ('0' as int + d) as char
  }

  function Decimal(n: nat): string {
    if n < 10 then [Digit(n)] else Decimal(n / 10) + [Digit(n % 10)]
  }

  function Pow10(k: nat): nat {
    if k == 0 then 1 else 10 * Pow10(k - 1)
  }

  predicate IsDigit(c: char) {
    '0' <= c <= '9'
  }

  function DigitOf(c: char): nat
    requires IsDigit(c)
  {
    c as int - '0' as int
  }

  predicate AllDigits(s: string) {
    forall i | 0 <= i < |s| :: IsDigit(s[i])
  }

  function Value(s: string): nat
    requires AllDigits(s)
  {
    if s == "" then 0 else 10 * Value(s[..|s| - 1]) + DigitOf(s[|s| - 1])
  }

  // Written without a superfluous zero in front.
  predicate Canonical(s: string) {
    s != "" && AllDigits(s) && (s[0] == '0' ==> |s| == 1)
  }

  lemma {:induction false} DecimalShort(n: nat, k: nat)
    requires k >= 1 && n < Pow10(k)
    ensures 1 <= |Decimal(n)| <= k
  {
    if n >= 10 {
      assert k > 1;
      DecimalShort(n / 10, k - 1);
    }
  }

  lemma {:induction false} DecimalCanonical(n: nat)
    ensures Canonical(Decimal(n)) && Value(Decimal(n)) == n
    ensures n > 0 ==> Decimal(n)[0] != '0'
  {
    if n >= 10 {
      DecimalCanonical(n / 10);
      assert Decimal(n)[..|Decimal(n)| - 1] == Decimal(n / 10);
    } else {
      assert Decimal(n)[..0] == "";
    }
  }

  lemma {:induction false} CanonicalDecimal(s: string)
    requires Canonical(s)
    ensures Decimal(Value(s)) == s
    ensures s[0] != '0' ==> Value(s) > 0
  {
    var start := s[..|s| - 1];
    if |s| == 1 {
      assert start == "";
      assert s == [s[0]];
    } else {
      CanonicalDecimal(start);
      assert Value(s) / 10 == Value(start) && Value(s) % 10 == DigitOf(s[|s| - 1]);
      assert s == start + [s[|s| - 1]];
    }
  }

  lemma {:induction false} PrefixSmaller(s: string, k: nat)
    requires AllDigits(s) && k <= |s|
    ensures Value(s[..k]) <= Value(s)
    decreases |s|
  {
    if k == |s| {
      assert s[..k] == s;
    } else {
      var start := s[..|s| - 1];
      assert start[..k] == s[..k];
      PrefixSmaller(start, k);
    }
  }

  /**
   * decimal_u64: reads exactly the texts that print an unsigned 64-bit number, each as that number. The test
   * before the multiplication refuses exactly the texts that would overflow.
   */
  method ReadU64(text: string) returns (r: Option<nat>)
    ensures r.Some? <==> Canonical(text) && Value(text) <= U64_MAX
    ensures r.Some? ==> r.value <= U64_MAX && text == Decimal(r.value)
    ensures forall n: nat | n <= U64_MAX && text == Decimal(n) :: r == Some(n)
  {
    forall n: nat | n <= U64_MAX && text == Decimal(n)
      ensures Canonical(text) && Value(text) == n
    {
      DecimalCanonical(n);
    }
    if |text| == 0 || (text[0] == '0' && |text| > 1) {
      return None;
    }
    var result: nat := 0;
    var i := 0;
    while i < |text|
      invariant 0 <= i <= |text|
      invariant AllDigits(text[..i]) && result == Value(text[..i]) <= U64_MAX
    {
      if !IsDigit(text[i]) {
        return None;
      }
      var digit := DigitOf(text[i]);
      assert text[..i + 1][..i] == text[..i];
      if result > (U64_MAX - digit) / 10 {
        if AllDigits(text) {
          PrefixSmaller(text, i + 1);
        }
        return None;
      }
      result := result * 10 + digit;
      i := i + 1;
    }
    assert text[..i] == text;
    CanonicalDecimal(text);
    return Some(result);
  }
}
