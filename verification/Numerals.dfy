/** Decimal numerals: reading digits, printing naturals, powers of ten. */
module Numerals {
  import opened Text

  function Pow10(n: nat): (r: nat)
    ensures r >= 1
  {
    if n == 0 then 1 else 10 * Pow10(n - 1)
  }

  lemma Associate(x: int, y: int, z: int)
    ensures x * (y * z) == (x * y) * z
  {
  }

  lemma AppendDigit(x: int, p: int, v: int, d: int)
    ensures (x * p + v) * 10 + d == x * (10 * p) + (v * 10 + d)
  {
  }

  lemma {:induction false} Pow10Add(a: nat, b: nat)
    ensures Pow10(a + b) == Pow10(a) * Pow10(b)
  {
    if a > 0 {
      Pow10Add(a - 1, b);
      Associate(10, Pow10(a - 1), Pow10(b));
    }
  }

  lemma {:induction false} Pow10Monotone(a: nat, b: nat)
    requires a <= b
    ensures Pow10(a) <= Pow10(b)
  {
    if a < b { Pow10Monotone(a, b - 1); }
  }

  predicate IsDigit(c: char) { '0' <= c <= '9' }

  predicate AllDigits(s: string) {
    forall i :: 0 <= i < |s| ==> IsDigit(s[i])
  }

  /** The number a digit string denotes; the empty string denotes zero. */
  function Value(s: string): nat
    requires AllDigits(s)
  {
    if s == "" then 0 else Value(s[..|s| - 1]) * 10 + (s[|s| - 1] as int - '0' as int)
  }

  lemma {:induction false} ValueConcat(a: string, b: string)
    requires AllDigits(a) && AllDigits(b)
    ensures AllDigits(a + b)
    ensures Value(a + b) == Value(a) * Pow10(|b|) + Value(b)
  {
    if b == "" {
      assert a + b == a;
    } else {
      var b' := b[..|b| - 1];
      assert (a + b)[..|a + b| - 1] == a + b';
      ValueConcat(a, b');
      AppendDigit(Value(a), Pow10(|b'|), Value(b'), b[|b| - 1] as int - '0' as int);
    }
  }

  function Zeros(n: nat): (r: string)
    ensures |r| == n
    ensures forall i :: 0 <= i < n ==> r[i] == '0'
  {
    seq(n, _ => '0')
  }

  lemma {:induction false} ValueZeros(n: nat)
    ensures Value(Zeros(n)) == 0
  {
    if n > 0 {
      ValueZeros(n - 1);
      assert Zeros(n)[..n - 1] == Zeros(n - 1);
    }
  }

  /** Every digit is zero exactly when the value is zero. */
  lemma {:induction false} ValueZero(s: string)
    requires AllDigits(s)
    ensures Value(s) == 0 <==> forall i :: 0 <= i < |s| ==> s[i] == '0'
  {
    if s != "" {
      var t := s[..|s| - 1];
      ValueZero(t);
      assert forall i :: 0 <= i < |t| ==> t[i] == s[i];
    }
  }

  lemma {:induction false} PrefixValue(s: string, n: nat)
    requires AllDigits(s) && n <= |s|
    ensures Value(s[..n]) <= Value(s)
  {
    if n < |s| {
      PrefixValue(s[..|s| - 1], n);
      assert s[..|s| - 1][..n] == s[..n];
    } else {
      assert s[..n] == s;
    }
  }

  /** Canonical decimal text of a natural number, as `{}` prints it. */
  function Print(n: nat): (r: string)
    ensures |r| >= 1 && AllDigits(r)
  {
    if n < 10 then [('0' as int + n) as char] else Print(n / 10) + [('0' as int + n % 10) as char]
  }

  /** Reading a printed number gives it back. */
  lemma {:induction false} ValuePrint(n: nat)
    ensures Value(Print(n)) == n
  {
    if n >= 10 {
      ValuePrint(n / 10);
      assert Print(n)[..|Print(n)| - 1] == Print(n / 10);
    } else {
      assert Print(n)[..0] == "";
    }
  }

  lemma {:induction false} PrintLength(n: nat, k: nat)
    requires k >= 1 && n < Pow10(k)
    ensures |Print(n)| <= k
  {
    if n >= 10 {
      assert k > 1;
      PrintLength(n / 10, k - 1);
    }
  }

  /** Zero-padded to a width, as `{:0width$}` prints it. */
  function Padded(n: nat, width: nat): string {
    Zeros(if |Print(n)| < width then width - |Print(n)| else 0) + Print(n)
  }

  lemma PaddedValue(n: nat, width: nat)
    requires width >= 1 && n < Pow10(width)
    ensures |Padded(n, width)| == width && AllDigits(Padded(n, width)) && Value(Padded(n, width)) == n
  {
    PrintLength(n, width);
    ValuePrint(n);
    LeadingZeros(width - |Print(n)|, Print(n));
  }

  lemma LeadingZeros(n: nat, s: string)
    requires AllDigits(s)
    ensures AllDigits(Zeros(n) + s) && Value(Zeros(n) + s) == Value(s)
  {
    ValueZeros(n);
    ValueConcat(Zeros(n), s);
    Annihilate(Pow10(|s|));
  }

  lemma Annihilate(x: int)
    ensures 0 * x == 0 && x * 0 == 0
  {
  }

  /** `trim_end_matches('0')`. */
  function StripZeros(s: string): string {
    if s != "" && s[|s| - 1] == '0' then StripZeros(s[..|s| - 1]) else s
  }

  lemma {:induction false} StripZerosParts(s: string)
    ensures StripZeros(s) <= s
    ensures s == StripZeros(s) + Zeros(|s| - |StripZeros(s)|)
    ensures StripZeros(s) == "" || StripZeros(s)[|StripZeros(s)| - 1] != '0'
  {
    if s != "" && s[|s| - 1] == '0' {
      var t := s[..|s| - 1];
      StripZerosParts(t);
      assert s == t + ['0'];
      assert Zeros(|s| - |StripZeros(s)|) == Zeros(|t| - |StripZeros(t)|) + ['0'];
    }
  }

  /** Dropping some of the trailing zeros divides the value by a power of ten. */
  lemma DropZeros(s: string, r: nat)
    requires AllDigits(s) && r <= |s|
    requires r <= |s| - |StripZeros(s)|
    ensures Value(s) == Value(s[..|s| - r]) * Pow10(r)
  {
    StripZerosParts(s);
    assert s == s[..|s| - r] + Zeros(r);
    ValueZeros(r);
    ValueConcat(s[..|s| - r], Zeros(r));
  }

  /** Without trailing zeros, the last digit counts. */
  lemma StrippedLastDigit(s: string)
    requires AllDigits(s)
    ensures StripZeros(s) <= s && AllDigits(StripZeros(s))
    ensures StripZeros(s) != "" ==> Value(StripZeros(s)) % 10 != 0
  {
    StripZerosParts(s);
    var t := StripZeros(s);
    if t != "" { LastDigit(Value(t[..|t| - 1]), t[|t| - 1] as int - '0' as int); }
  }

  lemma LastDigit(x: nat, d: nat)
    requires d < 10
    ensures (x * 10 + d) % 10 == d
  {
  }

  /** Rust's integer parser: an optional sign, then at least one digit, then a range check. */
  function ParseInteger(s: string, low: int, high: int): Option<int> {
    var negative := s != "" && s[0] == '-';
    var digits := if s != "" && (s[0] == '-' || s[0] == '+') then s[1..] else s;
    if digits == "" || !AllDigits(digits) then None
    else
      var v: int := Value(digits);
      var n := if negative then -v else v;
      if low <= n <= high then Some(n) else None
  }
}
