/** Six-place fixed-point quantities held in an `i64`: reading and printing them. */
module FixedPoint {
  import opened Text
  import opened Numerals

  const SCALE := 1_000_000
  const MAX := 999_999_999_999_999_999
  const I64_MIN := -0x8000_0000_0000_0000
  const I64_MAX := 0x7FFF_FFFF_FFFF_FFFF

  /** The text on each side of the first dot. */
  function Parts(t: string): (string, string) {
    var parts := SplitOnce(t, '.');
    if parts.Some? then parts.value else (t, "")
  }

  predicate WellFormed(whole: string, fraction: string) {
    whole != "" && AllDigits(whole) && |fraction| <= 6 && AllDigits(fraction)
  }

  /** The checked `i64` arithmetic that puts the parts together. */
  function Assemble(n: Option<int>, fraction: nat): (r: Option<int>)
    ensures r.Some? ==> 0 < r.value <= MAX
  {
    if n.None? || n.value * SCALE > I64_MAX then None
    else
      var v := n.value * SCALE + fraction;
      if v <= I64_MAX && 0 < v <= MAX then Some(v) else None
  }

  /** The reader: digits, an optional dot and at most six more, checked into `1..=MAX`. */
  function Decimal(text: string): (r: Option<int>)
    ensures r.Some? ==> 0 < r.value <= MAX
  {
    var (whole, fraction) := Parts(Trim(text));
    if !WellFormed(whole, fraction) then None
    else Assemble(ParseInteger(whole, I64_MIN, I64_MAX), Value(fraction + Zeros(6 - |fraction|)))
  }

  function InRange(v: int): Option<int> {
    if 0 < v <= MAX then Some(v) else None
  }

  /** The checks on the way reject nothing that is in range. */
  lemma AssembleExact(whole: string, fraction: nat)
    requires whole != "" && AllDigits(whole)
    ensures Assemble(ParseInteger(whole, I64_MIN, I64_MAX), fraction) == InRange(Value(whole) * SCALE + fraction)
  {
    var n: int := Value(whole);
    assert ParseInteger(whole, I64_MIN, I64_MAX) == if n <= I64_MAX then Some(n) else None;
  }

  /** The accepted grammar, stated on the text itself; a final dot is allowed. */
  predicate Spelled(t: string, whole: string, fraction: string) {
    && WellFormed(whole, fraction)
    && (t == whole + "." + fraction || (fraction == "" && t == whole))
  }

  lemma SpelledParts(t: string, whole: string, fraction: string)
    ensures Spelled(t, whole, fraction) <==> WellFormed(whole, fraction) && Parts(t) == (whole, fraction)
  {
    if Spelled(t, whole, fraction) {
      if t == whole + "." + fraction {
        SplitOnceAt(whole, '.', fraction);
      } else {
        FindFree(t, "", {'.'});
        assert t + "" == t;
      }
    } else if Parts(t) == (whole, fraction) {
      var n := Find(t, {'.'});
      assert n < |t| ==> t == t[..n] + "." + t[n + 1..];
    }
  }

  lemma Millionth()
    ensures Pow10(6) == SCALE
  {
    assert Pow10(3) == 1000;
    Pow10Add(3, 3);
  }

  /** Padding the fraction to six digits shifts the whole numeral. */
  lemma Shifted(whole: string, fraction: string)
    requires AllDigits(whole) && AllDigits(fraction) && |fraction| <= 6
    ensures AllDigits(fraction + Zeros(6 - |fraction|))
    ensures Value(whole) * SCALE + Value(fraction + Zeros(6 - |fraction|))
         == Value(whole + fraction) * Pow10(6 - |fraction|)
  {
    var k := |fraction|;
    ValueConcat(whole, fraction);
    ValueConcat(fraction, Zeros(6 - k));
    ValueZeros(6 - k);
    Pow10Add(k, 6 - k);
    Millionth();
    Distribute(Value(whole), Pow10(k), Value(fraction), Pow10(6 - k), Value(whole + fraction), Pow10(6));
  }

  lemma Distribute(a: int, p: int, b: int, q: int, x: int, s: int)
    requires x == a * p + b && s == p * q
    ensures x * q == a * s + b * q
  {
  }

  lemma DecimalOfParts(text: string, whole: string, fraction: string)
    requires Parts(Trim(text)) == (whole, fraction) && WellFormed(whole, fraction)
    ensures Spelled(Trim(text), whole, fraction)
    ensures Decimal(text) == InRange(Value(whole + fraction) * Pow10(6 - |fraction|))
  {
    SpelledParts(Trim(text), whole, fraction);
    Shifted(whole, fraction);
    AssembleExact(whole, Value(fraction + Zeros(6 - |fraction|)));
  }

  /** The text spells v millionths. */
  ghost predicate Denotes(t: string, v: int) {
    exists whole, fraction :: Spelled(t, whole, fraction) && v == Value(whole + fraction) * Pow10(6 - |fraction|)
  }

  lemma DenotesParts(t: string, v: int)
    ensures var (whole, fraction) := Parts(t);
            Denotes(t, v) <==> WellFormed(whole, fraction) && v == Value(whole + fraction) * Pow10(6 - |fraction|)
  {
    var (whole, fraction) := Parts(t);
    SpelledParts(t, whole, fraction);
    forall w, f | Spelled(t, w, f) ensures w == whole && f == fraction { SpelledParts(t, w, f); }
  }

  /** The reader is sound and complete: it returns v exactly when v is in range and the text spells
      v millionths; the `i64` checks on the way reject nothing in range. */
  lemma DecimalExact(text: string, v: int)
    ensures Decimal(text) == Some(v) <==> 0 < v <= MAX && Denotes(Trim(text), v)
  {
    var (whole, fraction) := Parts(Trim(text));
    DenotesParts(Trim(text), v);
    if WellFormed(whole, fraction) { DecimalOfParts(text, whole, fraction); }
  }

  // ---- Printing ----

  /** Division truncating toward zero, as `/` and `%` on `i64` are. */
  function Quotient(v: int): int { if v >= 0 then v / SCALE else -(-v / SCALE) }
  function Remainder(v: int): int { if v >= 0 then v % SCALE else -(-v % SCALE) }

  function PrintInt(v: int): string { if v >= 0 then Print(v) else "-" + Print(-v) }
  function PaddedInt(v: int): string { if v >= 0 then Padded(v, 6) else "-" + Padded(-v, 5) }

  function DecimalText(v: int): string {
    PrintInt(Quotient(v)) + "." + PaddedInt(Remainder(v))
  }

  lemma PlainTidy(s: string)
    requires s != "" && forall i :: 0 <= i < |s| ==> IsDigit(s[i]) || s[i] in {'.', '-'}
    ensures Trim(s) == s
  {
    TrimTidy(s);
  }

  /** A non-negative amount is printed with exactly six places. */
  lemma TextSpells(v: nat)
    ensures Parts(DecimalText(v)) == (Print(v / SCALE), Padded(v % SCALE, 6))
    ensures Trim(DecimalText(v)) == DecimalText(v)
    ensures |Padded(v % SCALE, 6)| == 6 && AllDigits(Padded(v % SCALE, 6))
    ensures Value(Print(v / SCALE)) * SCALE + Value(Padded(v % SCALE, 6)) == v
  {
    Millionth();
    PaddedValue(v % SCALE, 6);
    ValuePrint(v / SCALE);
    SplitOnceAt(Print(v / SCALE), '.', Padded(v % SCALE, 6));
    PlainTidy(DecimalText(v));
  }

  /** A negative amount is printed with a sign that the reader refuses. */
  lemma NegativeUnreadable(v: int)
    requires v < 0
    ensures Decimal(DecimalText(v)) == None
  {
    var q, r := Quotient(v), Remainder(v);
    var whole, fraction := PrintInt(q), PaddedInt(r);
    PlainTidy(DecimalText(v));
    SplitOnceAt(whole, '.', fraction);
    assert q < 0 || r < 0;
    if q < 0 { assert !IsDigit(whole[0]); } else { assert !IsDigit(fraction[0]); }
  }

  /** With all six places written out the amount can be read off the two parts. */
  lemma SixPlaces(text: string, whole: string, fraction: string)
    requires Parts(Trim(text)) == (whole, fraction) && WellFormed(whole, fraction) && |fraction| == 6
    ensures Decimal(text) == InRange(Value(whole) * SCALE + Value(fraction))
  {
    assert fraction + Zeros(0) == fraction;
    AssembleExact(whole, Value(fraction));
  }

  lemma NonNegativeRoundTrip(v: nat)
    ensures Decimal(DecimalText(v)) == InRange(v)
  {
    TextSpells(v);
    var text, whole, fraction := DecimalText(v), Print(v / SCALE), Padded(v % SCALE, 6);
    SixPlaces(text, whole, fraction);
  }

  /** Reading undoes printing, for the amounts in range and for no others. */
  lemma DecimalTextRoundTrip(v: int)
    ensures Decimal(DecimalText(v)) == InRange(v)
  {
    if v < 0 { NegativeUnreadable(v); } else { NonNegativeRoundTrip(v); }
  }
}
