/** The exact decimal engine of the returned-paint calculations: a parser of plain and
    scientific notation into units of 10^-12 held in an i128, and its canonical printer. */
module DecimalAmount {
  import opened Text
  import opened Numerals

  const SCALE_DIGITS := 12
  const SCALE_FACTOR := 1_000_000_000_000
  const MAX_WHOLE := 999_999_999_999_999_999
  const MAX_STORED_UNITS := MAX_WHOLE * SCALE_FACTOR
  const MAX_SIGNIFICAND_DIGITS := 64
  const INPUT_PLACES := 11

  const I128_MAX := 0x7FFF_FFFF_FFFF_FFFF_FFFF_FFFF_FFFF_FFFF
  const I32_MAX := 0x7FFF_FFFF

  // ---- What a text means ----

  /** The parts of a decimal text: `integer.fraction` times ten to the `exponent`. */
  datatype Spelling = Spelling(integer: string, fraction: string, exponent: int) {
    predicate Valid() {
      && AllDigits(integer) && AllDigits(fraction)
      && |integer| + |fraction| <= MAX_SIGNIFICAND_DIGITS
    }

    function Digits(): string { integer + fraction }

    /** How far left of the last digit the decimal point stands. */
    function Places(): int { |fraction| - exponent }

    /** The value as a fraction: Numerator() / Denominator(). */
    function Numerator(): nat
      requires Valid()
    {
      Value(Digits()) * Pow10(if Places() < 0 then -Places() else 0)
    }

    function Denominator(): (r: nat)
      ensures r >= 1
    {
      Pow10(if Places() > 0 then Places() else 0)
    }
  }

  /** The grammar: digits with at most one point, and optionally `e` or `E` and an i32. */
  predicate SpellsMantissa(mantissa: string, s: Spelling) {
    && AllDigits(s.integer) && AllDigits(s.fraction) && s.integer + s.fraction != ""
    && (mantissa == s.integer + "." + s.fraction || (mantissa == s.integer && s.fraction == ""))
  }

  predicate SpellsExponent(tail: string, exponent: int) {
    || (tail == "" && exponent == 0)
    || (tail != "" && tail[0] in {'e', 'E'}
        && ParseInteger(tail[1..], -I32_MAX - 1, I32_MAX) == Some(exponent))
  }

  ghost predicate Spells(text: string, s: Spelling) {
    && |s.integer| + |s.fraction| <= MAX_SIGNIFICAND_DIGITS
    && exists n: nat | n <= |text| ::
         SpellsMantissa(text[..n], s) && SpellsExponent(text[n..], s.exponent)
  }

  /** The amount num/den in units of 10^-12: defined exactly when the number has at most
      `places` fraction digits and is at most MAX_WHOLE. */
  function Units(num: nat, den: nat, places: nat): Option<nat>
    requires den > 0
  {
    if num * Pow10(places) % den == 0 && num <= MAX_WHOLE * den
    then Some(num * Pow10(SCALE_DIGITS) / den)
    else None
  }

  /** The meaning of a text: what `parse` is to return for it. */
  function Amount(text: string, places: nat): Option<nat> {
    match Read(text)
    case None => None
    case Some(s) => Units(s.Numerator(), s.Denominator(), places)
  }

  /** Splitting a text into its parts, in the order the source does. */
  function Read(text: string): (r: Option<Spelling>)
    ensures r.Some? ==> r.value.Valid()
  {
    ReadTrimmed(Trim(text))
  }

  function ReadTrimmed(value: string): (r: Option<Spelling>)
    ensures r.Some? ==> r.value.Valid()
  {
    if value == "" || value[0] in {'-', '+'} then None else
    var scientific := Split(value, {'e', 'E'});
    if |scientific| == 1 then ReadMantissa(scientific[0], 0)
    else
      var exponent := ParseInteger(scientific[1], -I32_MAX - 1, I32_MAX);
      if exponent.None? || |scientific| > 2 then None else ReadMantissa(scientific[0], exponent.value)
  }

  function ReadMantissa(mantissa: string, exponent: int): (r: Option<Spelling>)
    ensures r.Some? ==> r.value.Valid() && r.value.exponent == exponent
  {
    var parts := Split(mantissa, {'.'});
    var integer := parts[0];
    var fraction := if |parts| == 1 then "" else parts[1];
    if (integer == "" && fraction == "") || |parts| > 2 || !AllDigits(integer) || !AllDigits(fraction) then None
    else if |integer| + |fraction| > MAX_SIGNIFICAND_DIGITS then None
    else Some(Spelling(integer, fraction, exponent))
  }

  // ---- The grammar and the splitting agree ----

  lemma ParseIntegerFree(s: string, low: int, high: int)
    requires ParseInteger(s, low, high).Some?
    ensures Free(s, {'e', 'E'})
  {
    var digits := if s != "" && (s[0] == '-' || s[0] == '+') then s[1..] else s;
    forall i | 0 <= i < |s| ensures s[i] !in {'e', 'E'} {
      if i > 0 || digits == s { assert s[i] == digits[i - (|s| - |digits|)]; }
    }
  }

  lemma MantissaParts(mantissa: string, s: Spelling)
    requires AllDigits(s.integer) && AllDigits(s.fraction) && s.integer + s.fraction != ""
    ensures SpellsMantissa(mantissa, s) <==>
              var parts := Split(mantissa, {'.'});
              |parts| <= 2 && parts[0] == s.integer && (if |parts| == 1 then "" else parts[1]) == s.fraction
  {
    assert Free(s.integer, {'.'}) && Free(s.fraction, {'.'});
    SplitNone(s.fraction, {'.'});
    SplitNone(s.integer, {'.'});
    SplitFirst(s.integer, '.', s.fraction, {'.'});
    if |Split(mantissa, {'.'})| <= 2 { var _ := SplitTail(mantissa, {'.'}); }
  }

  lemma MantissaGrammar(mantissa: string, s: Spelling)
    ensures ReadMantissa(mantissa, s.exponent) == Some(s) <==> SpellsMantissa(mantissa, s) && s.Valid()
  {
    if s.Valid() && s.Digits() != "" { MantissaParts(mantissa, s); }
  }

  lemma ReadSpells(value: string)
    requires ReadTrimmed(value).Some?
    ensures Spells(value, ReadTrimmed(value).value)
  {
    var s := ReadTrimmed(value).value;
    var mantissa := Split(value, {'e', 'E'})[0];
    MantissaGrammar(mantissa, s);
    var tail := SplitTail(value, {'e', 'E'});
    SpellsJoin(value, mantissa, tail, s);
  }

  lemma SpellsJoin(value: string, mantissa: string, tail: string, s: Spelling)
    requires value == mantissa + tail && s.Valid()
    requires SpellsMantissa(mantissa, s) && SpellsExponent(tail, s.exponent)
    ensures Spells(value, s)
  {
    var n := |mantissa|;
    assert value[..n] == mantissa && value[n..] == tail;
  }

  lemma SpellsParts(value: string, s: Spelling) returns (mantissa: string, tail: string)
    requires Spells(value, s)
    ensures value == mantissa + tail && s.Valid()
    ensures SpellsMantissa(mantissa, s) && SpellsExponent(tail, s.exponent)
  {
    var n: nat :| n <= |value| && SpellsMantissa(value[..n], s) && SpellsExponent(value[n..], s.exponent);
    mantissa, tail := value[..n], value[n..];
  }

  lemma SpellsRead(value: string, s: Spelling)
    requires Spells(value, s)
    ensures ReadTrimmed(value) == Some(s)
  {
    var mantissa, tail := SpellsParts(value, s);
    ReadJoin(value, mantissa, tail, s);
  }

  lemma ReadJoin(value: string, mantissa: string, tail: string, s: Spelling)
    requires value == mantissa + tail && s.Valid()
    requires SpellsMantissa(mantissa, s) && SpellsExponent(tail, s.exponent)
    ensures ReadTrimmed(value) == Some(s)
  {
    MantissaGrammar(mantissa, s);
    MantissaShape(mantissa, s);
    ScientificParts(mantissa, tail, s.exponent);
    assert value[0] == mantissa[0];
  }

  lemma MantissaShape(mantissa: string, s: Spelling)
    requires SpellsMantissa(mantissa, s)
    ensures mantissa != "" && (IsDigit(mantissa[0]) || mantissa[0] == '.')
    ensures Free(mantissa, {'e', 'E'})
  {
    assert forall i :: 0 <= i < |mantissa| ==> IsDigit(mantissa[i]) || mantissa[i] == '.';
  }

  lemma ScientificParts(mantissa: string, tail: string, exponent: int)
    requires Free(mantissa, {'e', 'E'}) && SpellsExponent(tail, exponent)
    ensures tail == "" ==> Split(mantissa + tail, {'e', 'E'}) == [mantissa]
    ensures tail != "" ==> Split(mantissa + tail, {'e', 'E'}) == [mantissa, tail[1..]]
  {
    if tail == "" {
      assert mantissa + tail == mantissa;
      SplitNone(mantissa, {'e', 'E'});
    } else {
      assert mantissa + tail == mantissa + [tail[0]] + tail[1..];
      ParseIntegerFree(tail[1..], -I32_MAX - 1, I32_MAX);
      SplitFirst(mantissa, tail[0], tail[1..], {'e', 'E'});
      SplitNone(tail[1..], {'e', 'E'});
    }
  }

  /** `Read` succeeds with `s` exactly when the grammar spells `s` with the trimmed text. */
  lemma ReadGrammar(text: string, s: Spelling)
    ensures Read(text) == Some(s) <==> Spells(Trim(text), s)
  {
    if Read(text).Some? { ReadSpells(Trim(text)); }
    if Spells(Trim(text), s) { SpellsRead(Trim(text), s); }
  }

  // ---- The value decides the amount ----

  lemma MulMonotone(a: nat, x: int, y: int)
    requires x <= y
    ensures a * x <= a * y && x * a <= y * a
  {
  }

  lemma DivModUnique(n: nat, d: nat, q: nat, r: nat)
    requires d > 0 && n == d * q + r && r < d
    ensures n / d == q && n % d == r
  {
    var q' := n / d;
    assert n == d * q' + n % d;
    if q' < q { MulMonotone(d, q' + 1, q); }
    if q < q' { MulMonotone(d, q + 1, q'); }
  }

  lemma DivModScale(a: nat, b: nat, c: nat)
    requires b > 0 && c > 0
    ensures b * c > 0
    ensures (a * c) % (b * c) == (a % b) * c
    ensures (a * c) / (b * c) == a / b
  {
    var q, r := a / b, a % b;
    calc {
      a * c;
      (b * q + r) * c;
      b * q * c + r * c;
      (b * c) * q + r * c;
    }
    MulMonotone(c, r, b - 1);
    assert (b - 1) * c == b * c - c;
    DivModUnique(a * c, b * c, q, r * c);
  }

  lemma LeScale(a: nat, b: nat, c: nat)
    requires c > 0
    ensures a * c <= b * c <==> a <= b
  {
    if a <= b { MulMonotone(c, a, b); } else { MulMonotone(c, b + 1, a); assert (b + 1) * c == b * c + c; }
  }

  /** Equal fractions have equal amounts. */
  lemma UnitsScale(num: nat, den: nat, c: nat, places: nat)
    requires den > 0 && c > 0
    ensures den * c > 0
    ensures Units(num * c, den * c, places) == Units(num, den, places)
  {
    ScaledProduct(num, den, c, Pow10(places));
    ScaledProduct(num, den, c, Pow10(SCALE_DIGITS));
    LeScale(num, MAX_WHOLE * den, c);
    assert MAX_WHOLE * (den * c) == (MAX_WHOLE * den) * c;
  }

  lemma ScaledProduct(num: nat, den: nat, c: nat, x: nat)
    requires den > 0 && c > 0
    ensures den * c > 0
    ensures (num * c * x) % (den * c) == 0 <==> (num * x) % den == 0
    ensures (num * c * x) / (den * c) == (num * x) / den
  {
    assert num * c * x == (num * x) * c;
    DivModScale(num * x, den, c);
  }

  /** Two spellings of one value have one amount. */
  lemma SameValueSameAmount(num: nat, den: nat, num': nat, den': nat, places: nat)
    requires den > 0 && den' > 0 && num * den' == num' * den
    ensures Units(num, den, places) == Units(num', den', places)
  {
    UnitsScale(num, den, den', places);
    UnitsScale(num', den', den, places);
    assert den * den' == den' * den;
  }

  // ---- The parser ----

  function CheckedMul(a: nat, b: nat): Option<nat> {
    if a * b <= I128_MAX then Some(a * b) else None
  }

  function CheckedAdd(a: nat, b: nat): Option<nat> {
    if a + b <= I128_MAX then Some(a + b) else None
  }

  function CheckedPow10(n: nat): Option<nat> {
    if Pow10(n) <= I128_MAX then Some(Pow10(n)) else None
  }

  /** `validate_storable_decimal`. */
  function Storable(units: nat): Option<nat> {
    if units <= MAX_STORED_UNITS then Some(units) else None
  }

  /** The digits a parse may drop: trailing zeros right of the decimal point. */
  function Removable(s: Spelling): (r: nat)
    ensures r <= |s.Digits()|
  {
    StripZerosParts(s.Digits());
    var trailingZeros := |s.Digits()| - |StripZeros(s.Digits())|;
    if s.Places() <= 0 then 0 else if trailingZeros < s.Places() then trailingZeros else s.Places()
  }

  function Significand(s: Spelling): nat
    requires s.Valid()
  {
    Value(s.Digits()[..|s.Digits()| - Removable(s)])
  }

  lemma Pow10Scale()
    ensures Pow10(SCALE_DIGITS) == SCALE_FACTOR
  {
    assert Pow10(6) == 1_000_000;
    Pow10Add(6, 6);
  }

  lemma KeptDigits(s: Spelling)
    requires s.Valid()
    ensures Value(s.Digits()) == Significand(s) * Pow10(Removable(s))
    ensures Removable(s) < s.Places() && Significand(s) > 0 ==> Significand(s) % 10 != 0
  {
    var digits, removed := s.Digits(), Removable(s);
    StripZerosParts(digits);
    DropZeros(digits, removed);
    if removed < s.Places() {
      StrippedLastDigit(digits);
      assert digits[..|digits| - removed] == StripZeros(digits);
    }
  }

  /** The meaning of a text after the droppable zeros are dropped. */
  function ReducedUnits(significand: nat, digits: int, places: nat): Option<nat> {
    if digits >= 0 then Units(significand, Pow10(digits), places)
    else Units(significand * Pow10(-digits), 1, places)
  }

  lemma FractionDigits(s: Spelling)
    requires s.Valid() && s.Places() > 0
    ensures Removable(s) <= s.Places() && s.Denominator() == Pow10(s.Places())
    ensures s.Numerator() == Significand(s) * Pow10(Removable(s))
  {
    KeptDigits(s);
  }

  lemma WholeDigits(s: Spelling)
    requires s.Valid() && s.Places() <= 0
    ensures Removable(s) == 0 && s.Denominator() == 1 && s.Numerator() == Significand(s) * Pow10(-s.Places())
  {
    var digits := s.Digits();
    assert digits[..|digits| - 0] == digits;
  }

  lemma ReducedFraction(num: nat, den: nat, significand: nat, digits: nat, zeros: nat, places: nat)
    requires num == significand * Pow10(zeros) && den == Pow10(digits + zeros)
    ensures Units(num, den, places) == ReducedUnits(significand, digits, places)
  {
    UnitsDropZeros(significand, digits, zeros, places);
  }

  lemma ReducedWhole(num: nat, significand: nat, zeros: nat, places: nat)
    requires num == significand * Pow10(zeros)
    ensures Units(num, 1, places) == ReducedUnits(significand, 0 - zeros, places)
  {
    if zeros == 0 { assert Pow10(0) == 1 && significand * 1 == significand; }
  }

  /** Dropping those zeros keeps the value. */
  lemma ReducedMeaning(s: Spelling, places: nat)
    requires s.Valid()
    ensures Units(s.Numerator(), s.Denominator(), places)
            == ReducedUnits(Significand(s), s.Places() - Removable(s), places)
  {
    if s.Places() > 0 {
      FractionDigits(s);
      ReducedFraction(s.Numerator(), s.Denominator(), Significand(s), s.Places() - Removable(s), Removable(s), places);
    } else {
      WholeDigits(s);
      ReducedWhole(s.Numerator(), Significand(s), -s.Places(), places);
    }
  }

  lemma UnitsDropZeros(significand: nat, digits: nat, zeros: nat, places: nat)
    ensures Units(significand * Pow10(zeros), Pow10(digits + zeros), places)
            == Units(significand, Pow10(digits), places)
  {
    Pow10Add(digits, zeros);
    UnitsScale(significand, Pow10(digits), Pow10(zeros), places);
  }

  lemma ExactMultiple(a: nat, b: nat, d: nat)
    requires d > 0
    ensures (a * (b * d)) % d == 0 && (a * (b * d)) / d == a * b
  {
    assert a * (b * d) == d * (a * b) + 0;
    DivModUnique(a * (b * d), d, a * b, 0);
  }

  lemma BoundShift(significand: nat, whole: nat, d: nat, q: nat)
    requires q > 0
    ensures significand <= whole * d <==> significand * q <= whole * (q * d)
  {
    LeScale(significand, whole * d, q);
    assert whole * (q * d) == (whole * d) * q;
  }

  /** In range of the fraction digits, an amount is a shift of the significand. */
  lemma UnitsOfDigits(significand: nat, digits: nat, places: nat)
    requires digits <= places <= SCALE_DIGITS
    ensures Units(significand, Pow10(digits), places) == Storable(significand * Pow10(SCALE_DIGITS - digits))
  {
    Pow10Add(places - digits, digits);
    Pow10Add(SCALE_DIGITS - digits, digits);
    ExactMultiple(significand, Pow10(places - digits), Pow10(digits));
    ExactMultiple(significand, Pow10(SCALE_DIGITS - digits), Pow10(digits));
    BoundShift(significand, MAX_WHOLE, Pow10(digits), Pow10(SCALE_DIGITS - digits));
    Pow10Scale();
  }

  lemma DivisibleByTen(a: nat, e: nat)
    requires e > 0 && a % (10 * e) == 0
    ensures a % 10 == 0
  {
    assert a == 10 * (e * (a / (10 * e)));
  }

  /** A significand whose last digit counts needs all its fraction digits. */
  lemma UnitsTooFine(significand: nat, digits: nat, places: nat)
    requires significand % 10 != 0 && digits > places
    ensures Units(significand, Pow10(digits), places) == None
  {
    var extra := Pow10(digits - places);
    Pow10Add(digits - places, places);
    DivModScale(significand, extra, Pow10(places));
    assert significand % extra != 0 by {
      if significand % extra == 0 { DivisibleByTen(significand, Pow10(digits - places - 1)); }
    }
    MulMonotone(Pow10(places), 1, significand % extra);
  }

  lemma UnitsOfWhole(whole: nat, places: nat)
    ensures Units(whole, 1, places) == if whole <= MAX_WHOLE then Some(whole * SCALE_FACTOR) else None
  {
    Pow10Scale();
  }

  /** The checked shift of a nonzero significand, as the last part of `parse` does it. */
  function Shifted(significand: nat, fractionDigits: int, maxFractionDigits: nat): Option<nat> {
    if fractionDigits > maxFractionDigits then None
    else if fractionDigits >= 0 then
      if fractionDigits > SCALE_DIGITS then None else
      var power := CheckedPow10(SCALE_DIGITS - fractionDigits);
      if power.None? then None else StorableProduct(significand, power.value)
    else
      var power := CheckedPow10(-fractionDigits);
      if power.None? then None else
      var whole := CheckedMul(significand, power.value);
      if whole.None? then None else StorableProduct(whole.value, SCALE_FACTOR)
  }

  function StorableProduct(a: nat, b: nat): (r: Option<nat>) {
    var units := CheckedMul(a, b);
    if units.None? then None else Storable(units.value)
  }

  /** What is storable fits an i128, so the overflow check rejects only what the range check would. */
  lemma StorableProductExact(a: nat, b: nat)
    ensures StorableProduct(a, b) == Storable(a * b)
  {
  }

  lemma ShiftedFraction(significand: nat, fractionDigits: nat, places: nat)
    requires significand > 0 && fractionDigits <= places <= SCALE_DIGITS
    ensures Shifted(significand, fractionDigits, places) == Units(significand, Pow10(fractionDigits), places)
    ensures significand > I128_MAX ==> Units(significand, Pow10(fractionDigits), places) == None
  {
    var power := Pow10(SCALE_DIGITS - fractionDigits);
    UnitsOfDigits(significand, fractionDigits, places);
    SmallPower(SCALE_DIGITS - fractionDigits);
    StorableProductExact(significand, power);
    MulMonotone(significand, 1, power);
  }

  lemma SmallPower(n: nat)
    requires n <= SCALE_DIGITS
    ensures Pow10(n) <= I128_MAX
  {
    Pow10Scale();
    Pow10Monotone(n, SCALE_DIGITS);
  }

  lemma ShiftedWhole(significand: nat, zeros: nat, places: nat)
    requires significand > 0 && zeros > 0
    ensures Shifted(significand, 0 - zeros, places) == Units(significand * Pow10(zeros), 1, places)
    ensures significand > I128_MAX ==> Units(significand * Pow10(zeros), 1, places) == None
  {
    var power := Pow10(zeros);
    MulMonotone(significand, 1, power);
    MulMonotone(power, 1, significand);
    var whole := significand * power;
    StorableProductExact(whole, SCALE_FACTOR);
    UnitsOfWhole(whole, places);
  }

  /** The i128 checks reject nothing that has an amount. */
  lemma ShiftedExact(significand: nat, fractionDigits: int, places: nat)
    requires significand > 0 && places <= SCALE_DIGITS
    requires fractionDigits > 0 ==> significand % 10 != 0
    ensures Shifted(significand, fractionDigits, places) == ReducedUnits(significand, fractionDigits, places)
    ensures significand > I128_MAX ==> ReducedUnits(significand, fractionDigits, places) == None
  {
    if fractionDigits > places {
      UnitsTooFine(significand, fractionDigits, places);
    } else if fractionDigits >= 0 {
      ShiftedFraction(significand, fractionDigits, places);
    } else {
      ShiftedWhole(significand, -fractionDigits, places);
    }
  }

  lemma ZeroUnits(digits: int, places: nat)
    ensures ReducedUnits(0, digits, places) == Some(0)
  {
    Annihilate(Pow10(places));
    Annihilate(Pow10(SCALE_DIGITS));
    if digits >= 0 { DivModUnique(0, Pow10(digits), 0, 0); } else { Annihilate(Pow10(-digits)); }
  }

  /** The digit loop: leading zeros are skipped, then digits accumulate under i128 checks. */
  method ReadSignificand(digits: string) returns (r: Option<nat>)
    requires AllDigits(digits)
    ensures r == if Value(digits) <= I128_MAX then Some(Value(digits)) else None
  {
    var significand: nat := 0;
    var hasNonzeroDigit := false;
    for i := 0 to |digits|
      invariant significand == Value(digits[..i]) <= I128_MAX
      invariant hasNonzeroDigit <==> significand > 0
    {
      assert digits[..i + 1][..i] == digits[..i];
      PrefixValue(digits, i + 1);
      if hasNonzeroDigit || digits[i] != '0' {
        hasNonzeroDigit := true;
        var shifted := CheckedMul(significand, 10);
        if shifted.None? { return None; }
        var next := CheckedAdd(shifted.value, digits[i] as int - '0' as int);
        if next.None? { return None; }
        significand := next.value;
      }
    }
    assert digits[..|digits|] == digits;
    r := Some(significand);
  }

  /** The part of `parse` after the text is split: reduction, digit loop, checked shift. */
  method ParseSpelling(spelling: Spelling, maxFractionDigits: nat) returns (r: Option<nat>)
    requires spelling.Valid() && maxFractionDigits <= SCALE_DIGITS
    ensures r == Units(spelling.Numerator(), spelling.Denominator(), maxFractionDigits)
  {
    var digits := spelling.Digits();
    var removable := Removable(spelling);
    var fractionDigits := spelling.Places() - removable;
    var significand := ReadSignificand(digits[..|digits| - removable]);
    ReducedMeaning(spelling, maxFractionDigits);
    if significand == Some(0) {
      ZeroUnits(fractionDigits, maxFractionDigits);
      return Some(0);
    }
    KeptDigits(spelling);
    ShiftedExact(Significand(spelling), fractionDigits, maxFractionDigits);
    if significand.None? { return None; }
    r := Shifted(significand.value, fractionDigits, maxFractionDigits);
  }

  /** `parse`: the digit loop and the checked shifts compute exactly the meaning of the text,
      so no i128 overflow ever rejects a number that has an amount. */
  method Parse(text: string, maxFractionDigits: nat) returns (r: Option<nat>)
    requires maxFractionDigits <= SCALE_DIGITS
    ensures r == Amount(text, maxFractionDigits)
  {
    var spelling := Read(text);
    if spelling.None? { return None; }
    r := ParseSpelling(spelling.value, maxFractionDigits);
  }

  // ---- The printer ----

  /** `Display`: no exponent, no leading or trailing zeros, no bare point. */
  function Display(units: nat): string {
    var whole, fraction := units / SCALE_FACTOR, units % SCALE_FACTOR;
    if fraction == 0 then Print(whole) else Print(whole) + "." + StripZeros(Padded(fraction, SCALE_DIGITS))
  }

  function DisplayedFraction(units: nat): string {
    if units % SCALE_FACTOR == 0 then "" else StripZeros(Padded(units % SCALE_FACTOR, SCALE_DIGITS))
  }

  lemma DisplayedFractionDigits(units: nat)
    ensures var f := DisplayedFraction(units);
            && AllDigits(f) && |f| <= SCALE_DIGITS
            && units % SCALE_FACTOR == Value(f) * Pow10(SCALE_DIGITS - |f|)
  {
    if units % SCALE_FACTOR != 0 {
      var fraction := units % SCALE_FACTOR;
      Pow10Scale();
      PaddedValue(fraction, SCALE_DIGITS);
      var p := Padded(fraction, SCALE_DIGITS);
      StripZerosParts(p);
      DropZeros(p, |p| - |StripZeros(p)|);
      assert p[..|StripZeros(p)|] == StripZeros(p);
    }
  }

  lemma PrintedWholeLength(units: nat)
    requires units <= MAX_STORED_UNITS
    ensures |Print(units / SCALE_FACTOR)| <= 18
  {
    assert Pow10(18) == MAX_WHOLE + 1 by { assert Pow10(6) == 1_000_000; Pow10Add(6, 6); Pow10Add(12, 6); }
    PrintLength(units / SCALE_FACTOR, 18);
  }

  lemma PlainSpells(text: string, s: Spelling)
    requires SpellsMantissa(text, s) && s.exponent == 0 && Tidy(text)
    requires s.Valid()
    ensures Read(text) == Some(s)
  {
    TrimTidy(text);
    SpellsJoin(text, text, "", s);
    SpellsRead(text, s);
  }

  lemma DisplaySpells(units: nat)
    requires units <= MAX_STORED_UNITS
    ensures Read(Display(units)) == Some(Spelling(Print(units / SCALE_FACTOR), DisplayedFraction(units), 0))
  {
    DisplayedFractionDigits(units);
    PrintedWholeLength(units);
    DisplayTidy(units);
    PlainSpells(Display(units), Spelling(Print(units / SCALE_FACTOR), DisplayedFraction(units), 0));
  }

  lemma DisplayTidy(units: nat)
    ensures Tidy(Display(units))
  {
    DisplayedFractionDigits(units);
    DigitsTidy(Print(units / SCALE_FACTOR), DisplayedFraction(units));
  }

  lemma DigitsTidy(a: string, b: string)
    requires a != "" && AllDigits(a) && AllDigits(b)
    ensures Tidy(a) && Tidy(a + "." + b)
  {
    var t := a + "." + b;
    assert t[0] == a[0];
    assert t[|t| - 1] == if b == "" then '.' else b[|b| - 1];
  }

  lemma DisplayedValue(units: nat)
    ensures var f := DisplayedFraction(units);
            && AllDigits(f) && |f| <= SCALE_DIGITS
            && AllDigits(Print(units / SCALE_FACTOR) + f)
            && Value(Print(units / SCALE_FACTOR) + f) * Pow10(SCALE_DIGITS - |f|) == units
  {
    var whole, f := units / SCALE_FACTOR, DisplayedFraction(units);
    DisplayedFractionDigits(units);
    ValuePrint(whole);
    ValueConcat(Print(whole), f);
    Pow10Add(|f|, SCALE_DIGITS - |f|);
    Pow10Scale();
    Rejoin(units, whole, Pow10(|f|), Value(f), Pow10(SCALE_DIGITS - |f|), SCALE_FACTOR);
  }

  lemma Rejoin(units: nat, whole: nat, p: nat, v: nat, q: nat, scale: nat)
    requires p * q == scale && units == scale * whole + v * q
    ensures (whole * p + v) * q == units
  {
    assert (whole * p + v) * q == (p * q) * whole + v * q;
  }

  lemma PlainFraction(s: Spelling)
    requires s.Valid() && s.exponent == 0
    ensures s.Numerator() == Value(s.Digits()) && s.Denominator() == Pow10(|s.fraction|)
  {
    assert Pow10(0) == 1;
  }

  lemma UnitsOfPlain(significand: nat, digits: nat, units: nat)
    requires digits <= SCALE_DIGITS && significand * Pow10(SCALE_DIGITS - digits) == units <= MAX_STORED_UNITS
    ensures Units(significand, Pow10(digits), SCALE_DIGITS) == Some(units)
  {
    UnitsOfDigits(significand, digits, SCALE_DIGITS);
  }

  lemma PlainAmount(text: string, s: Spelling, units: nat)
    requires Read(text) == Some(s) && s.exponent == 0 && |s.fraction| <= SCALE_DIGITS
    requires Value(s.Digits()) * Pow10(SCALE_DIGITS - |s.fraction|) == units <= MAX_STORED_UNITS
    ensures Amount(text, SCALE_DIGITS) == Some(units)
  {
    PlainFraction(s);
    UnitsOfPlain(Value(s.Digits()), |s.fraction|, units);
  }

  /** Printing and parsing undo each other on every storable amount. */
  lemma DisplayRoundTrip(units: nat)
    requires units <= MAX_STORED_UNITS
    ensures Amount(Display(units), SCALE_DIGITS) == Some(units)
  {
    var s := Spelling(Print(units / SCALE_FACTOR), DisplayedFraction(units), 0);
    DisplaySpells(units);
    DisplayedValue(units);
    PlainAmount(Display(units), s, units);
  }

  /** An amount has at most `places` fraction digits exactly when the units left over vanish. */
  lemma AmountPlaces(text: string, places: nat)
    requires places <= SCALE_DIGITS
    ensures Amount(text, places) ==
            match Amount(text, SCALE_DIGITS)
            case None => None
            case Some(u) => if u % Pow10(SCALE_DIGITS - places) == 0 then Some(u) else None
  {
    if Read(text).Some? {
      var s := Read(text).value;
      UnitsPlaces(s.Numerator(), s.Denominator(), places);
    }
  }

  lemma UnitsPlaces(num: nat, den: nat, places: nat)
    requires den > 0 && places <= SCALE_DIGITS
    ensures Units(num, den, places) ==
            match Units(num, den, SCALE_DIGITS)
            case None => None
            case Some(u) => if u % Pow10(SCALE_DIGITS - places) == 0 then Some(u) else None
  {
    PlacesOfUnits(num, den, Pow10(places), Pow10(SCALE_DIGITS - places));
    Pow10Add(places, SCALE_DIGITS - places);
  }

  lemma PlacesOfUnits(num: nat, den: nat, p: nat, q: nat)
    requires den > 0 && q > 0
    ensures (num * p) % den == 0 ==> (num * (p * q)) % den == 0
    ensures (num * (p * q)) % den == 0 ==> ((num * p) % den == 0 <==> (num * (p * q) / den) % q == 0)
  {
    var t := num * p;
    assert num * (p * q) == t * q;
    if t % den == 0 {
      var k := t / den;
      assert t * q == den * (k * q) + 0 by { assert t == den * k; }
      DivModUnique(t * q, den, k * q, 0);
      DivModUnique(k * q, q, k, 0);
    } else if (t * q) % den == 0 && (t * q / den) % q == 0 {
      var k := (t * q / den) / q;
      assert t * q == den * (k * q);
      assert den * (k * q) == (den * k) * q;
      LeScale(t, den * k, q);
      LeScale(den * k, t, q);
      DivModUnique(t, den, k, 0);
    }
  }

  /** Inputs have at most 11 fraction digits, so they are multiples of ten units. */
  lemma AmountOfInput(text: string)
    requires Amount(text, INPUT_PLACES).Some?
    ensures Amount(text, INPUT_PLACES).value % 10 == 0
    ensures Amount(text, SCALE_DIGITS) == Amount(text, INPUT_PLACES)
  {
    AmountPlaces(text, INPUT_PLACES);
    assert Pow10(1) == 10;
  }

  /** An input amount, printed, is the same input again. */
  lemma DisplayInput(units: nat)
    requires units <= MAX_STORED_UNITS && units % 10 == 0
    ensures Amount(Display(units), INPUT_PLACES) == Some(units)
  {
    DisplayRoundTrip(units);
    AmountPlaces(Display(units), INPUT_PLACES);
    assert Pow10(1) == 10;
  }

  /** `normalize_returned_paint_stored_decimal`. */
  function NormalizeStored(text: string): Option<string> {
    match Amount(text, SCALE_DIGITS)
    case None => None
    case Some(u) => Some(Display(u))
  }

  lemma AmountStorable(text: string, places: nat)
    requires places <= SCALE_DIGITS && Amount(text, places).Some?
    ensures Amount(text, places).value <= MAX_STORED_UNITS
  {
    var s := Read(text).value;
    var num, den := s.Numerator(), s.Denominator();
    Pow10Scale();
    QuotientBound(num, MAX_WHOLE, den, SCALE_FACTOR);
  }

  lemma QuotientBound(num: nat, whole: nat, den: nat, scale: nat)
    requires den > 0 && num <= whole * den
    ensures num * scale / den <= whole * scale
  {
    MulMonotone(scale, num, whole * den);
    assert (whole * den) * scale == den * (whole * scale);
    var q := num * scale / den;
    if q > whole * scale { MulMonotone(den, whole * scale + 1, q); }
  }

  /** Normalizing a stored text twice is normalizing it once. */
  lemma NormalizeStoredIdempotent(text: string)
    requires NormalizeStored(text).Some?
    ensures NormalizeStored(NormalizeStored(text).value) == NormalizeStored(text)
  {
    AmountStorable(text, SCALE_DIGITS);
    DisplayRoundTrip(Amount(text, SCALE_DIGITS).value);
  }

  /** No two storable amounts print alike. */
  lemma DisplayInjective(a: nat, b: nat)
    requires a <= MAX_STORED_UNITS && b <= MAX_STORED_UNITS && Display(a) == Display(b)
    ensures a == b
  {
    DisplayRoundTrip(a);
    DisplayRoundTrip(b);
  }

  /** An amount is the value, exactly. */
  lemma AmountExact(text: string)
    requires Amount(text, SCALE_DIGITS).Some?
    ensures var s := Read(text).value;
            s.Numerator() * Pow10(SCALE_DIGITS) == Amount(text, SCALE_DIGITS).value * s.Denominator()
  {
    var s := Read(text).value;
    UnitsExact(s.Numerator(), s.Denominator());
  }

  lemma UnitsExact(num: nat, den: nat)
    requires den > 0 && Units(num, den, SCALE_DIGITS).Some?
    ensures num * Pow10(SCALE_DIGITS) == Units(num, den, SCALE_DIGITS).value * den
  {
    ExactQuotient(num * Pow10(SCALE_DIGITS), den);
  }

  lemma ExactQuotient(n: nat, d: nat)
    requires d > 0 && n % d == 0
    ensures n == (n / d) * d
  {
  }

  /** Two readable texts normalize alike exactly when they spell the same value, or neither is storable. */
  lemma NormalizeStoredByValue(a: string, b: string)
    requires Read(a).Some? && Read(b).Some?
    ensures var x, y := Read(a).value, Read(b).value;
            (NormalizeStored(a) == NormalizeStored(b)) <==>
            (x.Numerator() * y.Denominator() == y.Numerator() * x.Denominator()
             || (NormalizeStored(a) == None && NormalizeStored(b) == None))
  {
    var x, y := Read(a).value, Read(b).value;
    if x.Numerator() * y.Denominator() == y.Numerator() * x.Denominator() {
      SameValueSameAmount(x.Numerator(), x.Denominator(), y.Numerator(), y.Denominator(), SCALE_DIGITS);
    } else if NormalizeStored(a).Some? && NormalizeStored(a) == NormalizeStored(b) {
      SameTextSameValue(a, b);
    }
  }

  lemma SameTextSameValue(a: string, b: string)
    requires NormalizeStored(a).Some? && NormalizeStored(a) == NormalizeStored(b)
    ensures var x, y := Read(a).value, Read(b).value;
            x.Numerator() * y.Denominator() == y.Numerator() * x.Denominator()
  {
    AmountStorable(a, SCALE_DIGITS);
    AmountStorable(b, SCALE_DIGITS);
    DisplayInjective(Amount(a, SCALE_DIGITS).value, Amount(b, SCALE_DIGITS).value);
    AmountExact(a);
    AmountExact(b);
    var x, y := Read(a).value, Read(b).value;
    SameUnitsSameValue(x.Numerator(), x.Denominator(), y.Numerator(), y.Denominator(),
                       Pow10(SCALE_DIGITS), Amount(a, SCALE_DIGITS).value);
  }

  lemma MulSwap(a: nat, b: nat, c: nat)
    ensures (a * b) * c == (a * c) * b
  {
  }

  lemma SameUnitsSameValue(num: nat, den: nat, num': nat, den': nat, scale: nat, units: nat)
    requires den > 0 && den' > 0 && scale > 0
    requires num * scale == units * den && num' * scale == units * den'
    ensures num * den' == num' * den
  {
    MulSwap(num, den', scale);
    MulSwap(units, den, den');
    MulSwap(num', den, scale);
    LeScale(num * den', num' * den, scale);
    LeScale(num' * den, num * den', scale);
  }
}
