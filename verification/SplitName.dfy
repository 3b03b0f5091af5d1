/** Naming a split roll: `<base> <width>/<micron>`, where renaming replaces the measures. */
module SplitName {
  import opened Text
  import opened Numerals
  import opened FixedPoint
  import opened RawSplit

  /** `rsplit_once`: around the last occurrence of a character. */
  function RSplitOnce(s: string, c: char): Option<(string, string)> {
    if s == "" then None
    else if s[|s| - 1] == c then Some((s[..|s| - 1], ""))
    else
      var front := RSplitOnce(s[..|s| - 1], c);
      if front.None? then None else Some((front.value.0, front.value.1 + [s[|s| - 1]]))
  }

  predicate NumericChar(c: char) {
    IsDigit(c) || c == '.' || c == ','
  }

  /** Where the numeric tail of the text starts. */
  function NumericStart(s: string): (n: nat)
    ensures n <= |s|
  {
    if s != "" && NumericChar(s[|s| - 1]) then NumericStart(s[..|s| - 1]) else |s|
  }

  predicate Measure(s: string) {
    Quantity(Commas(s), false).Some?
  }

  /** What precedes two measures around a slash; the whole name if they are not measures. */
  function Lead(measure: string -> bool, name: string, left: string, right: string): string {
    var start := NumericStart(left);
    if measure(left[start..]) && measure(Trim(right)) then TrimEnd(left[..start]) else name
  }

  function BaseBy(measure: string -> bool, name: string): string {
    var trimmed := Trim(name);
    var halves := RSplitOnce(trimmed, '/');
    if halves.None? then trimmed else Lead(measure, trimmed, TrimEnd(halves.value.0), halves.value.1)
  }

  /** The name without the measures at its end, if it has any. */
  function Base(name: string): string {
    BaseBy(Measure, name)
  }

  function TrimDots(s: string): string {
    if s != "" && s[|s| - 1] == '.' then TrimDots(s[..|s| - 1]) else s
  }

  /** A measure without the zeros and the dot at its end. */
  function Compact(s: string): string {
    if '.' in s then TrimDots(StripZeros(s)) else s
  }

  function SplitItemName(name: string, width: string, micron: string): string {
    Trim(Base(name) + " " + Compact(width) + "/" + Compact(micron))
  }

  method NameSplitItem(name: string, width: string, micron: string) returns (r: string)
    ensures r == SplitItemName(name, width, micron)
    ensures Plain(width) && Plain(micron) ==> Base(r) == Base(name)
    ensures Plain(width) && Plain(micron) ==>
              forall w, m :: SplitItemName(r, w, m) == SplitItemName(name, w, m)
  {
    var trimmed := Trim(name);
    var base := trimmed;
    var halves := RSplitOnce(trimmed, '/');
    if halves.Some? {
      var left := TrimEnd(halves.value.0);
      var start := NumericStart(left);
      if Measure(left[start..]) && Measure(Trim(halves.value.1)) { base := TrimEnd(left[..start]); }
    }
    r := Trim(base + " " + Compact(width) + "/" + Compact(micron));
    if Plain(width) && Plain(micron) { NamingKeepsBase(name, width, micron); }
  }

  // ---- Compacting ----

  lemma {:induction false} StripZerosAfter(a: string, f: string)
    requires AllDigits(f)
    ensures StripZeros(a + "." + f) == a + "." + StripZeros(f)
  {
    var s := a + "." + f;
    if f == "" {
      assert s == a + ".";
    } else {
      assert s[..|s| - 1] == a + "." + f[..|f| - 1] && s[|s| - 1] == f[|f| - 1];
      if f[|f| - 1] == '0' { StripZerosAfter(a, f[..|f| - 1]); }
    }
  }

  lemma TrimDotsOnce(whole: string)
    requires whole != "" && AllDigits(whole)
    ensures TrimDots(whole + ".") == whole
  {
    assert (whole + ".")[..|whole|] == whole;
    assert IsDigit(whole[|whole| - 1]);
  }

  lemma StripZerosKeepsDigits(fraction: string)
    ensures var f := StripZeros(fraction); f == "" || (f[|f| - 1] in fraction && f[|f| - 1] != '0')
  {
    StripZerosParts(fraction);
  }

  lemma TrimDotsNone(s: string, f: string)
    requires f != "" && f[|f| - 1] != '.'
    ensures TrimDots(s + "." + f) == s + "." + f
  {
    var t := s + "." + f;
    assert t[|t| - 1] == f[|f| - 1];
  }

  /** Compacting a measure drops the zeros at the end of its fraction, and the dot with the last of them. */
  lemma CompactParts(whole: string, fraction: string)
    requires WellFormed(whole, fraction)
    ensures Compact(whole) == whole
    ensures var f := StripZeros(fraction);
            Compact(whole + "." + fraction) == if f == "" then whole else whole + "." + f
  {
    var s, f := whole + "." + fraction, StripZeros(fraction);
    assert s[|whole|] == '.';
    StripZerosAfter(whole, fraction);
    StripZerosKeepsDigits(fraction);
    if f == "" {
      assert whole + "." + f == whole + ".";
      TrimDotsOnce(whole);
    } else {
      TrimDotsNone(whole, f);
    }
  }

  lemma Rescale(x: int, p: int, q: int, y: int, pq: int)
    requires y == x * p && pq == p * q
    ensures x * pq == y * q
  {
  }

  lemma AppendZeros(s: string, r: nat)
    requires AllDigits(s)
    ensures Value(s + Zeros(r)) == Value(s) * Pow10(r)
  {
    ValueConcat(s, Zeros(r));
    ValueZeros(r);
  }

  /** Dropped zeros do not change the amount. */
  lemma StrippedAmount(whole: string, fraction: string)
    requires WellFormed(whole, fraction)
    ensures var f := StripZeros(fraction);
            && WellFormed(whole, f)
            && Value(whole + f) * Pow10(6 - |f|) == Value(whole + fraction) * Pow10(6 - |fraction|)
  {
    var f := StripZeros(fraction);
    StripZerosParts(fraction);
    var r := |fraction| - |f|;
    assert whole + fraction == (whole + f) + Zeros(r);
    AppendZeros(whole + f, r);
    Pow10Add(r, 6 - |fraction|);
    Rescale(Value(whole + f), Pow10(r), Pow10(6 - |fraction|), Value(whole + fraction), Pow10(6 - |f|));
  }

  /** A plain measure: a positive decimal with nothing around it. */
  predicate Plain(s: string) {
    Trim(s) == s && Decimal(s).Some?
  }

  lemma CompactSpelled(s: string, whole: string, fraction: string)
    requires Spelled(s, whole, fraction)
    ensures Spelled(Compact(s), whole, StripZeros(fraction))
  {
    CompactParts(whole, fraction);
    StripZerosParts(fraction);
  }

  lemma CompactDenotes(s: string, v: int)
    requires Denotes(s, v)
    ensures Denotes(Compact(s), v) && Numeral(Compact(s))
  {
    var whole, fraction :| Spelled(s, whole, fraction) && v == Value(whole + fraction) * Pow10(6 - |fraction|);
    CompactSpelled(s, whole, fraction);
    StrippedAmount(whole, fraction);
    SpelledChars(Compact(s), whole, StripZeros(fraction));
  }

  /** Compacting keeps a measure plain, and its amount. */
  lemma CompactKeeps(s: string)
    requires Plain(s)
    ensures Plain(Compact(s)) && Decimal(Compact(s)) == Decimal(s)
    ensures Numeral(Compact(s))
  {
    var v := Decimal(s).value;
    DecimalExact(s, v);
    CompactDenotes(s, v);
    PlainTidy(Compact(s));
    DecimalExact(Compact(s), v);
  }

  // ---- Taking a name apart ----

  lemma {:induction false} RSplitOnceAt(a: string, c: char, b: string)
    requires Free(b, {c})
    ensures RSplitOnce(a + [c] + b, c) == Some((a, b))
  {
    var s := a + [c] + b;
    if b == "" {
      assert s[..|s| - 1] == a;
    } else {
      RSplitOnceAt(a, c, b[..|b| - 1]);
      assert s[..|s| - 1] == a + [c] + b[..|b| - 1];
      assert b == b[..|b| - 1] + [b[|b| - 1]];
    }
  }

  lemma {:induction false} RSplitOncePrefix(s: string, c: char)
    ensures RSplitOnce(s, c).Some? ==> RSplitOnce(s, c).value.0 <= s
  {
    if s != "" { RSplitOncePrefix(s[..|s| - 1], c); }
  }

  lemma {:induction false} NumericStartAt(a: string, b: string)
    requires a == "" || !NumericChar(a[|a| - 1])
    requires forall i :: 0 <= i < |b| ==> NumericChar(b[i])
    ensures NumericStart(a + b) == |a|
  {
    if b == "" {
      assert a + b == a;
    } else {
      assert (a + b)[..|a + b| - 1] == a + b[..|b| - 1];
      NumericStartAt(a, b[..|b| - 1]);
    }
  }

  lemma BaseTidy(measure: string -> bool, name: string)
    ensures Tidy(BaseBy(measure, name))
  {
    var trimmed := Trim(name);
    TrimTidy(name);
    var halves := RSplitOnce(trimmed, '/');
    RSplitOncePrefix(trimmed, '/');
    if halves.Some? {
      TrimEndPrefix(halves.value.0);
      var left := TrimEnd(halves.value.0);
      TrimEndPrefix(left[..NumericStart(left)]);
    }
  }

  /** Digits and dots, as a measure is written into a name. */
  predicate Numeral(s: string) {
    s != "" && forall i :: 0 <= i < |s| ==> IsDigit(s[i]) || s[i] == '.'
  }

  lemma NumeralMeasure(s: string)
    requires Numeral(s) && Decimal(s).Some?
    ensures Measure(s) && Trim(s) == s
  {
    assert Commas(s) == s;
    PlainTidy(s);
  }

  /** The full name, before and after trimming. */
  lemma FullName(b: string, w: string, m: string)
    requires Tidy(b) && Numeral(w) && Numeral(m)
    ensures Trim(b + " " + w + "/" + m) == (if b == "" then "" else b + " ") + w + "/" + m
  {
    var s, tail := b + " " + w + "/" + m, w + "/" + m;
    assert !IsWhitespace(w[0]) && !IsWhitespace(m[|m| - 1]);
    if b == "" {
      assert s == " " + tail && "" + w + "/" + m == tail;
      LeadingSpace(tail);
      TrimTidy(tail);
    } else {
      assert s[0] == b[0] && s[|s| - 1] == m[|m| - 1];
      TrimTidy(s);
    }
  }

  lemma LeadingSpace(s: string)
    ensures Trim(" " + s) == Trim(s)
  {
    assert (" " + s)[1..] == s;
  }

  /** How a name with a slash before a measure is taken apart. */
  lemma Slashed(left: string, m: string)
    requires left != "" && Tidy(left) && Numeral(m)
    ensures Trim(left + "/" + m) == left + "/" + m && TrimEnd(left) == left
    ensures RSplitOnce(left + "/" + m, '/') == Some((left, m))
  {
    var s := left + "/" + m;
    assert s[0] == left[0] && s[|s| - 1] == m[|m| - 1];
    TrimTidy(s);
    RSplitOnceAt(left, '/', m);
  }

  lemma LeadOfParts(measure: string -> bool, name: string, lead: string, w: string, m: string)
    requires (lead == "" || lead[|lead| - 1] == ' ') && Numeral(w) && Numeral(m) && measure(w) && measure(m)
    ensures Lead(measure, name, lead + w, m) == TrimEnd(lead)
  {
    var left := lead + w;
    NumericStartAt(lead, w);
    assert left[|lead|..] == w && left[..|lead|] == lead;
    PlainTidy(m);
  }

  lemma BaseOfHalves(measure: string -> bool, name: string, left: string, right: string)
    requires Trim(name) == name && RSplitOnce(name, '/') == Some((left, right)) && TrimEnd(left) == left
    ensures BaseBy(measure, name) == Lead(measure, name, left, right)
  {
  }

  lemma LeadTidy(lead: string, w: string)
    requires (lead == "" || !IsWhitespace(lead[0])) && Numeral(w)
    ensures lead + w != "" && Tidy(lead + w)
  {
    var left := lead + w;
    assert left[0] == (if lead == "" then w else lead)[0] && left[|left| - 1] == w[|w| - 1];
  }

  lemma BaseOfParts(measure: string -> bool, name: string, lead: string, w: string, m: string)
    requires (lead == "" || (lead[|lead| - 1] == ' ' && !IsWhitespace(lead[0]))) && name == lead + w + "/" + m
    requires Numeral(w) && Numeral(m) && measure(w) && measure(m)
    ensures BaseBy(measure, name) == TrimEnd(lead)
  {
    LeadTidy(lead, w);
    Slashed(lead + w, m);
    BaseOfHalves(measure, name, lead + w, m);
    LeadOfParts(measure, name, lead, w, m);
  }

  lemma BaseOfName(measure: string -> bool, b: string, w: string, m: string)
    requires Tidy(b) && Numeral(w) && Numeral(m) && measure(w) && measure(m)
    ensures BaseBy(measure, Trim(b + " " + w + "/" + m)) == b
  {
    var lead := if b == "" then "" else b + " ";
    FullName(b, w, m);
    BaseOfParts(measure, Trim(b + " " + w + "/" + m), lead, w, m);
    if b != "" {
      assert lead[..|lead| - 1] == b;
      assert TrimEnd(b) == b;
    }
  }

  /** Naming keeps the base of a name, whatever the name is. */
  lemma NamingKeepsBase(name: string, width: string, micron: string)
    requires Plain(width) && Plain(micron)
    ensures Base(SplitItemName(name, width, micron)) == Base(name)
  {
    BaseTidy(Measure, name);
    CompactKeeps(width);
    CompactKeeps(micron);
    NumeralMeasure(Compact(width));
    NumeralMeasure(Compact(micron));
    BaseOfName(Measure, Base(name), Compact(width), Compact(micron));
  }

  /** Renaming is last-write-wins. */
  lemma RenamingReplaces(name: string, width: string, micron: string, width2: string, micron2: string)
    requires Plain(width) && Plain(micron)
    ensures SplitItemName(SplitItemName(name, width, micron), width2, micron2) == SplitItemName(name, width2, micron2)
  {
    NamingKeepsBase(name, width, micron);
  }
}
