/** Splitting a roll before production: the cutting plan, its weight balance, and the reports that
    record a balance that does not come out. */
module RawSplit {
  import opened Text
  import opened Numerals
  import opened FixedPoint
  import opened Lists

  /** 355 mm, in millionths. */
  const MIN_OUTPUT_WIDTH := 355_000_000

  datatype Output = Output(kg: string, widthMm: string, grossKg: Option<string>, bobinaKg: Option<string>,
                           lengthM: Option<string>)
  datatype Weighed = Weighed(kg: int, widthMm: int, grossKg: int, bobinaKg: int, lengthM: Option<int>)
  datatype Command = Command(requestId: string, issueId: Option<string>, sourceBarcode: string,
                             expectedRevision: string, expectedKg: string, expectedWidthMm: string,
                             expectedMicron: string, wasteKg: string, outputs: seq<Output>)
  datatype Plan = Plan(source: int, outputs: seq<Weighed>)

  // ---- Quantities ----

  const ZEROS := {"0", "0.0", "0.00", "0.000", "0.0000", "0.00000", "0.000000"}

  function Quantity(raw: string, zero: bool): (r: Option<int>)
    ensures r.Some? ==> (if zero then 0 else 1) <= r.value <= MAX
  {
    if zero && Trim(raw) in ZEROS then Some(0) else Decimal(raw)
  }

  // ---- Outputs ----

  predicate RequestChar(c: char) {
    'a' <= c <= 'z' || 'A' <= c <= 'Z' || IsDigit(c) || c in {'-', '_', ':'}
  }

  predicate HeaderOk(c: Command) {
    && 8 <= Utf8Len(c.requestId) <= 128 && (forall i :: 0 <= i < |c.requestId| ==> RequestChar(c.requestId[i]))
    && Trim(c.sourceBarcode) != "" && Utf8Len(c.sourceBarcode) <= 256
    && c.expectedRevision != "" && Utf8Len(c.expectedRevision) <= 64
  }

  /** The optional length: a blank one counts as absent; the outer option is the error. */
  function ReadLength(raw: Option<string>): Option<Option<int>> {
    if raw.None? || Trim(raw.value) == "" then Some(None)
    else
      var q := Quantity(raw.value, false);
      if q.None? then None else Some(Some(q.value))
  }

  /** One output line on its own, against the width of the roll. */
  function Weigh(line: Output, width: int): Option<Weighed> {
    if line.grossKg.None? || line.bobinaKg.None? then None
    else
      var kg, mm := Quantity(line.kg, false), Quantity(line.widthMm, false);
      var gross, bobina := Quantity(line.grossKg.value, false), Quantity(line.bobinaKg.value, true);
      var length := ReadLength(line.lengthM);
      if kg.None? || mm.None? || gross.None? || bobina.None? || length.None? then None
      else if gross.value <= bobina.value || gross.value - bobina.value != kg.value then None
      else if mm.value < MIN_OUTPUT_WIDTH || mm.value > width then None
      else Some(Weighed(kg.value, mm.value, gross.value, bobina.value, length.value))
  }

  function Weigher(width: int): Output -> Option<Weighed> { (line: Output) => Weigh(line, width) }
  function WidthOf(): Weighed -> int { (w: Weighed) => w.widthMm }
  function KgOf(): Weighed -> int { (w: Weighed) => w.kg }

  /** What the outputs leave of the roll is too narrow for another one, and not negative. */
  predicate Fits(outputs: seq<Weighed>, width: int) {
    0 <= width - Total(WidthOf(), outputs) < MIN_OUTPUT_WIDTH
  }

  /** The cutting plan of a command: every line weighs, and together they use up the roll. */
  function PlanOf(c: Command): Option<Plan> {
    var source, width := Quantity(c.expectedKg, false), Quantity(c.expectedWidthMm, false);
    if !HeaderOk(c) || source.None? || width.None? || Quantity(c.expectedMicron, false).None? then None
    else if !(1 <= |c.outputs| <= 100) then None
    else
      var outputs := ReadAll(Weigher(width.value), c.outputs);
      if outputs.None? || !Fits(outputs.value, width.value) then None else Some(Plan(source.value, outputs.value))
  }

  ghost predicate GivesWidth(weigh: Output -> Option<Weighed>) {
    forall line :: weigh(line).Some? ==> weigh(line).value.widthMm >= 0
  }

  lemma TooWide(weigh: Output -> Option<Weighed>, lines: seq<Output>, outputs: seq<Weighed>, width: int)
    requires GivesWidth(weigh) && |outputs| <= |lines| && Total(WidthOf(), outputs) > width
    requires forall i :: 0 <= i < |outputs| ==> weigh(lines[i]) == Some(outputs[i])
    ensures var all := ReadAll(weigh, lines); all.None? || !Fits(all.value, width)
  {
    var all := ReadAll(weigh, lines);
    if all.Some? {
      assert all.value[..|outputs|] == outputs;
      TotalPrefix(WidthOf(), all.value, |outputs|);
    }
  }

  /** The loop over the lines with its running width and early exits. */
  method WeighLines(weigh: Output -> Option<Weighed>, lines: seq<Output>, width: int) returns (r: Option<seq<Weighed>>)
    requires GivesWidth(weigh) && width >= 0
    ensures var all := ReadAll(weigh, lines);
            r == if all.Some? && Fits(all.value, width) then all else None
  {
    var usedWidth := 0;
    var outputs: seq<Weighed> := [];
    for n := 0 to |lines|
      invariant |outputs| == n && forall i :: 0 <= i < n ==> weigh(lines[i]) == Some(outputs[i])
      invariant usedWidth == Total(WidthOf(), outputs) <= width
    {
      var weighed := weigh(lines[n]);
      if weighed.None? { return None; }
      assert (outputs + [weighed.value])[..n] == outputs;
      outputs := outputs + [weighed.value];
      usedWidth := usedWidth + weighed.value.widthMm;
      if usedWidth > width {
        TooWide(weigh, lines, outputs, width);
        return None;
      }
    }
    assert ReadAll(weigh, lines).value == outputs;
    if width - usedWidth >= MIN_OUTPUT_WIDTH { return None; }
    r := Some(outputs);
  }

  method ValidateOutputs(c: Command) returns (r: Option<Plan>)
    ensures r == PlanOf(c)
  {
    if !HeaderOk(c) { return None; }
    var source := Quantity(c.expectedKg, false);
    if source.None? { return None; }
    var width := Quantity(c.expectedWidthMm, false);
    if width.None? || Quantity(c.expectedMicron, false).None? { return None; }
    if |c.outputs| == 0 || |c.outputs| > 100 { return None; }
    var outputs := WeighLines(Weigher(width.value), c.outputs, width.value);
    if outputs.None? { return None; }
    r := Some(Plan(source.value, outputs.value));
  }

  /** An output is a legal roll: wide enough, no wider than the source, net = gross - bobina. */
  predicate Legal(w: Weighed, width: int) {
    && MIN_OUTPUT_WIDTH <= w.widthMm <= width
    && 0 <= w.bobinaKg < w.grossKg && w.kg == w.grossKg - w.bobinaKg && 0 < w.kg <= MAX
  }

  lemma WeighLegal(line: Output, width: int)
    ensures Weigh(line, width).Some? ==> Legal(Weigh(line, width).value, width)
  {
  }

  /** A plan uses legal rolls that fit side by side, and no further legal roll would fit. */
  lemma PlanMaximal(c: Command)
    requires PlanOf(c).Some?
    ensures var outputs, width := PlanOf(c).value.outputs, Quantity(c.expectedWidthMm, false);
            && width.Some? && 1 <= |outputs| == |c.outputs| <= 100
            && (forall w :: w in outputs ==> Legal(w, width.value))
            && Total(WidthOf(), outputs) <= width.value && |outputs| * MIN_OUTPUT_WIDTH <= width.value
            && forall w :: Legal(w, width.value) ==> Total(WidthOf(), outputs + [w]) > width.value
  {
    var outputs, width := PlanOf(c).value.outputs, Quantity(c.expectedWidthMm, false).value;
    forall i | 0 <= i < |outputs| ensures Legal(outputs[i], width) {
      assert Weigher(width)(c.outputs[i]) == Some(outputs[i]);
      WeighLegal(c.outputs[i], width);
    }
    TotalAtLeast(WidthOf(), outputs, MIN_OUTPUT_WIDTH);
    forall w | Legal(w, width) ensures Total(WidthOf(), outputs + [w]) > width {
      assert (outputs + [w])[..|outputs|] == outputs;
    }
  }

  // ---- The normal path ----

  datatype Split = Split(source: int, waste: int, outputs: seq<Weighed>)

  /** A plan is settled by a positive waste that makes up the difference exactly. */
  function Settle(plan: Plan, wasteKg: string): Option<Split> {
    var waste := Quantity(wasteKg, true);
    if Trim(wasteKg) == "" || waste.None? || waste.value == 0 then None
    else if Total(KgOf(), plan.outputs) + waste.value != plan.source then None
    else Some(Split(plan.source, waste.value, plan.outputs))
  }

  function Validate(c: Command): Option<Split> {
    var plan := PlanOf(c);
    if plan.None? then None else Settle(plan.value, c.wasteKg)
  }

  // ---- The report of a balance that does not come out ----

  datatype Kind = InvalidWaste | ZeroWaste | MissingWeight | ExcessWeight
  datatype Report = Report(command: Command, note: string)
  datatype Balance = Balance(source: int, output: int, waste: Option<int>, difference: Option<int>, kind: Kind)

  function Commas(s: string): (r: string)
    ensures |r| == |s| && forall i :: 0 <= i < |s| ==> r[i] == if s[i] == ',' then '.' else s[i]
  {
    seq(|s|, i requires 0 <= i < |s| => if s[i] == ',' then '.' else s[i])
  }

  function TrimZeros(s: string): string {
    if s != "" && s[0] == '0' then TrimZeros(s[1..]) else s
  }

  function Unzeroed(whole: string): string {
    if TrimZeros(whole) == "" then "0" else TrimZeros(whole)
  }

  /** The first separator is the last character. */
  predicate Trailing(raw: string) {
    var parts := SplitOnce(Commas(Trim(raw)), '.');
    parts.Some? && parts.value.1 == ""
  }

  /** The parts are handed on to a reader without leading zeros and with six places. */
  function ReadPadded(read: string -> Option<int>, whole: string, fraction: string): Option<int> {
    if WellFormed(whole, fraction) then read(Unzeroed(whole) + "." + (fraction + Zeros(6 - |fraction|))) else None
  }

  function OrZero(): string -> Option<int> { (s: string) => Quantity(s, true) }

  /** The waste of a report: comma or dot, but no final separator; zero is allowed. */
  function IssueWaste(raw: string): Option<int> {
    if Trailing(raw) then None
    else
      var (whole, fraction) := Parts(Commas(Trim(raw)));
      ReadPadded(OrZero(), whole, fraction)
  }

  predicate ReportOk(r: Report) {
    r.command.issueId.None? && Trim(r.note) != "" && |r.note| <= 1000 && Utf8Len(r.command.wasteKg) <= 64
  }

  /** The kind of the imbalance; none if there is nothing to report. */
  function Classify(plan: Plan, waste: Option<int>): Option<Balance> {
    var source, output := plan.source, Total(KgOf(), plan.outputs);
    if waste.None? then Some(Balance(source, output, None, None, InvalidWaste))
    else
      var difference := source - output - waste.value;
      if waste.value == 0 then Some(Balance(source, output, waste, Some(difference), ZeroWaste))
      else if difference > 0 then Some(Balance(source, output, waste, Some(difference), MissingWeight))
      else if difference < 0 then Some(Balance(source, output, waste, Some(difference), ExcessWeight))
      else None
  }

  function ValidateReport(r: Report): Option<Balance> {
    var plan := PlanOf(r.command);
    if !ReportOk(r) || plan.None? then None else Classify(plan.value, IssueWaste(r.command.wasteKg))
  }

  // ---- What the two readers of the waste accept ----

  /** The positive amount a text denotes, a comma read as a dot and a final separator forgiven. */
  function Reading(raw: string): Option<int> {
    Decimal(Commas(Trim(raw)))
  }

  predicate HasComma(raw: string) {
    ',' in Trim(raw)
  }

  lemma CommasTidy(raw: string)
    ensures Trim(Commas(Trim(raw))) == Commas(Trim(raw))
  {
    TrimTidy(raw);
    TrimTidy(Commas(Trim(raw)));
  }

  lemma {:induction false} TrimZerosValue(s: string)
    requires AllDigits(s)
    ensures AllDigits(TrimZeros(s)) && Value(TrimZeros(s)) == Value(s)
  {
    if s != "" && s[0] == '0' {
      TrimZerosValue(s[1..]);
      assert s == Zeros(1) + s[1..];
      LeadingZeros(1, s[1..]);
    }
  }

  lemma SpelledChars(t: string, whole: string, fraction: string)
    requires Spelled(t, whole, fraction)
    ensures forall k :: 0 <= k < |t| ==> IsDigit(t[k]) || t[k] == '.'
  {
  }

  /** A text with a comma is not a decimal; without one, its reading is. */
  lemma NormalWaste(raw: string)
    ensures Decimal(raw) == if HasComma(raw) then None else Reading(raw)
  {
    var t := Trim(raw);
    CommasTidy(raw);
    if HasComma(raw) {
      var i :| 0 <= i < |t| && t[i] == ',';
      var (whole, fraction) := Parts(t);
      if WellFormed(whole, fraction) {
        SpelledParts(t, whole, fraction);
        SpelledChars(t, whole, fraction);
      }
    } else {
      assert Commas(t) == t;
    }
  }

  lemma {:induction false} TrimZerosEmpty(s: string)
    requires AllDigits(s)
    ensures TrimZeros(s) == "" <==> Value(s) == 0
  {
    if s != "" && s[0] == '0' {
      TrimZerosEmpty(s[1..]);
      assert s == Zeros(1) + s[1..];
      LeadingZeros(1, s[1..]);
    } else {
      ValueZero(s);
    }
  }

  lemma UnzeroedValue(whole: string)
    requires AllDigits(whole)
    ensures var z := Unzeroed(whole);
            z != "" && AllDigits(z) && Value(z) == Value(whole) && (Value(z) == 0 ==> z == "0")
  {
    TrimZerosValue(whole);
    TrimZerosEmpty(whole);
  }

  lemma ZeroText(z: string, f: string)
    requires z != "" && |f| == 6
    ensures z + "." + f in ZEROS <==> z == "0" && f == "000000"
  {
    var text := z + "." + f;
    assert |text| >= 8;
    assert text in ZEROS <==> text == "0.000000";
    if text == "0.000000" {
      assert |z| == 1 && z == text[..1] && f == text[2..];
    }
  }

  lemma ZeroAmount(z: string, f: string)
    requires AllDigits(z) && AllDigits(f) && |f| == 6 && (Value(z) == 0 ==> z == "0")
    ensures Value(z) * SCALE + Value(f) == 0 <==> z == "0" && f == "000000"
  {
    ValueZero(f);
    ValueZero(z);
  }

  function UpToMax(w: int): Option<int> {
    if 0 <= w <= MAX then Some(w) else None
  }

  lemma PaddedParts(z: string, f: string)
    requires WellFormed(z, f)
    ensures Trim(z + "." + f) == z + "." + f && Parts(z + "." + f) == (z, f)
  {
    PlainTidy(z + "." + f);
    SplitOnceAt(z, '.', f);
  }

  lemma PaddedDecimal(z: string, f: string)
    requires WellFormed(z, f) && |f| == 6
    ensures Decimal(z + "." + f) == InRange(Value(z) * SCALE + Value(f))
  {
    PaddedParts(z, f);
    SixPlaces(z + "." + f, z, f);
  }

  lemma ListedZero(z: string, f: string)
    requires WellFormed(z, f) && |f| == 6 && (Value(z) == 0 ==> z == "0")
    ensures z + "." + f in ZEROS <==> Value(z) * SCALE + Value(f) == 0
  {
    ZeroText(z, f);
    ZeroAmount(z, f);
  }

  lemma ListedOrRead(raw: string, w: nat)
    requires Trim(raw) == raw && Decimal(raw) == InRange(w) && (raw in ZEROS <==> w == 0)
    ensures Quantity(raw, true) == UpToMax(w)
  {
  }

  lemma PaddedOrListed(z: string, f: string)
    requires WellFormed(z, f) && |f| == 6 && (z + "." + f in ZEROS <==> Value(z) * SCALE + Value(f) == 0)
    ensures Quantity(z + "." + f, true) == UpToMax(Value(z) * SCALE + Value(f))
  {
    PaddedParts(z, f);
    PaddedDecimal(z, f);
    ListedOrRead(z + "." + f, Value(z) * SCALE + Value(f));
  }

  /** The text handed on has no leading zeros and six places, so it is listed exactly when it is zero. */
  lemma PaddedQuantity(z: string, f: string)
    requires WellFormed(z, f) && |f| == 6 && (Value(z) == 0 ==> z == "0")
    ensures Quantity(z + "." + f, true) == UpToMax(Value(z) * SCALE + Value(f))
  {
    ListedZero(z, f);
    PaddedOrListed(z, f);
  }

  ghost predicate ReadsPadded(read: string -> Option<int>) {
    forall z, f {:trigger read(z + "." + f)} ::
      WellFormed(z, f) && |f| == 6 && (Value(z) == 0 ==> z == "0") ==>
      read(z + "." + f) == UpToMax(Value(z) * SCALE + Value(f))
  }

  lemma ReadPaddedExact(read: string -> Option<int>, whole: string, fraction: string)
    requires WellFormed(whole, fraction) && ReadsPadded(read)
    ensures ReadPadded(read, whole, fraction) == UpToMax(Value(whole + fraction) * Pow10(6 - |fraction|))
  {
    Shifted(whole, fraction);
    UnzeroedValue(whole);
  }

  lemma OrZeroReads()
    ensures ReadsPadded(OrZero())
  {
    var read := OrZero();
    forall z, f | WellFormed(z, f) && |f| == 6 && (Value(z) == 0 ==> z == "0")
      ensures read(z + "." + f) == UpToMax(Value(z) * SCALE + Value(f))
    {
      PaddedQuantity(z, f);
    }
  }

  /** The report's reader accepts exactly the texts without a final separator that denote 0 to MAX. */
  lemma IssueWasteExact(raw: string, w: int)
    ensures IssueWaste(raw) == Some(w) <==> !Trailing(raw) && 0 <= w <= MAX && Denotes(Commas(Trim(raw)), w)
  {
    var t := Commas(Trim(raw));
    var (whole, fraction) := Parts(t);
    DenotesParts(t, w);
    if WellFormed(whole, fraction) {
      OrZeroReads();
      ReadPaddedExact(OrZero(), whole, fraction);
    }
  }

  lemma DenotesZero(t: string, v: int)
    requires Denotes(t, v) && forall i :: 0 <= i < |t| ==> t[i] in {'0', '.'}
    ensures v == 0
  {
    var whole, fraction :| Spelled(t, whole, fraction) && v == Value(whole + fraction) * Pow10(6 - |fraction|);
    var digits := whole + fraction;
    forall i | 0 <= i < |digits| ensures digits[i] == '0' {
      assert digits[i] == if i < |whole| then t[i] else t[i + 1];
    }
    ValueZero(digits);
    Annihilate(Pow10(6 - |fraction|));
  }

  lemma ZeroChars(t: string)
    requires t in ZEROS
    ensures forall i :: 0 <= i < |t| ==> t[i] in {'0', '.'}
  {
  }

  /** None of the listed zeros is a positive decimal. */
  lemma ZerosUnreadable(raw: string)
    requires Trim(raw) in ZEROS
    ensures Decimal(raw) == None
  {
    ZeroChars(Trim(raw));
    var d := Decimal(raw);
    if d.Some? {
      DecimalExact(raw, d.value);
      DenotesZero(Trim(raw), d.value);
    }
  }

  /** Both readers agree on a positive amount except for commas and final separators. */
  lemma WasteReaders(raw: string, w: int)
    requires w > 0
    ensures Quantity(raw, true) == Some(w) <==> Reading(raw) == Some(w) && !HasComma(raw)
    ensures IssueWaste(raw) == Some(w) <==> Reading(raw) == Some(w) && !Trailing(raw)
  {
    NormalWaste(raw);
    CommasTidy(raw);
    DecimalExact(Commas(Trim(raw)), w);
    IssueWasteExact(raw, w);
    if Trim(raw) in ZEROS { ZerosUnreadable(raw); }
  }
}
