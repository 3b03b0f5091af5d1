/** The returned-paint balance: totals per usage, the 70/30 split of mixes, and the results
    that are stored. Amounts are units of 10^-12. */
module PaintBalance {
  import opened Text
  import opened DecimalAmount

  datatype Error =
    | MissingItems | InvalidUsage | InvalidCategory | MissingItemName | MissingValues
    | InvalidValue | NegativeFinalValue

  datatype Result<+T> = Ok(value: T) | Err(error: Error) {
    predicate IsFailure() { Err? }
    function PropagateFailure<U>(): Result<U> requires Err? { Err(error) }
    function Extract(): T requires Ok? { value }
  }

  datatype Entry = Entry(key: string, text: string)

  /** `values` lists a BTreeMap's entries in key order. */
  datatype Item = Item(usage: string, category: string, name: string, values: seq<Entry>)

  // ---- What one item says ----

  datatype Usage = Rasxot | Astatka
  datatype Bucket = Mix | Paint | Alcohol

  /** One input: where it counts, and its amount if the text has one. */
  datatype Line = Line(bucket: Bucket, units: Option<nat>)
  datatype Sheet = Sheet(counted: bool, usage: Option<Usage>, lines: seq<Line>)

  function UsageOf(usage: string): Option<Usage> {
    if SameIgnoringCase(Trim(usage), "rasxot") then Some(Rasxot)
    else if SameIgnoringCase(Trim(usage), "astatka") then Some(Astatka)
    else None
  }

  predicate IsSolvent(category: string) { SameIgnoringCase(Trim(category), "solvents") }
  predicate IsColor(category: string) { SameIgnoringCase(Trim(category), "colors") }
  predicate IsMix(name: string) { SameIgnoringCase(Trim(name), "mix") }

  function LineOf(solvent: bool, mix: bool, e: Entry): Line {
    Line(if solvent then Alcohol else if mix || IsMix(e.key) then Mix else Paint,
         Amount(e.text, INPUT_PLACES))
  }

  function LinesOf(solvent: bool, mix: bool, values: seq<Entry>): (r: seq<Line>)
    ensures |r| == |values|
    ensures forall i :: 0 <= i < |r| ==> r[i] == LineOf(solvent, mix, values[i])
  {
    seq(|values|, i requires 0 <= i < |values| => LineOf(solvent, mix, values[i]))
  }

  function SheetOf(item: Item): Sheet {
    Sheet(IsSolvent(item.category) || IsColor(item.category), UsageOf(item.usage),
          LinesOf(IsSolvent(item.category), IsMix(item.name), item.values))
  }

  function Sheets(items: seq<Item>): (r: seq<Sheet>)
    ensures |r| == |items|
    ensures forall i :: 0 <= i < |r| ==> r[i] == SheetOf(items[i])
  {
    seq(|items|, i requires 0 <= i < |items| => SheetOf(items[i]))
  }

  // ---- The totals ----

  function Share(line: Line, b: Bucket): nat {
    if line.bucket == b && line.units.Some? then line.units.value else 0
  }

  function LineTotal(lines: seq<Line>, b: Bucket): nat {
    if lines == [] then 0 else LineTotal(lines[..|lines| - 1], b) + Share(lines[|lines| - 1], b)
  }

  /** The sum of all inputs, whatever their bucket. */
  function LineSum(lines: seq<Line>): nat {
    if lines == [] then 0
    else
      var units := lines[|lines| - 1].units;
      LineSum(lines[..|lines| - 1]) + if units.Some? then units.value else 0
  }

  /** Everything entered for a usage in a bucket, over all counted items. */
  function Total(sheets: seq<Sheet>, usage: Usage, b: Bucket): nat {
    if sheets == [] then 0
    else
      var last := sheets[|sheets| - 1];
      Total(sheets[..|sheets| - 1], usage, b) +
      if last.counted && last.usage == Some(usage) then LineTotal(last.lines, b) else 0
  }

  /** Every colour and solvent input of a usage. */
  function GrandTotal(sheets: seq<Sheet>, usage: Usage): nat {
    if sheets == [] then 0
    else
      var last := sheets[|sheets| - 1];
      GrandTotal(sheets[..|sheets| - 1], usage) +
      if last.counted && last.usage == Some(usage) then LineSum(last.lines) else 0
  }

  predicate AllAmounts(lines: seq<Line>) {
    forall i :: 0 <= i < |lines| ==> lines[i].units.Some?
  }

  predicate ReadableSheet(sheet: Sheet) {
    sheet.counted ==> sheet.usage.Some? && AllAmounts(sheet.lines)
  }

  /** Every counted item has a usage and only amounts. */
  predicate Readable(sheets: seq<Sheet>) {
    forall i :: 0 <= i < |sheets| ==> ReadableSheet(sheets[i])
  }

  // ---- The scan over the items, under i128 checks ----

  datatype Totals = Totals(mix: nat, paint: nat, alcohol: nat) {
    predicate Fits() { mix <= I128_MAX && paint <= I128_MAX && alcohol <= I128_MAX }

    function Add(lines: seq<Line>): Totals {
      Totals(mix + LineTotal(lines, Mix), paint + LineTotal(lines, Paint), alcohol + LineTotal(lines, Alcohol))
    }
  }

  datatype Scan = Scan(rasxot: Totals, astatka: Totals) {
    predicate Fits() { rasxot.Fits() && astatka.Fits() }
    function Get(u: Usage): Totals { if u == Rasxot then rasxot else astatka }
    function With(u: Usage, t: Totals): Scan {
      if u == Rasxot then this.(rasxot := t) else this.(astatka := t)
    }
  }

  const NOTHING := Scan(Totals(0, 0, 0), Totals(0, 0, 0))

  function TotalsOf(sheets: seq<Sheet>, u: Usage): Totals {
    Totals(Total(sheets, u, Mix), Total(sheets, u, Paint), Total(sheets, u, Alcohol))
  }

  function ScanLines(lines: seq<Line>, t: Totals): Result<Totals> {
    if AllAmounts(lines) && t.Add(lines).Fits() then Ok(t.Add(lines)) else Err(InvalidValue)
  }

  function ScanSheet(sheet: Sheet, s: Scan): Result<Scan> {
    if !sheet.counted then Ok(s)
    else if sheet.usage.None? then Err(InvalidUsage)
    else
      var t :- ScanLines(sheet.lines, s.Get(sheet.usage.value));
      Ok(s.With(sheet.usage.value, t))
  }

  /** The totals of all items, or the first error met. */
  function ScanSheets(sheets: seq<Sheet>): (r: Result<Scan>)
    ensures r.Ok? ==> r.value.Fits()
  {
    if sheets == [] then Ok(NOTHING)
    else
      var s :- ScanSheets(sheets[..|sheets| - 1]);
      ScanSheet(sheets[|sheets| - 1], s)
  }

  /** The scan succeeds exactly when all it reads is readable and the totals fit; then it holds
      the totals. On readable items the only failure is an overflow. */
  lemma {:induction false} ScanExact(sheets: seq<Sheet>)
    ensures var s := Scan(TotalsOf(sheets, Rasxot), TotalsOf(sheets, Astatka));
            && (ScanSheets(sheets).Ok? <==> Readable(sheets) && s.Fits())
            && (ScanSheets(sheets).Ok? ==> ScanSheets(sheets).value == s)
            && (Readable(sheets) && !s.Fits() ==> ScanSheets(sheets) == Err(InvalidValue))
  {
    if sheets != [] {
      var front, last := sheets[..|sheets| - 1], sheets[|sheets| - 1];
      ScanExact(front);
      assert Readable(sheets) <==> Readable(front) && ReadableSheet(last);
    }
  }

  lemma {:induction false} LineTotalPrefix(lines: seq<Line>, n: nat, b: Bucket)
    requires n <= |lines|
    ensures LineTotal(lines[..n], b) <= LineTotal(lines, b)
  {
    if n == |lines| {
      assert lines[..n] == lines;
    } else {
      LineTotalPrefix(lines[..|lines| - 1], n, b);
      assert lines[..|lines| - 1][..n] == lines[..n];
    }
  }

  lemma OverflowStays(lines: seq<Line>, n: nat, t: Totals)
    requires n <= |lines| && !t.Add(lines[..n]).Fits()
    ensures !t.Add(lines).Fits()
  {
    LineTotalPrefix(lines, n, Mix);
    LineTotalPrefix(lines, n, Paint);
    LineTotalPrefix(lines, n, Alcohol);
  }

  function CheckedLine(line: Line, t: Totals): Result<Totals> {
    if line.units.None? then Err(InvalidValue)
    else match line.bucket
      case Alcohol =>
        var sum := CheckedAdd(t.alcohol, line.units.value);
        if sum.None? then Err(InvalidValue) else Ok(t.(alcohol := sum.value))
      case Mix =>
        var sum := CheckedAdd(t.mix, line.units.value);
        if sum.None? then Err(InvalidValue) else Ok(t.(mix := sum.value))
      case Paint =>
        var sum := CheckedAdd(t.paint, line.units.value);
        if sum.None? then Err(InvalidValue) else Ok(t.(paint := sum.value))
  }

  lemma CheckedLineStep(lines: seq<Line>, k: nat, t: Totals)
    requires k < |lines| && t.Add(lines[..k]).Fits() && AllAmounts(lines[..k])
    ensures CheckedLine(lines[k], t.Add(lines[..k])) == ScanLines(lines[..k + 1], t)
    ensures CheckedLine(lines[k], t.Add(lines[..k])).Err? ==> ScanLines(lines, t) == Err(InvalidValue)
  {
    assert lines[..k + 1][..k] == lines[..k];
    assert AllAmounts(lines[..k + 1]) <==> lines[k].units.Some?;
    if !t.Add(lines[..k + 1]).Fits() { OverflowStays(lines, k + 1, t); }
  }

  method ReadLine(solvent: bool, mix: bool, e: Entry) returns (line: Line)
    ensures line == LineOf(solvent, mix, e)
  {
    var units := Parse(e.text, INPUT_PLACES);
    line := Line(if solvent then Alcohol else if mix || IsMix(e.key) then Mix else Paint, units);
  }

  method AddEntry(solvent: bool, mix: bool, e: Entry, t: Totals, ghost line: Line) returns (r: Result<Totals>)
    requires line == LineOf(solvent, mix, e)
    ensures r == CheckedLine(line, t)
  {
    var read := ReadLine(solvent, mix, e);
    r := CheckedLine(read, t);
  }

  /** The inner loop: one item's entries, parsed and added. */
  method AddEntries(item: Item, start: Totals) returns (r: Result<Totals>)
    requires start.Fits()
    ensures r == ScanLines(SheetOf(item).lines, start)
  {
    var solvent, mix := IsSolvent(item.category), IsMix(item.name);
    ghost var lines := LinesOf(solvent, mix, item.values);
    var t := start;
    for k := 0 to |item.values|
      invariant AllAmounts(lines[..k]) && t == start.Add(lines[..k]) && t.Fits()
    {
      CheckedLineStep(lines, k, start);
      var next := AddEntry(solvent, mix, item.values[k], t, lines[k]);
      if next.Err? { return next; }
      t := next.value;
    }
    assert lines[..|lines|] == lines;
    r := Ok(t);
  }

  // ---- The results ----

  datatype Calculation<T> = Calculation(
    rasxotMix: T, astatkaMix: T, rasxotAlcohol: T, astatkaAlcohol: T, usedAlcohol: T,
    rasxotPaint: T, astatkaPaint: T, usedPaint: T)

  function Checked(o: Option<nat>): Result<nat> {
    if o.None? then Err(InvalidValue) else Ok(o.value)
  }

  /** `checked_percent`: exact or refused. */
  function CheckedPercent(units: nat, percent: nat): Result<nat> {
    var multiplied :- Checked(CheckedMul(units, percent));
    if multiplied % 100 != 0 then Err(InvalidValue) else Ok(multiplied / 100)
  }

  function CheckedSub(left: nat, right: nat): Result<nat> {
    if left < right then Err(NegativeFinalValue) else Ok(left - right)
  }

  function AllStorable(c: Calculation<nat>): bool {
    && c.rasxotMix <= MAX_STORED_UNITS && c.astatkaMix <= MAX_STORED_UNITS
    && c.rasxotAlcohol <= MAX_STORED_UNITS && c.astatkaAlcohol <= MAX_STORED_UNITS
    && c.usedAlcohol <= MAX_STORED_UNITS && c.rasxotPaint <= MAX_STORED_UNITS
    && c.astatkaPaint <= MAX_STORED_UNITS && c.usedPaint <= MAX_STORED_UNITS
  }

  function Printed(c: Calculation<nat>): Calculation<string> {
    Calculation(Display(c.rasxotMix), Display(c.astatkaMix), Display(c.rasxotAlcohol), Display(c.astatkaAlcohol),
                Display(c.usedAlcohol), Display(c.rasxotPaint), Display(c.astatkaPaint), Display(c.usedPaint))
  }

  function Finish(s: Scan): Result<Calculation<nat>> {
    var rasxotMixPaint :- CheckedPercent(s.rasxot.mix, 70);
    var astatkaMixPaint :- CheckedPercent(s.astatka.mix, 70);
    var rasxotMixAlcohol :- CheckedPercent(s.rasxot.mix, 30);
    var rasxotAlcohol :- Checked(CheckedAdd(s.rasxot.alcohol, rasxotMixAlcohol));
    var astatkaMixAlcohol :- CheckedPercent(s.astatka.mix, 30);
    var astatkaAlcohol :- Checked(CheckedAdd(s.astatka.alcohol, astatkaMixAlcohol));
    var rasxotPaint :- Checked(CheckedAdd(s.rasxot.paint, rasxotMixPaint));
    var astatkaPaint :- Checked(CheckedAdd(s.astatka.paint, astatkaMixPaint));
    var usedAlcohol :- CheckedSub(rasxotAlcohol, astatkaAlcohol);
    var usedPaint :- CheckedSub(rasxotPaint, astatkaPaint);
    var c := Calculation(s.rasxot.mix, s.astatka.mix, rasxotAlcohol, astatkaAlcohol, usedAlcohol,
                         rasxotPaint, astatkaPaint, usedPaint);
    if AllStorable(c) then Ok(c) else Err(InvalidValue)
  }

  /** `calculate_returned_paint`. */
  function Calculate(items: seq<Item>): Result<Calculation<string>> {
    Conclude(ScanSheets(Sheets(items)))
  }

  function Conclude(scan: Result<Scan>): Result<Calculation<string>> {
    var s :- scan;
    var c :- Finish(s);
    Ok(Printed(c))
  }

  method ScanItem(item: Item, s: Scan) returns (r: Result<Scan>)
    requires s.Fits()
    ensures r == ScanSheet(SheetOf(item), s)
  {
    if !IsSolvent(item.category) && !IsColor(item.category) { return Ok(s); }
    var usage := UsageOf(item.usage);
    if usage.None? { return Err(InvalidUsage); }
    var t := AddEntries(item, s.Get(usage.value));
    if t.Err? { return Err(t.error); }
    r := Ok(s.With(usage.value, t.value));
  }

  lemma ScanStep(sheets: seq<Sheet>, k: nat, s: Scan)
    requires k < |sheets| && ScanSheets(sheets[..k]) == Ok(s)
    ensures s.Fits() && ScanSheets(sheets[..k + 1]) == ScanSheet(sheets[k], s)
  {
    assert sheets[..k + 1][..k] == sheets[..k];
  }

  /** The loop over the items with the totals of both usages. */
  method ScanItems(items: seq<Item>) returns (r: Result<Scan>)
    ensures r == ScanSheets(Sheets(items))
  {
    ghost var sheets := Sheets(items);
    var s := NOTHING;
    for k := 0 to |items|
      invariant ScanSheets(sheets[..k]) == Ok(s)
    {
      ScanStep(sheets, k, s);
      var next := ScanItem(items[k], s);
      if next.Err? {
        ScanFailure(sheets, k);
        return next;
      }
      s := next.value;
    }
    assert sheets[..|items|] == sheets;
    r := Ok(s);
  }

  method CalculateReturnedPaint(items: seq<Item>) returns (r: Result<Calculation<string>>)
    ensures r == Calculate(items)
  {
    var scan := ScanItems(items);
    if scan.Err? { return Err(scan.error); }
    var c := Finish(scan.value);
    r := if c.Err? then Err(c.error) else Ok(Printed(c.value));
  }

  /** The first failing item decides the outcome. */
  lemma {:induction false} ScanFailure(sheets: seq<Sheet>, k: nat)
    requires k < |sheets| && ScanSheets(sheets[..k + 1]).Err?
    ensures ScanSheets(sheets) == ScanSheets(sheets[..k + 1])
  {
    if k + 1 < |sheets| {
      assert sheets[..|sheets| - 1][..k + 1] == sheets[..k + 1];
      ScanFailure(sheets[..|sheets| - 1], k);
    } else {
      assert sheets[..k + 1] == sheets;
    }
  }

  // ---- What the calculation guarantees ----

  /** A mix is seven tenths paint and three tenths alcohol. */
  function BalanceOf(r: Totals, a: Totals): Calculation<int> {
    var rAlcohol, aAlcohol := r.alcohol + 3 * (r.mix / 10), a.alcohol + 3 * (a.mix / 10);
    var rPaint, aPaint := r.paint + 7 * (r.mix / 10), a.paint + 7 * (a.mix / 10);
    Calculation(r.mix, a.mix, rAlcohol, aAlcohol, rAlcohol - aAlcohol, rPaint, aPaint, rPaint - aPaint)
  }

  predicate Acceptable(c: Calculation<int>) {
    && 0 <= c.rasxotMix <= MAX_STORED_UNITS && 0 <= c.astatkaMix <= MAX_STORED_UNITS
    && 0 <= c.rasxotAlcohol <= MAX_STORED_UNITS && 0 <= c.astatkaAlcohol <= MAX_STORED_UNITS
    && 0 <= c.usedAlcohol <= MAX_STORED_UNITS && 0 <= c.rasxotPaint <= MAX_STORED_UNITS
    && 0 <= c.astatkaPaint <= MAX_STORED_UNITS && 0 <= c.usedPaint <= MAX_STORED_UNITS
  }

  function Naturals(c: Calculation<int>): Calculation<nat>
    requires Acceptable(c)
  {
    Calculation(c.rasxotMix, c.astatkaMix, c.rasxotAlcohol, c.astatkaAlcohol, c.usedAlcohol,
                c.rasxotPaint, c.astatkaPaint, c.usedPaint)
  }

  lemma PercentOfTens(k: nat, tenths: nat)
    ensures (10 * k * (10 * tenths)) % 100 == 0 && (10 * k * (10 * tenths)) / 100 == tenths * k
  {
    assert 10 * k * (10 * tenths) == 100 * (tenths * k);
    DivModUnique(10 * k * (10 * tenths), 100, tenths * k, 0);
  }

  /** On multiples of ten units the percentages are exact and fail only by overflow. */
  lemma PercentExact(units: nat)
    requires units % 10 == 0
    ensures CheckedPercent(units, 70) == if units * 70 <= I128_MAX then Ok(7 * (units / 10)) else Err(InvalidValue)
    ensures CheckedPercent(units, 30) == if units * 30 <= I128_MAX then Ok(3 * (units / 10)) else Err(InvalidValue)
  {
    PercentOfTens(units / 10, 7);
    PercentOfTens(units / 10, 3);
  }

  lemma FinishExact(s: Scan)
    requires s.rasxot.mix % 10 == 0 && s.astatka.mix % 10 == 0
    ensures var c := BalanceOf(s.rasxot, s.astatka);
            && (Finish(s).Ok? <==> Acceptable(c))
            && (Finish(s).Ok? ==> Finish(s).value == Naturals(c))
  {
    PercentExact(s.rasxot.mix);
    PercentExact(s.astatka.mix);
  }

  predicate InputUnits(lines: seq<Line>) {
    forall i :: 0 <= i < |lines| && lines[i].units.Some? ==> lines[i].units.value % 10 == 0
  }

  /** Inputs have at most 11 fraction digits, so they are multiples of ten units. */
  lemma LinesAreInputs(solvent: bool, mix: bool, values: seq<Entry>)
    ensures InputUnits(LinesOf(solvent, mix, values))
  {
    var lines := LinesOf(solvent, mix, values);
    forall i | 0 <= i < |lines| && lines[i].units.Some? ensures lines[i].units.value % 10 == 0 {
      AmountOfInput(values[i].text);
    }
  }

  lemma {:induction false} LineTotalTens(lines: seq<Line>, b: Bucket)
    requires InputUnits(lines)
    ensures LineTotal(lines, b) % 10 == 0
  {
    if lines != [] { LineTotalTens(lines[..|lines| - 1], b); }
  }

  lemma {:induction false} SheetTotalTens(sheets: seq<Sheet>, u: Usage, b: Bucket)
    requires forall i :: 0 <= i < |sheets| ==> InputUnits(sheets[i].lines)
    ensures Total(sheets, u, b) % 10 == 0
  {
    if sheets != [] {
      SheetTotalTens(sheets[..|sheets| - 1], u, b);
      LineTotalTens(sheets[|sheets| - 1].lines, b);
    }
  }

  lemma TotalTens(items: seq<Item>, u: Usage, b: Bucket)
    ensures Total(Sheets(items), u, b) % 10 == 0
  {
    var sheets := Sheets(items);
    forall i | 0 <= i < |sheets| ensures InputUnits(sheets[i].lines) { SheetIsInput(items[i]); }
    SheetTotalTens(sheets, u, b);
  }

  lemma SheetIsInput(item: Item)
    ensures InputUnits(SheetOf(item).lines)
  {
    LinesAreInputs(IsSolvent(item.category), IsMix(item.name), item.values);
  }

  lemma ConcludeExact(scan: Result<Scan>, readable: bool, s: Scan)
    requires s.rasxot.mix % 10 == 0 && s.astatka.mix % 10 == 0
    requires (scan.Ok? <==> readable && s.Fits()) && (scan.Ok? ==> scan.value == s)
    ensures var c := BalanceOf(s.rasxot, s.astatka);
            && (Conclude(scan).Ok? <==> readable && Acceptable(c))
            && (Conclude(scan).Ok? ==> Conclude(scan).value == Printed(Naturals(c)))
  {
    FinishExact(s);
  }

  /** The calculation succeeds exactly when every colour and solvent item has a usage and only
      amounts, nothing returned exceeds what was used, and all eight results are storable. It then
      prints the declared balance: neither the 70/30 split nor an i128 ever fails on its own. */
  lemma CalculateExact(items: seq<Item>)
    ensures var sheets := Sheets(items);
            var c := BalanceOf(TotalsOf(sheets, Rasxot), TotalsOf(sheets, Astatka));
            && (Calculate(items).Ok? <==> Readable(sheets) && Acceptable(c))
            && (Calculate(items).Ok? ==> Calculate(items).value == Printed(Naturals(c)))
  {
    var sheets := Sheets(items);
    ScanExact(sheets);
    TotalTens(items, Rasxot, Mix);
    TotalTens(items, Astatka, Mix);
    ConcludeExact(ScanSheets(sheets), Readable(sheets), Scan(TotalsOf(sheets, Rasxot), TotalsOf(sheets, Astatka)));
  }

  // ---- Which error a failing calculation gives ----

  /** A total, or a sum on the way to the results, does not fit an i128. */
  predicate Overflows(r: Totals, a: Totals) {
    || !r.Fits() || !a.Fits() || r.mix * 70 > I128_MAX || a.mix * 70 > I128_MAX
    || r.alcohol + 3 * (r.mix / 10) > I128_MAX || a.alcohol + 3 * (a.mix / 10) > I128_MAX
    || r.paint + 7 * (r.mix / 10) > I128_MAX || a.paint + 7 * (a.mix / 10) > I128_MAX
  }

  /** More is left than was taken. */
  predicate Negative(r: Totals, a: Totals) {
    BalanceOf(r, a).usedAlcohol < 0 || BalanceOf(r, a).usedPaint < 0
  }

  /** The outcome as a function of the six totals: an overflow is noticed first, then a negative result,
      then a result that cannot be stored. */
  function Outcome(r: Totals, a: Totals): Result<Calculation<string>> {
    if Overflows(r, a) then Err(InvalidValue)
    else if Negative(r, a) then Err(NegativeFinalValue)
    else if Acceptable(BalanceOf(r, a)) then Ok(Printed(Naturals(BalanceOf(r, a))))
    else Err(InvalidValue)
  }

  lemma FinishOutcome(s: Scan)
    requires s.rasxot.mix % 10 == 0 && s.astatka.mix % 10 == 0 && s.Fits()
    ensures Finish(s).Err? ==>
              Finish(s) == Err(if !Overflows(s.rasxot, s.astatka) && Negative(s.rasxot, s.astatka)
                               then NegativeFinalValue else InvalidValue)
  {
    PercentExact(s.rasxot.mix);
    PercentExact(s.astatka.mix);
  }

  lemma AcceptableFits(r: Totals, a: Totals)
    requires Acceptable(BalanceOf(r, a)) && r.mix % 10 == 0 && a.mix % 10 == 0
    ensures !Overflows(r, a) && !Negative(r, a)
  {
  }

  lemma ConcludeOutcome(scan: Result<Scan>, s: Scan)
    requires s.rasxot.mix % 10 == 0 && s.astatka.mix % 10 == 0
    requires scan == if s.Fits() then Ok(s) else Err(InvalidValue)
    ensures Conclude(scan) == Outcome(s.rasxot, s.astatka)
  {
    ConcludeExact(scan, true, s);
    if s.Fits() { FinishOutcome(s); }
    if Acceptable(BalanceOf(s.rasxot, s.astatka)) { AcceptableFits(s.rasxot, s.astatka); }
  }

  /** On readable items the calculation, errors included, is a function of the six totals. */
  lemma CalculateOutcome(items: seq<Item>)
    requires Readable(Sheets(items))
    ensures Calculate(items) == Outcome(TotalsOf(Sheets(items), Rasxot), TotalsOf(Sheets(items), Astatka))
  {
    var sheets := Sheets(items);
    var s := Scan(TotalsOf(sheets, Rasxot), TotalsOf(sheets, Astatka));
    ScanExact(sheets);
    TotalTens(items, Rasxot, Mix);
    TotalTens(items, Astatka, Mix);
    ConcludeOutcome(ScanSheets(sheets), s);
  }

  lemma {:induction false} LineSumSplits(lines: seq<Line>)
    ensures LineSum(lines) == LineTotal(lines, Mix) + LineTotal(lines, Paint) + LineTotal(lines, Alcohol)
  {
    if lines != [] { LineSumSplits(lines[..|lines| - 1]); }
  }

  lemma {:induction false} GrandTotalSplits(sheets: seq<Sheet>, u: Usage)
    ensures GrandTotal(sheets, u) == Total(sheets, u, Mix) + Total(sheets, u, Paint) + Total(sheets, u, Alcohol)
  {
    if sheets != [] {
      GrandTotalSplits(sheets[..|sheets| - 1], u);
      LineSumSplits(sheets[|sheets| - 1].lines);
    }
  }

  /** A stored text read back. */
  function Stored(text: string): nat {
    var a := Amount(text, SCALE_DIGITS);
    if a.None? then 0 else a.value
  }

  function ReadBack(c: Calculation<string>): Calculation<nat> {
    Calculation(Stored(c.rasxotMix), Stored(c.astatkaMix), Stored(c.rasxotAlcohol), Stored(c.astatkaAlcohol),
                Stored(c.usedAlcohol), Stored(c.rasxotPaint), Stored(c.astatkaPaint), Stored(c.usedPaint))
  }

  lemma ReadBackPrinted(c: Calculation<nat>)
    requires AllStorable(c)
    ensures ReadBack(Printed(c)) == c
  {
    StoredDisplay(c.rasxotMix);
    StoredDisplay(c.astatkaMix);
    StoredDisplay(c.rasxotAlcohol);
    StoredDisplay(c.astatkaAlcohol);
    StoredDisplay(c.usedAlcohol);
    StoredDisplay(c.rasxotPaint);
    StoredDisplay(c.astatkaPaint);
    StoredDisplay(c.usedPaint);
  }

  lemma StoredDisplay(units: nat)
    requires units <= MAX_STORED_UNITS
    ensures Stored(Display(units)) == units
  {
    DisplayRoundTrip(units);
  }

  /** Splitting the mix moves mass between paint and alcohol, and loses none. */
  lemma BalanceConserves(r: Totals, a: Totals)
    requires r.mix % 10 == 0 && a.mix % 10 == 0
    ensures var c := BalanceOf(r, a);
            && c.rasxotAlcohol + c.rasxotPaint == r.mix + r.paint + r.alcohol
            && c.astatkaAlcohol + c.astatkaPaint == a.mix + a.paint + a.alcohol
            && c.usedAlcohol == c.rasxotAlcohol - c.astatkaAlcohol && c.usedPaint == c.rasxotPaint - c.astatkaPaint
            && 10 * (c.rasxotPaint - r.paint) == 7 * c.rasxotMix && 10 * (c.astatkaPaint - a.paint) == 7 * c.astatkaMix
  {
  }

  lemma TotalsConserve(sheets: seq<Sheet>, r: Totals, a: Totals)
    requires r == TotalsOf(sheets, Rasxot) && a == TotalsOf(sheets, Astatka) && r.mix % 10 == 0 && a.mix % 10 == 0
    ensures var c := BalanceOf(r, a);
            && c.rasxotAlcohol + c.rasxotPaint == GrandTotal(sheets, Rasxot)
            && c.astatkaAlcohol + c.astatkaPaint == GrandTotal(sheets, Astatka)
            && c.usedAlcohol + c.usedPaint == GrandTotal(sheets, Rasxot) - GrandTotal(sheets, Astatka)
            && 10 * (c.rasxotPaint - r.paint) == 7 * c.rasxotMix && 10 * (c.astatkaPaint - a.paint) == 7 * c.astatkaMix
  {
    BalanceConserves(r, a);
    GrandTotalSplits(sheets, Rasxot);
    GrandTotalSplits(sheets, Astatka);
  }

  /** The results of a successful calculation, read back, are the declared balance. */
  lemma ResultsReadBack(items: seq<Item>, r: Totals, a: Totals)
    requires Calculate(items).Ok? && r == TotalsOf(Sheets(items), Rasxot) && a == TotalsOf(Sheets(items), Astatka)
    ensures Acceptable(BalanceOf(r, a)) && ReadBack(Calculate(items).value) == Naturals(BalanceOf(r, a))
  {
    CalculateExact(items);
    ReadBackPrinted(Naturals(BalanceOf(r, a)));
  }

  /** Conservation: the stored texts of a successful calculation, read back, account for every
      input of each usage, and the used amounts for the difference. */
  lemma PaintConserved(items: seq<Item>)
    requires Calculate(items).Ok?
    ensures var sheets, c := Sheets(items), ReadBack(Calculate(items).value);
            && c.rasxotAlcohol + c.rasxotPaint == GrandTotal(sheets, Rasxot)
            && c.astatkaAlcohol + c.astatkaPaint == GrandTotal(sheets, Astatka)
            && c.usedAlcohol + c.usedPaint == GrandTotal(sheets, Rasxot) - GrandTotal(sheets, Astatka)
            && 10 * (c.rasxotPaint - Total(sheets, Rasxot, Paint)) == 7 * c.rasxotMix
            && 10 * (c.astatkaPaint - Total(sheets, Astatka, Paint)) == 7 * c.astatkaMix
            && AllStorable(c)
  {
    var sheets := Sheets(items);
    var r, a := TotalsOf(sheets, Rasxot), TotalsOf(sheets, Astatka);
    ResultsReadBack(items, r, a);
    TotalTens(items, Rasxot, Mix);
    TotalTens(items, Astatka, Mix);
    TotalsConserve(sheets, r, a);
  }

  // ---- The minimum of three values per usage ----

  function ValueCount(items: seq<Item>, u: Usage): nat {
    if items == [] then 0
    else ValueCount(items[..|items| - 1], u) +
         if UsageOf(items[|items| - 1].usage) == Some(u) then |items[|items| - 1].values| else 0
  }

  lemma {:induction false} ValueCountPrefix(items: seq<Item>, n: nat, u: Usage)
    requires n <= |items|
    ensures ValueCount(items[..n], u) <= ValueCount(items, u)
  {
    if n == |items| {
      assert items[..n] == items;
    } else {
      assert items[..|items| - 1][..n] == items[..n];
      ValueCountPrefix(items[..|items| - 1], n, u);
    }
  }

  /** The early exit decides as the full counts would. */
  method HasMinimumValuesPerUsage(items: seq<Item>) returns (r: bool)
    ensures r <==> ValueCount(items, Rasxot) >= 3 && ValueCount(items, Astatka) >= 3
  {
    var rasxot, astatka := 0, 0;
    for k := 0 to |items|
      invariant rasxot == ValueCount(items[..k], Rasxot) && astatka == ValueCount(items[..k], Astatka)
      invariant !(rasxot >= 3 && astatka >= 3)
    {
      assert items[..k + 1][..k] == items[..k];
      var usage := UsageOf(items[k].usage);
      if usage == Some(Rasxot) {
        rasxot := rasxot + |items[k].values|;
      } else if usage == Some(Astatka) {
        astatka := astatka + |items[k].values|;
      }
      if rasxot >= 3 && astatka >= 3 {
        ValueCountPrefix(items, k + 1, Rasxot);
        ValueCountPrefix(items, k + 1, Astatka);
        return true;
      }
    }
    assert items[..|items|] == items;
    r := false;
  }
}
