/** The two ways to finish a split, and the completion of a split through a recorded report. */
module SplitIssue {
  import opened Text
  import opened Numerals
  import opened FixedPoint
  import opened Lists
  import opened RawSplit

  // ---- The normal path conserves weight ----

  lemma BlankUnreadable(raw: string)
    requires Trim(raw) == ""
    ensures Decimal(raw) == None && Trim(raw) !in ZEROS
  {
  }

  lemma SettledExactly(plan: Plan, wasteKg: string, waste: int)
    ensures Settle(plan, wasteKg) == Some(Split(plan.source, waste, plan.outputs)) <==>
            && 0 < waste <= MAX && Denotes(Trim(wasteKg), waste)
            && Total(KgOf(), plan.outputs) + waste == plan.source
  {
    DecimalExact(wasteKg, waste);
    if Trim(wasteKg) in ZEROS { ZerosUnreadable(wasteKg); }
    if Trim(wasteKg) == "" { BlankUnreadable(wasteKg); }
  }

  /** An accepted split, exactly: a cutting plan, and a waste whose text spells the positive amount that
      is missing from the source. */
  lemma AcceptedExactly(c: Command, plan: Plan, waste: int)
    requires PlanOf(c) == Some(plan)
    ensures Validate(c) == Some(Split(plan.source, waste, plan.outputs)) <==>
            && 0 < waste <= MAX && Denotes(Trim(c.wasteKg), waste)
            && Total(KgOf(), plan.outputs) + waste == plan.source
  {
    SettledExactly(plan, c.wasteKg, waste);
  }

  /** Every accepted split conserves weight and cuts the roll into as many legal rolls as it can. */
  lemma SplitConserves(c: Command) returns (s: Split, width: int)
    requires Validate(c).Some?
    ensures Validate(c) == Some(s) && Quantity(c.expectedWidthMm, false) == Some(width)
    ensures 0 < s.waste && Total(KgOf(), s.outputs) + s.waste == s.source <= MAX
    ensures 1 <= |s.outputs| == |c.outputs| <= 100 && forall w :: w in s.outputs ==> Legal(w, width)
    ensures Total(WidthOf(), s.outputs) <= width && |s.outputs| * MIN_OUTPUT_WIDTH <= width
    ensures forall w :: Legal(w, width) ==> Total(WidthOf(), s.outputs + [w]) > width
  {
    s := Validate(c).value;
    PlanMaximal(c);
    width := Quantity(c.expectedWidthMm, false).value;
  }

  // ---- Normal path and report are complementary ----

  /** The text, read leniently, is the waste that makes the plan come out. */
  predicate Balances(plan: Plan, wasteKg: string) {
    var waste := Reading(wasteKg);
    waste.Some? && Total(KgOf(), plan.outputs) + waste.value == plan.source
  }

  lemma SettleAccepts(plan: Plan, wasteKg: string)
    ensures Settle(plan, wasteKg).Some? <==> Balances(plan, wasteKg) && !HasComma(wasteKg)
  {
    var strict, lenient := Quantity(wasteKg, true), Reading(wasteKg);
    if strict.Some? && strict.value > 0 { WasteReaders(wasteKg, strict.value); }
    if lenient.Some? { WasteReaders(wasteKg, lenient.value); }
    if Trim(wasteKg) == "" { BlankUnreadable(wasteKg); }
  }

  lemma ClassifyAccepts(plan: Plan, wasteKg: string)
    ensures Classify(plan, IssueWaste(wasteKg)).None? <==> Balances(plan, wasteKg) && !Trailing(wasteKg)
  {
    var strict, lenient := IssueWaste(wasteKg), Reading(wasteKg);
    if strict.Some? {
      IssueWasteExact(wasteKg, strict.value);
      if strict.value > 0 { WasteReaders(wasteKg, strict.value); }
    }
    if lenient.Some? { WasteReaders(wasteKg, lenient.value); }
  }

  /** Exactly one of the two paths takes a command, except for a waste that balances and is written
      with a comma or a final separator but not both. */
  lemma Complementary(r: Report)
    requires ReportOk(r) && PlanOf(r.command).Some?
    ensures var plan, waste := PlanOf(r.command).value, r.command.wasteKg;
            var normal, report := Validate(r.command).Some?, ValidateReport(r).Some?;
            && (normal && report <==> Balances(plan, waste) && !HasComma(waste) && Trailing(waste))
            && (!normal && !report <==> Balances(plan, waste) && HasComma(waste) && !Trailing(waste))
            && (!HasComma(waste) && !Trailing(waste) ==> (normal <==> !report))
  {
    SettleAccepts(PlanOf(r.command).value, r.command.wasteKg);
    ClassifyAccepts(PlanOf(r.command).value, r.command.wasteKg);
  }

  // ---- Where the two paths are not complementary ----

  lemma FinalDot()
    ensures Reading("1.") == Some(SCALE) && !HasComma("1.") && Trailing("1.")
  {
    var t := "1.";
    PlainTidy(t);
    assert Commas(t) == t == "1" + "." + "" && "1" + "" == "1" && Value("1") == 1;
    SplitOnceAt("1", '.', "");
    Millionth();
    DecimalOfParts(t, "1", "");
  }

  lemma CommaText(whole: string, fraction: string)
    requires WellFormed(whole, fraction) && fraction != ""
    ensures var raw := whole + "," + fraction;
            Trim(raw) == raw && ',' in raw && Commas(raw) == whole + "." + fraction
  {
    var raw := whole + "," + fraction;
    assert raw[|whole|] == ',' && Commas(raw) == whole + "." + fraction;
    assert raw[0] == whole[0] && raw[|raw| - 1] == fraction[|fraction| - 1];
    TrimTidy(raw);
  }

  lemma DotText(whole: string, fraction: string)
    requires WellFormed(whole, fraction)
    ensures var text := whole + "." + fraction;
            Trim(text) == text && SplitOnce(text, '.') == Some((whole, fraction))
  {
    PlainTidy(whole + "." + fraction);
    SplitOnceAt(whole, '.', fraction);
  }

  /** A fraction after a comma reads like one after a dot, for the lenient reader. */
  lemma CommaReads(whole: string, fraction: string)
    requires WellFormed(whole, fraction) && fraction != ""
    ensures var raw := whole + "," + fraction;
            && HasComma(raw) && !Trailing(raw)
            && Reading(raw) == InRange(Value(whole + fraction) * Pow10(6 - |fraction|))
  {
    CommaText(whole, fraction);
    DotText(whole, fraction);
    DecimalOfParts(whole + "." + fraction, whole, fraction);
  }

  lemma TenTenths()
    ensures Value("1" + "0") * Pow10(5) == SCALE
  {
    ValueConcat("1", "0");
    assert Value("1") == 1 && Value("0") == 0 && Pow10(1) == 10;
    Pow10Add(1, 5);
    Millionth();
  }

  lemma CommaInside()
    ensures Reading("1,0") == Some(SCALE) && HasComma("1,0") && !Trailing("1,0")
  {
    assert "1" + "," + "0" == "1,0";
    TenTenths();
    CommaReads("1", "0");
  }

  /** A report with a waste of `1.` that balances: both paths take it, for only the report minds the dot. */
  lemma BothAccept(r: Report)
    requires ReportOk(r) && PlanOf(r.command).Some? && r.command.wasteKg == "1."
    requires PlanOf(r.command).value.source == Total(KgOf(), PlanOf(r.command).value.outputs) + SCALE
    ensures Validate(r.command).Some? && ValidateReport(r).Some?
  {
    FinalDot();
    Complementary(r);
  }

  lemma CommaRefused(r: Report)
    requires ReportOk(r) && PlanOf(r.command).Some? && Balances(PlanOf(r.command).value, r.command.wasteKg)
    requires HasComma(r.command.wasteKg) && !Trailing(r.command.wasteKg)
    ensures Validate(r.command).None? && ValidateReport(r).None?
  {
    Complementary(r);
  }

  /** With a waste of `1,0` neither does, for only the report understands the comma. */
  lemma NeitherAccepts(r: Report)
    requires ReportOk(r) && PlanOf(r.command).Some? && r.command.wasteKg == "1,0"
    requires PlanOf(r.command).value.source == Total(KgOf(), PlanOf(r.command).value.outputs) + SCALE
    ensures Validate(r.command).None? && ValidateReport(r).None?
  {
    CommaInside();
    CommaRefused(r);
  }

  // ---- Two commands ----

  /** A roll cut into one output of the full width. */
  function Cut(kg: string, width: string, net: string, waste: string): Command {
    Command("split-01", None, "A", "1", kg, width, kg, waste, [Output(net, width, Some(net), Some("0"), None)])
  }

  lemma {:induction false} AsciiLength(s: string)
    requires forall i :: 0 <= i < |s| ==> s[i] as int < 0x80
    ensures Utf8Len(s) == |s|
  {
    if s != "" { AsciiLength(s[..|s| - 1]); }
  }

  lemma CutHeader(kg: string, width: string, net: string, waste: string)
    ensures HeaderOk(Cut(kg, width, net, waste))
  {
    AsciiLength("split-01");
    AsciiLength("A");
    AsciiLength("1");
    TrimTidy("A");
  }

  lemma CutWeighs(width: string, net: string, mm: int, kg: int)
    requires Decimal(width) == Some(mm) && Decimal(net) == Some(kg) && mm >= MIN_OUTPUT_WIDTH
    ensures Weigh(Output(net, width, Some(net), Some("0"), None), mm) == Some(Weighed(kg, mm, kg, 0, None))
  {
    TrimTidy("0");
    assert Quantity("0", true) == Some(0);
  }

  lemma OneOutput(line: Output, mm: int, w: Weighed)
    requires Weigh(line, mm) == Some(w) && w.widthMm == mm
    ensures ReadAll(Weigher(mm), [line]) == Some([w]) && Fits([w], mm) && Total(KgOf(), [w]) == w.kg
  {
    ReadOne(Weigher(mm), line, w);
    TotalOne(WidthOf(), w);
    TotalOne(KgOf(), w);
  }

  lemma CutPlan(kg: string, width: string, net: string, waste: string, source: int, mm: int, out: int)
    requires Decimal(kg) == Some(source) && Decimal(width) == Some(mm) && Decimal(net) == Some(out)
    requires mm >= MIN_OUTPUT_WIDTH
    ensures PlanOf(Cut(kg, width, net, waste)) == Some(Plan(source, [Weighed(out, mm, out, 0, None)]))
    ensures Total(KgOf(), [Weighed(out, mm, out, 0, None)]) == out
  {
    var line, w := Output(net, width, Some(net), Some("0"), None), Weighed(out, mm, out, 0, None);
    CutHeader(kg, width, net, waste);
    CutWeighs(width, net, mm, out);
    OneOutput(line, mm, w);
  }

  /** 3 kg and 355 mm cut into 2 kg, one kilogram short. */
  function OneShort(waste: string): Report {
    Report(Cut(DecimalText(3 * SCALE), DecimalText(MIN_OUTPUT_WIDTH), DecimalText(2 * SCALE), waste), "A")
  }

  lemma OneShortPlan(waste: string)
    requires Utf8Len(waste) <= 64
    ensures var r := OneShort(waste);
            && ReportOk(r) && PlanOf(r.command).Some?
            && PlanOf(r.command).value.source == Total(KgOf(), PlanOf(r.command).value.outputs) + SCALE
  {
    DecimalTextRoundTrip(3 * SCALE);
    DecimalTextRoundTrip(MIN_OUTPUT_WIDTH);
    DecimalTextRoundTrip(2 * SCALE);
    var kg, width, net := DecimalText(3 * SCALE), DecimalText(MIN_OUTPUT_WIDTH), DecimalText(2 * SCALE);
    CutPlan(kg, width, net, waste, 3 * SCALE, MIN_OUTPUT_WIDTH, 2 * SCALE);
    TrimTidy("A");
  }

  /** Such commands exist: the same cut with `1.` is taken twice and with `1,0` not at all. */
  lemma NotComplementary()
    ensures Validate(OneShort("1.").command).Some? && ValidateReport(OneShort("1.")).Some?
    ensures Validate(OneShort("1,0").command).None? && ValidateReport(OneShort("1,0")).None?
  {
    AsciiLength("1.");
    AsciiLength("1,0");
    OneShortPlan("1.");
    OneShortPlan("1,0");
    BothAccept(OneShort("1."));
    NeitherAccepts(OneShort("1,0"));
  }

  // ---- What a report says ----

  lemma KindMeaning(plan: Plan, waste: Option<int>)
    requires (waste.Some? ==> waste.value >= 0) && Classify(plan, waste).Some?
    ensures var b := Classify(plan, waste).value;
            && b.source == plan.source && b.output == Total(KgOf(), plan.outputs) && b.waste == waste
            && (b.kind == InvalidWaste <==> waste.None?) && (waste.None? <==> b.difference.None?)
            && (waste.Some? ==>
                  && b.output + waste.value + b.difference.value == b.source
                  && (b.kind == ZeroWaste <==> waste.value == 0)
                  && (b.kind == MissingWeight <==> waste.value > 0 && b.difference.value > 0)
                  && (b.kind == ExcessWeight <==> waste.value > 0 && b.difference.value < 0))
  {
  }

  lemma ReportBalance(r: Report)
    requires ValidateReport(r).Some?
    ensures PlanOf(r.command).Some? && ReportOk(r)
    ensures var waste := IssueWaste(r.command.wasteKg);
            (waste.Some? ==> 0 <= waste.value <= MAX)
            && ValidateReport(r) == Classify(PlanOf(r.command).value, waste)
  {
    var waste := IssueWaste(r.command.wasteKg);
    if waste.Some? { IssueWasteExact(r.command.wasteKg, waste.value); }
  }

  /** The waste text cannot be read: it ends in a separator, or spells no amount up to MAX. */
  ghost predicate Unreadable(wasteKg: string) {
    Trailing(wasteKg) || forall w :: 0 <= w <= MAX ==> !Denotes(Commas(Trim(wasteKg)), w)
  }

  /** A report tells an unreadable waste, a waste of zero, missing weight and excess weight apart, by
      the amount the text spells, and its difference closes the balance. */
  lemma ReportKinds(r: Report) returns (plan: Plan, b: Balance)
    requires ValidateReport(r).Some?
    ensures PlanOf(r.command) == Some(plan) && ValidateReport(r) == Some(b)
    ensures b.source == plan.source && b.output == Total(KgOf(), plan.outputs)
    ensures b.kind == InvalidWaste <==> Unreadable(r.command.wasteKg)
    ensures b.kind != InvalidWaste ==>
              && b.waste.Some? && b.difference.Some? && Denotes(Commas(Trim(r.command.wasteKg)), b.waste.value)
              && b.output + b.waste.value + b.difference.value == b.source
              && (b.kind == ZeroWaste <==> b.waste.value == 0)
              && (b.kind == MissingWeight <==> b.waste.value > 0 && b.difference.value > 0)
              && (b.kind == ExcessWeight <==> b.waste.value > 0 && b.difference.value < 0)
  {
    var raw := r.command.wasteKg;
    ReportBalance(r);
    plan, b := PlanOf(r.command).value, ValidateReport(r).value;
    KindMeaning(plan, IssueWaste(raw));
    UnreadableExactly(raw);
    if IssueWaste(raw).Some? { IssueWasteExact(raw, IssueWaste(raw).value); }
  }

  lemma UnreadableExactly(raw: string)
    ensures IssueWaste(raw).None? <==> Unreadable(raw)
  {
    if IssueWaste(raw).Some? {
      IssueWasteExact(raw, IssueWaste(raw).value);
    } else {
      forall w | 0 <= w <= MAX ensures Trailing(raw) || !Denotes(Commas(Trim(raw)), w) { IssueWasteExact(raw, w); }
    }
  }

  // ---- Signed decimal text ----

  function Abs(v: int): nat { if v < 0 then -v else v }

  function IssueDecimal(v: int): string {
    (if v < 0 then "-" else "") + Print(Abs(v) / SCALE) + "." + Padded(Abs(v) % SCALE, 6)
  }

  /** A sign, then the six-place text of the magnitude; only amounts in range read back. */
  lemma IssueDecimalExact(v: int)
    ensures IssueDecimal(v) == (if v < 0 then "-" else "") + DecimalText(Abs(v))
    ensures Decimal(IssueDecimal(v)) == InRange(v)
  {
    assert IssueDecimal(v) == (if v < 0 then "-" else "") + DecimalText(Abs(v));
    if v >= 0 {
      assert IssueDecimal(v) == DecimalText(v);
      DecimalTextRoundTrip(v);
    } else {
      SignUnreadable(Print(-v / SCALE), Padded(-v % SCALE, 6));
      TextSpells(-v);
      assert IssueDecimal(v) == "-" + Print(-v / SCALE) + "." + Padded(-v % SCALE, 6);
    }
  }

  lemma SignUnreadable(whole: string, fraction: string)
    requires AllDigits(whole) && AllDigits(fraction) && fraction != ""
    ensures Decimal("-" + whole + "." + fraction) == None
  {
    var text := "-" + whole + "." + fraction;
    PlainTidy(text);
    SplitOnceAt("-" + whole, '.', fraction);
    assert ("-" + whole)[0] == '-';
  }

  // ---- Completing a split through a recorded report ----

  /** The measurements of the command are those of the report. */
  predicate Matches(c: Command, plan: Plan, waste: int, r: Report, balance: Balance, reported: Plan) {
    && c.issueId.Some? && c.issueId.value != "" && Utf8Len(c.issueId.value) <= 128
    && plan.source == balance.source && Some(waste) == balance.waste && plan.outputs == reported.outputs
    && SameIgnoringCase(Trim(c.sourceBarcode), Trim(r.command.sourceBarcode))
    && c.expectedRevision == r.command.expectedRevision
    && Quantity(c.expectedWidthMm, false) == Quantity(r.command.expectedWidthMm, false)
    && Quantity(c.expectedMicron, false) == Quantity(r.command.expectedMicron, false)
  }

  function Complete(c: Command, plan: Plan, waste: int, r: Report, balance: Balance, reported: Plan): Option<Split> {
    if !Matches(c, plan, waste, r, balance, reported) then None
    else if Quantity(IssueDecimal(balance.output), false).None? then None
    else Some(Split(plan.source, waste, plan.outputs))
  }

  function ValidateRecorded(c: Command, r: Report): Option<Split> {
    var balance, waste, plan, reported := ValidateReport(r), IssueWaste(c.wasteKg), PlanOf(c), PlanOf(r.command);
    if balance.None? || waste.None? || plan.None? || reported.None? then None
    else Complete(c, plan.value, waste.value, r, balance.value, reported.value)
  }

  lemma CompleteIff(c: Command, plan: Plan, waste: int, r: Report, balance: Balance, reported: Plan)
    ensures Complete(c, plan, waste, r, balance, reported).Some? <==>
            Matches(c, plan, waste, r, balance, reported) && 0 < balance.output <= MAX
  {
    IssueDecimalExact(balance.output);
  }

  lemma CompleteReproduces(c: Command, plan: Plan, waste: int, r: Report, b: Balance, reported: Plan, w: Option<int>)
    requires (w.Some? ==> w.value >= 0) && Classify(reported, w) == Some(b)
    requires Complete(c, plan, waste, r, b, reported).Some?
    ensures Complete(c, plan, waste, r, b, reported) == Some(Split(plan.source, waste, plan.outputs))
    ensures b.kind != InvalidWaste && plan == reported && w == Some(waste)
    ensures b.difference == Some(plan.source - Total(KgOf(), plan.outputs) - waste)
    ensures waste == 0 || b.difference != Some(0)
    ensures 0 < Total(KgOf(), plan.outputs) == b.output <= MAX
  {
    KindMeaning(reported, w);
    CompleteIff(c, plan, waste, r, b, reported);
  }

  /** A completed report has the report's own outputs, readable waste and signed difference, and the
      total of its outputs is a storable quantity. */
  lemma RecordedReproduces(c: Command, r: Report) returns (plan: Plan, waste: int, b: Balance)
    requires ValidateRecorded(c, r).Some?
    ensures ValidateRecorded(c, r) == Some(Split(plan.source, waste, plan.outputs))
    ensures PlanOf(c) == Some(plan) && PlanOf(r.command) == Some(plan)
    ensures IssueWaste(c.wasteKg) == Some(waste) && IssueWaste(r.command.wasteKg) == Some(waste)
    ensures ValidateReport(r) == Some(b) && b.kind != InvalidWaste
    ensures b.difference == Some(plan.source - Total(KgOf(), plan.outputs) - waste)
    ensures waste == 0 || b.difference != Some(0)
    ensures 0 < Total(KgOf(), plan.outputs) == b.output <= MAX
  {
    ReportBalance(r);
    plan, waste, b := PlanOf(c).value, IssueWaste(c.wasteKg).value, ValidateReport(r).value;
    CompleteReproduces(c, plan, waste, r, b, PlanOf(r.command).value, IssueWaste(r.command.wasteKg));
  }

  /** With matching measurements only an output total beyond the stock column is refused. */
  lemma RecordedAccepts(c: Command, r: Report)
    requires ValidateReport(r).Some? && IssueWaste(c.wasteKg).Some? && PlanOf(c).Some? && PlanOf(r.command).Some?
    requires Matches(c, PlanOf(c).value, IssueWaste(c.wasteKg).value, r, ValidateReport(r).value,
                     PlanOf(r.command).value)
    ensures ValidateRecorded(c, r).Some? <==> Total(KgOf(), PlanOf(c).value.outputs) <= MAX
  {
    ReportBalance(r);
    var plan, reported := PlanOf(c).value, PlanOf(r.command).value;
    KindMeaning(reported, IssueWaste(r.command.wasteKg));
    CompleteIff(c, plan, IssueWaste(c.wasteKg).value, r, ValidateReport(r).value, reported);
    PlanMaximal(c);
    TotalAtLeast(KgOf(), plan.outputs, 1);
  }
}
