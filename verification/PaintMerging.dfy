/** What normalization does to the calculation: labels of an item that trim to the same text are
    merged, the last one stays, and the amounts of the others are lost. */
module PaintMerging {
  import opened Text
  import opened DecimalAmount
  import opened PaintBalance
  import opened PaintItems

  // ---- Repetitions in a list ----

  /** The same key comes again. */
  predicate Repeated(keys: seq<string>, i: nat)
    requires i < |keys|
  {
    exists j :: i < j < |keys| && keys[j] == keys[i]
  }

  lemma RepeatedFront(keys: seq<string>, i: nat)
    requires i + 1 < |keys|
    ensures Repeated(keys, i) <==> Repeated(keys[..|keys| - 1], i) || keys[|keys| - 1] == keys[i]
  {
    var front := keys[..|keys| - 1];
    if Repeated(front, i) {
      var j :| i < j < |front| && front[j] == front[i];
      assert keys[j] == keys[i];
    }
    if Repeated(keys, i) && keys[|keys| - 1] != keys[i] {
      var j :| i < j < |keys| && keys[j] == keys[i];
      assert front[j] == front[i];
    }
  }

  /** Where the key occurs last, if it does. */
  function LastWith(keys: seq<string>, key: string): (r: Option<nat>)
    ensures r.None? ==> key !in keys
    ensures r.Some? ==> r.value < |keys| && keys[r.value] == key && !Repeated(keys, r.value)
  {
    if keys == [] then None
    else if keys[|keys| - 1] == key then Some(|keys| - 1)
    else
      var r := LastWith(keys[..|keys| - 1], key);
      if r.Some? then RepeatedFront(keys, r.value); r else r
  }

  /** One more key makes exactly the last earlier one like it repeated, besides those that are already. */
  lemma NewlyRepeated(keys: seq<string>, i: nat)
    requires i + 1 < |keys|
    ensures var front := keys[..|keys| - 1];
            var p := LastWith(front, keys[|keys| - 1]);
            && (Repeated(keys, i) <==> Repeated(front, i) || p == Some(i))
            && !(Repeated(front, i) && p == Some(i))
  {
    var front, key := keys[..|keys| - 1], keys[|keys| - 1];
    var p := LastWith(front, key);
    RepeatedFront(keys, i);
    if front[i] == key && p.value != i { assert front[p.value] == front[i]; }
  }

  /** The sum of the repeated ones among the first n. */
  function RepeatedSum(keys: seq<string>, weights: seq<nat>, n: nat): nat
    requires n <= |keys| == |weights|
  {
    if n == 0 then 0
    else RepeatedSum(keys, weights, n - 1) + if Repeated(keys, n - 1) then weights[n - 1] else 0
  }

  function WeightBefore(weights: seq<nat>, p: Option<nat>, n: nat): nat
    requires n <= |weights|
  {
    if p.Some? && p.value < n then weights[p.value] else 0
  }

  lemma {:induction false} RepeatedSumMore(keys: seq<string>, weights: seq<nat>, n: nat)
    requires n < |keys| == |weights|
    ensures var k := |keys| - 1;
            var p := LastWith(keys[..k], keys[k]);
            RepeatedSum(keys, weights, n) == RepeatedSum(keys[..k], weights[..k], n) + WeightBefore(weights[..k], p, n)
  {
    if n > 0 {
      RepeatedSumMore(keys, weights, n - 1);
      NewlyRepeated(keys, n - 1);
    }
  }

  lemma {:induction false} RepeatedSumZero(keys: seq<string>, weights: seq<nat>, n: nat)
    requires n <= |keys| == |weights|
    ensures RepeatedSum(keys, weights, n) == 0 <==>
            forall i :: 0 <= i < n && Repeated(keys, i) ==> weights[i] == 0
  {
    if n > 0 { RepeatedSumZero(keys, weights, n - 1); }
  }

  // ---- Labels ----

  function Labels(values: seq<Entry>): (r: seq<string>)
    ensures |r| == |values| && forall i :: 0 <= i < |values| ==> r[i] == Trim(values[i].key)
  {
    seq(|values|, i requires 0 <= i < |values| => Trim(values[i].key))
  }

  function Weights(values: seq<Entry>, w: Entry -> nat): (r: seq<nat>)
    ensures |r| == |values| && forall i :: 0 <= i < |values| ==> r[i] == w(values[i])
  {
    seq(|values|, i requires 0 <= i < |values| => w(values[i]))
  }

  lemma LabelsFront(values: seq<Entry>, w: Entry -> nat)
    requires values != []
    ensures Labels(values)[..|values| - 1] == Labels(values[..|values| - 1])
    ensures Weights(values, w)[..|values| - 1] == Weights(values[..|values| - 1], w)
  {
  }

  /** A later entry has the same trimmed label. */
  predicate Overwritten(values: seq<Entry>, i: nat)
    requires i < |values|
  {
    Repeated(Labels(values), i)
  }

  // ---- Exactly the last of labels that trim alike stays ----

  lemma {:induction false} InsertKeeps(m: seq<Entry>, e: Entry, x: Entry)
    requires x in m && x.key != e.key
    ensures x in Insert(m, e)
  {
    if x != m[0] { InsertKeeps(m[1..], e, x); }
  }

  lemma {:induction false} InsertHolds(m: seq<Entry>, e: Entry)
    ensures e in Insert(m, e)
  {
    if m != [] { InsertHolds(m[1..], e); }
  }

  /** An insertion into a map drops the entry with its key. */
  lemma {:induction false} InsertDrops(m: seq<Entry>, e: Entry, x: Entry)
    requires Sorted(m) && x in Insert(m, e) && x != e
    ensures x in m && x.key != e.key
  {
    BeforeTotal(e.key, m[0].key);
    if e.key == m[0].key {
      var i :| 1 <= i < |m| && m[i] == x;
      BeforeTotal(m[0].key, x.key);
    } else if Before(e.key, m[0].key) {
      var i :| 0 <= i < |m| && m[i] == x;
      if i > 0 { BeforeTransitive(e.key, m[0].key, m[i].key); }
      BeforeTotal(e.key, x.key);
    } else if x != m[0] {
      InsertDrops(m[1..], e, x);
    }
  }

  lemma OverwrittenFront(values: seq<Entry>, i: nat)
    requires i + 1 < |values|
    ensures var front, last := values[..|values| - 1], values[|values| - 1];
            Overwritten(values, i) <==> Overwritten(front, i) || Trim(last.key) == Trim(values[i].key)
  {
    assert Labels(values)[..|values| - 1] == Labels(values[..|values| - 1]);
    RepeatedFront(Labels(values), i);
  }

  lemma CollectFront(normalize: Entry -> Result<Entry>, values: seq<Entry>)
    requires values != [] && Collect(normalize, values).Ok?
    ensures var front, last := Collect(normalize, values[..|values| - 1]), normalize(values[|values| - 1]);
            front.Ok? && last.Ok? && Collect(normalize, values) == Ok(Insert(front.value, last.value))
  {
  }

  /** Normalization of an entry trims its label. */
  ghost predicate Trims(normalize: Entry -> Result<Entry>) {
    forall e :: normalize(e).Ok? ==> normalize(e).value.key == Trim(e.key)
  }

  /** An entry that is not overwritten is kept. */
  lemma {:induction false} LastStays(normalize: Entry -> Result<Entry>, values: seq<Entry>, i: nat)
    requires Trims(normalize) && Collect(normalize, values).Ok? && i < |values| && !Overwritten(values, i)
    ensures normalize(values[i]).Ok? && normalize(values[i]).value in Collect(normalize, values).value
  {
    var front, last := values[..|values| - 1], values[|values| - 1];
    CollectFront(normalize, values);
    var m, e := Collect(normalize, front).value, normalize(last).value;
    if i < |front| {
      OverwrittenFront(values, i);
      LastStays(normalize, front, i);
      InsertKeeps(m, e, normalize(values[i]).value);
    } else {
      InsertHolds(m, e);
    }
  }

  /** Whatever is kept comes from an entry that is not overwritten. */
  lemma {:induction false} KeptIsLast(normalize: Entry -> Result<Entry>, values: seq<Entry>, x: Entry) returns (i: nat)
    requires Trims(normalize) && Collect(normalize, values).Ok? && x in Collect(normalize, values).value
    ensures i < |values| && !Overwritten(values, i) && normalize(values[i]) == Ok(x)
  {
    var front, last := values[..|values| - 1], values[|values| - 1];
    CollectFront(normalize, values);
    var m, e := Collect(normalize, front).value, normalize(last).value;
    if x == e {
      i := |values| - 1;
    } else {
      CollectSorted(normalize, front);
      InsertDrops(m, e, x);
      i := KeptIsLast(normalize, front, x);
      OverwrittenFront(values, i);
    }
  }

  lemma NormalizeEntryTrims()
    ensures Trims(NormalizeEntry)
  {
  }

  /** Of labels that trim alike exactly the last one is kept. */
  lemma LastOfAlikeKeysWins(values: seq<Entry>, x: Entry)
    requires NormalizeEntries(values).Ok?
    ensures x in NormalizeEntries(values).value <==>
            exists i :: 0 <= i < |values| && !Overwritten(values, i) && NormalizeEntry(values[i]) == Ok(x)
  {
    NormalizeEntryTrims();
    if x in NormalizeEntries(values).value { var i := KeptIsLast(NormalizeEntry, values, x); }
    if i :| 0 <= i < |values| && !Overwritten(values, i) && NormalizeEntry(values[i]) == Ok(x) {
      LastStays(NormalizeEntry, values, i);
    }
  }

  // ---- What the merging loses ----

  function Weigh(m: seq<Entry>, w: Entry -> nat): nat {
    if m == [] then 0 else w(m[0]) + Weigh(m[1..], w)
  }

  lemma {:induction false} WeighLast(m: seq<Entry>, e: Entry, w: Entry -> nat)
    ensures Weigh(m + [e], w) == Weigh(m, w) + w(e)
  {
    if m == [] {
      assert (m + [e])[1..] == [];
    } else {
      WeighLast(m[1..], e, w);
      assert (m + [e])[1..] == m[1..] + [e];
    }
  }

  lemma WeighFront(values: seq<Entry>, w: Entry -> nat)
    requires values != []
    ensures Weigh(values, w) == Weigh(values[..|values| - 1], w) + w(values[|values| - 1])
  {
    WeighLast(values[..|values| - 1], values[|values| - 1], w);
    assert values == values[..|values| - 1] + [values[|values| - 1]];
  }

  /** Inserting a new key adds exactly its weight. */
  lemma {:induction false} InsertWeigh(m: seq<Entry>, e: Entry, w: Entry -> nat)
    requires NewKey(m, e.key)
    ensures Weigh(Insert(m, e), w) == Weigh(m, w) + w(e)
  {
    if m == [] {
      assert [e][1..] == [];
    } else if Before(e.key, m[0].key) {
      assert ([e] + m)[1..] == m;
    } else {
      InsertWeigh(m[1..], e, w);
      assert ([m[0]] + Insert(m[1..], e))[1..] == Insert(m[1..], e);
    }
  }

  lemma {:induction false} LineTotalWeigh(lines: seq<Line>, values: seq<Entry>, b: Bucket, w: Entry -> nat)
    requires |lines| == |values| && forall i :: 0 <= i < |lines| ==> Share(lines[i], b) == w(values[i])
    ensures LineTotal(lines, b) == Weigh(values, w)
  {
    if values != [] {
      var front, last := values[..|values| - 1], values[|values| - 1];
      LineTotalWeigh(lines[..|lines| - 1], front, b, w);
      WeighLast(front, last, w);
      assert values == front + [last];
    }
  }

  /** A weight that does not see the normalization of an entry. */
  ghost predicate Blind(normalize: Entry -> Result<Entry>, w: Entry -> nat) {
    forall e :: normalize(e).Ok? ==> w(normalize(e).value) == w(e)
  }

  predicate NewKey(m: seq<Entry>, key: string) {
    forall i :: 0 <= i < |m| ==> m[i].key != key
  }

  /** Overwriting an entry replaces its weight. */
  lemma {:induction false} InsertReplaces(m: seq<Entry>, e: Entry, x: Entry, w: Entry -> nat)
    requires Sorted(m) && x in m && x.key == e.key
    ensures Weigh(Insert(m, e), w) + w(x) == Weigh(m, w) + w(e)
  {
    BeforeTotal(e.key, m[0].key);
    if x == m[0] {
      assert ([e] + m[1..])[1..] == m[1..];
    } else {
      var i :| 1 <= i < |m| && m[i] == x;
      BeforeTotal(m[0].key, x.key);
      InsertReplaces(m[1..], e, x, w);
      assert ([m[0]] + Insert(m[1..], e))[1..] == Insert(m[1..], e);
    }
  }

  lemma CollectedKeys(normalize: Entry -> Result<Entry>, values: seq<Entry>, key: string)
    requires Trims(normalize) && Collect(normalize, values).Ok? && key !in Labels(values)
    ensures NewKey(Collect(normalize, values).value, key)
  {
    var m := Collect(normalize, values).value;
    CollectSorted(normalize, values);
    forall k | 0 <= k < |m| ensures m[k].key != key {
      assert m[k] in m;
      var i :| 0 <= i < |values| && normalize(values[i]) == Ok(m[k]);
      assert Labels(values)[i] in Labels(values);
    }
  }

  /** The weight of the overwritten entries. */
  function Lost(values: seq<Entry>, w: Entry -> nat): nat {
    RepeatedSum(Labels(values), Weights(values, w), |values|)
  }

  /** What one more entry makes lost. */
  function Replaced(front: seq<Entry>, last: Entry, w: Entry -> nat): nat {
    var p := LastWith(Labels(front), Trim(last.key));
    if p.Some? then w(front[p.value]) else 0
  }

  lemma LostMore(values: seq<Entry>, w: Entry -> nat)
    requires values != []
    ensures var front, last := values[..|values| - 1], values[|values| - 1];
            Lost(values, w) == Lost(front, w) + Replaced(front, last, w)
  {
    var k := |values| - 1;
    LabelsFront(values, w);
    RepeatedSumMore(Labels(values), Weights(values, w), k);
    assert !Repeated(Labels(values), k);
  }

  lemma OneMoreLoses(normalize: Entry -> Result<Entry>, front: seq<Entry>, last: Entry, w: Entry -> nat)
    requires Trims(normalize) && Blind(normalize, w) && Collect(normalize, front).Ok? && normalize(last).Ok?
    ensures var m, e := Collect(normalize, front).value, normalize(last).value;
            Weigh(Insert(m, e), w) + Replaced(front, last, w) == Weigh(m, w) + w(last)
  {
    var m, e := Collect(normalize, front).value, normalize(last).value;
    var p := LastWith(Labels(front), Trim(last.key));
    if p.None? {
      CollectedKeys(normalize, front, Trim(last.key));
      InsertWeigh(m, e, w);
    } else {
      CollectSorted(normalize, front);
      LastStays(normalize, front, p.value);
      InsertReplaces(m, e, normalize(front[p.value]).value, w);
    }
  }

  /** What is kept and what is lost make up what was entered. */
  lemma {:induction false} CollectLoses(normalize: Entry -> Result<Entry>, values: seq<Entry>, w: Entry -> nat)
    requires Trims(normalize) && Blind(normalize, w) && Collect(normalize, values).Ok?
    ensures Weigh(Collect(normalize, values).value, w) + Lost(values, w) == Weigh(values, w)
  {
    if values != [] {
      var front, last := values[..|values| - 1], values[|values| - 1];
      CollectFront(normalize, values);
      CollectLoses(normalize, front, w);
      OneMoreLoses(normalize, front, last, w);
      LostMore(values, w);
      WeighFront(values, w);
    }
  }

  lemma NormalizedLine(e: Entry, solvent: bool, mix: bool)
    requires NormalizeEntry(e).Ok?
    ensures LineOf(solvent, mix, NormalizeEntry(e).value) == LineOf(solvent, mix, e)
  {
    NormalizedEntryIsNormal(e);
    TrimTidy(e.key);
    AmountOfInput(e.text);
    AmountStorable(e.text, INPUT_PLACES);
    DisplayInput(Amount(e.text, INPUT_PLACES).value);
  }

  lemma {:induction false} EachNormalizable(normalize: Entry -> Result<Entry>, values: seq<Entry>, i: nat)
    requires Collect(normalize, values).Ok? && i < |values|
    ensures normalize(values[i]).Ok?
  {
    if i < |values| - 1 { EachNormalizable(normalize, values[..|values| - 1], i); }
  }

  lemma NormalizableAmounts(values: seq<Entry>, solvent: bool, mix: bool)
    requires NormalizeEntries(values).Ok?
    ensures AllAmounts(LinesOf(solvent, mix, values))
  {
    forall i | 0 <= i < |values| ensures LinesOf(solvent, mix, values)[i].units.Some? {
      EachNormalizable(NormalizeEntry, values, i);
    }
  }

  /** What an entry adds to a bucket. */
  function AddsTo(solvent: bool, mix: bool, b: Bucket): Entry -> nat {
    (e: Entry) => Share(LineOf(solvent, mix, e), b)
  }

  lemma AddsToBlind(solvent: bool, mix: bool, b: Bucket)
    ensures Blind(NormalizeEntry, AddsTo(solvent, mix, b))
  {
    var w := AddsTo(solvent, mix, b);
    forall e | NormalizeEntry(e).Ok? ensures w(NormalizeEntry(e).value) == w(e) {
      NormalizedLine(e, solvent, mix);
    }
  }

  /** Bucket by bucket, the amounts entered are the amounts kept and the amounts overwritten. */
  lemma EntriesLose(values: seq<Entry>, solvent: bool, mix: bool, b: Bucket)
    requires NormalizeEntries(values).Ok?
    ensures LineTotal(LinesOf(solvent, mix, values), b)
            == LineTotal(LinesOf(solvent, mix, NormalizeEntries(values).value), b)
               + Lost(values, AddsTo(solvent, mix, b))
  {
    var w, m := AddsTo(solvent, mix, b), NormalizeEntries(values).value;
    AddsToBlind(solvent, mix, b);
    NormalizeEntryTrims();
    CollectLoses(NormalizeEntry, values, w);
    LineTotalWeigh(LinesOf(solvent, mix, values), values, b, w);
    LineTotalWeigh(LinesOf(solvent, mix, m), m, b, w);
  }

  lemma TagMeansTheSame(tag: string, word: string)
    ensures SameIgnoringCase(Trim(Lower(Trim(tag))), word) == SameIgnoringCase(Trim(tag), word)
  {
    TagFixed(tag);
    LowerIdempotent(Trim(tag));
  }

  lemma UsageMeansTheSame(usage: string)
    ensures UsageOf(Lower(Trim(usage))) == UsageOf(usage)
  {
    TagMeansTheSame(usage, "rasxot");
    TagMeansTheSame(usage, "astatka");
  }

  lemma KnownUsage(usage: string)
    requires Lower(Trim(usage)) in {"rasxot", "astatka"}
    ensures UsageOf(usage).Some?
  {
    LowerIdempotent(Trim(usage));
  }

  lemma CategoryMeansTheSame(category: string)
    ensures IsSolvent(Lower(Trim(category))) == IsSolvent(category)
    ensures IsColor(Lower(Trim(category))) == IsColor(category)
  {
    TagMeansTheSame(category, "solvents");
    TagMeansTheSame(category, "colors");
  }

  lemma NameMeansTheSame(name: string)
    ensures IsMix(Trim(name)) == IsMix(name)
  {
    TrimTidy(name);
  }

  lemma NormalizedTags(item: Item)
    requires NormalizeItem(item).Ok?
    ensures var n := NormalizeItem(item).value;
            n.category == Lower(Trim(item.category)) && n.name == Trim(item.name) && n.usage == Lower(Trim(item.usage))
    ensures Lower(Trim(item.usage)) in {"rasxot", "astatka"}
  {
  }

  lemma TagsAlike(item: Item)
    requires NormalizeItem(item).Ok?
    ensures var n := NormalizeItem(item).value;
            && IsSolvent(n.category) == IsSolvent(item.category) && IsColor(n.category) == IsColor(item.category)
            && IsMix(n.name) == IsMix(item.name) && UsageOf(n.usage) == UsageOf(item.usage)
            && UsageOf(item.usage).Some?
  {
    NormalizedTags(item);
    UsageMeansTheSame(item.usage);
    KnownUsage(item.usage);
    CategoryMeansTheSame(item.category);
    NameMeansTheSame(item.name);
  }

  /** The amounts of an item that go to a bucket and are overwritten. */
  function ItemLost(item: Item, b: Bucket): nat {
    Lost(item.values, AddsTo(IsSolvent(item.category), IsMix(item.name), b))
  }

  lemma NormalizedSheet(item: Item)
    requires NormalizeItem(item).Ok?
    ensures NormalizeEntries(item.values) == Ok(NormalizeItem(item).value.values)
    ensures var lines := LinesOf(IsSolvent(item.category), IsMix(item.name), NormalizeItem(item).value.values);
            SheetOf(NormalizeItem(item).value) == SheetOf(item).(lines := lines) && SheetOf(item).usage.Some?
  {
    TagsAlike(item);
  }

  lemma NormalizedAmounts(values: seq<Entry>, solvent: bool, mix: bool)
    requires NormalizeEntries(values).Ok?
    ensures AllAmounts(LinesOf(solvent, mix, values))
    ensures AllAmounts(LinesOf(solvent, mix, NormalizeEntries(values).value))
  {
    NormalizableAmounts(values, solvent, mix);
    NormalizedEntries(values);
    NormalEntriesFixed(NormalizeEntries(values).value);
    NormalizableAmounts(NormalizeEntries(values).value, solvent, mix);
  }

  /** The sheet of a normalized item has the tags of the item, and both can be read. */
  lemma SheetsAlike(item: Item)
    requires NormalizeItem(item).Ok?
    ensures var s, t := SheetOf(NormalizeItem(item).value), SheetOf(item);
            && s.counted == t.counted && s.usage == t.usage && t.usage.Some?
            && AllAmounts(s.lines) && AllAmounts(t.lines)
  {
    NormalizedSheet(item);
    NormalizedAmounts(item.values, IsSolvent(item.category), IsMix(item.name));
  }

  /** For every item and every bucket, what was entered is what is kept and what is overwritten. */
  lemma ItemLoses(item: Item, b: Bucket)
    requires NormalizeItem(item).Ok?
    ensures LineTotal(SheetOf(item).lines, b)
            == LineTotal(SheetOf(NormalizeItem(item).value).lines, b) + ItemLost(item, b)
  {
    NormalizedSheet(item);
    EntriesLose(item.values, IsSolvent(item.category), IsMix(item.name), b);
  }

  function Losses(items: seq<Item>, b: Bucket): (r: seq<nat>)
    ensures |r| == |items| && forall i :: 0 <= i < |items| ==> r[i] == ItemLost(items[i], b)
  {
    seq(|items|, i requires 0 <= i < |items| => ItemLost(items[i], b))
  }

  /** The sum over the counted sheets of a usage. */
  function CountedSum(sheets: seq<Sheet>, lost: seq<nat>, u: Usage): nat
    requires |sheets| == |lost|
  {
    if sheets == [] then 0
    else
      var k := |sheets| - 1;
      CountedSum(sheets[..k], lost[..k], u) + if sheets[k].counted && sheets[k].usage == Some(u) then lost[k] else 0
  }

  function LostTotal(items: seq<Item>, u: Usage, b: Bucket): nat {
    CountedSum(Sheets(items), Losses(items, b), u)
  }

  lemma {:induction false} CountedTotals(s: seq<Sheet>, t: seq<Sheet>, lost: seq<nat>, u: Usage, b: Bucket)
    requires |s| == |t| == |lost|
    requires forall i :: 0 <= i < |s| ==>
               && s[i].counted == t[i].counted && s[i].usage == t[i].usage
               && LineTotal(t[i].lines, b) == LineTotal(s[i].lines, b) + lost[i]
    ensures Total(t, u, b) == Total(s, u, b) + CountedSum(t, lost, u)
  {
    if s != [] {
      var k := |s| - 1;
      CountedTotals(s[..k], t[..k], lost[..k], u, b);
    }
  }

  lemma {:induction false} CountedPart(sheets: seq<Sheet>, lost: seq<nat>, u: Usage, k: nat)
    requires |sheets| == |lost| && k < |sheets| && sheets[k].counted && sheets[k].usage == Some(u)
    ensures lost[k] <= CountedSum(sheets, lost, u)
  {
    var n := |sheets| - 1;
    if k < n { CountedPart(sheets[..n], lost[..n], u, k); }
  }

  lemma {:induction false} CountedZero(sheets: seq<Sheet>, lost: seq<nat>, u: Usage)
    requires |sheets| == |lost| && forall i :: 0 <= i < |sheets| && sheets[i].counted ==> lost[i] == 0
    ensures CountedSum(sheets, lost, u) == 0
  {
    if sheets != [] {
      var k := |sheets| - 1;
      CountedZero(sheets[..k], lost[..k], u);
    }
  }

  predicate NormalizedTo(items: seq<Item>, n: seq<Item>) {
    |n| == |items| && forall i :: 0 <= i < |items| ==> NormalizeItem(items[i]) == Ok(n[i])
  }

  lemma TotalLoses(items: seq<Item>, n: seq<Item>, u: Usage, b: Bucket)
    requires NormalizedTo(items, n)
    ensures Total(Sheets(items), u, b) == Total(Sheets(n), u, b) + LostTotal(items, u, b)
  {
    var s, t, lost := Sheets(n), Sheets(items), Losses(items, b);
    forall i | 0 <= i < |items|
      ensures s[i].counted == t[i].counted && s[i].usage == t[i].usage
              && LineTotal(t[i].lines, b) == LineTotal(s[i].lines, b) + lost[i]
    {
      SheetsAlike(items[i]);
      ItemLoses(items[i], b);
    }
    CountedTotals(s, t, lost, u, b);
  }

  // ---- When the calculation survives ----

  /** Every overwritten entry of a colour or solvent item has the amount zero. */
  predicate LosesNothing(item: Item) {
    SheetOf(item).counted ==>
      forall i :: 0 <= i < |item.values| && Overwritten(item.values, i) ==> SheetOf(item).lines[i].units == Some(0)
  }

  predicate NothingLost(items: seq<Item>) {
    forall k :: 0 <= k < |items| ==> LosesNothing(items[k])
  }

  lemma LostZero(values: seq<Entry>, w: Entry -> nat)
    ensures Lost(values, w) == 0 <==> forall i :: 0 <= i < |values| && Overwritten(values, i) ==> w(values[i]) == 0
  {
    RepeatedSumZero(Labels(values), Weights(values, w), |values|);
  }

  lemma ItemLostZero(item: Item)
    requires AllAmounts(SheetOf(item).lines) && SheetOf(item).counted
    ensures (forall b :: ItemLost(item, b) == 0) <==> LosesNothing(item)
  {
    var solvent, mix := IsSolvent(item.category), IsMix(item.name);
    forall b ensures ItemLost(item, b) == 0 <==>
                     forall i :: 0 <= i < |item.values| && Overwritten(item.values, i) ==>
                       Share(SheetOf(item).lines[i], b) == 0 {
      LostZero(item.values, AddsTo(solvent, mix, b));
    }
    if forall b :: ItemLost(item, b) == 0 {
      forall i | 0 <= i < |item.values| && Overwritten(item.values, i) ensures SheetOf(item).lines[i].units == Some(0) {
        assert ItemLost(item, SheetOf(item).lines[i].bucket) == 0;
      }
    }
  }

  lemma LostTotalZero(items: seq<Item>, k: nat)
    requires k < |items| && NormalizeItem(items[k]).Ok? && forall u, b :: LostTotal(items, u, b) == 0
    ensures LosesNothing(items[k])
  {
    var item := items[k];
    if SheetOf(item).counted {
      SheetsAlike(item);
      var u := SheetOf(item).usage.value;
      forall b ensures ItemLost(item, b) == 0 {
        assert LostTotal(items, u, b) == 0;
        CountedPart(Sheets(items), Losses(items, b), u, k);
      }
      ItemLostZero(item);
    }
  }

  lemma NothingLostTotal(items: seq<Item>, u: Usage, b: Bucket)
    requires (forall i :: 0 <= i < |items| ==> NormalizeItem(items[i]).Ok?) && NothingLost(items)
    ensures LostTotal(items, u, b) == 0
  {
    var sheets, lost := Sheets(items), Losses(items, b);
    forall i | 0 <= i < |items| && sheets[i].counted ensures lost[i] == 0 {
      SheetsAlike(items[i]);
      assert LosesNothing(items[i]);
      ItemLostZero(items[i]);
    }
    CountedZero(sheets, lost, u);
  }

  /** The six totals can be read off the eight results. */
  lemma BalanceInjective(r: Totals, a: Totals, r': Totals, a': Totals)
    requires BalanceOf(r, a) == BalanceOf(r', a')
    ensures r == r' && a == a'
  {
  }

  lemma SameResultSameTotals(items: seq<Item>, n: seq<Item>)
    requires Calculate(items).Ok? && Calculate(n) == Calculate(items)
    ensures TotalsOf(Sheets(n), Rasxot) == TotalsOf(Sheets(items), Rasxot)
    ensures TotalsOf(Sheets(n), Astatka) == TotalsOf(Sheets(items), Astatka)
  {
    var r, a := TotalsOf(Sheets(items), Rasxot), TotalsOf(Sheets(items), Astatka);
    var r', a' := TotalsOf(Sheets(n), Rasxot), TotalsOf(Sheets(n), Astatka);
    CalculateExact(items);
    CalculateExact(n);
    ReadBackPrinted(Naturals(BalanceOf(r, a)));
    ReadBackPrinted(Naturals(BalanceOf(r', a')));
    BalanceInjective(r, a, r', a');
  }

  lemma SameTotalsSameScan(s: seq<Sheet>, t: seq<Sheet>)
    requires Readable(s) && Readable(t) && forall u :: TotalsOf(s, u) == TotalsOf(t, u)
    ensures ScanSheets(s) == ScanSheets(t)
  {
    ScanExact(s);
    ScanExact(t);
  }

  lemma NormalizedReadable(items: seq<Item>, n: seq<Item>)
    requires NormalizedTo(items, n)
    ensures Readable(Sheets(items)) && Readable(Sheets(n))
  {
    forall i | 0 <= i < |items| ensures ReadableSheet(Sheets(items)[i]) && ReadableSheet(Sheets(n)[i]) {
      SheetsAlike(items[i]);
    }
  }

  predicate LossFree(items: seq<Item>, u: Usage) {
    LostTotal(items, u, Mix) == 0 && LostTotal(items, u, Paint) == 0 && LostTotal(items, u, Alcohol) == 0
  }

  lemma SumsApart(t: Totals, s: Totals, mix: nat, paint: nat, alcohol: nat)
    requires t.mix == s.mix + mix && t.paint == s.paint + paint && t.alcohol == s.alcohol + alcohol
    ensures s == t <==> mix == 0 && paint == 0 && alcohol == 0
  {
  }

  lemma LossFreeTotals(items: seq<Item>, n: seq<Item>, u: Usage)
    requires NormalizedTo(items, n)
    ensures TotalsOf(Sheets(n), u) == TotalsOf(Sheets(items), u) <==> LossFree(items, u)
  {
    TotalLoses(items, n, u, Mix);
    TotalLoses(items, n, u, Paint);
    TotalLoses(items, n, u, Alcohol);
    SumsApart(TotalsOf(Sheets(items), u), TotalsOf(Sheets(n), u),
              LostTotal(items, u, Mix), LostTotal(items, u, Paint), LostTotal(items, u, Alcohol));
  }

  lemma NothingLostPreserves(items: seq<Item>, n: seq<Item>)
    requires NormalizedTo(items, n) && NothingLost(items)
    ensures Calculate(n) == Calculate(items)
  {
    forall u ensures TotalsOf(Sheets(n), u) == TotalsOf(Sheets(items), u) {
      NothingLostTotal(items, u, Mix);
      NothingLostTotal(items, u, Paint);
      NothingLostTotal(items, u, Alcohol);
      LossFreeTotals(items, n, u);
    }
    NormalizedReadable(items, n);
    SameTotalsSameScan(Sheets(n), Sheets(items));
  }

  lemma EveryLoss(items: seq<Item>, u: Usage, b: Bucket)
    requires LossFree(items, Rasxot) && LossFree(items, Astatka)
    ensures LostTotal(items, u, b) == 0
  {
    match b
    case Mix =>
    case Paint =>
    case Alcohol =>
  }

  lemma PreservedLosesNothing(items: seq<Item>, n: seq<Item>)
    requires NormalizedTo(items, n) && Calculate(items).Ok? && Calculate(n) == Calculate(items)
    ensures NothingLost(items)
  {
    SameResultSameTotals(items, n);
    LossFreeTotals(items, n, Rasxot);
    LossFreeTotals(items, n, Astatka);
    forall u, b ensures LostTotal(items, u, b) == 0 { EveryLoss(items, u, b); }
    forall k | 0 <= k < |items| ensures LosesNothing(items[k]) { LostTotalZero(items, k); }
  }

  /** Normalization keeps the outcome of the calculation, errors included, when every overwritten
      amount is zero; and a successful calculation only then. */
  lemma NormalizationPreservesCalculation(items: seq<Item>)
    requires NormalizeItems(items).Ok?
    ensures NothingLost(items) ==> Calculate(NormalizeItems(items).value) == Calculate(items)
    ensures Calculate(items).Ok? ==>
              (Calculate(NormalizeItems(items).value) == Calculate(items) <==> NothingLost(items))
  {
    var n := NormalizeItems(items).value;
    forall i | 0 <= i < |items| ensures NormalizeItem(items[i]) == Ok(n[i]) { EachAt(NormalizeItem, items, i); }
    if NothingLost(items) { NothingLostPreserves(items, n); }
    if Calculate(items).Ok? && Calculate(n) == Calculate(items) { PreservedLosesNothing(items, n); }
  }

  // ---- When a failure stays the same failure ----

  /** The totals of a usage without what is lost. */
  predicate Remains(items: seq<Item>, u: Usage, t: Totals) {
    && t.mix + LostTotal(items, u, Mix) == Total(Sheets(items), u, Mix)
    && t.paint + LostTotal(items, u, Paint) == Total(Sheets(items), u, Paint)
    && t.alcohol + LostTotal(items, u, Alcohol) == Total(Sheets(items), u, Alcohol)
  }

  lemma RemainingTotals(items: seq<Item>, n: seq<Item>, u: Usage, t: Totals)
    requires NormalizedTo(items, n) && Remains(items, u, t)
    ensures TotalsOf(Sheets(n), u) == t
  {
    TotalLoses(items, n, u, Mix);
    TotalLoses(items, n, u, Paint);
    TotalLoses(items, n, u, Alcohol);
  }

  /** The normalized items come out as the totals that remain do; so a failure stays the same failure
      exactly when those totals fail the same way. */
  lemma NormalizedOutcome(items: seq<Item>, r: Totals, a: Totals)
    requires NormalizeItems(items).Ok? && Remains(items, Rasxot, r) && Remains(items, Astatka, a)
    ensures Calculate(NormalizeItems(items).value) == Outcome(r, a)
    ensures Calculate(items) == Err(NegativeFinalValue) ==>
              (Calculate(NormalizeItems(items).value) == Calculate(items) <==> !Overflows(r, a) && Negative(r, a))
    ensures Calculate(items) == Err(InvalidValue) ==>
              (Calculate(NormalizeItems(items).value) == Calculate(items) <==>
               Overflows(r, a) || (!Negative(r, a) && !Acceptable(BalanceOf(r, a))))
    ensures Calculate(items).Err? ==> Calculate(items).error in {NegativeFinalValue, InvalidValue}
  {
    var n := NormalizeItems(items).value;
    forall i | 0 <= i < |items| ensures NormalizeItem(items[i]) == Ok(n[i]) { EachAt(NormalizeItem, items, i); }
    NormalizedReadable(items, n);
    RemainingTotals(items, n, Rasxot, r);
    RemainingTotals(items, n, Astatka, a);
    CalculateOutcome(n);
    CalculateOutcome(items);
  }

  // ---- Two labels that are merged ----

  /** One colour item with the labels " a" and "a". */
  function TwoLabels(first: string, second: string): Item {
    Item("rasxot", "colors", "x", [Entry(" a", first), Entry("a", second)])
  }

  lemma LabelsAlike()
    ensures Trim(" a") == "a" && Trim("a") == "a" && Trim("x") == "x"
    ensures Trim("rasxot") == "rasxot" && Trim("colors") == "colors"
  {
    assert " a"[1..] == "a";
    TrimTidy("a");
    TrimTidy("x");
    TrimTidy("rasxot");
    TrimTidy("colors");
  }

  lemma LowerFixed(s: string)
    requires forall i :: 0 <= i < |s| ==> 'a' <= s[i] <= 'z'
    ensures Lower(s) == s
  {
  }

  lemma TwoTags(first: string, second: string)
    ensures var item := TwoLabels(first, second);
            && !IsSolvent(item.category) && IsColor(item.category) && UsageOf(item.usage) == Some(Rasxot)
            && !IsMix(item.name) && !IsMix(" a") && !IsMix("a")
            && Lower(Trim(item.usage)) == "rasxot" && Lower(Trim(item.category)) == "colors"
  {
    LabelsAlike();
    LowerFixed("rasxot");
    LowerFixed("colors");
    assert |Lower("colors")| != |Lower("solvents")|;
    assert |Lower("a")| != |Lower("mix")| && |Lower("x")| != |Lower("mix")|;
  }

  lemma PaintLine(e: Entry, units: nat)
    requires !IsMix(e.key) && Amount(e.text, INPUT_PLACES) == Some(units)
    ensures LineOf(false, false, e) == Line(Paint, Some(units))
  {
  }

  function TwoSheet(x: nat, y: nat): Sheet {
    Sheet(true, Some(Rasxot), [Line(Paint, Some(x)), Line(Paint, Some(y))])
  }

  lemma PaintSheet(item: Item, x: nat, y: nat)
    requires !IsSolvent(item.category) && IsColor(item.category) && UsageOf(item.usage) == Some(Rasxot)
    requires !IsMix(item.name) && |item.values| == 2
    requires LineOf(false, false, item.values[0]) == Line(Paint, Some(x))
    requires LineOf(false, false, item.values[1]) == Line(Paint, Some(y))
    ensures SheetOf(item) == TwoSheet(x, y)
  {
    assert LinesOf(false, false, item.values) == [Line(Paint, Some(x)), Line(Paint, Some(y))];
  }

  lemma TwoLines(first: string, second: string, x: nat, y: nat)
    requires Amount(first, INPUT_PLACES) == Some(x) && Amount(second, INPUT_PLACES) == Some(y)
    ensures SheetOf(TwoLabels(first, second)) == TwoSheet(x, y)
  {
    var item := TwoLabels(first, second);
    TwoTags(first, second);
    PaintLine(item.values[0], x);
    PaintLine(item.values[1], y);
    PaintSheet(item, x, y);
  }

  lemma CollectTwo(normalize: Entry -> Result<Entry>, e: Entry, f: Entry)
    requires normalize(e).Ok? && normalize(f).Ok?
    ensures Collect(normalize, [e, f]).Ok? && Collect(normalize, [e, f]).value != []
  {
    assert [e, f][..1] == [e] && [e][..0] == [];
    assert Collect(normalize, [e]).Ok?;
    CollectSorted(normalize, [e, f]);
  }

  lemma ReadableEntry(e: Entry)
    requires Trim(e.key) != "" && Amount(e.text, INPUT_PLACES).Some?
    ensures NormalizeEntry(e).Ok?
  {
  }

  lemma EachOne(normalize: Item -> Result<Item>, item: Item)
    requires normalize(item).Ok?
    ensures Each(normalize, [item]).Ok?
  {
    assert [item][..0] == [];
  }

  lemma TwoNormalize(first: string, second: string)
    requires Amount(first, INPUT_PLACES).Some? && Amount(second, INPUT_PLACES).Some?
    ensures NormalizeItems([TwoLabels(first, second)]).Ok?
  {
    var item := TwoLabels(first, second);
    TwoTags(first, second);
    LabelsAlike();
    ReadableEntry(item.values[0]);
    ReadableEntry(item.values[1]);
    CollectTwo(NormalizeEntry, item.values[0], item.values[1]);
    assert item.values == [item.values[0], item.values[1]];
    EachOne(NormalizeItem, item);
  }

  lemma TwoTotal(x: nat, y: nat, b: Bucket)
    ensures LineTotal(TwoSheet(x, y).lines, b) == if b == Paint then x + y else 0
  {
    var lines := TwoSheet(x, y).lines;
    assert lines[..1] == [Line(Paint, Some(x))] && lines[..1][..0] == [];
    assert LineTotal(lines[..1], b) == if b == Paint then x else 0;
  }

  lemma TwoTotals(x: nat, y: nat)
    ensures TotalsOf([TwoSheet(x, y)], Rasxot) == Totals(0, x + y, 0)
    ensures TotalsOf([TwoSheet(x, y)], Astatka) == Totals(0, 0, 0)
  {
    assert [TwoSheet(x, y)][..0] == [];
    forall u, b ensures Total([TwoSheet(x, y)], u, b) == if u == Rasxot && b == Paint then x + y else 0 {
      TwoTotal(x, y, b);
      assert Total([], u, b) == 0;
    }
  }

  lemma PaintOnly(paint: nat)
    requires paint <= MAX_STORED_UNITS
    ensures Acceptable(BalanceOf(Totals(0, paint, 0), Totals(0, 0, 0)))
  {
  }

  lemma CalculatesWith(items: seq<Item>, sheets: seq<Sheet>, r: Totals, a: Totals)
    requires Sheets(items) == sheets && Readable(sheets) && Acceptable(BalanceOf(r, a))
    requires TotalsOf(sheets, Rasxot) == r && TotalsOf(sheets, Astatka) == a
    ensures Calculate(items).Ok?
  {
    CalculateExact(items);
  }

  lemma TwoCalculate(item: Item, x: nat, y: nat)
    requires SheetOf(item) == TwoSheet(x, y) && x + y <= MAX_STORED_UNITS
    ensures Calculate([item]).Ok?
  {
    TwoTotals(x, y);
    PaintOnly(x + y);
    assert Sheets([item]) == [TwoSheet(x, y)];
    CalculatesWith([item], [TwoSheet(x, y)], Totals(0, x + y, 0), Totals(0, 0, 0));
  }

  lemma FirstIsLost(item: Item, x: nat, y: nat)
    requires SheetOf(item) == TwoSheet(x, y) && x > 0 && |item.values| == 2
    requires Trim(item.values[0].key) == Trim(item.values[1].key)
    ensures !NothingLost([item])
  {
    assert Labels(item.values)[1] == Labels(item.values)[0];
    assert Overwritten(item.values, 0);
    assert SheetOf(item).lines[0].units != Some(0);
    assert !LosesNothing([item][0]);
  }

  /** The two labels are one label once trimmed, so normalization loses the first amount and the
      calculation comes out differently, whatever the amounts. */
  lemma TwoLabelsDiffer(first: string, second: string, x: nat, y: nat)
    requires Amount(first, INPUT_PLACES) == Some(x) && Amount(second, INPUT_PLACES) == Some(y)
    requires 0 < x && x + y <= MAX_STORED_UNITS
    ensures var items := [TwoLabels(first, second)];
            && NormalizeItems(items).Ok? && Calculate(items).Ok?
            && Calculate(NormalizeItems(items).value) != Calculate(items)
  {
    var item := TwoLabels(first, second);
    TwoNormalize(first, second);
    TwoLines(first, second, x, y);
    TwoCalculate(item, x, y);
    LabelsAlike();
    FirstIsLost(item, x, y);
    NormalizationPreservesCalculation([item]);
  }

  /** For example two amounts of one. */
  lemma OneAndOneDiffer()
    ensures var items := [TwoLabels(Display(SCALE_FACTOR), Display(SCALE_FACTOR))];
            && NormalizeItems(items).Ok? && Calculate(items).Ok?
            && Calculate(NormalizeItems(items).value) != Calculate(items)
  {
    DisplayInput(SCALE_FACTOR);
    TwoLabelsDiffer(Display(SCALE_FACTOR), Display(SCALE_FACTOR), SCALE_FACTOR, SCALE_FACTOR);
  }
}
