/** Bulk material preparation: shares of an order rounded to the micro-kilogram. */
module Preparation {
  import opened Text
  import opened FixedPoint
  import opened Lists

  const FULL := 100 * SCALE
  const I128_MAX := 0x7FFF_FFFF_FFFF_FFFF_FFFF_FFFF_FFFF_FFFF

  // ---- One share of an order ----

  /** `as i64` keeps the low 64 bits. */
  function AsI64(x: int): int {
    (x - I64_MIN) % 0x1_0000_0000_0000_0000 + I64_MIN
  }

  /** The wide intermediate: half a unit is added before dividing. */
  function HalfUp(product: int): int {
    (product + 50 * SCALE) / FULL
  }

  /** The kilograms a percentage of the order comes to, or an error. */
  function RequiredKg(order: int, percent: int): Option<int> {
    if order <= 0 || order > MAX || percent <= 0 || percent > FULL then None
    else
      var kg := AsI64(HalfUp(order * percent));
      if kg == 0 then None else Some(kg)
  }

  /** kg is the product divided by the scale of a percentage, to the nearest unit, halves upward. */
  predicate Nearest(product: int, kg: int) {
    -FULL <= 2 * (product - kg * FULL) < FULL
  }

  lemma HalfUpNearest(product: int, kg: int)
    ensures HalfUp(product) == kg <==> Nearest(product, kg)
  {
  }

  lemma ProductBounds(order: int, percent: int)
    requires 0 < order <= MAX && 0 < percent <= FULL
    ensures 0 < order * percent <= order * FULL && order * FULL <= MAX * FULL
    ensures order * percent + 50 * SCALE <= I128_MAX
  {
    assert order * percent <= order * FULL;
    assert order * percent > 0;
  }

  /** An accepted share is the exact product rounded to the nearest unit, positive and no more than
      the order; the cast to `i64` loses nothing. It is refused only when it would round to zero. */
  lemma RequiredKgExact(order: int, percent: int, kg: int)
    ensures RequiredKg(order, percent) == Some(kg) <==>
            0 < order <= MAX && 0 < percent <= FULL && Nearest(order * percent, kg) && 0 < kg
    ensures RequiredKg(order, percent) == Some(kg) ==>
            kg <= order && order * percent + 50 * SCALE <= I128_MAX
  {
    if 0 < order <= MAX && 0 < percent <= FULL {
      ProductBounds(order, percent);
      var product := order * percent;
      var exact := HalfUp(product);
      RoundedBounds(order, product);
      HalfUpNearest(product, kg);
      assert AsI64(exact) == exact;
    }
  }

  lemma RoundedBounds(order: int, product: int)
    requires 0 < product <= order * FULL && order <= MAX
    ensures 0 <= HalfUp(product) <= order
  {
  }

  /** The share is refused for rounding exactly when the product is under half a unit. */
  lemma RequiredKgRefused(order: int, percent: int)
    requires 0 < order <= MAX && 0 < percent <= FULL
    ensures RequiredKg(order, percent).None? <==> 2 * order * percent < FULL
  {
    ProductBounds(order, percent);
    var product := order * percent;
    assert 2 * order * percent == 2 * product;
    RoundedBounds(order, product);
    assert AsI64(HalfUp(product)) == HalfUp(product);
  }

  // ---- Sorting by a text key ----

  predicate Sorted<T>(key: T -> string, s: seq<T>) {
    forall i, j :: 0 <= i < j < |s| ==> Before(key(s[i]), key(s[j]))
  }

  predicate DistinctKeys<T>(key: T -> string, s: seq<T>) {
    forall i, j :: 0 <= i < j < |s| ==> key(s[i]) != key(s[j])
  }

  function Insert<T>(key: T -> string, s: seq<T>, x: T): seq<T> {
    if s == [] || !Before(key(x), key(s[|s| - 1])) then s + [x]
    else Insert(key, s[..|s| - 1], x) + [s[|s| - 1]]
  }

  /** The stable sort by key. */
  function SortBy<T>(key: T -> string, s: seq<T>): seq<T> {
    if s == [] then [] else Insert(key, SortBy(key, s[..|s| - 1]), s[|s| - 1])
  }

  lemma SplitLast<T>(a: seq<T>)
    requires a != []
    ensures a == a[..|a| - 1] + [a[|a| - 1]]
    ensures multiset(a) == multiset(a[..|a| - 1]) + multiset{a[|a| - 1]}
  {
    assert a == a[..|a| - 1] + [a[|a| - 1]];
  }

  lemma {:induction false} InsertMembers<T>(key: T -> string, s: seq<T>, x: T)
    ensures multiset(Insert(key, s, x)) == multiset(s) + multiset{x}
  {
    if !(s == [] || !Before(key(x), key(s[|s| - 1]))) {
      InsertMembers(key, s[..|s| - 1], x);
      assert s == s[..|s| - 1] + [s[|s| - 1]];
    }
  }

  /** Nothing inserted before the last item comes after it. */
  lemma InsertedBefore<T>(key: T -> string, r: seq<T>, front: seq<T>, x: T, last: string)
    requires multiset(r) == multiset(front) + multiset{x} && Before(key(x), last)
    requires forall i :: 0 <= i < |front| ==> Before(key(front[i]), last)
    ensures forall i :: 0 <= i < |r| ==> Before(key(r[i]), last)
  {
    forall i | 0 <= i < |r| ensures Before(key(r[i]), last) {
      assert r[i] in multiset(r);
      assert r[i] in front || r[i] == x;
    }
  }

  lemma AppendSorted<T>(key: T -> string, s: seq<T>, x: T)
    requires Sorted(key, s) && (s != [] ==> Before(key(s[|s| - 1]), key(x)))
    ensures Sorted(key, s + [x])
  {
    forall i | 0 <= i < |s| - 1 ensures Before(key(s[i]), key(x)) {
      BeforeTransitive(key(s[i]), key(s[|s| - 1]), key(x));
    }
  }

  lemma {:induction false} InsertSorted<T>(key: T -> string, s: seq<T>, x: T)
    requires Sorted(key, s) && forall i :: 0 <= i < |s| ==> key(s[i]) != key(x)
    ensures Sorted(key, Insert(key, s, x))
  {
    if s == [] || !Before(key(x), key(s[|s| - 1])) {
      if s != [] { BeforeTotal(key(x), key(s[|s| - 1])); }
      AppendSorted(key, s, x);
    } else {
      var front, last := s[..|s| - 1], s[|s| - 1];
      InsertSorted(key, front, x);
      InsertMembers(key, front, x);
      InsertedBefore(key, Insert(key, front, x), front, x, key(last));
    }
  }

  lemma {:induction false} SortByPermutes<T>(key: T -> string, s: seq<T>)
    ensures multiset(SortBy(key, s)) == multiset(s)
  {
    if s != [] {
      var front, last := s[..|s| - 1], s[|s| - 1];
      SortByPermutes(key, front);
      InsertMembers(key, SortBy(key, front), last);
      SplitLast(s);
    }
  }

  lemma MembersKeep<T>(key: T -> string, r: seq<T>, s: seq<T>, k: string)
    requires multiset(r) == multiset(s) && forall i :: 0 <= i < |s| ==> key(s[i]) != k
    ensures forall i :: 0 <= i < |r| ==> key(r[i]) != k
  {
    forall i | 0 <= i < |r| ensures key(r[i]) != k {
      assert r[i] in multiset(s);
    }
  }

  /** Sorting permutes; distinct keys come out strictly increasing. */
  lemma {:induction false} SortBySorts<T>(key: T -> string, s: seq<T>)
    requires DistinctKeys(key, s)
    ensures multiset(SortBy(key, s)) == multiset(s) && |SortBy(key, s)| == |s|
    ensures Sorted(key, SortBy(key, s))
  {
    SortByPermutes(key, s);
    assert |SortBy(key, s)| == |multiset(SortBy(key, s))| == |multiset(s)| == |s|;
    if s != [] {
      var front, last := s[..|s| - 1], s[|s| - 1];
      SortBySorts(key, front);
      MembersKeep(key, SortBy(key, front), front, key(last));
      InsertSorted(key, SortBy(key, front), last);
    }
  }

  lemma SameLast<T>(key: T -> string, a: seq<T>, b: seq<T>)
    requires Sorted(key, a) && Sorted(key, b) && multiset(a) == multiset(b) && a != [] && b != []
    ensures a[|a| - 1] == b[|b| - 1]
  {
    var x, y := a[|a| - 1], b[|b| - 1];
    assert x in multiset(b) && y in multiset(a);
    var i :| 0 <= i < |b| && b[i] == x;
    var j :| 0 <= j < |a| && a[j] == y;
    BeforeTotal(key(x), key(y));
  }

  lemma CancelMember<T>(m: multiset<T>, n: multiset<T>, x: T)
    requires m + multiset{x} == n + multiset{x}
    ensures m == n
  {
    assert m == m + multiset{x} - multiset{x} && n == n + multiset{x} - multiset{x};
  }

  /** A strictly sorted arrangement is unique, so any sort gives the same one. */
  lemma {:induction false} SortedUnique<T>(key: T -> string, a: seq<T>, b: seq<T>)
    requires Sorted(key, a) && Sorted(key, b) && multiset(a) == multiset(b)
    ensures a == b
    decreases |a|
  {
    assert |a| == |multiset(a)| == |multiset(b)| == |b|;
    if a != [] {
      SameLast(key, a, b);
      SplitLast(a);
      SplitLast(b);
      CancelMember(multiset(a[..|a| - 1]), multiset(b[..|b| - 1]), a[|a| - 1]);
      SortedUnique(key, a[..|a| - 1], b[..|b| - 1]);
    }
  }

  // ---- The lines of a request ----

  datatype Line = Line(itemCode: string, percent: string)
  datatype Portion = Portion(code: string, percent: int, kg: int)
  datatype Share = Share(code: string, percent: int)

  function PortionOf(line: Line, order: int): Option<Portion> {
    var code := Trim(line.itemCode);
    var percent := Decimal(line.percent);
    if code == "" || percent.None? then None
    else
      var kg := RequiredKg(order, percent.value);
      if kg.None? then None else Some(Portion(code, percent.value, kg.value))
  }

  function ShareOf(line: Line, limit: Option<nat>): Option<Share> {
    var code := Trim(line.itemCode);
    var percent := Decimal(line.percent);
    if code == "" || (limit.Some? && |code| > limit.value) || percent.None? || percent.value > FULL then None
    else Some(Share(code, percent.value))
  }

  function PortionKey(): Portion -> string { (p: Portion) => p.code }
  function ShareKey(): Share -> string { (p: Share) => p.code }
  function PortionReader(order: int): Line -> Option<Portion> { (l: Line) => PortionOf(l, order) }
  function ShareReader(limit: Option<nat>): Line -> Option<Share> { (l: Line) => ShareOf(l, limit) }

  /** The lines read, provided all can be and no two have the same code. */
  function ReadDistinct<T>(read: Line -> Option<T>, key: T -> string, lines: seq<Line>): Option<seq<T>> {
    var all := ReadAll(read, lines);
    if all.Some? && DistinctKeys(key, all.value) then all else None
  }

  /** The reader gives every item the trimmed, non-empty code of its line. */
  ghost predicate Keyed<T>(read: Line -> Option<T>, key: T -> string) {
    forall l :: read(l).Some? ==> key(read(l).value) == Trim(l.itemCode) && Trim(l.itemCode) != ""
  }

  lemma DuplicateRefused<T>(read: Line -> Option<T>, key: T -> string, lines: seq<Line>, i: nat, n: nat)
    requires i < n < |lines|
    requires ReadAll(read, lines).Some? ==> key(ReadAll(read, lines).value[i]) == key(ReadAll(read, lines).value[n])
    ensures ReadDistinct(read, key, lines) == None
  {
  }

  /** The loop over the lines, with the set of codes seen so far. */
  method ReadLines<T>(read: Line -> Option<T>, ghost key: T -> string, lines: seq<Line>) returns (r: Option<seq<T>>)
    requires Keyed(read, key)
    ensures r == ReadDistinct(read, key, lines)
  {
    var seen: set<string> := {};
    var result: seq<T> := [];
    for n := 0 to |lines|
      invariant ReadAll(read, lines[..n]) == Some(result)
      invariant forall c :: c in seen <==> exists i :: 0 <= i < n && key(result[i]) == c
      invariant DistinctKeys(key, result)
    {
      var line := lines[n];
      var code := Trim(line.itemCode);
      assert lines[..n + 1][..n] == lines[..n];
      if code == "" || code in seen {
        if code in seen {
          ghost var i :| 0 <= i < n && key(result[i]) == code;
          assert read(lines[..n][i]) == Some(result[i]);
          DuplicateRefused(read, key, lines, i, n);
        }
        return None;
      }
      seen := seen + {code};
      var item := read(line);
      if item.None? { return None; }
      result := result + [item.value];
    }
    assert lines[..|lines|] == lines;
    r := Some(result);
  }

  /** What a consumption request comes to: one portion per line, in the order of the codes. */
  function Quantities(lines: seq<Line>, order: int): Option<seq<Portion>> {
    var portions := ReadDistinct(PortionReader(order), PortionKey(), lines);
    if 1 <= |lines| <= 100 && portions.Some? then Some(SortBy(PortionKey(), portions.value)) else None
  }

  method ComputeQuantities(lines: seq<Line>, order: int) returns (r: Option<seq<Portion>>)
    ensures r == Quantities(lines, order)
  {
    if |lines| == 0 || |lines| > 100 { return None; }
    var result := ReadLines(PortionReader(order), PortionKey(), lines);
    if result.None? { return None; }
    r := Some(SortBy(PortionKey(), result.value));
  }

  lemma {:induction false} TotalInsert<T>(f: T -> int, key: T -> string, s: seq<T>, x: T)
    ensures Total(f, Insert(key, s, x)) == Total(f, s) + f(x)
  {
    if s == [] || !Before(key(x), key(s[|s| - 1])) {
      assert (s + [x])[..|s|] == s;
    } else {
      TotalInsert(f, key, s[..|s| - 1], x);
      var r := Insert(key, s[..|s| - 1], x);
      assert (r + [s[|s| - 1]])[..|r|] == r;
    }
  }

  lemma {:induction false} TotalSortBy<T>(f: T -> int, key: T -> string, s: seq<T>)
    ensures Total(f, SortBy(key, s)) == Total(f, s)
  {
    if s != [] {
      TotalSortBy(f, key, s[..|s| - 1]);
      TotalInsert(f, key, SortBy(key, s[..|s| - 1]), s[|s| - 1]);
    }
  }

  function PercentOf(): Portion -> int { (p: Portion) => p.percent }
  function KgOf(): Portion -> int { (p: Portion) => p.kg }
  function ShareOfWhole(): Share -> int { (p: Share) => p.percent }

  /** Validated shares must make up the whole exactly. */
  function NormalizedLines(lines: seq<Line>, limit: Option<nat>): Option<seq<Share>> {
    var shares := ReadDistinct(ShareReader(limit), ShareKey(), lines);
    if 1 <= |lines| <= 100 && shares.Some? && Total(ShareOfWhole(), shares.value) == FULL
    then Some(SortBy(ShareKey(), shares.value)) else None
  }

  lemma SharesBounded(lines: seq<Line>, limit: Option<nat>)
    requires ReadAll(ShareReader(limit), lines).Some?
    ensures forall s :: s in ReadAll(ShareReader(limit), lines).value ==> 0 < s.percent <= FULL
  {
    var shares := ReadAll(ShareReader(limit), lines).value;
    forall i | 0 <= i < |shares| ensures 0 < shares[i].percent <= FULL {
      assert ShareReader(limit)(lines[i]) == Some(shares[i]);
    }
  }

  /** The running total; no `i64` addition on the way overflows. */
  method SumPercents(shares: seq<Share>) returns (total: int)
    requires |shares| <= 100 && forall s :: s in shares ==> 0 < s.percent <= FULL
    ensures total == Total(ShareOfWhole(), shares)
  {
    total := 0;
    for n := 0 to |shares|
      invariant total == Total(ShareOfWhole(), shares[..n])
      invariant 0 <= total <= n * FULL
    {
      assert shares[..n + 1][..n] == shares[..n];
      assert shares[n] in shares;
      total := total + shares[n].percent;
      assert total <= I64_MAX;
    }
    assert shares[..|shares|] == shares;
  }

  method NormalizeLines(lines: seq<Line>, limit: Option<nat>) returns (r: Option<seq<Share>>)
    ensures r == NormalizedLines(lines, limit)
  {
    if |lines| == 0 || |lines| > 100 { return None; }
    var result := ReadLines(ShareReader(limit), ShareKey(), lines);
    if result.None? { return None; }
    SharesBounded(lines, limit);
    var total := SumPercents(result.value);
    if total != FULL { return None; }
    r := Some(SortBy(ShareKey(), result.value));
  }

  /** A product's shares carry bounded names and a product header. */
  function NormalizedShares(productCode: string, materialId: string, lines: seq<Line>): Option<seq<Share>> {
    if Trim(productCode) == "" || |Trim(productCode)| > 160 || |Trim(materialId)| > 128 then None
    else NormalizedLines(lines, Some(80))
  }

  method NormalizeShares(productCode: string, materialId: string, lines: seq<Line>) returns (r: Option<seq<Share>>)
    ensures r == NormalizedShares(productCode, materialId, lines)
    ensures r.Some? ==> Sorted(ShareKey(), r.value) && Total(ShareOfWhole(), r.value) == FULL
  {
    if Trim(productCode) == "" || |Trim(productCode)| > 160 || |Trim(materialId)| > 128 { return None; }
    r := NormalizeLines(lines, Some(80));
    if r.Some? { NormalizedLinesWhole(lines, Some(80)); }
  }

  /** An accepted formula is a strictly sorted permutation of its lines that totals exactly 100%. */
  lemma NormalizedLinesWhole(lines: seq<Line>, limit: Option<nat>)
    requires NormalizedLines(lines, limit).Some?
    ensures var r, all := NormalizedLines(lines, limit).value, ReadAll(ShareReader(limit), lines);
            && Sorted(ShareKey(), r) && all.Some? && multiset(r) == multiset(all.value)
            && Total(ShareOfWhole(), r) == FULL
  {
    var shares := ReadAll(ShareReader(limit), lines).value;
    SortBySorts(ShareKey(), shares);
    TotalSortBy(ShareOfWhole(), ShareKey(), shares);
  }

  /** The shares of a product, exactly: a product code, and lines with bounded names that total 100%;
      what is stored is sorted by name, each name once. */
  lemma NormalizedSharesWhole(productCode: string, materialId: string, lines: seq<Line>)
    ensures var r := NormalizedShares(productCode, materialId, lines);
            var all := ReadDistinct(ShareReader(Some(80)), ShareKey(), lines);
            && (r.Some? <==>
                  && 1 <= |Trim(productCode)| <= 160 && |Trim(materialId)| <= 128 && 1 <= |lines| <= 100
                  && all.Some? && Total(ShareOfWhole(), all.value) == FULL)
            && (r.Some? ==>
                  && Sorted(ShareKey(), r.value) && multiset(r.value) == multiset(all.value)
                  && Total(ShareOfWhole(), r.value) == FULL
                  && forall s :: s in r.value ==> 1 <= |s.code| <= 80 && 0 < s.percent <= FULL)
  {
    var r := NormalizedShares(productCode, materialId, lines);
    if r.Some? {
      NormalizedLinesWhole(lines, Some(80));
      SharesBounded(lines, Some(80));
      SharesNamed(lines, 80);
      SameMembers(r.value, ReadAll(ShareReader(Some(80)), lines).value);
    }
  }

  lemma SharesNamed(lines: seq<Line>, limit: nat)
    requires ReadAll(ShareReader(Some(limit)), lines).Some?
    ensures forall s :: s in ReadAll(ShareReader(Some(limit)), lines).value ==> 1 <= |s.code| <= limit
  {
    var shares := ReadAll(ShareReader(Some(limit)), lines).value;
    forall i | 0 <= i < |shares| ensures 1 <= |shares[i].code| <= limit {
      assert ShareReader(Some(limit))(lines[i]) == Some(shares[i]);
    }
  }

  // ---- What the sorted quantities promise ----

  predicate NearestPortion(p: Portion, order: int) {
    && p.code != "" && Tidy(p.code)
    && 0 < p.percent <= FULL && 0 < p.kg <= order && Nearest(order * p.percent, p.kg)
  }

  lemma PortionNearest(line: Line, order: int, p: Portion)
    requires PortionOf(line, order) == Some(p)
    ensures NearestPortion(p, order)
  {
    TrimTidy(line.itemCode);
    RequiredKgExact(order, p.percent, p.kg);
  }

  lemma PortionsNearest(lines: seq<Line>, order: int)
    requires ReadAll(PortionReader(order), lines).Some?
    ensures forall p :: p in ReadAll(PortionReader(order), lines).value ==> NearestPortion(p, order)
  {
    var portions := ReadAll(PortionReader(order), lines).value;
    forall j | 0 <= j < |portions| ensures NearestPortion(portions[j], order) {
      assert PortionReader(order)(lines[j]) == Some(portions[j]);
      PortionNearest(lines[j], order, portions[j]);
    }
  }

  lemma SameMembers<T>(a: seq<T>, b: seq<T>)
    requires multiset(a) == multiset(b)
    ensures forall x :: x in a <==> x in b
  {
    assert forall x :: x in a <==> x in multiset(a);
    assert forall x :: x in b <==> x in multiset(b);
  }

  /** A strictly sorted permutation of the lines, each one rounded to the nearest unit. */
  lemma QuantitiesSorted(lines: seq<Line>, order: int)
    requires Quantities(lines, order).Some?
    ensures var r, all := Quantities(lines, order).value, ReadAll(PortionReader(order), lines);
            && Sorted(PortionKey(), r) && all.Some? && multiset(r) == multiset(all.value) && |r| == |lines|
            && forall p :: p in r ==> NearestPortion(p, order)
  {
    var portions := ReadAll(PortionReader(order), lines).value;
    SortBySorts(PortionKey(), portions);
    PortionsNearest(lines, order);
    SameMembers(Quantities(lines, order).value, portions);
  }

  lemma NearStep(order: int, percents: int, kgs: int, n: int, percent: int, kg: int)
    requires -n * FULL <= 2 * (order * percents - kgs * FULL) <= n * FULL && Nearest(order * percent, kg)
    ensures -(n + 1) * FULL <= 2 * (order * (percents + percent) - (kgs + kg) * FULL) <= (n + 1) * FULL
  {
    assert order * (percents + percent) == order * percents + order * percent;
  }

  /** The rounding errors of n portions add up to at most n half units. */
  lemma {:induction false} TotalNear(portions: seq<Portion>, order: int)
    requires forall p :: p in portions ==> NearestPortion(p, order)
    ensures var error := order * Total(PercentOf(), portions) - Total(KgOf(), portions) * FULL;
            -|portions| * FULL <= 2 * error <= |portions| * FULL
  {
    if portions != [] {
      var front, last := portions[..|portions| - 1], portions[|portions| - 1];
      TotalNear(front, order);
      assert last in portions;
      NearStep(order, Total(PercentOf(), front), Total(KgOf(), front), |front|, last.percent, last.kg);
    }
  }

  /** The portions of an order come within n/2 units of the order times the total percentage. */
  lemma QuantitiesTotal(lines: seq<Line>, order: int)
    requires Quantities(lines, order).Some?
    ensures var r := Quantities(lines, order).value;
            var error := order * Total(PercentOf(), r) - Total(KgOf(), r) * FULL;
            |r| == |lines| && -|r| * FULL <= 2 * error <= |r| * FULL
  {
    QuantitiesSorted(lines, order);
    TotalNear(Quantities(lines, order).value, order);
  }

  lemma SamePercent(line: Line, order: int, limit: Option<nat>)
    requires PortionReader(order)(line).Some? && ShareReader(limit)(line).Some?
    ensures PercentOf()(PortionReader(order)(line).value) == ShareOfWhole()(ShareReader(limit)(line).value)
  {
  }

  lemma SortedTotal(lines: seq<Line>, order: int)
    requires Quantities(lines, order).Some?
    ensures var portions := ReadAll(PortionReader(order), lines);
            portions.Some? && Total(PercentOf(), Quantities(lines, order).value) == Total(PercentOf(), portions.value)
  {
    TotalSortBy(PercentOf(), PortionKey(), ReadAll(PortionReader(order), lines).value);
  }

  lemma SamePercentages(lines: seq<Line>, order: int, limit: Option<nat>)
    requires ReadAll(PortionReader(order), lines).Some? && ReadAll(ShareReader(limit), lines).Some?
    ensures Total(PercentOf(), ReadAll(PortionReader(order), lines).value)
         == Total(ShareOfWhole(), ReadAll(ShareReader(limit), lines).value)
  {
    var read, other := PortionReader(order), ShareReader(limit);
    forall l | l in lines && read(l).Some? && other(l).Some?
      ensures PercentOf()(read(l).value) == ShareOfWhole()(other(l).value)
    {
      SamePercent(l, order, limit);
    }
    ReadAllTotals(read, other, PercentOf(), ShareOfWhole(), lines);
  }

  lemma FormulaPercentages(lines: seq<Line>, order: int, limit: Option<nat>)
    requires Quantities(lines, order).Some? && NormalizedLines(lines, limit).Some?
    ensures Total(PercentOf(), Quantities(lines, order).value) == FULL
  {
    SortedTotal(lines, order);
    SamePercentages(lines, order, limit);
  }

  lemma WithinHalves(order: int, percent: int, kg: int, n: int)
    requires percent == FULL && -n * FULL <= 2 * (order * percent - kg * FULL) <= n * FULL
    ensures -n <= 2 * (order - kg) <= n
  {
  }

  lemma TotalNearWhole(portions: seq<Portion>, order: int)
    requires (forall p :: p in portions ==> NearestPortion(p, order)) && Total(PercentOf(), portions) == FULL
    ensures -|portions| <= 2 * (order - Total(KgOf(), portions)) <= |portions|
  {
    TotalNear(portions, order);
    WithinHalves(order, Total(PercentOf(), portions), Total(KgOf(), portions), |portions|);
  }

  /** So a formula that totals 100% gives portions within n/2 units of the order itself. */
  lemma WholeFormulaTotal(lines: seq<Line>, order: int, limit: Option<nat>)
    requires Quantities(lines, order).Some? && NormalizedLines(lines, limit).Some?
    ensures var kg := Total(KgOf(), Quantities(lines, order).value);
            -|lines| <= 2 * (order - kg) <= |lines|
  {
    QuantitiesSorted(lines, order);
    FormulaPercentages(lines, order, limit);
    TotalNearWhole(Quantities(lines, order).value, order);
  }

  lemma ReadAllWithout<T>(read: Line -> Option<T>, b: seq<Line>, i: nat)
    requires i < |b| && ReadAll(read, b).Some?
    ensures var y, rest := ReadAll(read, b).value, b[..i] + b[i + 1..];
            ReadAll(read, rest) == Some(y[..i] + y[i + 1..])
  {
    var y, rest := ReadAll(read, b).value, b[..i] + b[i + 1..];
    var z := y[..i] + y[i + 1..];
    assert forall j :: 0 <= j < |rest| ==> read(rest[j]) == Some(z[j]);
    assert ReadAll(read, rest).value == z;
  }

  lemma MembersWithout<T>(y: seq<T>, i: nat)
    requires i < |y|
    ensures multiset(y) == multiset(y[..i] + y[i + 1..]) + multiset{y[i]}
  {
    assert y == y[..i] + [y[i]] + y[i + 1..];
  }

  lemma RemoveLine<T>(read: Line -> Option<T>, b: seq<Line>, i: nat, rest: seq<Line>)
    requires i < |b| && ReadAll(read, b).Some? && rest == b[..i] + b[i + 1..]
    ensures multiset(b) == multiset(rest) + multiset{b[i]}
    ensures read(b[i]).Some? && ReadAll(read, rest).Some?
    ensures multiset(ReadAll(read, b).value) == multiset(ReadAll(read, rest).value) + multiset{read(b[i]).value}
  {
    ReadAllWithout(read, b, i);
    MembersWithout(b, i);
    MembersWithout(ReadAll(read, b).value, i);
  }

  lemma {:induction false} ReadAllPermuted<T>(read: Line -> Option<T>, a: seq<Line>, b: seq<Line>)
    requires multiset(a) == multiset(b) && ReadAll(read, a).Some? && ReadAll(read, b).Some?
    ensures multiset(ReadAll(read, a).value) == multiset(ReadAll(read, b).value)
    decreases |a|
  {
    assert |a| == |multiset(a)| == |multiset(b)| == |b|;
    if a != [] {
      assert a[0] in multiset(b);
      var i :| 0 <= i < |b| && b[i] == a[0];
      var front, rest := a[..0] + a[1..], b[..i] + b[i + 1..];
      RemoveLine(read, a, 0, front);
      RemoveLine(read, b, i, rest);
      CancelMember(multiset(front), multiset(rest), a[0]);
      ReadAllPermuted(read, front, rest);
    }
  }

  lemma DistinctPermuted<T>(key: T -> string, x: seq<T>, y: seq<T>)
    requires multiset(x) == multiset(y) && DistinctKeys(key, x)
    ensures DistinctKeys(key, y)
  {
    forall i, j | 0 <= i < j < |y| ensures key(y[i]) != key(y[j]) {
      if key(y[i]) == key(y[j]) {
        assert y[i] in multiset(x) && y[j] in multiset(x);
        var k :| 0 <= k < |x| && x[k] == y[i];
        var l :| 0 <= l < |x| && x[l] == y[j];
        OccursTwice(y, i, j);
        OccursOnce(key, x, k);
      }
    }
  }

  lemma OccursTwice<T>(y: seq<T>, i: nat, j: nat)
    requires i < j < |y|
    ensures y[i] == y[j] ==> multiset(y)[y[i]] >= 2
  {
    assert y == y[..i] + [y[i]] + y[i + 1..j] + [y[j]] + y[j + 1..];
  }

  lemma OccursOnce<T>(key: T -> string, x: seq<T>, k: nat)
    requires DistinctKeys(key, x) && k < |x|
    ensures multiset(x)[x[k]] == 1
  {
    assert x == x[..k] + [x[k]] + x[k + 1..];
    assert x[k] !in x[..k] && x[k] !in x[k + 1..];
  }

  lemma ReadDistinctPermuted<T>(read: Line -> Option<T>, key: T -> string, a: seq<Line>, b: seq<Line>)
    requires multiset(a) == multiset(b) && ReadDistinct(read, key, a).Some?
    ensures ReadDistinct(read, key, b).Some?
    ensures SortBy(key, ReadDistinct(read, key, a).value) == SortBy(key, ReadDistinct(read, key, b).value)
  {
    forall i | 0 <= i < |b| ensures read(b[i]).Some? {
      assert b[i] in multiset(a);
      var j :| 0 <= j < |a| && a[j] == b[i];
    }
    var x, y := ReadAll(read, a).value, ReadAll(read, b).value;
    ReadAllPermuted(read, a, b);
    DistinctPermuted(key, x, y);
    SortBySorts(key, x);
    SortBySorts(key, y);
    SortedUnique(key, SortBy(key, x), SortBy(key, y));
  }

  /** The result does not depend on the order of the lines: every transaction meets the materials
      in the same order. */
  lemma QuantitiesOrderFree(a: seq<Line>, b: seq<Line>, order: int)
    requires multiset(a) == multiset(b)
    ensures Quantities(a, order) == Quantities(b, order)
  {
    assert |a| == |multiset(a)| == |multiset(b)| == |b|;
    var read, key := PortionReader(order), PortionKey();
    if ReadDistinct(read, key, a).Some? { ReadDistinctPermuted(read, key, a, b); }
    if ReadDistinct(read, key, b).Some? { ReadDistinctPermuted(read, key, b, a); }
  }
}
