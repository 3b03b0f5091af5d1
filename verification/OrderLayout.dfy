/** The printing layout of an order: product blocks, their lanes and consecutive lane groups.
    Widths are real numbers. */
module OrderLayout {
  import opened Text
  import opened Numerals

  const I64_MAX := 0x7FFF_FFFF_FFFF_FFFF

  datatype Product = Product(id: string, itemCode: string, product: string, frameProductSizeMm: real, frameCount: int)
  datatype Lane = Lane(id: string, productId: string, orderNumber: string, itemCode: string, product: string,
                       widthMm: real)

  // ---- Validation ----

  predicate IdChar(c: char) {
    'a' <= c <= 'z' || 'A' <= c <= 'Z' || IsDigit(c) || c == '-' || c == '_'
  }

  predicate ProductNamed(p: Product) {
    && p.id != "" && Utf8Len(p.id) <= 100 && (forall i :: 0 <= i < |p.id| ==> IdChar(p.id[i]))
    && Trim(p.itemCode) != "" && Trim(p.product) != ""
  }

  predicate ProductMeasured(p: Product) {
    p.frameProductSizeMm > 0.0 && 1 <= p.frameCount <= 1024
  }

  function Frames(products: seq<Product>): int {
    if products == [] then 0 else Frames(products[..|products| - 1]) + products[|products| - 1].frameCount
  }

  predicate DistinctIds(products: seq<Product>) {
    forall i, j :: 0 <= i < j < |products| ==> products[i].id != products[j].id
  }

  predicate ValidWith(named: Product -> bool, products: seq<Product>) {
    && |products| <= 64 && DistinctIds(products)
    && (forall i :: 0 <= i < |products| ==> named(products[i]) && ProductMeasured(products[i]))
    && Frames(products) <= 1024
  }

  predicate Valid(products: seq<Product>) {
    ValidWith(ProductNamed, products)
  }

  /** The loop with the set of ids and the running frame count. */
  method CheckProducts(named: Product -> bool, products: seq<Product>) returns (ok: bool)
    ensures ok <==> ValidWith(named, products)
  {
    if |products| > 64 { return false; }
    var ids: set<string> := {};
    var frames := 0;
    for n := 0 to |products|
      invariant forall id :: id in ids <==> exists i :: 0 <= i < n && products[i].id == id
      invariant DistinctIds(products[..n])
      invariant forall i :: 0 <= i < n ==> named(products[i]) && ProductMeasured(products[i])
      invariant frames == Frames(products[..n]) && 0 <= frames <= n * 1024
    {
      var p := products[n];
      assert products[..n + 1][..n] == products[..n];
      if !named(p) || p.id in ids { return false; }
      if !ProductMeasured(p) { return false; }
      ids := ids + {p.id};
      frames := frames + p.frameCount;
      assert frames <= I64_MAX;
    }
    assert products[..|products|] == products;
    ok := frames <= 1024;
  }

  method ValidateProducts(products: seq<Product>) returns (ok: bool)
    ensures ok <==> Valid(products)
  {
    ok := CheckProducts(ProductNamed, products);
  }

  // ---- Lanes ----

  function SaturatingAdd(a: int, b: int): int {
    if a + b > I64_MAX then I64_MAX else if a + b < -I64_MAX - 1 then -I64_MAX - 1 else a + b
  }

  function FrameCount(products: seq<Product>): int {
    if products == [] then 0
    else SaturatingAdd(FrameCount(products[..|products| - 1]), products[|products| - 1].frameCount)
  }

  function UsefulWidth(products: seq<Product>): real {
    if products == [] then 0.0
    else
      var p := products[|products| - 1];
      UsefulWidth(products[..|products| - 1]) + p.frameProductSizeMm * p.frameCount as real
  }

  function LaneOf(p: Product, index: nat, frame: nat, orderId: string, orderNumber: string): Lane {
    Lane(p.id + ":" + Print(frame + 1), orderId + ":product:" + p.id, orderNumber + "/" + Print(index + 1),
         p.itemCode, p.product, p.frameProductSizeMm)
  }

  /** The first lanes of a product. */
  function ProductLanes(p: Product, index: nat, count: int, orderId: string, orderNumber: string): seq<Lane> {
    if count <= 0 then []
    else ProductLanes(p, index, count - 1, orderId, orderNumber) + [LaneOf(p, index, count - 1, orderId, orderNumber)]
  }

  function Lanes(products: seq<Product>, orderId: string, orderNumber: string): seq<Lane> {
    if products == [] then []
    else
      var n := |products| - 1;
      Lanes(products[..n], orderId, orderNumber)
      + ProductLanes(products[n], n, products[n].frameCount, orderId, orderNumber)
  }

  function TotalWidth(widths: seq<real>): real {
    if widths == [] then 0.0 else TotalWidth(widths[..|widths| - 1]) + widths[|widths| - 1]
  }

  function Widths(lanes: seq<Lane>): (r: seq<real>)
    ensures |r| == |lanes| && forall i :: 0 <= i < |lanes| ==> r[i] == lanes[i].widthMm
  {
    seq(|lanes|, i requires 0 <= i < |lanes| => lanes[i].widthMm)
  }

  lemma {:induction false} TotalWidthConcat(a: seq<real>, b: seq<real>)
    ensures TotalWidth(a + b) == TotalWidth(a) + TotalWidth(b)
  {
    if b == [] {
      assert a + b == a;
    } else {
      assert (a + b)[..|a + b| - 1] == a + b[..|b| - 1];
      TotalWidthConcat(a, b[..|b| - 1]);
    }
  }

  function LanesTotal(lanes: seq<Lane>): real { TotalWidth(Widths(lanes)) }

  lemma LanesTotalConcat(a: seq<Lane>, b: seq<Lane>)
    ensures LanesTotal(a + b) == LanesTotal(a) + LanesTotal(b)
  {
    assert Widths(a + b) == Widths(a) + Widths(b);
    TotalWidthConcat(Widths(a), Widths(b));
  }

  lemma {:induction false} ProductLanesShape(p: Product, index: nat, count: nat, orderId: string, orderNumber: string)
    ensures var lanes := ProductLanes(p, index, count, orderId, orderNumber);
            |lanes| == count && forall k :: 0 <= k < count ==> lanes[k] == LaneOf(p, index, k, orderId, orderNumber)
  {
    if count > 0 { ProductLanesShape(p, index, count - 1, orderId, orderNumber); }
  }

  /** A width added up n times. */
  function Times(width: real, n: nat): real {
    if n == 0 then 0.0 else Times(width, n - 1) + width
  }

  lemma {:induction false} TimesIsProduct(width: real, n: nat)
    ensures Times(width, n) == width * n as real
  {
    if n > 0 {
      TimesIsProduct(width, n - 1);
      assert width * (n - 1) as real + width == width * n as real;
    }
  }

  lemma {:induction false} ProductLanesWidth(p: Product, index: nat, count: nat, orderId: string, orderNumber: string)
    ensures LanesTotal(ProductLanes(p, index, count, orderId, orderNumber)) == Times(p.frameProductSizeMm, count)
  {
    if count > 0 {
      ProductLanesWidth(p, index, count - 1, orderId, orderNumber);
      var front := ProductLanes(p, index, count - 1, orderId, orderNumber);
      var all := ProductLanes(p, index, count, orderId, orderNumber);
      assert Widths(all)[..|front|] == Widths(front);
    }
  }

  lemma {:induction false} LanesCount(products: seq<Product>, orderId: string, orderNumber: string)
    requires forall i :: 0 <= i < |products| ==> products[i].frameCount > 0
    ensures |Lanes(products, orderId, orderNumber)| == Frames(products)
    ensures Frames(products) <= 1024 ==> FrameCount(products) == Frames(products)
  {
    if products != [] {
      var n := |products| - 1;
      LanesCount(products[..n], orderId, orderNumber);
      ProductLanesShape(products[n], n, products[n].frameCount, orderId, orderNumber);
    }
  }

  lemma LanesWidthStep(products: seq<Product>, orderId: string, orderNumber: string)
    requires products != [] && products[|products| - 1].frameCount > 0
    ensures var n, p := |products| - 1, products[|products| - 1];
            LanesTotal(Lanes(products, orderId, orderNumber))
            == LanesTotal(Lanes(products[..n], orderId, orderNumber)) + Times(p.frameProductSizeMm, p.frameCount)
  {
    var n := |products| - 1;
    var front := Lanes(products[..n], orderId, orderNumber);
    var last := ProductLanes(products[n], n, products[n].frameCount, orderId, orderNumber);
    ProductLanesWidth(products[n], n, products[n].frameCount, orderId, orderNumber);
    LanesTotalConcat(front, last);
  }

  /** The useful width with each multiplication written as a repeated addition. */
  function AddedWidth(products: seq<Product>): real
    requires forall i :: 0 <= i < |products| ==> products[i].frameCount > 0
  {
    if products == [] then 0.0
    else
      var p := products[|products| - 1];
      AddedWidth(products[..|products| - 1]) + Times(p.frameProductSizeMm, p.frameCount)
  }

  lemma {:induction false} UsefulIsAdded(products: seq<Product>)
    requires forall i :: 0 <= i < |products| ==> products[i].frameCount > 0
    ensures UsefulWidth(products) == AddedWidth(products)
  {
    if products != [] {
      var p := products[|products| - 1];
      UsefulIsAdded(products[..|products| - 1]);
      TimesIsProduct(p.frameProductSizeMm, p.frameCount);
    }
  }

  lemma {:induction false} LanesWidth(products: seq<Product>, orderId: string, orderNumber: string)
    requires forall i :: 0 <= i < |products| ==> products[i].frameCount > 0
    ensures LanesTotal(Lanes(products, orderId, orderNumber)) == AddedWidth(products)
  {
    if products != [] {
      LanesWidth(products[..|products| - 1], orderId, orderNumber);
      LanesWidthStep(products, orderId, orderNumber);
    }
  }

  /** There is one lane per frame and their widths add up to the useful width. */
  lemma LanesPartition(products: seq<Product>, orderId: string, orderNumber: string)
    requires Valid(products)
    ensures var lanes := Lanes(products, orderId, orderNumber);
            |lanes| == FrameCount(products) == Frames(products) && LanesTotal(lanes) == UsefulWidth(products)
  {
    assert forall i :: 0 <= i < |products| ==> ProductMeasured(products[i]);
    LanesCount(products, orderId, orderNumber);
    LanesWidth(products, orderId, orderNumber);
    UsefulIsAdded(products);
  }

  /** Every lane is a numbered frame of one of the products. */
  predicate LaneFrom(lane: Lane, p: Product, frame: nat) {
    lane.id == p.id + ":" + Print(frame + 1)
  }

  lemma {:induction false} LanesOrigin(products: seq<Product>, orderId: string, orderNumber: string, k: nat)
    returns (i: nat, frame: nat)
    requires k < |Lanes(products, orderId, orderNumber)|
    ensures i < |products| && LaneFrom(Lanes(products, orderId, orderNumber)[k], products[i], frame)
    ensures k == |Lanes(products[..i], orderId, orderNumber)| + frame
  {
    var n := |products| - 1;
    var front := Lanes(products[..n], orderId, orderNumber);
    if k < |front| {
      i, frame := LanesOrigin(products[..n], orderId, orderNumber, k);
      assert products[..n][..i] == products[..i];
    } else {
      ProductLanesShape(products[n], n, products[n].frameCount, orderId, orderNumber);
      i, frame := n, k - |front|;
    }
  }

  lemma IdApart(a: string, m: nat, b: string, n: nat)
    requires Free(a, {':'}) && Free(b, {':'}) && a + ":" + Print(m) == b + ":" + Print(n)
    ensures a == b && m == n
  {
    SplitOnceAt(a, ':', Print(m));
    SplitOnceAt(b, ':', Print(n));
    ValuePrint(m);
    ValuePrint(n);
  }

  lemma NamedFree(p: Product)
    requires ProductNamed(p)
    ensures Free(p.id, {':'})
  {
  }

  /** No two lanes of a valid layout have the same id. */
  lemma LaneIdsDistinct(products: seq<Product>, orderId: string, orderNumber: string, k: nat, l: nat)
    requires Valid(products) && k < l < |Lanes(products, orderId, orderNumber)|
    ensures Lanes(products, orderId, orderNumber)[k].id != Lanes(products, orderId, orderNumber)[l].id
  {
    var lanes := Lanes(products, orderId, orderNumber);
    var i, f := LanesOrigin(products, orderId, orderNumber, k);
    var j, g := LanesOrigin(products, orderId, orderNumber, l);
    var p, q := products[i], products[j];
    NamedFree(p);
    NamedFree(q);
    if lanes[k].id == lanes[l].id { IdApart(p.id, f + 1, q.id, g + 1); }
  }

  // ---- Groups of consecutive lanes ----

  function Sum(counts: seq<int>): int {
    if counts == [] then 0 else Sum(counts[..|counts| - 1]) + counts[|counts| - 1]
  }

  /** An empty list stands for one group per lane. */
  function Counts(lanes: seq<real>, groups: seq<int>): seq<int> {
    if groups == [] then seq(|lanes|, _ => 1) else groups
  }

  predicate Positive(counts: seq<int>) {
    forall i :: 0 <= i < |counts| ==> counts[i] > 0
  }

  /** Group i is as wide as the lanes after those of the groups before it. */
  predicate GroupAt(lanes: seq<real>, counts: seq<int>, i: nat, width: real)
    requires i < |counts|
  {
    var start, end := Sum(counts[..i]), Sum(counts[..i + 1]);
    0 <= start <= end <= |lanes| && width == TotalWidth(lanes[start..end])
  }

  predicate Grouped(lanes: seq<real>, counts: seq<int>, widths: seq<real>) {
    |widths| == |counts| && forall i :: 0 <= i < |counts| ==> GroupAt(lanes, counts, i, widths[i])
  }

  lemma {:induction false} SumOnes(n: nat)
    ensures Sum(seq(n, _ => 1)) == n
  {
    if n > 0 {
      assert seq(n, _ => 1)[..n - 1] == seq(n - 1, _ => 1);
      SumOnes(n - 1);
    }
  }

  lemma {:induction false} SumPrefix(counts: seq<int>, n: nat)
    requires n <= |counts| && Positive(counts)
    ensures Sum(counts[..n]) <= Sum(counts)
  {
    if n < |counts| {
      SumPrefix(counts[..|counts| - 1], n);
      assert counts[..|counts| - 1][..n] == counts[..n];
    } else {
      assert counts[..n] == counts;
    }
  }

  lemma GroupedMore(lanes: seq<real>, counts: seq<int>, widths: seq<real>, count: int, width: real)
    requires Grouped(lanes, counts, widths)
    requires GroupAt(lanes, counts + [count], |counts|, width)
    ensures Grouped(lanes, counts + [count], widths + [width])
  {
    var more, wider := counts + [count], widths + [width];
    forall i | 0 <= i < |more| ensures GroupAt(lanes, more, i, wider[i]) {
      if i < |counts| {
        assert GroupAt(lanes, counts, i, widths[i]);
        assert more[..i] == counts[..i] && more[..i + 1] == counts[..i + 1];
      }
    }
  }

  /** The first groups have consumed the first lanes. */
  predicate Progress(lanes: seq<real>, counts: seq<int>, widths: seq<real>, offset: nat) {
    && offset == Sum(counts) && offset <= |lanes| && Positive(counts) && Grouped(lanes, counts, widths)
    && TotalWidth(widths) == TotalWidth(lanes[..offset])
  }

  lemma ProgressMore(lanes: seq<real>, counts: seq<int>, widths: seq<real>, offset: nat, count: int)
    requires Progress(lanes, counts, widths, offset) && count > 0 && offset + count <= |lanes|
    ensures Progress(lanes, counts + [count], widths + [TotalWidth(lanes[offset..offset + count])], offset + count)
  {
    var end := offset + count;
    var more, width := counts + [count], TotalWidth(lanes[offset..end]);
    assert more[..|counts|] == counts && more[..|counts| + 1] == more;
    GroupedMore(lanes, counts, widths, count, width);
    assert lanes[..end] == lanes[..offset] + lanes[offset..end];
    TotalWidthConcat(lanes[..offset], lanes[offset..end]);
    assert (widths + [width])[..|widths|] == widths;
  }

  /** The lanes are consumed group by group. */
  method GroupConsecutive(lanes: seq<real>, counts: seq<int>) returns (r: Option<seq<real>>)
    ensures r.Some? <==> Positive(counts) && Sum(counts) == |lanes|
    ensures r.Some? ==> Grouped(lanes, counts, r.value) && TotalWidth(r.value) == TotalWidth(lanes)
  {
    var offset := 0;
    var widths: seq<real> := [];
    for n := 0 to |counts|
      invariant 0 <= offset <= |lanes| && Progress(lanes, counts[..n], widths, offset)
    {
      var count := counts[n];
      assert counts[..n + 1] == counts[..n] + [count] && counts[..n + 1][..n] == counts[..n];
      if count <= 0 { return None; }
      var end := offset + count;
      if end > |lanes| {
        if Positive(counts) { SumPrefix(counts, n + 1); }
        return None;
      }
      ProgressMore(lanes, counts[..n], widths, offset, count);
      widths := widths + [TotalWidth(lanes[offset..end])];
      offset := end;
    }
    assert counts[..|counts|] == counts;
    if offset != |lanes| { return None; }
    assert lanes[..offset] == lanes;
    r := Some(widths);
  }

  /** Exactly the positive group sizes that use up the lanes are accepted, or no groups at all. */
  method GroupWidths(lanes: seq<real>, groups: seq<int>) returns (r: Option<seq<real>>)
    ensures r.Some? <==> groups == [] || (Positive(groups) && Sum(groups) == |lanes|)
    ensures r.Some? ==> Grouped(lanes, Counts(lanes, groups), r.value)
    ensures r.Some? ==> TotalWidth(r.value) == TotalWidth(lanes)
  {
    SumOnes(|lanes|);
    r := GroupConsecutive(lanes, Counts(lanes, groups));
  }
}
