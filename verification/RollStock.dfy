/** The raw-material roll stock as a protocol: every transaction of the receipt store is one atomic
    step over its tables, and any number of clients interleave them. */
module RollStock {
  import Sets
  import opened Text

  datatype Status = Available | InUse | Consumed | Deleted

  datatype Roll = Roll(barcode: string, warehouse: string, itemCode: string, itemName: string, qty: int,
                       status: Status, reserved: string, source: string)

  datatype Receipt = Receipt(barcode: string, draft: bool, itemCode: string, itemName: string, warehouse: string,
                             qty: int, assignment: bool)

  /** Stock rows under their lower-cased barcode, receipts under their name, and the barcodes that
      are assigned to orders. */
  datatype Store = Store(stock: map<string, Roll>, receipts: map<string, Receipt>, assignments: set<string>)

  const EMPTY := Store(map[], map[], {})

  /** A draft request. `qty` is absent when the quantity is not a positive one. */
  datatype Draft = Draft(barcode: string, itemCode: string, itemName: string, warehouse: string, qty: Option<int>,
                         lengthOk: bool, assignment: bool)

  datatype Step =
    | InsertDraft(draft: Draft)
    | Submit(name: string)
    | Update(barcode: string, itemCode: string, itemName: string, qty: Option<int>)
    | SoftDelete(barcode: string, warehouse: string, transferId: string, placement: Option<string>)
    | MarkInUse(barcodes: seq<string>, orderId: string)
    | MarkConsumed(barcodes: seq<string>, orderId: string)
    | DeleteDraft(name: string)
    | Reassign(assignments: set<string>)

  // ---- Keys ----

  function StockKey(barcode: string): string { Lower(Trim(barcode)) }

  function UpperChar(c: char): char { if 'a' <= c <= 'z' then (c as int - 32) as char else c }

  function Upper(s: string): string { seq(|s|, i requires 0 <= i < |s| => UpperChar(s[i])) }

  function ReceiptName(barcode: string): string { "GSR-" + Upper(Trim(barcode)) }

  /** `normalized_unique_barcodes`. */
  function Keys(barcodes: seq<string>): set<string> {
    set b | b in barcodes && StockKey(b) != "" :: StockKey(b)
  }

  /** Assignments are unique by lower-cased barcode. */
  predicate IsAssigned(s: Store, barcode: string) {
    exists b :: b in s.assignments && Lower(b) == Lower(barcode)
  }

  // ---- The transactions; none means the transaction failed and was rolled back ----

  /** The insert of a draft. The check that the roll was not deleted is a statement of its own, before it. */
  function AfterInsertDraft(s: Store, d: Draft): Option<Store> {
    var barcode, itemCode, warehouse := Trim(d.barcode), Trim(d.itemCode), Trim(d.warehouse);
    var name := ReceiptName(barcode);
    if itemCode == "" || warehouse == "" || barcode == "" || d.qty.None? || !d.lengthOk then None
    else if name in s.receipts && s.receipts[name].barcode != barcode then None
    else
      var receipt := Receipt(barcode, true, itemCode, Trim(d.itemName), warehouse, d.qty.value, d.assignment);
      Some(s.(receipts := s.receipts[name := receipt]))
  }

  /** The row a receipt is submitted as: available, without a reservation. */
  function Fresh(name: string, r: Receipt): Roll {
    Roll(Trim(r.barcode), Trim(r.warehouse), Trim(r.itemCode),
         if r.itemName == "" then Trim(r.itemCode) else r.itemName, r.qty, Available, "", name)
  }

  function AfterSubmit(s: Store, name: string): Option<Store> {
    var n := Trim(name);
    if n !in s.receipts || !s.receipts[n].draft then None
    else
      var r := s.receipts[n];
      var key := StockKey(r.barcode);
      if key in s.stock && (s.stock[key].barcode != Trim(r.barcode) || s.stock[key].status == Deleted) then None
      else if r.assignment && IsAssigned(s, r.barcode) then None
      else Some(Store(s.stock[key := Fresh(n, r)], s.receipts[n := r.(draft := false)],
                      if r.assignment then s.assignments + {r.barcode} else s.assignments))
  }

  /** Free to be corrected or deleted. */
  predicate Unlocked(s: Store, barcode: string)
    requires StockKey(barcode) in s.stock
  {
    var roll := s.stock[StockKey(barcode)];
    roll.status == Available && Trim(roll.reserved) == "" && !IsAssigned(s, Trim(barcode))
  }

  /** The receipt behind a corrected roll is corrected with it. */
  predicate Behind(r: Receipt, name: string, key: string, source: string) {
    Lower(r.barcode) == key && (Trim(source) == "" || name == Trim(source))
  }

  function Corrected(receipts: map<string, Receipt>, key: string, source: string,
                     itemCode: string, itemName: string, qty: int): map<string, Receipt> {
    map n | n in receipts ::
      if Behind(receipts[n], n, key, source)
      then receipts[n].(itemCode := itemCode, itemName := itemName, qty := qty) else receipts[n]
  }

  function AfterUpdate(s: Store, barcode: string, itemCode: string, itemName: string, qty: Option<int>): Option<Store> {
    var key := StockKey(barcode);
    if qty.None? || Trim(barcode) == "" || Trim(itemCode) == "" || Trim(itemName) == "" then None
    else if key !in s.stock || !Unlocked(s, barcode) then None
    else
      var roll := s.stock[key];
      Some(s.(stock := s.stock[key := roll.(itemCode := Trim(itemCode), itemName := Trim(itemName), qty := qty.value)],
              receipts := Corrected(s.receipts, key, roll.source, Trim(itemCode), Trim(itemName), qty.value)))
  }

  function AfterSoftDelete(s: Store, barcode: string, warehouse: string, transferId: string, placement: Option<string>)
    : Option<Store>
  {
    var key := StockKey(barcode);
    if Trim(barcode) == "" || Trim(warehouse) == "" || key !in s.stock || s.stock[key].status == Deleted then None
    else if !SameIgnoringCase(Trim(s.stock[key].warehouse), Trim(warehouse)) || !Unlocked(s, barcode) then None
    else if Trim(transferId) != "" then None
    else if placement.Some? && !SameIgnoringCase(placement.value, Trim(warehouse)) then None
    else Some(s.(stock := s.stock[key := s.stock[key].(status := Deleted, reserved := "")]))
  }

  /** A batch update: the rows that qualify get the change. */
  function Changed(stock: map<string, Roll>, keys: set<string>, may: Roll -> bool, change: Roll -> Roll)
    : map<string, Roll>
  {
    map k | k in stock :: if k in keys && may(stock[k]) then change(stock[k]) else stock[k]
  }

  /** The batch goes through if every barcode names a row that qualifies. */
  function AfterMark(s: Store, barcodes: seq<string>, orderId: string, may: Roll -> bool, change: Roll -> Roll)
    : Option<Store>
  {
    var keys := Keys(barcodes);
    if keys == {} then Some(s)
    else if Trim(orderId) == "" then None
    else if forall k :: k in keys ==> k in s.stock && may(s.stock[k])
    then Some(s.(stock := Changed(s.stock, keys, may, change))) else None
  }

  function MayUse(order: string): Roll -> bool {
    (r: Roll) => r.status == Available || (r.status == InUse && r.reserved == order)
  }
  function Use(order: string): Roll -> Roll {
    (r: Roll) => r.(status := InUse, reserved := order)
  }
  function MayConsume(order: string): Roll -> bool {
    (r: Roll) => r.reserved == order && (r.status == InUse || r.status == Consumed)
  }
  function Consume(): Roll -> Roll {
    (r: Roll) => r.(status := Consumed)
  }

  function AfterDeleteDraft(s: Store, name: string): Store {
    var n := Trim(name);
    if n in s.receipts && s.receipts[n].draft then s.(receipts := s.receipts - {n}) else s
  }

  function Attempt(s: Store, step: Step): Option<Store> {
    match step
    case InsertDraft(d) => AfterInsertDraft(s, d)
    case Submit(name) => AfterSubmit(s, name)
    case Update(barcode, itemCode, itemName, qty) => AfterUpdate(s, barcode, itemCode, itemName, qty)
    case SoftDelete(barcode, warehouse, transferId, placement) =>
      AfterSoftDelete(s, barcode, warehouse, transferId, placement)
    case MarkInUse(barcodes, orderId) => AfterMark(s, barcodes, orderId, MayUse(Trim(orderId)), Use(Trim(orderId)))
    case MarkConsumed(barcodes, orderId) => AfterMark(s, barcodes, orderId, MayConsume(Trim(orderId)), Consume())
    case DeleteDraft(name) => Some(AfterDeleteDraft(s, name))
    case Reassign(assignments) => Some(s.(assignments := assignments))
  }

  /** A failed transaction leaves the store as it was. */
  function Apply(s: Store, step: Step): Store {
    var after := Attempt(s, step);
    if after.Some? then after.value else s
  }

  // ---- What each transaction may do to one roll ----

  /** The submit of a receipt for this very roll. */
  predicate Resubmits(s: Store, step: Step, key: string) {
    && step.Submit? && Trim(step.name) in s.receipts && s.receipts[Trim(step.name)].draft
    && StockKey(s.receipts[Trim(step.name)].barcode) == key
  }

  /** Such a submit that goes through: the spelling is that of the row, the row is not deleted, and no
      assignment is in the way. */
  predicate Releases(s: Store, step: Step, key: string) {
    && Resubmits(s, step, key)
    && var r := s.receipts[Trim(step.name)];
       && (key in s.stock ==> s.stock[key].barcode == Trim(r.barcode) && s.stock[key].status != Deleted)
       && !(r.assignment && IsAssigned(s, r.barcode))
  }

  /** The legal changes of a row, and the steps that make them. */
  predicate RowChange(s: Store, step: Step, key: string, before: Option<Roll>, after: Roll) {
    || before == Some(after)
    || (&& Resubmits(s, step, key) && after.status == Available && after.reserved == ""
        && (before.Some? ==> before.value.status != Deleted && before.value.barcode == after.barcode))
    || (&& before.Some?
        && var b := before.value;
           || (&& b.status == Available
               && after == b.(itemCode := after.itemCode, itemName := after.itemName, qty := after.qty))
           || (b.status == Available && after == b.(status := Deleted, reserved := ""))
           || (&& step.MarkInUse? && key in Keys(step.barcodes) && MayUse(Trim(step.orderId))(b)
               && Trim(step.orderId) != "" && after == Use(Trim(step.orderId))(b))
           || (&& step.MarkConsumed? && key in Keys(step.barcodes) && MayConsume(Trim(step.orderId))(b)
               && Trim(step.orderId) != "" && after == Consume()(b)))
  }

  function RowAt(s: Store, key: string): Option<Roll> {
    if key in s.stock then Some(s.stock[key]) else None
  }

  /** Every transaction changes a row in one of the legal ways only, and never removes one. */
  lemma RowChanges(s: Store, step: Step, key: string)
    ensures key in s.stock ==> key in Apply(s, step).stock
    ensures key in Apply(s, step).stock ==> RowChange(s, step, key, RowAt(s, key), Apply(s, step).stock[key])
  {
  }

  // ---- Every run ----

  predicate Follows(stores: seq<Store>, steps: seq<Step>, i: nat)
    requires |stores| == |steps| + 1 && i < |steps|
  {
    stores[i + 1] == Apply(stores[i], steps[i])
  }

  /** A run from empty tables: the stores between the steps. */
  predicate Run(stores: seq<Store>, steps: seq<Step>) {
    && |stores| == |steps| + 1 && stores[0] == EMPTY
    && forall i {:trigger Follows(stores, steps, i)} :: 0 <= i < |steps| ==> Follows(stores, steps, i)
  }

  predicate RollOk(key: string, r: Roll) {
    && key == StockKey(r.barcode) && key != ""
    && (r.reserved != "" <==> r.status == InUse || r.status == Consumed)
  }

  predicate ReceiptOk(name: string, r: Receipt) {
    name == ReceiptName(r.barcode) && r.barcode != "" && Trim(r.barcode) == r.barcode
  }

  predicate Inv(s: Store) {
    && (forall k :: k in s.stock ==> RollOk(k, s.stock[k]))
    && (forall n :: n in s.receipts ==> ReceiptOk(n, s.receipts[n]))
  }

  lemma KeyNonEmpty(barcode: string)
    requires Trim(barcode) == barcode != ""
    ensures StockKey(barcode) != ""
  {
  }

  lemma ReceiptsKept(s: Store, step: Step)
    requires Inv(s)
    ensures forall n :: n in Apply(s, step).receipts ==> ReceiptOk(n, Apply(s, step).receipts[n])
  {
    if step.InsertDraft? {
      TrimTidy(step.draft.barcode);
    }
  }

  lemma RollsKept(s: Store, step: Step, key: string)
    requires Inv(s) && key in Apply(s, step).stock
    ensures RollOk(key, Apply(s, step).stock[key])
  {
    RowChanges(s, step, key);
    if key in s.stock { assert RollOk(key, s.stock[key]); }
    if Resubmits(s, step, key) {
      var r := s.receipts[Trim(step.name)];
      assert ReceiptOk(Trim(step.name), r);
      KeyNonEmpty(r.barcode);
    }
  }

  lemma InvKept(s: Store, step: Step)
    requires Inv(s)
    ensures Inv(Apply(s, step))
  {
    ReceiptsKept(s, step);
    forall key | key in Apply(s, step).stock ensures RollOk(key, Apply(s, step).stock[key]) {
      RollsKept(s, step, key);
    }
  }

  /** In every reachable state a roll is reserved exactly while it is in use or consumed. */
  lemma {:induction false} ReservedExactly(stores: seq<Store>, steps: seq<Step>, n: nat)
    requires Run(stores, steps) && n < |stores|
    ensures Inv(stores[n])
  {
    if n > 0 {
      ReservedExactly(stores, steps, n - 1);
      assert Follows(stores, steps, n - 1);
      InvKept(stores[n - 1], steps[n - 1]);
    }
  }

  /** What one step of a run may do to a row. */
  lemma RunChanges(stores: seq<Store>, steps: seq<Step>, i: nat, key: string)
    requires Run(stores, steps) && i < |steps|
    ensures key in stores[i].stock ==> key in stores[i + 1].stock
    ensures key in stores[i + 1].stock ==>
              RowChange(stores[i], steps[i], key, RowAt(stores[i], key), stores[i + 1].stock[key])
  {
    assert Follows(stores, steps, i);
    RowChanges(stores[i], steps[i], key);
  }

  /** A roll never disappears, and a deleted one never changes again: not even when the delete lands
      between a draft and its submit. */
  lemma {:induction false} DeletedForGood(stores: seq<Store>, steps: seq<Step>, i: nat, j: nat, key: string)
    requires Run(stores, steps) && i <= j < |stores| && key in stores[i].stock
    ensures key in stores[j].stock
    ensures stores[i].stock[key].status == Deleted ==> stores[j].stock[key] == stores[i].stock[key]
  {
    if i < j {
      DeletedForGood(stores, steps, i, j - 1, key);
      RunChanges(stores, steps, j - 1, key);
    }
  }

  /** A roll that is not available becomes so exactly by a submit that goes through. */
  lemma BecomesAvailable(s: Store, step: Step, key: string)
    requires key !in s.stock || s.stock[key].status != Available
    ensures key in Apply(s, step).stock && Apply(s, step).stock[key].status == Available <==> Releases(s, step, key)
  {
    RowChanges(s, step, key);
    if step.Submit? { assert Attempt(s, step) == AfterSubmit(s, step.name); }
  }

  /** A reservation changes exactly by a submit that goes through, and then it is gone. */
  lemma ReservationChanges(s: Store, step: Step, key: string)
    requires Inv(s) && key in s.stock && s.stock[key].reserved != ""
    ensures key in Apply(s, step).stock
    ensures Apply(s, step).stock[key].reserved != s.stock[key].reserved <==> Releases(s, step, key)
    ensures Releases(s, step, key) ==>
              Apply(s, step).stock[key].status == Available && Apply(s, step).stock[key].reserved == ""
  {
    assert RollOk(key, s.stock[key]);
    RowChanges(s, step, key);
    if step.Submit? { assert Attempt(s, step) == AfterSubmit(s, step.name); }
  }

  /** Along every run, a submit that goes through, and nothing else, makes a roll available, whoever
      holds or has consumed it. */
  lemma OnlySubmitReleases(stores: seq<Store>, steps: seq<Step>, i: nat, key: string)
    requires Run(stores, steps) && i < |steps|
    requires key !in stores[i].stock || stores[i].stock[key].status != Available
    ensures key in stores[i + 1].stock && stores[i + 1].stock[key].status == Available <==>
            Releases(stores[i], steps[i], key)
  {
    assert Follows(stores, steps, i);
    BecomesAvailable(stores[i], steps[i], key);
  }

  /** Along every run, a reservation is kept until a submit goes through: no other order takes it over. */
  lemma ReservationHolds(stores: seq<Store>, steps: seq<Step>, i: nat, key: string)
    requires Run(stores, steps) && i < |steps| && key in stores[i].stock && stores[i].stock[key].reserved != ""
    ensures key in stores[i + 1].stock
    ensures stores[i + 1].stock[key].reserved != stores[i].stock[key].reserved <==> Releases(stores[i], steps[i], key)
  {
    ReservedExactly(stores, steps, i);
    assert Follows(stores, steps, i);
    ReservationChanges(stores[i], steps[i], key);
  }

  /** The step that took the roll for its order. */
  predicate Takes(step: Step, key: string, order: string) {
    step.MarkInUse? && key in Keys(step.barcodes) && Trim(step.orderId) == order
  }

  predicate Holds(s: Store, key: string, order: string) {
    key in s.stock && s.stock[key].reserved == order
  }

  predicate HeldSince(stores: seq<Store>, m: nat, n: nat, key: string, order: string)
    requires n < |stores|
  {
    forall j :: m < j <= n ==> Holds(stores[j], key, order)
  }

  lemma Gains(stores: seq<Store>, steps: seq<Step>, i: nat, key: string, order: string)
    requires Run(stores, steps) && i < |steps| && order != "" && Holds(stores[i + 1], key, order)
    ensures Holds(stores[i], key, order) || Takes(steps[i], key, order)
  {
    RunChanges(stores, steps, i, key);
  }

  /** Whatever order a roll is reserved for took it itself at some step, and has held it since. */
  lemma {:induction false} HolderTookIt(stores: seq<Store>, steps: seq<Step>, n: nat, key: string, order: string)
    returns (m: nat)
    requires Run(stores, steps) && n < |stores| && order != "" && Holds(stores[n], key, order)
    ensures m < n && Takes(steps[m], key, order) && HeldSince(stores, m, n, key, order)
  {
    assert n > 0;
    Gains(stores, steps, n - 1, key, order);
    if Holds(stores[n - 1], key, order) {
      m := HolderTookIt(stores, steps, n - 1, key, order);
    } else {
      m := n - 1;
    }
  }

  /** A roll is consumed only by the order that took it and still held it. */
  lemma ConsumedByHolder(stores: seq<Store>, steps: seq<Step>, i: nat, key: string) returns (m: nat)
    requires Run(stores, steps) && i < |steps|
    requires key in stores[i + 1].stock && stores[i + 1].stock[key].status == Consumed
    requires key !in stores[i].stock || stores[i].stock[key].status != Consumed
    ensures steps[i].MarkConsumed? && key in Keys(steps[i].barcodes) && Trim(steps[i].orderId) != ""
    ensures m < i && Takes(steps[m], key, Trim(steps[i].orderId))
    ensures HeldSince(stores, m, i, key, Trim(steps[i].orderId))
  {
    RunChanges(stores, steps, i, key);
    m := HolderTookIt(stores, steps, i, key, Trim(steps[i].orderId));
  }

  // ---- A consumed roll that becomes available ----

  const PAPER := Draft("A", "I", "", "W", Some(1), true, false)

  /** Received, used up, and received again. */
  function ReceiveTwice(): seq<Step> {
    [InsertDraft(PAPER), Submit("GSR-A"), MarkInUse(["A"], "O"), MarkConsumed(["A"], "O"), InsertDraft(PAPER),
     Submit("GSR-A")]
  }

  function RowInStore(row: Roll, draft: bool): Store {
    Store(map["a" := row], map["GSR-A" := Receipt("A", draft, "I", "", "W", 1, false)], {})
  }

  const ROW := Roll("A", "W", "I", "I", 1, Available, "", "GSR-A")

  function ReceiveTwiceStores(): seq<Store> {
    [EMPTY, EMPTY.(receipts := map["GSR-A" := Receipt("A", true, "I", "", "W", 1, false)]),
     RowInStore(ROW, false), RowInStore(ROW.(status := InUse, reserved := "O"), false),
     RowInStore(ROW.(status := Consumed, reserved := "O"), false),
     RowInStore(ROW.(status := Consumed, reserved := "O"), true), RowInStore(ROW, false)]
  }

  lemma PaperTexts()
    ensures Trim("A") == "A" && Trim("I") == "I" && Trim("W") == "W" && Trim("O") == "O" && Trim("") == ""
    ensures Trim("GSR-A") == "GSR-A" && StockKey("A") == "a" && ReceiptName("A") == "GSR-A"
    ensures Keys(["A"]) == {"a"}
  {
    TrimTidy("A");
    TrimTidy("I");
    TrimTidy("W");
    TrimTidy("O");
    TrimTidy("GSR-A");
    assert Lower("A") == "a" && Upper("A") == "A" && "GSR-" + "A" == "GSR-A";
    assert "A" in ["A"];
  }

  lemma ReceiveTwiceDrafts()
    ensures var stores, steps := ReceiveTwiceStores(), ReceiveTwice();
            stores[1] == Apply(stores[0], steps[0]) && stores[5] == Apply(stores[4], steps[4])
  {
    PaperTexts();
    var stores := ReceiveTwiceStores();
    assert stores[1].receipts == stores[0].receipts["GSR-A" := Receipt("A", true, "I", "", "W", 1, false)];
    assert stores[5].receipts == stores[4].receipts["GSR-A" := Receipt("A", true, "I", "", "W", 1, false)];
  }

  lemma ReceiveTwiceSubmits()
    ensures var stores, steps := ReceiveTwiceStores(), ReceiveTwice();
            stores[2] == Apply(stores[1], steps[1]) && stores[6] == Apply(stores[5], steps[5])
  {
    PaperTexts();
    var stores := ReceiveTwiceStores();
    assert Fresh("GSR-A", Receipt("A", true, "I", "", "W", 1, false)) == ROW;
    assert stores[2].stock == stores[1].stock["a" := ROW] && stores[6].stock == stores[5].stock["a" := ROW];
    assert stores[2].receipts == stores[1].receipts["GSR-A" := Receipt("A", false, "I", "", "W", 1, false)];
    assert stores[6].receipts == stores[5].receipts["GSR-A" := Receipt("A", false, "I", "", "W", 1, false)];
  }

  lemma MarkOne(row: Roll, draft: bool, may: Roll -> bool, change: Roll -> Roll)
    requires may(row)
    ensures AfterMark(RowInStore(row, draft), ["A"], "O", may, change) == Some(RowInStore(change(row), draft))
  {
    PaperTexts();
    var s := RowInStore(row, draft);
    assert Changed(s.stock, {"a"}, may, change) == map["a" := change(row)];
  }

  lemma AppliedMark(s: Store, t: Store, step: Step)
    requires step == MarkInUse(["A"], "O") || step == MarkConsumed(["A"], "O")
    requires step.MarkInUse? ==> AfterMark(s, ["A"], "O", MayUse("O"), Use("O")) == Some(t)
    requires step.MarkConsumed? ==> AfterMark(s, ["A"], "O", MayConsume("O"), Consume()) == Some(t)
    ensures Apply(s, step) == t
  {
    TrimTidy("O");
  }

  lemma ReceiveTwiceUse()
    ensures Apply(RowInStore(ROW, false), MarkInUse(["A"], "O"))
         == RowInStore(ROW.(status := InUse, reserved := "O"), false)
  {
    MarkOne(ROW, false, MayUse("O"), Use("O"));
    var used := ROW.(status := InUse, reserved := "O");
    AppliedMark(RowInStore(ROW, false), RowInStore(used, false), MarkInUse(["A"], "O"));
  }

  lemma ReceiveTwiceConsume()
    ensures Apply(RowInStore(ROW.(status := InUse, reserved := "O"), false), MarkConsumed(["A"], "O"))
         == RowInStore(ROW.(status := Consumed, reserved := "O"), false)
  {
    var used := ROW.(status := InUse, reserved := "O");
    MarkOne(used, false, MayConsume("O"), Consume());
    AppliedMark(RowInStore(used, false), RowInStore(used.(status := Consumed), false), MarkConsumed(["A"], "O"));
  }

  /** A consumed roll is available again after its receipt was drafted and submitted a second time. */
  lemma ConsumedIsReleased()
    ensures var stores, steps := ReceiveTwiceStores(), ReceiveTwice();
            && Run(stores, steps)
            && stores[3].stock["a"].status == InUse && stores[4].stock["a"].status == Consumed
            && stores[4].stock["a"].reserved == "O"
            && stores[6].stock["a"].status == Available && stores[6].stock["a"].reserved == ""
  {
    var stores, steps := ReceiveTwiceStores(), ReceiveTwice();
    ReceiveTwiceDrafts();
    ReceiveTwiceSubmits();
    ReceiveTwiceUse();
    ReceiveTwiceConsume();
    forall i | 0 <= i < |steps| ensures Follows(stores, steps, i) {
      if i == 0 {} else if i == 1 {} else if i == 2 {} else if i == 3 {} else if i == 4 {} else {}
    }
  }

  // ---- Batches ----

  /** A batch mark goes through exactly when every barcode names a row that qualifies, and then it
      changes every roll of it, and no other one. */
  lemma AllOrNothing(s: Store, step: Step)
    requires step.MarkInUse? || step.MarkConsumed?
    ensures var keys, t, order := Keys(step.barcodes), Apply(s, step), Trim(step.orderId);
            var may := if step.MarkInUse? then MayUse(order) else MayConsume(order);
            && (Attempt(s, step).Some? <==>
                  keys == {} || (order != "" && forall k :: k in keys ==> k in s.stock && may(s.stock[k])))
            && (Attempt(s, step).None? ==> t == s)
            && t.stock.Keys == s.stock.Keys && t.receipts == s.receipts && t.assignments == s.assignments
            && (forall k :: k in s.stock && k !in keys ==> t.stock[k] == s.stock[k])
            && (Attempt(s, step).Some? ==>
                  forall k :: k in keys ==>
                    && k in s.stock
                    && var status := if step.MarkInUse? then InUse else Consumed;
                       t.stock[k] == s.stock[k].(reserved := order, status := status))
  {
  }

  function Qualifying(stock: map<string, Roll>, keys: set<string>, may: Roll -> bool): set<string> {
    set k | k in keys && k in stock && may(stock[k])
  }

  lemma ChangedMore(stock: map<string, Roll>, keys: set<string>, k: string, may: Roll -> bool, change: Roll -> Roll)
    requires k !in keys
    ensures var more, q := Changed(stock, keys + {k}, may, change), Qualifying(stock, keys, may);
            if k in stock && may(stock[k])
            then more == Changed(stock, keys, may, change)[k := change(stock[k])]
                 && Qualifying(stock, keys + {k}, may) == q + {k} && |q + {k}| == |q| + 1
            else more == Changed(stock, keys, may, change) && Qualifying(stock, keys + {k}, may) == q
  {
    var more, q := Changed(stock, keys + {k}, may, change), Qualifying(stock, keys, may);
    if k in stock && may(stock[k]) {
      assert more == Changed(stock, keys, may, change)[k := change(stock[k])];
      assert Qualifying(stock, keys + {k}, may) == q + {k};
    } else {
      assert more == Changed(stock, keys, may, change);
      assert Qualifying(stock, keys + {k}, may) == q;
    }
  }

  lemma ChangedNone(stock: map<string, Roll>, may: Roll -> bool, change: Roll -> Roll)
    ensures Changed(stock, {}, may, change) == stock && Qualifying(stock, {}, may) == {}
  {
  }

  lemma AllQualify(stock: map<string, Roll>, keys: set<string>, may: Roll -> bool)
    ensures |Qualifying(stock, keys, may)| == |keys| <==> forall k :: k in keys ==> k in stock && may(stock[k])
  {
    Sets.SubsetSize(Qualifying(stock, keys, may), keys);
  }

  /** `UPDATE ... WHERE ... RETURNING`, row by row: the changed table and how many rows changed. */
  method UpdateRows(stock: map<string, Roll>, keys: set<string>, may: Roll -> bool, change: Roll -> Roll)
    returns (updated: map<string, Roll>, rows: nat)
    ensures updated == Changed(stock, keys, may, change)
    ensures rows == |keys| <==> forall k :: k in keys ==> k in stock && may(stock[k])
  {
    updated, rows := stock, 0;
    var todo := keys;
    ghost var done: set<string> := {};
    ChangedNone(stock, may, change);
    while todo != {}
      invariant todo <= keys && done == keys - todo
      invariant rows == |Qualifying(stock, done, may)| && updated == Changed(stock, done, may, change)
    {
      var k :| k in todo;
      ChangedMore(stock, done, k, may, change);
      if k in stock && may(stock[k]) {
        updated := updated[k := change(stock[k])];
        rows := rows + 1;
      }
      todo := todo - {k};
      done := done + {k};
    }
    assert done == keys;
    AllQualify(stock, keys, may);
  }

  method CorrectReceipts(receipts: map<string, Receipt>, key: string, source: string,
                         itemCode: string, itemName: string, qty: int)
    returns (updated: map<string, Receipt>)
    ensures updated == Corrected(receipts, key, source, itemCode, itemName, qty)
  {
    updated := receipts;
    var todo := receipts.Keys;
    while todo != {}
      invariant todo <= receipts.Keys == updated.Keys
      invariant forall n :: n in todo ==> updated[n] == receipts[n]
      invariant forall n :: n in receipts && n !in todo ==>
                  updated[n] == Corrected(receipts, key, source, itemCode, itemName, qty)[n]
    {
      var n :| n in todo;
      if Behind(updated[n], n, key, source) {
        updated := updated[n := updated[n].(itemCode := itemCode, itemName := itemName, qty := qty)];
      }
      todo := todo - {n};
    }
  }

  // ---- The store ----

  class GscaleReceiptStore {
    var stock: map<string, Roll>
    var receipts: map<string, Receipt>
    var assignments: set<string>

    function Snapshot(): Store
      reads this
    {
      Store(stock, receipts, assignments)
    }

    constructor ()
      ensures Snapshot() == EMPTY
    {
      stock, receipts, assignments := map[], map[], {};
    }

    /** The check and the insert of a draft, with nothing in between. */
    method CreateDraft(d: Draft) returns (ok: bool)
      modifies this
      ensures var key := StockKey(d.barcode);
              var deleted := key in old(stock) && old(stock)[key].status == Deleted;
              && ok == (!deleted && Attempt(old(Snapshot()), InsertDraft(d)).Some?)
              && Snapshot() == if deleted then old(Snapshot()) else Apply(old(Snapshot()), InsertDraft(d))
    {
      var barcode, itemCode, warehouse := Trim(d.barcode), Trim(d.itemCode), Trim(d.warehouse);
      if itemCode == "" || warehouse == "" || barcode == "" || d.qty.None? || !d.lengthOk { return false; }
      var key := StockKey(d.barcode);
      if key in stock && stock[key].status == Deleted { return false; }
      var name := ReceiptName(barcode);
      if name in receipts && receipts[name].barcode != barcode { return false; }
      var receipt := Receipt(barcode, true, itemCode, Trim(d.itemName), warehouse, d.qty.value, d.assignment);
      receipts := receipts[name := receipt];
      ok := true;
    }

    method SubmitDraft(name: string) returns (ok: bool)
      modifies this
      ensures Snapshot() == Apply(old(Snapshot()), Submit(name))
      ensures ok == Attempt(old(Snapshot()), Submit(name)).Some?
    {
      var n := Trim(name);
      if n !in receipts || !receipts[n].draft { return false; }
      var r := receipts[n];
      var key := StockKey(r.barcode);
      if key in stock {
        if stock[key].barcode != Trim(r.barcode) || stock[key].status == Deleted { return false; }
      }
      if r.assignment {
        if IsAssigned(Snapshot(), r.barcode) { return false; }
        assignments := assignments + {r.barcode};
      }
      stock := stock[key := Fresh(n, r)];
      receipts := receipts[n := r.(draft := false)];
      ok := true;
    }

    method UpdateStock(barcode: string, itemCode: string, itemName: string, qty: Option<int>) returns (ok: bool)
      modifies this
      ensures Snapshot() == Apply(old(Snapshot()), Update(barcode, itemCode, itemName, qty))
      ensures ok == Attempt(old(Snapshot()), Update(barcode, itemCode, itemName, qty)).Some?
    {
      if qty.None? || Trim(barcode) == "" || Trim(itemCode) == "" || Trim(itemName) == "" { return false; }
      var key := StockKey(barcode);
      if key !in stock || !Unlocked(Snapshot(), barcode) { return false; }
      var source := stock[key].source;
      stock := stock[key := stock[key].(itemCode := Trim(itemCode), itemName := Trim(itemName), qty := qty.value)];
      receipts := CorrectReceipts(receipts, key, source, Trim(itemCode), Trim(itemName), qty.value);
      ok := true;
    }

    method SoftDeleteStock(barcode: string, warehouse: string, transferId: string, placement: Option<string>)
      returns (ok: bool)
      modifies this
      ensures Snapshot() == Apply(old(Snapshot()), SoftDelete(barcode, warehouse, transferId, placement))
      ensures ok == Attempt(old(Snapshot()), SoftDelete(barcode, warehouse, transferId, placement)).Some?
    {
      if Trim(barcode) == "" || Trim(warehouse) == "" { return false; }
      var key := StockKey(barcode);
      if key !in stock || stock[key].status == Deleted { return false; }
      var outside := placement.Some? && !SameIgnoringCase(placement.value, Trim(warehouse));
      if !SameIgnoringCase(Trim(stock[key].warehouse), Trim(warehouse)) || !Unlocked(Snapshot(), barcode)
         || Trim(transferId) != "" || outside { return false; }
      stock := stock[key := stock[key].(status := Deleted, reserved := "")];
      ok := true;
    }

    /** The rows are changed first; too few of them rolls the transaction back. */
    method Mark(barcodes: seq<string>, orderId: string, may: Roll -> bool, change: Roll -> Roll) returns (ok: bool)
      modifies this
      ensures var after := AfterMark(old(Snapshot()), barcodes, orderId, may, change);
              ok == after.Some? && Snapshot() == if ok then after.value else old(Snapshot())
    {
      var keys := Keys(barcodes);
      if keys == {} { return true; }
      if Trim(orderId) == "" { return false; }
      var before := stock;
      var updated, rows := UpdateRows(stock, keys, may, change);
      stock := updated;
      if rows != |keys| {
        stock := before;
        return false;
      }
      ok := true;
    }

    method MarkStockInUse(barcodes: seq<string>, orderId: string) returns (ok: bool)
      modifies this
      ensures Snapshot() == Apply(old(Snapshot()), MarkInUse(barcodes, orderId))
      ensures ok == Attempt(old(Snapshot()), MarkInUse(barcodes, orderId)).Some?
    {
      ok := Mark(barcodes, orderId, MayUse(Trim(orderId)), Use(Trim(orderId)));
    }

    method MarkStockConsumed(barcodes: seq<string>, orderId: string) returns (ok: bool)
      modifies this
      ensures Snapshot() == Apply(old(Snapshot()), MarkConsumed(barcodes, orderId))
      ensures ok == Attempt(old(Snapshot()), MarkConsumed(barcodes, orderId)).Some?
    {
      ok := Mark(barcodes, orderId, MayConsume(Trim(orderId)), Consume());
    }

    method DeleteStockEntryDraft(name: string)
      modifies this
      ensures Snapshot() == Apply(old(Snapshot()), DeleteDraft(name))
    {
      var n := Trim(name);
      if n in receipts && receipts[n].draft { receipts := receipts - {n}; }
    }
  }
}
