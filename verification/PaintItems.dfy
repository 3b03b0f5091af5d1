/** Normalization of submitted paint items: trimmed names, lower-case tags, canonical amounts. */
module PaintItems {
  import opened Text
  import opened DecimalAmount
  import opened PaintBalance

  /** Insertion into a BTreeMap listed in key order; an equal key is overwritten. */
  function Insert(m: seq<Entry>, e: Entry): seq<Entry> {
    if m == [] then [e]
    else if e.key == m[0].key then [e] + m[1..]
    else if Before(e.key, m[0].key) then [e] + m
    else [m[0]] + Insert(m[1..], e)
  }

  predicate Sorted(m: seq<Entry>) {
    forall i, j :: 0 <= i < j < |m| ==> Before(m[i].key, m[j].key)
  }

  function NormalizeEntry(e: Entry): Result<Entry> {
    var key := Trim(e.key);
    if key == "" then Err(InvalidValue)
    else
      var amount :- Checked(Amount(e.text, INPUT_PLACES));
      Ok(Entry(key, Display(amount)))
  }

  /** The entries normalized one by one into a map, or the first error. */
  function Collect(normalize: Entry -> Result<Entry>, values: seq<Entry>): Result<seq<Entry>> {
    if values == [] then Ok([])
    else
      var m :- Collect(normalize, values[..|values| - 1]);
      var e :- normalize(values[|values| - 1]);
      Ok(Insert(m, e))
  }

  function NormalizeEntries(values: seq<Entry>): Result<seq<Entry>> {
    Collect(NormalizeEntry, values)
  }

  function NormalizeItem(item: Item): Result<Item> {
    var usage := Lower(Trim(item.usage));
    if usage !in {"rasxot", "astatka"} then Err(InvalidUsage) else
    var category := Lower(Trim(item.category));
    if category !in {"colors", "lacquers", "solvents"} then Err(InvalidCategory) else
    var name := Trim(item.name);
    if name == "" then Err(MissingItemName) else
    var values :- NormalizeEntries(item.values);
    if values == [] then Err(MissingValues) else Ok(Item(usage, category, name, values))
  }

  /** The items normalized one by one, or the first error. */
  function Each(normalize: Item -> Result<Item>, items: seq<Item>): (r: Result<seq<Item>>)
    ensures r.Ok? ==> |r.value| == |items|
  {
    if items == [] then Ok([])
    else
      var front :- Each(normalize, items[..|items| - 1]);
      var last :- normalize(items[|items| - 1]);
      Ok(front + [last])
  }

  /** `normalize_items`. */
  function NormalizeItems(items: seq<Item>): Result<seq<Item>> {
    if items == [] then Err(MissingItems) else Each(NormalizeItem, items)
  }

  // ---- Idempotence ----

  predicate Normal(e: Entry) {
    NormalizeEntry(e) == Ok(e)
  }

  predicate AllNormal(m: seq<Entry>) {
    forall i :: 0 <= i < |m| ==> Normal(m[i])
  }

  lemma NormalizedEntryIsNormal(e: Entry)
    requires NormalizeEntry(e).Ok?
    ensures Normal(NormalizeEntry(e).value)
  {
    TrimTidy(e.key);
    AmountOfInput(e.text);
    AmountStorable(e.text, INPUT_PLACES);
    DisplayInput(Amount(e.text, INPUT_PLACES).value);
  }

  lemma {:induction false} InsertSorted(m: seq<Entry>, e: Entry)
    requires Sorted(m)
    ensures Sorted(Insert(m, e)) && Insert(m, e) != []
    ensures forall x :: x in Insert(m, e) ==> x == e || x in m
  {
    if m != [] {
      InsertSorted(m[1..], e);
      BeforeTotal(e.key, m[0].key);
      var r := Insert(m, e);
      if e.key != m[0].key && Before(e.key, m[0].key) {
        forall j | 1 <= j < |m| ensures Before(e.key, m[j].key) { BeforeTransitive(e.key, m[0].key, m[j].key); }
      } else if e.key != m[0].key {
        forall j | 1 <= j < |r| ensures Before(m[0].key, r[j].key) {
          assert r[j] in Insert(m[1..], e);
        }
      }
    }
  }

  lemma {:induction false} InsertLast(m: seq<Entry>, e: Entry)
    requires forall i :: 0 <= i < |m| ==> Before(m[i].key, e.key)
    ensures Insert(m, e) == m + [e]
  {
    if m != [] {
      BeforeTotal(m[0].key, e.key);
      InsertLast(m[1..], e);
      assert m == [m[0]] + m[1..];
    }
  }

  lemma {:induction false} CollectSorted(normalize: Entry -> Result<Entry>, values: seq<Entry>)
    requires Collect(normalize, values).Ok?
    ensures Sorted(Collect(normalize, values).value)
    ensures values != [] ==> Collect(normalize, values).value != []
    ensures forall x :: x in Collect(normalize, values).value ==>
              exists i :: 0 <= i < |values| && normalize(values[i]) == Ok(x)
  {
    if values != [] {
      var front, last := values[..|values| - 1], values[|values| - 1];
      CollectSorted(normalize, front);
      var m, e := Collect(normalize, front).value, normalize(last).value;
      InsertSorted(m, e);
      forall x | x in Insert(m, e) ensures exists i :: 0 <= i < |values| && normalize(values[i]) == Ok(x) {
        if x == e {
          assert normalize(values[|values| - 1]) == Ok(x);
        } else {
          var i :| 0 <= i < |front| && normalize(front[i]) == Ok(x);
          assert normalize(values[i]) == Ok(x);
        }
      }
    }
  }

  lemma NormalizedEntries(values: seq<Entry>)
    requires NormalizeEntries(values).Ok?
    ensures Sorted(NormalizeEntries(values).value) && AllNormal(NormalizeEntries(values).value)
    ensures values != [] ==> NormalizeEntries(values).value != []
  {
    CollectSorted(NormalizeEntry, values);
    var m := NormalizeEntries(values).value;
    forall k | 0 <= k < |m| ensures Normal(m[k]) {
      assert m[k] in m;
      var i :| 0 <= i < |values| && NormalizeEntry(values[i]) == Ok(m[k]);
      NormalizedEntryIsNormal(values[i]);
    }
  }

  lemma {:induction false} CollectFixed(normalize: Entry -> Result<Entry>, m: seq<Entry>)
    requires Sorted(m) && forall i :: 0 <= i < |m| ==> normalize(m[i]) == Ok(m[i])
    ensures Collect(normalize, m) == Ok(m)
  {
    if m != [] {
      var front := m[..|m| - 1];
      CollectFixed(normalize, front);
      InsertLast(front, m[|m| - 1]);
      assert m == front + [m[|m| - 1]];
    }
  }

  lemma NormalEntriesFixed(m: seq<Entry>)
    requires Sorted(m) && AllNormal(m)
    ensures NormalizeEntries(m) == Ok(m)
  {
    CollectFixed(NormalizeEntry, m);
  }

  lemma NormalizeItemIdempotent(item: Item)
    requires NormalizeItem(item).Ok?
    ensures NormalizeItem(NormalizeItem(item).value) == NormalizeItem(item)
  {
    NormalizedEntries(item.values);
    NormalEntriesFixed(NormalizeEntries(item.values).value);
    TagFixed(item.usage);
    TagFixed(item.category);
    TrimTidy(item.name);
  }

  lemma TagFixed(tag: string)
    ensures Lower(Trim(Lower(Trim(tag)))) == Lower(Trim(tag))
    ensures Trim(Lower(Trim(tag))) == Lower(Trim(tag))
  {
    TrimLower(Trim(tag));
    TrimTidy(tag);
    LowerIdempotent(Trim(tag));
  }

  lemma {:induction false} EachAt(normalize: Item -> Result<Item>, items: seq<Item>, i: nat)
    requires Each(normalize, items).Ok? && i < |items|
    ensures normalize(items[i]) == Ok(Each(normalize, items).value[i])
  {
    if i < |items| - 1 { EachAt(normalize, items[..|items| - 1], i); }
  }

  lemma {:induction false} EachFixed(normalize: Item -> Result<Item>, items: seq<Item>)
    requires forall i :: 0 <= i < |items| ==> normalize(items[i]) == Ok(items[i])
    ensures Each(normalize, items) == Ok(items)
  {
    if items != [] {
      EachFixed(normalize, items[..|items| - 1]);
      assert items == items[..|items| - 1] + [items[|items| - 1]];
    }
  }

  /** Normalizing normalized items changes nothing. */
  lemma NormalizeItemsIdempotent(items: seq<Item>)
    requires NormalizeItems(items).Ok?
    ensures NormalizeItems(NormalizeItems(items).value) == NormalizeItems(items)
  {
    var n := NormalizeItems(items).value;
    forall i | 0 <= i < |n| ensures NormalizeItem(n[i]) == Ok(n[i]) {
      EachAt(NormalizeItem, items, i);
      NormalizeItemIdempotent(items[i]);
    }
    EachFixed(NormalizeItem, n);
  }
}
