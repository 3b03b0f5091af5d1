/** The bounded map of the image cache: lookup stamps, removal and the eviction loop. */
module CacheEviction {
  import opened Text

  const MAX_BYTES := 64 * 1024 * 1024
  const MAX_ENTRIES := 512
  /** Fifteen minutes, in nanoseconds. */
  const TTL := 900 * 1_000_000_000

  newtype Byte = x: int | 0 <= x < 256

  /** An image is cached under its owner scope, its id and its size class. */
  datatype Key = Key(owner: Option<string>, imageId: string, thumbnail: bool)

  datatype Image = Image(body: seq<Byte>, mime: string)

  /** Content of a once-cell: empty, being filled by one getter, or filled for good. */
  datatype Content = Empty | Loading(getter: nat) | Ready(image: Option<Image>)

  /** A once-cell, with the key and the time of the entry it was allocated for. */
  datatype Cell = Cell(key: Key, born: int, content: Content)

  /** A map entry; the cell is named by its identity. */
  datatype Entry = Entry(cell: nat, created: int, used: nat)

  type Entries = map<Key, Entry>
  type Cells = map<nat, Cell>

  predicate Mapped(values: Entries, cells: Cells) {
    forall k :: k in values ==> values[k].cell in cells
  }

  predicate Initialized(values: Entries, cells: Cells, k: Key)
    requires Mapped(values, cells) && k in values
  {
    cells[values[k].cell].content.Ready?
  }

  function Size(content: Content): nat {
    if content.Ready? && content.image.Some? then |content.image.value.body| else 0
  }

  function Sizes(values: Entries, cells: Cells): map<Key, nat>
    requires Mapped(values, cells)
  {
    map k | k in values :: Size(cells[values[k].cell].content)
  }

  // ---- Sums over a map ----

  ghost function Sum(m: map<Key, nat>): nat
    decreases |m|
  {
    if m == map[] then 0
    else
      var k :| k in m;
      assert |m - {k}| < |m| by { assert (m - {k}).Keys == m.Keys - {k}; }
      m[k] + Sum(m - {k})
  }

  lemma RemoveSmaller(m: map<Key, nat>, k: Key)
    requires k in m
    ensures |m - {k}| == |m| - 1
  {
    assert (m - {k}).Keys == m.Keys - {k};
  }

  lemma {:induction false} SumRemove(m: map<Key, nat>, k: Key)
    requires k in m
    ensures Sum(m) == m[k] + Sum(m - {k})
    decreases |m|
  {
    var l :| l in m && Sum(m) == m[l] + Sum(m - {l});
    if l != k {
      RemoveSmaller(m, l);
      RemoveSmaller(m, k);
      SumRemove(m - {l}, k);
      SumRemove(m - {k}, l);
      assert m - {l} - {k} == m - {k} - {l};
    }
  }

  /** A part of a map has at most its size and sum. */
  lemma {:induction false} SumPart(part: map<Key, nat>, m: map<Key, nat>)
    requires part.Keys <= m.Keys && forall k :: k in part ==> part[k] == m[k]
    ensures Sum(part) <= Sum(m) && |part| <= |m|
    decreases |m|
  {
    if part.Keys == m.Keys {
      assert part == m;
    } else {
      var k :| k in m && k !in part;
      SumRemove(m, k);
      RemoveSmaller(m, k);
      SumPart(part, m - {k});
    }
  }

  // ---- The limits ----

  ghost predicate Within(values: Entries, cells: Cells)
    requires Mapped(values, cells)
  {
    |values| <= MAX_ENTRIES && Sum(Sizes(values, cells)) <= MAX_BYTES
  }

  predicate SubMap(a: Entries, b: Entries) {
    a.Keys <= b.Keys && forall k :: k in a ==> a[k] == b[k]
  }

  lemma WithinPart(a: Entries, b: Entries, cells: Cells)
    requires SubMap(a, b) && Mapped(b, cells) && Within(b, cells)
    ensures Within(a, cells)
  {
    SumPart(Sizes(a, cells), Sizes(b, cells));
    assert Sizes(a, cells).Keys == a.Keys && Sizes(b, cells).Keys == b.Keys;
  }

  predicate DistinctStamps(values: Entries) {
    forall k, l :: k in values && l in values && k != l ==> values[k].used != values[l].used
  }

  /** What eviction must leave: only initialized entries go, the least recently used first, until
      the limits hold or nothing can go; and the last one to go had to. */
  ghost predicate Evicted(before: Entries, after: Entries, cells: Cells)
    requires Mapped(before, cells)
  {
    && SubMap(after, before)
    && (forall k :: k in before && k !in after ==> Initialized(before, cells, k))
    && (forall k, l :: k in before && k !in after && l in after && Initialized(before, cells, l)
                       ==> before[k].used < before[l].used)
    && (Within(after, cells) || forall k :: k in after ==> !Initialized(before, cells, k))
    && forall k {:trigger Newest(before, after, k)} :: k in before && k !in after && Newest(before, after, k) ==>
         !Within(after[k := before[k]], cells)
  }

  /** k is the most recently used of the entries that went. */
  predicate Newest(before: Entries, after: Entries, k: Key)
    requires k in before
  {
    forall l :: l in before && l !in after ==> before[l].used <= before[k].used
  }

  lemma {:induction false} NewestExists(before: Entries, gone: set<Key>) returns (k: Key)
    requires gone != {} && gone <= before.Keys
    ensures k in gone && forall l :: l in gone ==> before[l].used <= before[k].used
  {
    k :| k in gone;
    if gone != {k} {
      var m := NewestExists(before, gone - {k});
      if before[k].used < before[m].used { k := m; }
    }
  }

  /** One outcome keeps all the other keeps. */
  lemma EvictedComparable(before: Entries, a: Entries, b: Entries, cells: Cells)
    requires Mapped(before, cells) && Evicted(before, a, cells) && Evicted(before, b, cells)
    ensures a.Keys <= b.Keys || b.Keys <= a.Keys
  {
    if k :| k in a && k !in b {
      assert Initialized(before, cells, k);
    }
  }

  /** The newest entry that b let go is one that a kept, if a keeps more. */
  lemma NewestGoneIsKept(before: Entries, a: Entries, b: Entries, cells: Cells, k: Key, m: Key)
    requires Mapped(before, cells) && Evicted(before, a, cells) && Evicted(before, b, cells)
    requires k in a && k !in b && m in before && m !in b && Newest(before, b, m)
    ensures m in a && Initialized(before, cells, m)
  {
    assert Initialized(before, cells, k) && before[k].used <= before[m].used;
  }

  lemma WithinAfterPuttingBack(before: Entries, a: Entries, b: Entries, cells: Cells, m: Key)
    requires Mapped(before, cells) && SubMap(a, before) && SubMap(b, before) && b.Keys <= a.Keys && m in a
    requires Within(a, cells)
    ensures Mapped(b[m := before[m]], cells) && Within(b[m := before[m]], cells)
  {
    WithinPart(b[m := before[m]], a, cells);
  }

  lemma KeepingMoreIsKeepingAll(before: Entries, a: Entries, b: Entries, cells: Cells)
    requires Mapped(before, cells) && Evicted(before, a, cells) && Evicted(before, b, cells)
    requires b.Keys <= a.Keys
    ensures a == b
  {
    if k :| k in a && k !in b {
      assert k in before.Keys - b.Keys;
      var m := NewestExists(before, before.Keys - b.Keys);
      assert Newest(before, b, m);
      NewestGoneIsKept(before, a, b, cells, k, m);
      assert !Within(b[m := before[m]], cells);
      WithinAfterPuttingBack(before, a, b, cells, m);
    } else {
      assert a.Keys == b.Keys;
      assert a == b;
    }
  }

  /** That leaves no choice: the outcome of an eviction is determined. */
  lemma EvictedUnique(before: Entries, a: Entries, b: Entries, cells: Cells)
    requires Mapped(before, cells) && Evicted(before, a, cells) && Evicted(before, b, cells)
    ensures a == b
  {
    EvictedComparable(before, a, b, cells);
    if b.Keys <= a.Keys {
      KeepingMoreIsKeepingAll(before, a, b, cells);
    } else {
      KeepingMoreIsKeepingAll(before, b, a, cells);
    }
  }

  /** The map that keeps an entry and whatever goes after it: the entries used no earlier, and the
      uninitialized ones. */
  function KeptFrom(before: Entries, cells: Cells, k: Key): Entries
    requires Mapped(before, cells) && k in before
  {
    map l | l in before && (!Initialized(before, cells, l) || before[l].used >= before[k].used) :: before[l]
  }

  lemma GoneMustGo(before: Entries, after: Entries, cells: Cells, k: Key)
    requires Mapped(before, cells) && Evicted(before, after, cells) && k in before && k !in after
    ensures Mapped(KeptFrom(before, cells, k), cells) && !Within(KeptFrom(before, cells, k), cells)
  {
    assert k in before.Keys - after.Keys;
    var m := NewestExists(before, before.Keys - after.Keys);
    assert Newest(before, after, m);
    var kept, back := KeptFrom(before, cells, k), after[m := before[m]];
    assert !Within(back, cells);
    assert SubMap(back, kept);
    if Within(kept, cells) { WithinPart(back, kept, cells); }
  }

  lemma KeptFits(before: Entries, after: Entries, cells: Cells, k: Key)
    requires Mapped(before, cells) && Evicted(before, after, cells) && k in after && Initialized(before, cells, k)
    ensures Mapped(KeptFrom(before, cells, k), cells) && Within(KeptFrom(before, cells, k), cells)
  {
    var kept := KeptFrom(before, cells, k);
    assert SubMap(kept, after);
    WithinPart(kept, after, cells);
  }

  /** Exactly which entries go: the initialized ones that could not stay even if every initialized entry
      used before them were gone. */
  lemma EvictedExactly(before: Entries, after: Entries, cells: Cells, k: Key)
    requires Mapped(before, cells) && Evicted(before, after, cells) && k in before
    ensures Mapped(KeptFrom(before, cells, k), cells)
    ensures k !in after <==> Initialized(before, cells, k) && !Within(KeptFrom(before, cells, k), cells)
  {
    if k !in after {
      GoneMustGo(before, after, cells, k);
    } else if Initialized(before, cells, k) {
      KeptFits(before, after, cells, k);
    }
  }

  // ---- The eviction loop ----

  method CachedBytes(values: Entries, cells: Cells) returns (bytes: nat)
    requires Mapped(values, cells)
    ensures bytes == Sum(Sizes(values, cells))
  {
    bytes := 0;
    var rest := Sizes(values, cells);
    while rest != map[]
      invariant bytes + Sum(rest) == Sum(Sizes(values, cells))
      decreases |rest|
    {
      var k :| k in rest;
      SumRemove(rest, k);
      RemoveSmaller(rest, k);
      bytes := bytes + rest[k];
      rest := rest - {k};
    }
  }

  /** `min_by_key`: the initialized entry with the oldest stamp, if there is one. */
  method Oldest(values: Entries, cells: Cells) returns (r: Option<Key>)
    requires Mapped(values, cells)
    ensures r.None? ==> forall k :: k in values ==> !Initialized(values, cells, k)
    ensures r.Some? ==> r.value in values && Initialized(values, cells, r.value)
    ensures r.Some? ==> forall k :: k in values && Initialized(values, cells, k) ==>
                                    values[r.value].used <= values[k].used
  {
    var rest := set k | k in values && Initialized(values, cells, k);
    r := None;
    while rest != {}
      invariant forall k :: k in rest ==> k in values && Initialized(values, cells, k)
      invariant r.Some? ==> r.value in values && Initialized(values, cells, r.value)
      invariant forall k :: k in values && Initialized(values, cells, k) ==>
                              k in rest || (r.Some? && values[r.value].used <= values[k].used)
      decreases |rest|
    {
      var k :| k in rest;
      if r.None? || values[k].used < values[r.value].used { r := Some(k); }
      rest := rest - {k};
    }
  }

  /** The loop at the end of `get`: it terminates, and leaves what eviction must leave. */
  method Evict(start: Entries, cells: Cells) returns (values: Entries)
    requires Mapped(start, cells) && DistinctStamps(start)
    ensures Evicted(start, values, cells)
  {
    values := start;
    while true
      invariant Evicting(start, values, cells)
      decreases |values|
    {
      var bytes := CachedBytes(values, cells);
      if |values| <= MAX_ENTRIES && bytes <= MAX_BYTES { break; }
      var oldest := Oldest(values, cells);
      if oldest.None? { break; }
      EvictOne(start, values, cells, oldest.value);
      values := values - {oldest.value};
    }
  }

  /** Eviction under way: what is gone is initialized, older than what is left, and had to go. */
  ghost predicate Evicting(before: Entries, after: Entries, cells: Cells)
    requires Mapped(before, cells)
  {
    && SubMap(after, before)
    && (forall k :: k in before && k !in after ==> Initialized(before, cells, k))
    && (forall k, l :: k in before && k !in after && l in after && Initialized(before, cells, l)
                       ==> before[k].used < before[l].used)
    && forall k {:trigger Newest(before, after, k)} :: k in before && k !in after && Newest(before, after, k) ==>
         !Within(after[k := before[k]], cells)
  }

  lemma EvictOneNeeded(before: Entries, after: Entries, cells: Cells, k: Key, m: Key)
    requires Mapped(before, cells) && DistinctStamps(before) && Evicting(before, after, cells)
    requires !Within(after, cells) && k in after && Initialized(before, cells, k)
    requires m in before && m !in after - {k} && Newest(before, after - {k}, m)
    ensures Mapped((after - {k})[m := before[m]], cells) && !Within((after - {k})[m := before[m]], cells)
  {
    NewestIsLast(before, after, cells, k, m);
    assert (after - {k})[m := before[m]] == after;
  }

  lemma EvictOneOrder(before: Entries, after: Entries, cells: Cells, k: Key)
    requires Mapped(before, cells) && DistinctStamps(before) && Evicting(before, after, cells)
    requires k in after && Initialized(before, cells, k)
    requires forall l :: l in after && Initialized(before, cells, l) ==> before[k].used <= before[l].used
    ensures var next := after - {k};
            && SubMap(next, before) && |next| < |after|
            && (forall l :: l in before && l !in next ==> Initialized(before, cells, l))
            && forall l, m :: l in before && l !in next && m in next && Initialized(before, cells, m)
                              ==> before[l].used < before[m].used
  {
    assert (after - {k}).Keys == after.Keys - {k};
  }

  lemma EvictOne(before: Entries, after: Entries, cells: Cells, k: Key)
    requires Mapped(before, cells) && DistinctStamps(before) && Evicting(before, after, cells)
    requires !Within(after, cells)
    requires k in after && Initialized(before, cells, k)
    requires forall l :: l in after && Initialized(before, cells, l) ==> before[k].used <= before[l].used
    ensures Evicting(before, after - {k}, cells) && |after - {k}| < |after|
  {
    var next := after - {k};
    EvictOneOrder(before, after, cells, k);
    forall m | m in before && m !in next && Newest(before, next, m) ensures !Within(next[m := before[m]], cells) {
      EvictOneNeeded(before, after, cells, k, m);
    }
  }

  lemma NewestIsLast(before: Entries, after: Entries, cells: Cells, k: Key, m: Key)
    requires Mapped(before, cells) && DistinctStamps(before) && Evicting(before, after, cells)
    requires k in after && Initialized(before, cells, k) && m in before && m !in after - {k}
    requires Newest(before, after - {k}, m)
    ensures m == k
  {
    assert before[k].used <= before[m].used;
  }
}
