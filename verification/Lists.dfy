/** Reading a list item by item, and totals over a list. */
module Lists {
  import opened Text

  /** The lines read one by one; none if one of them cannot be read. */
  function ReadAll<S, T>(read: S -> Option<T>, lines: seq<S>): (r: Option<seq<T>>)
    ensures r.Some? <==> forall i :: 0 <= i < |lines| ==> read(lines[i]).Some?
    ensures r.Some? ==> |r.value| == |lines| && forall i :: 0 <= i < |lines| ==> read(lines[i]) == Some(r.value[i])
  {
    if lines == [] then Some([])
    else
      var front, last := ReadAll(read, lines[..|lines| - 1]), read(lines[|lines| - 1]);
      if front.None? || last.None? then None else Some(front.value + [last.value])
  }

  /** A total of a field of the items. */
  function Total<T>(f: T -> int, s: seq<T>): int {
    if s == [] then 0 else Total(f, s[..|s| - 1]) + f(s[|s| - 1])
  }

  /** Two readings of the same lines total the same, if they agree line by line. */
  lemma {:induction false} ReadAllTotals<S, T, U>(read: S -> Option<T>, other: S -> Option<U>, f: T -> int, g: U -> int,
                                                  lines: seq<S>)
    requires ReadAll(read, lines).Some? && ReadAll(other, lines).Some?
    requires forall l :: l in lines && read(l).Some? && other(l).Some? ==> f(read(l).value) == g(other(l).value)
    ensures Total(f, ReadAll(read, lines).value) == Total(g, ReadAll(other, lines).value)
  {
    if lines != [] {
      var k := |lines| - 1;
      assert lines[k] in lines;
      ReadAllTotals(read, other, f, g, lines[..k]);
      var x, y := ReadAll(read, lines).value, ReadAll(other, lines).value;
      assert x[..k] == ReadAll(read, lines[..k]).value && y[..k] == ReadAll(other, lines[..k]).value;
    }
  }

  lemma ReadOne<S, T>(read: S -> Option<T>, x: S, y: T)
    requires read(x) == Some(y)
    ensures ReadAll(read, [x]) == Some([y])
  {
    assert ReadAll(read, [x]).value == [y];
  }

  lemma TotalOne<T>(f: T -> int, x: T)
    ensures Total(f, [x]) == f(x)
  {
    assert [x][..0] == [];
  }

  lemma {:induction false} TotalAtLeast<T>(f: T -> int, s: seq<T>, low: int)
    requires forall x :: x in s ==> low <= f(x)
    ensures |s| * low <= Total(f, s)
  {
    if s != [] {
      TotalAtLeast(f, s[..|s| - 1], low);
      assert |s| * low == (|s| - 1) * low + low && s[|s| - 1] in s;
    }
  }

  lemma {:induction false} TotalPrefix<T>(f: T -> int, s: seq<T>, n: nat)
    requires n <= |s| && forall x :: x in s ==> 0 <= f(x)
    ensures Total(f, s[..n]) <= Total(f, s)
  {
    if n < |s| {
      TotalPrefix(f, s[..|s| - 1], n);
      assert s[..|s| - 1][..n] == s[..n] && s[|s| - 1] in s;
    } else {
      assert s[..n] == s;
    }
  }

  /** Items added to an accumulator one by one; none if one of them cannot be added. */
  function AddAll<S, T>(add: (S, T) -> Option<S>, start: S, items: seq<T>): Option<S> {
    if items == [] then Some(start)
    else
      var front := AddAll(add, start, items[..|items| - 1]);
      if front.None? then None else add(front.value, items[|items| - 1])
  }

  lemma {:induction false} AddAllFails<S, T>(add: (S, T) -> Option<S>, start: S, items: seq<T>, n: nat)
    requires n <= |items| && AddAll(add, start, items[..n]).None?
    ensures AddAll(add, start, items).None?
  {
    if n < |items| {
      assert items[..|items| - 1][..n] == items[..n];
      AddAllFails(add, start, items[..|items| - 1], n);
    } else {
      assert items[..n] == items;
    }
  }

  /** The loop that does it. */
  method AddEach<S, T>(add: (S, T) -> Option<S>, start: S, items: seq<T>) returns (r: Option<S>)
    ensures r == AddAll(add, start, items)
  {
    var done := start;
    for n := 0 to |items|
      invariant AddAll(add, start, items[..n]) == Some(done)
    {
      assert items[..n + 1][..n] == items[..n];
      var next := add(done, items[n]);
      if next.None? {
        AddAllFails(add, start, items, n + 1);
        return None;
      }
      done := next.value;
    }
    assert items[..|items|] == items;
    r := Some(done);
  }
}
