/** Text handling shared by the components: trimming, ASCII case, splitting.
    A `string` is a sequence of Unicode scalar values, as a Rust `str` is. */
module Text {

  datatype Option<+T> = None | Some(value: T)

  /** The Unicode White_Space property, which `str::trim` uses. */
  predicate IsWhitespace(c: char) {
    var u := c as int;
    || 0x09 <= u <= 0x0D || u == 0x20 || u == 0x85 || u == 0xA0 || u == 0x1680
    || 0x2000 <= u <= 0x200A || u == 0x2028 || u == 0x2029 || u == 0x202F || u == 0x205F || u == 0x3000
  }

  function TrimStart(s: string): string {
    if s != "" && IsWhitespace(s[0]) then TrimStart(s[1..]) else s
  }

  function TrimEnd(s: string): string {
    if s != "" && IsWhitespace(s[|s| - 1]) then TrimEnd(s[..|s| - 1]) else s
  }

  function Trim(s: string): string {
    TrimEnd(TrimStart(s))
  }

  /** No whitespace at either end. */
  predicate Tidy(s: string) {
    s == "" || (!IsWhitespace(s[0]) && !IsWhitespace(s[|s| - 1]))
  }

  lemma {:induction false} TrimStartTidy(s: string)
    ensures TrimStart(s) == "" || !IsWhitespace(TrimStart(s)[0])
  {
    if s != "" && IsWhitespace(s[0]) { TrimStartTidy(s[1..]); }
  }

  lemma {:induction false} TrimEndPrefix(s: string)
    ensures TrimEnd(s) <= s
    ensures TrimEnd(s) == "" || !IsWhitespace(TrimEnd(s)[|TrimEnd(s)| - 1])
  {
    if s != "" && IsWhitespace(s[|s| - 1]) { TrimEndPrefix(s[..|s| - 1]); }
  }

  /** Trimming leaves tidy text, and tidy text alone. */
  lemma TrimTidy(s: string)
    ensures Tidy(Trim(s))
    ensures Tidy(s) ==> Trim(s) == s
    ensures Trim(Trim(s)) == Trim(s)
  {
    TrimStartTidy(s);
    TrimEndPrefix(TrimStart(s));
  }

  function LowerChar(c: char): char {
    if 'A' <= c <= 'Z' then (c as int + 32) as char else c
  }

  /** `to_ascii_lowercase`. */
  function Lower(s: string): (r: string)
    ensures |r| == |s|
    ensures forall i :: 0 <= i < |s| ==> r[i] == LowerChar(s[i])
  {
    seq(|s|, i requires 0 <= i < |s| => LowerChar(s[i]))
  }

  lemma LowerIdempotent(s: string)
    ensures Lower(Lower(s)) == Lower(s)
  {
  }

  /** `eq_ignore_ascii_case`. */
  predicate SameIgnoringCase(a: string, b: string) {
    Lower(a) == Lower(b)
  }

  /** Letter case and trimming commute, since no ASCII letter is whitespace. */
  lemma {:induction false} TrimLower(s: string)
    ensures Trim(Lower(s)) == Lower(Trim(s))
  {
    TrimStartLower(s);
    TrimEndLower(TrimStart(s));
  }

  lemma {:induction false} TrimStartLower(s: string)
    ensures TrimStart(Lower(s)) == Lower(TrimStart(s))
  {
    if s != "" && IsWhitespace(s[0]) {
      TrimStartLower(s[1..]);
      assert Lower(s)[1..] == Lower(s[1..]);
    }
  }

  lemma {:induction false} TrimEndLower(s: string)
    ensures TrimEnd(Lower(s)) == Lower(TrimEnd(s))
  {
    if s != "" && IsWhitespace(s[|s| - 1]) {
      TrimEndLower(s[..|s| - 1]);
      assert Lower(s)[..|s| - 1] == Lower(s[..|s| - 1]);
    }
  }

  /** Length in UTF-8 bytes, which is what `str::len` counts. */
  function Utf8Len(s: string): nat {
    if s == "" then 0 else
    Utf8Len(s[..|s| - 1]) +
    var u := s[|s| - 1] as int;
    if u < 0x80 then 1 else if u < 0x800 then 2 else if u < 0x10000 then 3 else 4
  }

  /** None of the characters occurs. */
  predicate Free(s: string, seps: set<char>) {
    forall i :: 0 <= i < |s| ==> s[i] !in seps
  }

  /** Where the first of the characters occurs; the length if none does. */
  function Find(s: string, seps: set<char>): (n: nat)
    ensures n <= |s| && Free(s[..n], seps)
    ensures n < |s| ==> s[n] in seps
  {
    if s == "" || s[0] in seps then 0
    else
      assert forall i :: 0 < i <= Find(s[1..], seps) ==> s[i] == s[1..][i - 1] || i == |s|;
      1 + Find(s[1..], seps)
  }

  lemma {:induction false} FindFree(a: string, b: string, seps: set<char>)
    requires Free(a, seps) && (b == "" || b[0] in seps)
    ensures Find(a + b, seps) == |a|
  {
    if a == "" {
      assert a + b == b;
    } else {
      assert (a + b)[0] == a[0] && (a + b)[1..] == a[1..] + b;
      FindFree(a[1..], b, seps);
    }
  }

  /** `split` on any of a set of characters; never empty. */
  function Split(s: string, seps: set<char>): (r: seq<string>)
    ensures |r| >= 1
    decreases |s|
  {
    var n := Find(s, seps);
    if n == |s| then [s] else [s[..n]] + Split(s[n + 1..], seps)
  }

  lemma SplitNone(s: string, seps: set<char>)
    requires Free(s, seps)
    ensures Split(s, seps) == [s]
  {
    FindFree(s, "", seps);
    assert s + "" == s;
  }

  lemma SplitFirst(a: string, c: char, b: string, seps: set<char>)
    requires Free(a, seps) && c in seps
    ensures Split(a + [c] + b, seps) == [a] + Split(b, seps)
  {
    var s := a + [c] + b;
    FindFree(a, [c] + b, seps);
    assert s == a + ([c] + b) && s[..|a|] == a && s[|a| + 1..] == b;
  }

  /** A text split in at most two is its first part, then a separator and the second part. */
  lemma SplitTail(s: string, seps: set<char>) returns (tail: string)
    requires |Split(s, seps)| <= 2
    ensures s == Split(s, seps)[0] + tail
    ensures |Split(s, seps)| == 1 ==> tail == ""
    ensures |Split(s, seps)| == 2 ==> tail != "" && tail[0] in seps && tail[1..] == Split(s, seps)[1]
  {
    var n := Find(s, seps);
    tail := s[n..];
    assert s == s[..n] + s[n..];
    if n < |s| { assert tail[1..] == s[n + 1..]; }
  }

  /** `split_once`: around the first occurrence of a character. */
  function SplitOnce(s: string, c: char): Option<(string, string)> {
    var n := Find(s, {c});
    if n == |s| then None else Some((s[..n], s[n + 1..]))
  }

  lemma SplitOnceAt(a: string, c: char, b: string)
    requires Free(a, {c})
    ensures SplitOnce(a + [c] + b, c) == Some((a, b))
  {
    var s := a + [c] + b;
    FindFree(a, [c] + b, {c});
    assert s == a + ([c] + b) && s[..|a|] == a && s[|a| + 1..] == b;
  }

  /** Lexicographic order on code points, which is Rust's order on `String`. */
  predicate Before(a: string, b: string) {
    b != "" && (a == "" || a[0] < b[0] || (a[0] == b[0] && Before(a[1..], b[1..])))
  }

  lemma {:induction false} BeforeTotal(a: string, b: string)
    ensures a == b || Before(a, b) || Before(b, a)
    ensures !(Before(a, b) && Before(b, a)) && !Before(a, a)
  {
    if a != "" && b != "" && a[0] == b[0] {
      BeforeTotal(a[1..], b[1..]);
      assert a == [a[0]] + a[1..] && b == [b[0]] + b[1..];
    }
    if a != "" { BeforeTotal(a[1..], a[1..]); }
  }

  lemma {:induction false} BeforeTransitive(a: string, b: string, c: string)
    requires Before(a, b) && Before(b, c)
    ensures Before(a, c)
  {
    if a != "" && a[0] == b[0] && b[0] == c[0] { BeforeTransitive(a[1..], b[1..], c[1..]); }
  }
}
