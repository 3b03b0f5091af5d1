/** A roll named by a split still belongs to its material: names made by `SplitName` are among those
    that `OrderEdit` locks a layer for. */
module RollNames {
  import opened Text
  import opened Numerals
  import opened FixedPoint
  import opened RawSplit
  import opened SplitName
  import opened OrderEdit

  predicate Caseless(c: char) {
    IsDigit(c) || c in {' ', '.', '/'}
  }

  /** What the proof needs of lower-casing: text without letters at the end is left alone. */
  ghost predicate KeepsCaseless(lower: string -> string) {
    forall a: string, t: string {:trigger lower(a + t)} ::
      (forall i :: 0 <= i < |t| ==> Caseless(t[i])) ==> lower(a + t) == lower(a) + t
  }

  predicate Solid(s: string) {
    s != "" && forall i :: 0 <= i < |s| ==> !IsWhitespace(s[i])
  }

  lemma {:induction false} WordEndSolid(s: string, rest: string)
    requires (forall i :: 0 <= i < |s| ==> !IsWhitespace(s[i])) && (rest == "" || IsWhitespace(rest[0]))
    ensures WordEnd(s + rest) == |s|
  {
    if s == "" {
      assert s + rest == rest;
    } else {
      assert (s + rest)[1..] == s[1..] + rest;
      WordEndSolid(s[1..], rest);
    }
  }

  lemma {:induction false} WordEndPrefix(s: string)
    ensures forall i :: 0 <= i < WordEnd(s) ==> !IsWhitespace(s[i])
    ensures WordEnd(s) < |s| ==> IsWhitespace(s[WordEnd(s)])
  {
    if s != "" && !IsWhitespace(s[0]) { WordEndPrefix(s[1..]); }
  }

  lemma {:induction false} TrimStartBefore(b: string, tail: string)
    requires Solid(tail)
    ensures TrimStart(b + " " + tail) == if TrimStart(b) == "" then tail else TrimStart(b) + " " + tail
  {
    var s := b + " " + tail;
    if b == "" {
      assert s[1..] == tail;
      assert TrimStart(tail) == tail;
    } else {
      assert s[0] == b[0] && s[1..] == b[1..] + " " + tail;
      if IsWhitespace(b[0]) { TrimStartBefore(b[1..], tail); }
    }
  }

  /** The first word of a text that starts with one, and the rest. */
  lemma FirstWord(s: string)
    requires s != "" && !IsWhitespace(s[0])
    ensures Words(s) == [s[..WordEnd(s)]] + Words(s[WordEnd(s)..])
  {
    assert TrimStart(s) == s;
  }

  lemma SkipSpace(s: string)
    ensures Words(s) == Words(TrimStart(s))
  {
    ShorterTrimmed(s);
    assert TrimStart(TrimStart(s)) == TrimStart(s);
  }

  lemma LastWord(tail: string)
    requires Solid(tail)
    ensures Words(tail) == [tail]
  {
    WordEndSolid(tail, "");
    assert tail + "" == tail && tail[..|tail|] == tail && tail[|tail|..] == "";
    FirstWord(tail);
    assert Words("") == [];
  }

  /** The word that ends before the space is not longer with another word behind the space. */
  lemma WordEndBefore(t: string, tail: string)
    ensures var n := WordEnd(t); var full := t + " " + tail;
            WordEnd(full) == n && full[..n] == t[..n] && full[n..] == t[n..] + " " + tail
  {
    var n := WordEnd(t);
    var full := t + " " + tail;
    WordEndPrefix(t);
    assert full == t[..n] + (t[n..] + " " + tail);
    WordEndSolid(t[..n], t[n..] + " " + tail);
  }

  /** One more word after a space is one more word. */
  lemma {:induction false} WordsAppend(b: string, tail: string)
    requires Solid(tail)
    ensures Words(b + " " + tail) == Words(b) + [tail]
    decreases |b|
  {
    var t := TrimStart(b);
    TrimStartBefore(b, tail);
    ShorterTrimmed(b);
    SkipSpace(b + " " + tail);
    SkipSpace(b);
    if t == "" {
      LastWord(tail);
      assert Words("") == [];
    } else {
      var n := WordEnd(t);
      WordEndBefore(t, tail);
      FirstWord(t);
      FirstWord(t + " " + tail);
      WordsAppend(t[n..], tail);
    }
  }

  lemma {:induction false} JoinAppend(words: seq<string>, tail: string)
    requires words != []
    ensures JoinSpaces(words + [tail]) == JoinSpaces(words) + " " + tail
  {
    if |words| > 1 {
      assert (words + [tail])[1..] == words[1..] + [tail];
      JoinAppend(words[1..], tail);
    } else {
      assert (words + [tail])[1..] == [tail];
    }
  }

  lemma NonZeroDigit(digits: string, p: nat, v: int) returns (i: nat)
    requires AllDigits(digits) && v == Value(digits) * p && v > 0
    ensures i < |digits| && '1' <= digits[i] <= '9'
  {
    Annihilate(p);
    ValueZero(digits);
    i :| 0 <= i < |digits| && digits[i] != '0';
  }

  lemma SpelledDigit(s: string, whole: string, fraction: string, i: nat) returns (k: nat)
    requires Spelled(s, whole, fraction) && i < |whole + fraction|
    ensures k < |s| && s[k] == (whole + fraction)[i]
  {
    k := if i < |whole| then i else i + 1;
  }

  lemma SpelledDots(s: string, whole: string, fraction: string)
    requires Spelled(s, whole, fraction)
    ensures forall i, j :: 0 <= i < j < |s| ==> s[i] != '.' || s[j] != '.'
  {
    assert forall i :: 0 <= i < |s| && s[i] == '.' ==> i == |whole|;
  }

  /** A spelled positive amount has one dot at most and a digit that is not zero. */
  lemma SpelledPositive(s: string, v: int) returns (k: nat)
    requires Denotes(s, v) && v > 0
    ensures forall i, j :: 0 <= i < j < |s| ==> s[i] != '.' || s[j] != '.'
    ensures k < |s| && '1' <= s[k] <= '9'
  {
    var whole, fraction :| Spelled(s, whole, fraction) && v == Value(whole + fraction) * Pow10(6 - |fraction|);
    var i := NonZeroDigit(whole + fraction, Pow10(6 - |fraction|), v);
    k := SpelledDigit(s, whole, fraction, i);
    SpelledDots(s, whole, fraction);
  }

  lemma PositiveNumeral(s: string, k: nat)
    requires Trim(s) == s && Numeral(s) && k < |s| && '1' <= s[k] <= '9'
    requires forall i, j :: 0 <= i < j < |s| ==> s[i] != '.' || s[j] != '.'
    ensures PositiveNumber(s)
  {
    var dotted := seq(|s|, i requires 0 <= i < |s| => if s[i] == ',' then '.' else s[i]);
    assert dotted == s;
  }

  /** A positive decimal is a positive number for the matcher too. */
  lemma DecimalPositive(s: string)
    requires Plain(s) && Numeral(s)
    ensures PositiveNumber(s)
  {
    var v := Decimal(s).value;
    DecimalExact(s, v);
    var k := SpelledPositive(s, v);
    PositiveNumeral(s, k);
  }

  lemma Measures(w: string, m: string)
    requires Numeral(w) && Numeral(m)
    ensures Solid(w + "/" + m) && SplitOnce(w + "/" + m, '/') == Some((w, m))
    ensures var t := " " + w + "/" + m; forall i :: 0 <= i < |t| ==> Caseless(t[i])
  {
    SplitOnceAt(w, '/', m);
  }

  lemma LowerAppend(lower: string -> string, joined: string, tail: string)
    requires KeepsCaseless(lower) && forall i :: 0 <= i < |tail| ==> Caseless(tail[i])
    ensures lower(joined + " " + tail) == lower(joined) + " " + tail
  {
    var t := " " + tail;
    assert joined + " " + tail == joined + t;
    assert lower(joined + t) == lower(joined) + t;
    assert lower(joined) + t == lower(joined) + " " + tail;
  }

  /** The comparison form of a full roll name is that of its base, a space and the measures. */
  lemma NormalizedName(lower: string -> string, b: string, tail: string)
    requires KeepsCaseless(lower) && Words(b) != [] && Solid(tail)
    requires forall i :: 0 <= i < |tail| ==> Caseless(tail[i])
    ensures Normalize(lower, b + " " + tail) == Normalize(lower, b) + " " + tail
  {
    WordsAppend(b, tail);
    JoinAppend(Words(b), tail);
    LowerAppend(lower, JoinSpaces(Words(b)), tail);
  }

  lemma MatchesBase(lower: string -> string, b: string, w: string, m: string)
    requires KeepsCaseless(lower) && Words(b) != [] && Normalize(lower, b) != ""
    requires Numeral(w) && Numeral(m) && PositiveNumber(w) && PositiveNumber(m)
    ensures MaterialMatches(lower, b + " " + w + "/" + m, b)
  {
    var tail, material := w + "/" + m, Normalize(lower, b);
    Measures(w, m);
    NormalizedName(lower, b, tail);
    assert b + " " + tail == b + " " + w + "/" + m;
    assert (material + " " + tail)[|material| + 1..] == tail;
  }

  /** The name a split gives to a roll matches the material it was cut from. */
  lemma SplitRollMatches(lower: string -> string, name: string, width: string, micron: string)
    requires KeepsCaseless(lower) && Plain(width) && Plain(micron)
    requires Words(Base(name)) != [] && Normalize(lower, Base(name)) != ""
    ensures MaterialMatches(lower, SplitItemName(name, width, micron), Base(name))
  {
    var b := Base(name);
    BaseTidy(Measure, name);
    CompactKeeps(width);
    CompactKeeps(micron);
    FullName(b, Compact(width), Compact(micron));
    DecimalPositive(Compact(width));
    DecimalPositive(Compact(micron));
    MatchesBase(lower, b, Compact(width), Compact(micron));
  }

  /** So a layer of that material is locked on every order the roll is assigned to, whatever other rolls
      and layers there are. */
  lemma SplitRollLocks(lower: string -> string, name: string, width: string, micron: string,
                       layers: seq<Layer>, rolls: seq<seq<string>>, roll: seq<string>, k: nat)
    requires KeepsCaseless(lower) && Plain(width) && Plain(micron)
    requires Words(Base(name)) != [] && Normalize(lower, Base(name)) != ""
    requires roll in rolls && SplitItemName(name, width, micron) in roll
    requires k < |layers| && (layers[k].material == Base(name) || layers[k].materialId == Base(name))
    ensures Locked(MaterialMatching(lower), layers, rolls, k)
  {
    SplitRollMatches(lower, name, width, micron);
    assert MaterialMatching(lower)(roll, layers[k]);
  }

  /** And no edit of the order can change it. */
  lemma SplitRollFreezes(lower: string -> string, name: string, width: string, micron: string, rolls: seq<seq<string>>,
                         roll: seq<string>, original: Template, edited: Template, r: Restrictions, k: nat)
    requires KeepsCaseless(lower) && Plain(width) && Plain(micron)
    requires Words(Base(name)) != [] && Normalize(lower, Base(name)) != ""
    requires roll in rolls && SplitItemName(name, width, micron) in roll
    requires k < |EffectiveLayers(original)| && EffectiveLayers(original)[k].material == Base(name)
    requires Restricts(MaterialMatching(lower), EffectiveLayers(original), rolls, r) && Permitted(r, original, edited)
    ensures k < |EffectiveLayers(edited)| && EffectiveLayers(edited)[k] == EffectiveLayers(original)[k]
  {
    SplitRollLocks(lower, name, width, micron, EffectiveLayers(original), rolls, roll, k);
    assert k in r.lockedLayerIndices;
  }
}
