/** Material locks on order edits: what the rolls assigned to an order forbid to change. */
module OrderEdit {
  import opened Text
  import opened Numerals
  import opened OrderLayout

  datatype Layer = Layer(materialId: string, material: string, micron: string)

  /** The part of an order template that the locks are about. */
  datatype Template = Template(
    layers: seq<Layer>, first: Layer, second: Layer, third: Layer,
    frameProductSizeMm: real, frameCount: real, edgeAllowanceMm: real, products: seq<Product>)

  datatype Restrictions = Restrictions(
    lockedLayerIndices: seq<nat>, dimensionsLocked: bool, layerStructureLocked: bool, unresolvedMaterials: bool)

  const UNRESTRICTED := Restrictions([], false, false, false)

  predicate BlankLayer(l: Layer) {
    Trim(l.material) == "" && Trim(l.micron) == ""
  }

  function Keep(l: Layer): seq<Layer> {
    if BlankLayer(l) then [] else [l]
  }

  /** The layers in force: the list, or else the three legacy slots without an id. */
  function EffectiveLayers(t: Template): seq<Layer> {
    if t.layers != [] then t.layers
    else Keep(t.first.(materialId := "")) + Keep(t.second.(materialId := "")) + Keep(t.third.(materialId := ""))
  }

  // ---- Does a roll belong to a layer? ----

  /** `split_whitespace`, joined again by single spaces. */
  function Words(s: string): seq<string>
    decreases |s|
  {
    var t := TrimStart(s);
    if t == "" then []
    else
      var n := WordEnd(t);
      ShorterTrimmed(s);
      [t[..n]] + Words(t[n..])
  }

  function WordEnd(s: string): (n: nat)
    ensures n <= |s| && (s != "" && !IsWhitespace(s[0]) ==> n > 0)
  {
    if s == "" || IsWhitespace(s[0]) then 0 else 1 + WordEnd(s[1..])
  }

  lemma {:induction false} ShorterTrimmed(s: string)
    ensures |TrimStart(s)| <= |s|
    ensures TrimStart(s) != "" ==> !IsWhitespace(TrimStart(s)[0])
  {
    if s != "" && IsWhitespace(s[0]) { ShorterTrimmed(s[1..]); }
  }

  function JoinSpaces(words: seq<string>): string {
    if words == [] then "" else if |words| == 1 then words[0] else words[0] + " " + JoinSpaces(words[1..])
  }

  /** The comparison form of a material name; `lower` is Unicode lower-casing. */
  function Normalize(lower: string -> string, s: string): string {
    lower(JoinSpaces(Words(s)))
  }

  /** A decimal number above zero: digits with at most one dot, not all of them zero. */
  predicate PositiveNumber(raw: string) {
    var t := Trim(raw);
    var s := seq(|t|, i requires 0 <= i < |t| => if t[i] == ',' then '.' else t[i]);
    && (forall i :: 0 <= i < |s| ==> IsDigit(s[i]) || s[i] == '.')
    && (forall i, j :: 0 <= i < j < |s| ==> s[i] != '.' || s[j] != '.')
    && exists i :: 0 <= i < |s| && '1' <= s[i] <= '9'
  }

  /** Equal names, or a legacy roll name: the material, a space and a complete width/micron. */
  predicate MaterialMatches(lower: string -> string, identity: string, material: string) {
    var i, m := Normalize(lower, identity), Normalize(lower, material);
    && m != ""
    && (i == m ||
        (m + " " <= i &&
         var measures := SplitOnce(i[|m| + 1..], '/');
         measures.Some? && PositiveNumber(measures.value.0) && PositiveNumber(measures.value.1)))
  }

  /** Whether any identity of an assigned roll matches a layer. */
  type Matching = (seq<string>, Layer) -> bool

  function MaterialMatching(lower: string -> string): Matching {
    (identities: seq<string>, layer: Layer) =>
      exists identity :: identity in identities &&
        (MaterialMatches(lower, identity, layer.materialId) || MaterialMatches(lower, identity, layer.material))
  }

  // ---- The restrictions of an order ----

  predicate Resolved(matches: Matching, layers: seq<Layer>, roll: seq<string>) {
    exists k :: 0 <= k < |layers| && matches(roll, layers[k])
  }

  /** A layer is locked by a roll that matches it, or by one that matches no layer at all. */
  predicate Locked(matches: Matching, layers: seq<Layer>, rolls: seq<seq<string>>, k: nat)
    requires k < |layers|
  {
    exists roll :: roll in rolls && (matches(roll, layers[k]) || !Resolved(matches, layers, roll))
  }

  predicate Increasing(s: seq<nat>) {
    forall i, j :: 0 <= i < j < |s| ==> s[i] < s[j]
  }

  /** The restrictions the assigned rolls put on an order. */
  ghost predicate Restricts(matches: Matching, layers: seq<Layer>, rolls: seq<seq<string>>, r: Restrictions) {
    if rolls == [] then r == UNRESTRICTED
    else
      && r.dimensionsLocked && r.layerStructureLocked
      && (r.unresolvedMaterials <==> exists roll :: roll in rolls && !Resolved(matches, layers, roll))
      && Increasing(r.lockedLayerIndices)
      && forall k: nat :: k in r.lockedLayerIndices <==> k < |layers| && Locked(matches, layers, rolls, k)
  }

  method MatchingLayers(matches: Matching, layers: seq<Layer>, roll: seq<string>) returns (found: set<nat>)
    ensures forall k: nat :: k in found <==> k < |layers| && matches(roll, layers[k])
  {
    found := {};
    for n := 0 to |layers|
      invariant forall k: nat :: k in found <==> k < n && matches(roll, layers[k])
    {
      if matches(roll, layers[n]) { found := found + {n}; }
    }
  }

  function Below(bound: nat): (r: set<nat>)
    ensures forall k: nat :: k in r <==> k < bound
  {
    if bound == 0 then {} else Below(bound - 1) + {bound - 1}
  }

  method Ascending(s: set<nat>, bound: nat) returns (r: seq<nat>)
    requires forall k: nat :: k in s ==> k < bound
    ensures Increasing(r) && forall k: nat :: k in r <==> k in s
  {
    r := [];
    for n := 0 to bound
      invariant forall i :: 0 <= i < |r| ==> r[i] < n
      invariant Increasing(r) && forall k: nat :: k in r <==> k in s && k < n
    {
      if n in s { r := r + [n]; }
    }
  }

  /** One more roll locks the layers it matches, or all of them. */
  lemma LockedMore(matches: Matching, layers: seq<Layer>, rolls: seq<seq<string>>, roll: seq<string>, k: nat)
    requires k < |layers|
    ensures Locked(matches, layers, rolls + [roll], k) <==>
            Locked(matches, layers, rolls, k) || matches(roll, layers[k]) || !Resolved(matches, layers, roll)
  {
    assert roll in rolls + [roll];
    assert forall r :: r in rolls ==> r in rolls + [roll];
  }

  /** The loop over the assigned rolls. */
  method ForMaterials(matches: Matching, template: Template, rolls: seq<seq<string>>) returns (r: Restrictions)
    ensures Restricts(matches, EffectiveLayers(template), rolls, r)
  {
    if rolls == [] { return UNRESTRICTED; }
    var layers := EffectiveLayers(template);
    var locked: set<nat> := {};
    var unresolved := false;
    for n := 0 to |rolls|
      invariant unresolved <==> exists roll :: roll in rolls[..n] && !Resolved(matches, layers, roll)
      invariant forall k: nat :: k in locked <==> k < |layers| && Locked(matches, layers, rolls[..n], k)
    {
      var roll := rolls[n];
      assert rolls[..n + 1] == rolls[..n] + [roll];
      forall k: nat | k < |layers| { LockedMore(matches, layers, rolls[..n], roll, k); }
      var found := MatchingLayers(matches, layers, roll);
      if found == {} {
        assert forall k: nat :: k !in found;
        assert !Resolved(matches, layers, roll);
        unresolved := true;
        locked := locked + Below(|layers|);
      } else {
        assert Resolved(matches, layers, roll) by { var k :| k in found; }
        locked := locked + found;
      }
    }
    assert rolls[..|rolls|] == rolls;
    var indices := Ascending(locked, |layers|);
    r := Restrictions(indices, true, true, unresolved);
  }

  // ---- Which edits they permit ----

  predicate SameDimensions(t: Template, u: Template) {
    && t.frameProductSizeMm == u.frameProductSizeMm && t.frameCount == u.frameCount
    && t.edgeAllowanceMm == u.edgeAllowanceMm && t.products == u.products
  }

  predicate Permitted(r: Restrictions, original: Template, edited: Template) {
    var before, after := EffectiveLayers(original), EffectiveLayers(edited);
    && (r.layerStructureLocked ==> |before| == |after|)
    && (forall k :: k in r.lockedLayerIndices ==> k < |before| && k < |after| && before[k] == after[k])
    && (r.dimensionsLocked ==> SameDimensions(original, edited))
  }

  /** The checks in the order of the code, with its early returns. */
  method ValidateMaterialEdit(r: Restrictions, original: Template, edited: Template) returns (ok: bool)
    ensures ok <==> Permitted(r, original, edited)
  {
    var before, after := EffectiveLayers(original), EffectiveLayers(edited);
    if r.layerStructureLocked && |before| != |after| { return false; }
    for n := 0 to |r.lockedLayerIndices|
      invariant forall i :: 0 <= i < n ==>
        var k := r.lockedLayerIndices[i]; k < |before| && k < |after| && before[k] == after[k]
    {
      var k := r.lockedLayerIndices[n];
      assert k in r.lockedLayerIndices;
      if k >= |before| || k >= |after| || before[k] != after[k] { return false; }
    }
    ok := r.dimensionsLocked ==> SameDimensions(original, edited);
  }

  // ---- Runs of edits ----

  /** Every edit of the run was accepted against restrictions computed afresh for the same rolls. */
  ghost predicate Edits(matches: Matching, rolls: seq<seq<string>>, templates: seq<Template>, rs: seq<Restrictions>) {
    && |rs| == |templates|
    && (forall i :: 0 <= i < |rs| ==> Restricts(matches, EffectiveLayers(templates[i]), rolls, rs[i]))
    && forall i :: 0 < i < |rs| ==> Permitted(rs[i - 1], templates[i - 1], templates[i])
  }

  ghost predicate LocksKept(t: Template, r: Restrictions, u: Template, s: Restrictions) {
    var before, after := EffectiveLayers(t), EffectiveLayers(u);
    && |before| == |after| && SameDimensions(t, u)
    && (forall k :: k in r.lockedLayerIndices ==>
          k in s.lockedLayerIndices && k < |before| && before[k] == after[k])
    && r.unresolvedMaterials == s.unresolvedMaterials
    && (r.unresolvedMaterials ==> before == after)
  }

  /** A roll that matched a layer still matches that layer, since the layer is locked. */
  lemma StillResolved(matches: Matching, before: seq<Layer>, after: seq<Layer>, rolls: seq<seq<string>>,
                      roll: seq<string>)
    requires |before| == |after| && roll in rolls && Resolved(matches, before, roll)
    requires forall k: nat :: k < |before| && Locked(matches, before, rolls, k) ==> before[k] == after[k]
    ensures Resolved(matches, after, roll)
  {
    var k: nat :| k < |before| && matches(roll, before[k]);
    assert Locked(matches, before, rolls, k);
    assert matches(roll, after[k]);
  }

  /** One accepted edit keeps every lock. */
  lemma LocksKeptByEdit(matches: Matching, rolls: seq<seq<string>>, t: Template, r: Restrictions, u: Template,
                        s: Restrictions)
    requires rolls != [] && Permitted(r, t, u)
    requires Restricts(matches, EffectiveLayers(t), rolls, r) && Restricts(matches, EffectiveLayers(u), rolls, s)
    ensures LocksKept(t, r, u, s)
  {
    var before, after := EffectiveLayers(t), EffectiveLayers(u);
    if r.unresolvedMaterials {
      var roll :| roll in rolls && !Resolved(matches, before, roll);
      assert forall k: nat :: k < |before| ==> Locked(matches, before, rolls, k);
      assert forall k: nat :: k < |before| ==> k in r.lockedLayerIndices;
      assert before == after;
    } else {
      forall roll | roll in rolls ensures Resolved(matches, after, roll) {
        StillResolved(matches, before, after, rolls, roll);
      }
      forall k | k in r.lockedLayerIndices ensures k in s.lockedLayerIndices {
        assert Locked(matches, after, rolls, k);
      }
    }
  }

  /** Locks only grow: along any run of accepted edits a locked layer keeps its value and its index,
      the dimensions and the number of layers never change, and an unresolved roll freezes them all. */
  lemma {:induction false} LocksOnlyGrow(matches: Matching, rolls: seq<seq<string>>, templates: seq<Template>,
                                         rs: seq<Restrictions>, i: nat, j: nat)
    requires rolls != [] && Edits(matches, rolls, templates, rs) && i <= j < |rs|
    ensures LocksKept(templates[i], rs[i], templates[j], rs[j])
  {
    if i < j {
      LocksOnlyGrow(matches, rolls, templates, rs, i, j - 1);
      LocksKeptByEdit(matches, rolls, templates[j - 1], rs[j - 1], templates[j], rs[j]);
    } else {
      assert Restricts(matches, EffectiveLayers(templates[i]), rolls, rs[i]);
    }
  }
}
