/** Decoding a manifest from an untrusted object graph: check that it is JSON, decode, validate and
    normalise. */
module ManifestDecoding {
  import opened Json
  import opened Diff
  import opened Decode
  import opened DecodeProofs
  import opened ManifestGrammar
  import ObjectGraph

  datatype Decoding = Decoded(value: Json) | Incompatible | Undecodable(code: Code, path: Path) | Invalid

  ghost predicate IsManifest(m: Meaning) {
    Accepts(ShapeOf, Ref(Manifest), m)
  }

  /** The validator reads members by name, so it sees the meaning. */
  ghost function DecodeManifest(input: Json, valid: Meaning -> bool): Decoding {
    var r := DecodeShape(ShapeOf, Ref(Manifest), input, []);
    if r.Err? then Undecodable(r.code, r.path)
    else if !valid(MeaningOf(r.value)) then Invalid
    else Decoded(Canonical(r.value))
  }

  ghost function DecodeAdminAppManifest(
    heap: ObjectGraph.Heap, input: ObjectGraph.Value, valid: Meaning -> bool): Decoding
  {
    if !ObjectGraph.Accepted(heap, input, {}) then Incompatible
    else DecodeManifest(ObjectGraph.Unfold(heap, input, {}), valid)
  }

  /** A value is decoded exactly when it is a valid manifest, and then into its canonical form. */
  lemma DecodesToCanonicalForm(input: Json, valid: Meaning -> bool)
    requires Clean(input)
    ensures var r, m := DecodeManifest(input, valid), MeaningOf(input);
      (r.Undecodable? <==> !IsManifest(m)) && (r.Invalid? <==> IsManifest(m) && !valid(m)) &&
      (r.Decoded? <==> IsManifest(m) && valid(m)) && (r.Decoded? ==> r.value == Canonical(input))
  {
    ManifestGrammarAgrees();
    DecodeMeaning(ShapeOf, Ref(Manifest), input, []);
    var r := DecodeShape(ShapeOf, Ref(Manifest), input, []);
    if r.Ok? {
      CanonicalIdentifiesMeaning(r.value, input);
    }
  }

  lemma {:induction false} CanonicalIsCompatible(v: Json)
    requires Clean(v)
    ensures Clean(Canonical(v))
    decreases v
  {
    match v
    case Arr(items) =>
      forall x | x in CanonicalItems(items) ensures Clean(x) {
        var i :| 0 <= i < |items| && CanonicalItems(items)[i] == x;
        CanonicalItemsAt(items, i);
        CanonicalIsCompatible(items[i]);
      }
    case Obj(ms) =>
      CanonicalMembersDistinct(ms);
      SortMembersSorts(CanonicalMembers(ms));
      SortedHasDistinctKeys(SortMembers(CanonicalMembers(ms)));
      forall x | x in CanonicalMembers(ms) ensures Clean(x.value) {
        CanonicalMembersContent(ms, x);
        var m :| m in ms && !m.value.Undefined? && x == Member(m.key, Canonical(m.value));
        CanonicalIsCompatible(m.value);
      }
    case _ =>
  }

  /** Decoding what was decoded changes nothing. */
  lemma DecodingIsIdempotent(input: Json, valid: Meaning -> bool)
    requires Clean(input) && DecodeManifest(input, valid).Decoded?
    ensures DecodeManifest(DecodeManifest(input, valid).value, valid) == DecodeManifest(input, valid)
  {
    DecodesToCanonicalForm(input, valid);
    var m := Canonical(input);
    CanonicalIsCompatible(input);
    CanonicalKeepsMeaning(input);
    DecodesToCanonicalForm(m, valid);
    CanonicalIsCanonical(input);
    CanonicalIsFixed(m);
  }

  /** No object holds two properties of one name. */
  ghost predicate WellNamed(heap: ObjectGraph.Heap) {
    forall id | id in heap && heap[id].ObjectNode? :: ObjectGraph.DistinctNames(heap[id].properties)
  }

  /** The value a sound graph stands for, shared objects repeated. */
  ghost function Tree(heap: ObjectGraph.Heap, input: ObjectGraph.Value): Json
    requires ObjectGraph.Sound(heap, input)
  {
    ObjectGraph.AcceptedMeansSound(heap, input, {});
    ObjectGraph.Unfold(heap, input, {})
  }

  lemma TreeIsDecoded(heap: ObjectGraph.Heap, input: ObjectGraph.Value, valid: Meaning -> bool)
    requires WellNamed(heap) && ObjectGraph.Sound(heap, input)
    ensures Clean(Tree(heap, input))
    ensures DecodeAdminAppManifest(heap, input, valid) == DecodeManifest(Tree(heap, input), valid)
  {
    ObjectGraph.AcceptedMeansSound(heap, input, {});
    ObjectGraph.UnfoldIsClean(heap, input, {});
  }

  /** Of all object graphs exactly the sound ones that mean a valid manifest are decoded, and the
      result means the same as the graph and is canonical. */
  lemma DecodesExactlyTheManifests(heap: ObjectGraph.Heap, input: ObjectGraph.Value, valid: Meaning -> bool)
    requires WellNamed(heap)
    ensures var r := DecodeAdminAppManifest(heap, input, valid);
      if !ObjectGraph.Sound(heap, input) then r == Incompatible
      else
        var m := MeaningOf(Tree(heap, input));
        (r.Undecodable? <==> !IsManifest(m)) && (r.Invalid? <==> IsManifest(m) && !valid(m)) &&
        (r.Decoded? <==> IsManifest(m) && valid(m)) &&
        (r.Decoded? ==> MeaningOf(r.value) == m && IsCanonical(r.value))
  {
    ObjectGraph.AcceptedMeansSound(heap, input, {});
    if ObjectGraph.Sound(heap, input) {
      var tree := Tree(heap, input);
      TreeIsDecoded(heap, input, valid);
      DecodesToCanonicalForm(tree, valid);
      CanonicalIsCanonical(tree);
      CanonicalKeepsMeaning(tree);
    }
  }

  lemma SameMeaningSameResult(v: Json, w: Json, valid: Meaning -> bool)
    requires Clean(v) && Clean(w) && MeaningOf(v) == MeaningOf(w)
    ensures var r, s := DecodeManifest(v, valid), DecodeManifest(w, valid);
      (r.Decoded? <==> s.Decoded?) && (r.Decoded? ==> r == s)
  {
    DecodesToCanonicalForm(v, valid);
    DecodesToCanonicalForm(w, valid);
    CanonicalIdentifiesMeaning(v, w);
  }

  /** Sharing, the order of members and the sign of zero do not show in what is decoded. */
  lemma SameMeaningSameManifest(
    heap: ObjectGraph.Heap, input: ObjectGraph.Value, heap': ObjectGraph.Heap, input': ObjectGraph.Value,
    valid: Meaning -> bool)
    requires WellNamed(heap) && WellNamed(heap')
    requires ObjectGraph.Sound(heap, input) && ObjectGraph.Sound(heap', input')
    requires MeaningOf(Tree(heap, input)) == MeaningOf(Tree(heap', input'))
    ensures var r, r' := DecodeAdminAppManifest(heap, input, valid), DecodeAdminAppManifest(heap', input', valid);
      (r.Decoded? <==> r'.Decoded?) && (r.Decoded? ==> r == r')
  {
    TreeIsDecoded(heap, input, valid);
    TreeIsDecoded(heap', input', valid);
    SameMeaningSameResult(Tree(heap, input), Tree(heap', input'), valid);
  }
}
