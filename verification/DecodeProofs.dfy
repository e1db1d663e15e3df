/** The decoder loses and invents nothing: it accepts exactly the values of the manifest's type,
    and what it returns is the input up to the order of keys. Each decoder names its members twice,
    once to let them through and once to build them; that the two lists agree is what makes it so. */
module DecodeProofs {
  import opened Json
  import opened Diff
  import opened Decode

  /** What the compatibility check lets through: no undefined, no number that is not finite. */
  ghost predicate Compatible(v: Json) {
    match v
    case Undefined => false
    case Num(n) => n.Finite? || n.NegativeZero?
    case Arr(items) => forall x | x in items :: Compatible(x)
    case Obj(ms) => forall m | m in ms :: Compatible(m.value)
    case _ => true
  }

  ghost predicate Clean(v: Json) {
    WellFormed(v) && Compatible(v)
  }

  // ---------------------------------------------------------------- the types

  /** The values of a type: a shape read on meanings, where the order of keys does not exist. */
  ghost predicate Accepts(g: Grammar, shape: Shape, m: Meaning)
    requires Direct(g)
    decreases m, if shape.Ref? then 1 else 0, shape
  {
    match shape
    case Text => m.Atom? && m.v.Str?
    case Flag => m.Atom? && m.v.Bool?
    case Integer => m.Atom? && m.v.Num? && IsSafeInteger(m.v.n)
    case Scalar => m.Atom? && IsScalar(m.v)
    case ScalarOrList => (m.Atom? && IsScalar(m.v)) || (m.List? && forall x | x in m.items :: x.Atom? && IsScalar(x.v))
    case Strings(values) => m.Atom? && m.v.Str? && m.v.s in values
    case Numbers(values) => m.Atom? && IsOneOf(m.v, values)
    case ListOf(item) => m.List? && forall x | x in m.items :: Accepts(g, item, x)
    case Record(_, fields) => m.Table? && AcceptsFields(g, fields, m) && Covered(fields, m)
    case Union(tag, early, variants, _) =>
      m.Table? && AcceptsFields(g, early, m) && tag in m.fields &&
      m.fields[tag].Atom? && var found := VariantFor(variants, m.fields[tag].v);
      found != [] && AcceptsFields(g, found[0].fields, m) && Covered(found[0].fields, m)
    case Ref(rule) => Accepts(g, g(rule), m)
  }

  ghost predicate AcceptsFields(g: Grammar, fields: seq<Field>, m: Meaning)
    requires Direct(g) && m.Table?
    decreases m, 0, fields
  {
    forall f | f in fields ::
      (f.required ==> f.key in m.fields) && (f.key in m.fields ==> Accepts(g, f.shape, m.fields[f.key]))
  }

  /** Every member has a field that builds it. */
  ghost predicate Covered(fields: seq<Field>, m: Meaning)
    requires m.Table?
  {
    forall k | k in m.fields :: Knows(fields, k)
  }

  // ---------------------------------------------------------------- meanings of objects

  lemma CleanFields(ms: seq<Member>, k: string)
    requires Clean(Obj(ms))
    ensures k in MeaningOf(Obj(ms)).fields <==> Has(ms, k)
    ensures Has(ms, k) ==> MeaningOf(Obj(ms)).fields[k] == MeaningOf(Get(ms, k)) && Clean(Get(ms, k))
  {
    if Has(ms, k) {
      var m := Member(k, Get(ms, k));
      assert m in ms && Compatible(m.value);
    }
  }

  /** A rebuilt object with the same keys and, key by key, the same meanings has the same meaning. */
  lemma SameFieldsSameMeaning(ms: seq<Member>, ns: seq<Member>)
    requires Clean(Obj(ms)) && Clean(Obj(ns))
    requires forall k :: Has(ms, k) <==> Has(ns, k)
    requires forall m | m in ns :: Has(ms, m.key) && MeaningOf(m.value) == MeaningOf(Get(ms, m.key))
    ensures MeaningOf(Obj(ms)) == MeaningOf(Obj(ns))
  {
    var a, b := MeaningOf(Obj(ms)).fields, MeaningOf(Obj(ns)).fields;
    forall k ensures (k in a <==> k in b) && (k in a ==> a[k] == b[k]) {
      CleanFields(ms, k);
      CleanFields(ns, k);
      if k in b {
        assert Member(k, Get(ns, k)) in ns;
      }
    }
    assert a == b;
  }

  // ---------------------------------------------------------------- decoding

  ghost predicate Rebuilt(input: Json, output: Json) {
    Clean(output) && MeaningOf(output) == MeaningOf(input)
  }

  ghost predicate AcceptsFrom(g: Grammar, shape: Shape, items: seq<Json>, i: nat)
    requires Direct(g)
  {
    forall k | i <= k < |items| :: Accepts(g, shape, MeaningOf(items[k]))
  }

  ghost predicate RebuiltFrom(items: seq<Json>, i: nat, out: seq<Json>) {
    i <= |items| && |out| == |items| - i && forall k | i <= k < |items| :: Rebuilt(items[k], out[k - i])
  }

  lemma RebuiltOneMore(items: seq<Json>, i: nat, first: Json, out: seq<Json>)
    requires i < |items| && Rebuilt(items[i], first) && RebuiltFrom(items, i + 1, out)
    ensures RebuiltFrom(items, i, [first] + out)
  {
  }

  lemma {:induction false} DecodeItemsMeaning(g: Grammar, shape: Shape, items: seq<Json>, i: nat, path: Path)
    requires Agreeing(g) && i <= |items| && Agrees(shape) && forall x | x in items :: Clean(x)
    ensures DecodeItems(g, shape, items, i, path).Ok? <==> AcceptsFrom(g, shape, items, i)
    ensures DecodeItems(g, shape, items, i, path).Ok? ==>
      RebuiltFrom(items, i, DecodeItems(g, shape, items, i, path).value)
    decreases items, 0, |items| - i, 0
  {
    if i < |items| {
      assert items[i] in items;
      DecodeMeaning(g, shape, items[i], path + [Index(i)]);
      DecodeItemsMeaning(g, shape, items, i + 1, path);
      assert AcceptsFrom(g, shape, items, i) <==>
        Accepts(g, shape, MeaningOf(items[i])) && AcceptsFrom(g, shape, items, i + 1);
      var first, rest := DecodeShape(g, shape, items[i], path + [Index(i)]), DecodeItems(g, shape, items, i + 1, path);
      if first.Ok? && rest.Ok? {
        RebuiltOneMore(items, i, first.value, rest.value);
      }
    }
  }

  lemma ListMeaning(items: seq<Json>, out: seq<Json>)
    requires |items| == |out| && forall k | 0 <= k < |items| :: Rebuilt(items[k], out[k])
    ensures Rebuilt(Arr(items), Arr(out))
  {
    assert MeaningOf(Arr(items)).items == MeaningOf(Arr(out)).items;
  }

  lemma {:induction false} DecodeListMeaning(g: Grammar, shape: Shape, items: seq<Json>, path: Path)
    requires Agreeing(g) && Clean(Arr(items)) && Agrees(shape)
    ensures var r := DecodeItems(g, shape, items, 0, path);
      (r.Ok? <==> AcceptsEach(g, shape, MeaningOf(Arr(items)).items)) &&
      (r.Ok? ==> Rebuilt(Arr(items), Arr(r.value)))
    decreases items, 1
  {
    DecodeItemsMeaning(g, shape, items, 0, path);
    AcceptsEachItem(g, shape, items);
    var r := DecodeItems(g, shape, items, 0, path);
    if r.Ok? {
      ListMeaning(items, r.value);
    }
  }

  lemma ItemMeaning(items: seq<Json>, k: nat)
    requires k < |items|
    ensures |MeaningOf(Arr(items)).items| == |items| && MeaningOf(Arr(items)).items[k] == MeaningOf(items[k])
  {
  }

  ghost predicate AcceptsEach(g: Grammar, shape: Shape, ms: seq<Meaning>)
    requires Direct(g)
  {
    forall x | x in ms :: Accepts(g, shape, x)
  }

  lemma AcceptsEachItem(g: Grammar, shape: Shape, items: seq<Json>)
    requires Direct(g)
    ensures AcceptsEach(g, shape, MeaningOf(Arr(items)).items) <==> AcceptsFrom(g, shape, items, 0)
  {
    var ms := MeaningOf(Arr(items)).items;
    if AcceptsEach(g, shape, ms) {
      forall k | 0 <= k < |items| ensures Accepts(g, shape, MeaningOf(items[k])) {
        ItemMeaning(items, k);
        assert ms[k] in ms;
      }
      assert AcceptsFrom(g, shape, items, 0);
    }
    if AcceptsFrom(g, shape, items, 0) {
      forall x | x in ms ensures Accepts(g, shape, x) {
        var k :| 0 <= k < |ms| && ms[k] == x;
        assert |ms| == |items|;
        ItemMeaning(items, k);
        assert Accepts(g, shape, MeaningOf(items[k]));
      }
      assert AcceptsEach(g, shape, ms);
    }
  }

  lemma AcceptsFieldsStep(g: Grammar, fields: seq<Field>, m: Meaning)
    requires Direct(g) && fields != [] && m.Table?
    ensures AcceptsFields(g, fields, m) <==>
      AcceptsFields(g, fields[1..], m) && (fields[0].required ==> fields[0].key in m.fields) &&
      (fields[0].key in m.fields ==> Accepts(g, fields[0].shape, m.fields[fields[0].key]))
  {
    assert forall g :: g in fields <==> g == fields[0] || g in fields[1..];
  }

  /** The members a decoder builds: one for each field that is present, with the same meaning. */
  ghost predicate FieldsRebuilt(fields: seq<Field>, input: Json, ms: seq<Member>)
    requires input.Obj?
  {
    DistinctKeys(ms) &&
    (forall m | m in ms ::
      Knows(fields, m.key) && Has(input.members, m.key) && Rebuilt(Get(input.members, m.key), m.value)) &&
    (forall f | f in fields && Has(input.members, f.key) :: Has(ms, f.key))
  }

  lemma AddDistinct(m: Member, ms: seq<Member>)
    requires DistinctKeys(ms) && !Has(ms, m.key)
    ensures DistinctKeys([m] + ms)
  {
    var out := [m] + ms;
    forall i, j | 0 <= i < j < |out| ensures out[i].key != out[j].key {
      assert out[j] == ms[j - 1] && ms[j - 1] in ms;
    }
  }

  lemma FieldAdded(fields: seq<Field>, input: Json, value: Json, ms: seq<Member>)
    requires input.Obj? && fields != [] && FieldsRebuilt(fields[1..], input, ms)
    requires Has(input.members, fields[0].key) && Rebuilt(Get(input.members, fields[0].key), value)
    ensures FieldsRebuilt(fields, input, Put(Member(fields[0].key, value), ms))
  {
    var f, rest := fields[0], fields[1..];
    var m := Member(f.key, value);
    assert forall g :: g in fields <==> g == f || g in rest;
    if !Has(ms, f.key) {
      AddDistinct(m, ms);
      var out := [m] + ms;
      forall g | g in fields && Has(input.members, g.key) ensures Has(out, g.key) {
        if g == f {
          assert m in out;
        } else {
          var n :| n in ms && n.key == g.key;
          assert n in out;
        }
      }
    }
  }

  lemma FieldSkipped(fields: seq<Field>, input: Json, ms: seq<Member>)
    requires input.Obj? && fields != [] && FieldsRebuilt(fields[1..], input, ms) && !Has(input.members, fields[0].key)
    ensures FieldsRebuilt(fields, input, ms)
  {
    assert forall g :: g in fields <==> g == fields[0] || g in fields[1..];
  }

  lemma {:induction false} DecodeFieldsMeaning(g: Grammar, fields: seq<Field>, input: Json, path: Path)
    requires Agreeing(g) && input.Obj? && Clean(input) && AgreesEach(fields)
    ensures var r := DecodeFields(g, fields, input, path);
      (r.Ok? <==> AcceptsFields(g, fields, MeaningOf(input))) && (r.Ok? ==> FieldsRebuilt(fields, input, r.value))
    decreases input, 0, fields, 0
  {
    if fields != [] {
      var f, rest := fields[0], fields[1..];
      assert f in fields && forall g | g in rest :: g in fields;
      AcceptsFieldsStep(g, fields, MeaningOf(input));
      CleanFields(input.members, f.key);
      DecodeFieldsMeaning(g, rest, input, path);
      var tail := DecodeFields(g, rest, input, path);
      if Has(input.members, f.key) {
        DecodeMeaning(g, f.shape, Get(input.members, f.key), path + [Key(f.key)]);
        var first := DecodeShape(g, f.shape, Get(input.members, f.key), path + [Key(f.key)]);
        if first.Ok? && tail.Ok? {
          FieldAdded(fields, input, first.value, tail.value);
        }
      } else if tail.Ok? {
        FieldSkipped(fields, input, tail.value);
      }
    }
  }

  ghost predicate Allowed(exact: seq<string>, m: Meaning)
    requires m.Table?
  {
    forall k | k in m.fields :: k in exact
  }

  /** A decoder names its members twice: the first list decides what is accepted, and the result
      means the same as the input exactly when the second list covers the input. A member that is
      let through and not built would be accepted and lost. */
  lemma {:induction false} DecodeExactlyMeaning(g: Grammar, exact: seq<string>, fields: seq<Field>, input: Json,
                                                path: Path)
    requires Agreeing(g) && input.Obj? && Clean(input) && AgreesEach(fields)
    ensures var r, m := DecodeExactly(g, exact, fields, input, path), MeaningOf(input);
      (r.Ok? <==> AcceptsFields(g, fields, m) && Allowed(exact, m)) &&
      (r.Ok? ==> (Rebuilt(input, r.value) <==> Covered(fields, m)))
    decreases input, 0, fields, 1
  {
    DecodeFieldsMeaning(g, fields, input, path);
    AllAllowed(exact, input);
    if DecodeFields(g, fields, input, path).Ok? {
      RebuiltObject(fields, input, DecodeFields(g, fields, input, path).value);
    }
  }

  lemma KeysOfMeaning(input: Json)
    requires input.Obj? && Clean(input)
    ensures forall k :: k in MeaningOf(input).fields <==> Has(input.members, k)
  {
    forall k ensures k in MeaningOf(input).fields <==> Has(input.members, k) {
      CleanFields(input.members, k);
    }
  }

  lemma AllAllowed(exact: seq<string>, input: Json)
    requires input.Obj? && Clean(input)
    ensures Unknown(input.members, exact) == [] <==> Allowed(exact, MeaningOf(input))
  {
    KeysOfMeaning(input);
    if Unknown(input.members, exact) == [] {
      forall k | Has(input.members, k) ensures k in exact {
        assert Member(k, Get(input.members, k)) in input.members;
      }
    } else {
      assert Has(input.members, Unknown(input.members, exact)[0]);
    }
  }

  lemma BuiltKeys(fields: seq<Field>, input: Json, ms: seq<Member>, k: string)
    requires input.Obj? && FieldsRebuilt(fields, input, ms)
    ensures Has(ms, k) <==> Has(input.members, k) && Knows(fields, k)
  {
    if Has(ms, k) {
      assert Member(k, Get(ms, k)) in ms;
    }
    if Has(input.members, k) && Knows(fields, k) {
      var f :| f in fields && f.key == k;
    }
  }

  lemma RebuiltObject(fields: seq<Field>, input: Json, ms: seq<Member>)
    requires input.Obj? && Clean(input) && FieldsRebuilt(fields, input, ms)
    ensures Rebuilt(input, Obj(ms)) <==> Covered(fields, MeaningOf(input))
  {
    assert Clean(Obj(ms));
    KeysOfMeaning(input);
    KeysOfMeaning(Obj(ms));
    forall k ensures Has(ms, k) <==> Has(input.members, k) && Knows(fields, k) {
      BuiltKeys(fields, input, ms, k);
    }
    if Covered(fields, MeaningOf(input)) {
      SameFieldsSameMeaning(input.members, ms);
    }
  }

  /** A tag that names a variant is read the same way from the object and from its meaning. */
  lemma TagRead(input: Json, tag: string)
    requires input.Obj? && Clean(input)
    ensures var m := MeaningOf(input);
      forall t: string :: Read(input.members, tag) == Str(t) <==> tag in m.fields && m.fields[tag] == Atom(Str(t))
  {
    CleanFields(input.members, tag);
  }

  lemma {:induction false} DecodeUnionMeaning(g: Grammar, shape: Shape, input: Json, path: Path)
    requires Agreeing(g) && shape.Union? && input.Obj? && Clean(input) && Agrees(shape)
    ensures var r := DecodeShape(g, shape, input, path);
      (r.Ok? <==> Accepts(g, shape, MeaningOf(input))) && (r.Ok? ==> Rebuilt(input, r.value))
    decreases input, 0, shape, 0
  {
    var m := MeaningOf(input);
    DecodeFieldsMeaning(g, shape.early, input, path);
    TagRead(input, shape.tag);
    var tag := Read(input.members, shape.tag);
    var found := VariantFor(shape.variants, tag);
    if found != [] {
      DecodeExactlyMeaning(g, found[0].exact, found[0].fields, input, path);
      AllowedIsCovered(found[0].exact, found[0].fields, m);
    }
  }

  lemma AllowedIsCovered(exact: seq<string>, fields: seq<Field>, m: Meaning)
    requires m.Table? && SameKeys(exact, fields)
    ensures Allowed(exact, m) <==> Covered(fields, m)
  {
  }

  /** Acceptance is membership in the type, and the result has the meaning of the input. */
  lemma {:induction false} DecodeMeaning(g: Grammar, shape: Shape, input: Json, path: Path)
    requires Agreeing(g) && Clean(input) && Agrees(shape)
    ensures var r := DecodeShape(g, shape, input, path);
      (r.Ok? <==> Accepts(g, shape, MeaningOf(input))) && (r.Ok? ==> Rebuilt(input, r.value))
    decreases input, if shape.Ref? then 1 else 0, shape, 1
  {
    match shape
    case ScalarOrList =>
      if input.Arr? {
        DecodeListMeaning(g, Scalar, input.items, path);
      }
    case ListOf(item) =>
      if input.Arr? {
        DecodeListMeaning(g, item, input.items, path);
      }
    case Record(exact, fields) =>
      if input.Obj? {
        DecodeExactlyMeaning(g, exact, fields, input, path);
        AllowedIsCovered(exact, fields, MeaningOf(input));
      }
    case Union(_, _, _, _) =>
      if input.Obj? {
        DecodeUnionMeaning(g, shape, input, path);
      }
    case Ref(rule) =>
      DecodeMeaning(g, g(rule), input, path);
    case _ =>
  }
}
