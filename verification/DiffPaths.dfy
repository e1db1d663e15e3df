/** The paths of a difference: each leads to what its entry recorded, none lies inside another. */
module DiffPaths {
  import opened Json
  import opened Diff
  import opened Patch

  /** What a path finds in a value. */
  function Resolve(v: Json, path: Path): (r: Side)
    decreases |path|
  {
    if path == [] then There(v)
    else match path[0]
      case Key(k) => if v.Obj? && Has(v.members, k) then Resolve(Get(v.members, k), path[1..]) else Missing
      case Index(i) => if v.Arr? && i < |v.items| then Resolve(v.items[i], path[1..]) else Missing
  }

  /** The entry recorded what its path finds on both sides, and is of the right kind. */
  ghost predicate Faithful(b: Json, a: Json, e: Entry) {
    e.before == Resolve(b, e.path) && e.after == Resolve(a, e.path) &&
    match e.kind
    case Added => e.before.Missing? && e.after.There?
    case Removed => e.before.There? && e.after.Missing?
    case Changed => e.before.There? && e.after.There? && e.before.value != e.after.value
  }

  lemma {:induction false} DiffIsFaithful(b: Json, a: Json, e: Entry)
    requires e in Diff.Diff(b, a)
    ensures Faithful(b, a, e)
    decreases b, 1, 0
  {
    if b.Arr? && a.Arr? {
      DiffItemsAreFaithful(b, a, 0, e);
    } else if b.Obj? && a.Obj? {
      DiffKeysAreFaithful(b, a, UnionKeys(b.members, a.members), e);
    }
  }

  lemma InnerIsFaithful(b: Json, a: Json, x: Json, y: Json, step: Step, e: Entry, inner: Entry)
    requires Resolve(b, [step]) == There(x) && Resolve(a, [step]) == There(y)
    requires e == inner.(path := [step] + inner.path) && Faithful(x, y, inner)
    ensures Faithful(b, a, e)
  {
    assert e.path[1..] == inner.path;
    assert [step][1..] == [];
  }

  lemma {:induction false} DiffItemsAreFaithful(b: Json, a: Json, i: nat, e: Entry)
    requires b.Arr? && a.Arr? && e in DiffItems(b, a, i)
    ensures Faithful(b, a, e)
    decreases b, 0, |b.items| + |a.items| - i
  {
    if e in DiffItems(b, a, i + 1) {
      DiffItemsAreFaithful(b, a, i + 1, e);
    } else {
      assert e in DiffItem(b, a, i);
      if i < |b.items| && i < |a.items| {
        var es := Diff.Diff(b.items[i], a.items[i]);
        var n :| 0 <= n < |es| && e == At([Index(i)], es)[n];
        DiffIsFaithful(b.items[i], a.items[i], es[n]);
        InnerIsFaithful(b, a, b.items[i], a.items[i], Index(i), e, es[n]);
      }
    }
  }

  lemma {:induction false} DiffKeysAreFaithful(b: Json, a: Json, ks: seq<string>, e: Entry)
    requires b.Obj? && a.Obj? && forall k | k in ks :: Has(b.members, k) || Has(a.members, k)
    requires e in DiffKeys(b, a, ks)
    ensures Faithful(b, a, e)
    decreases b, 0, |ks|
  {
    var k := ks[0];
    if e in DiffKeys(b, a, ks[1..]) {
      DiffKeysAreFaithful(b, a, ks[1..], e);
    } else {
      assert e in DiffKey(b, a, k);
      if Has(b.members, k) && Has(a.members, k) {
        var x, y := Get(b.members, k), Get(a.members, k);
        var es := Diff.Diff(x, y);
        var n :| 0 <= n < |es| && e == At([Key(k)], es)[n];
        DiffIsFaithful(x, y, es[n]);
        InnerIsFaithful(b, a, x, y, Key(k), e, es[n]);
      }
    }
  }

  // ---------------------------------------------------------------- no nesting

  ghost predicate Apart(p: Path, q: Path) {
    !(p <= q) && !(q <= p)
  }

  /** No entry lies at or inside the place of another entry. */
  ghost predicate PrefixFree(es: seq<Entry>) {
    forall i, j | 0 <= i < j < |es| :: Apart(es[i].path, es[j].path)
  }

  lemma PrefixFreeConcat(es: seq<Entry>, fs: seq<Entry>, step: Step)
    requires PrefixFree(es) && PrefixFree(fs) && AllStartWith(es, step)
    requires forall f | f in fs :: f.path != [] && f.path[0] != step
    ensures PrefixFree(es + fs)
  {
    forall i, j | 0 <= i < j < |es + fs| ensures Apart((es + fs)[i].path, (es + fs)[j].path) {
      if i < |es| <= j {
        assert (es + fs)[i] in es && (es + fs)[j] in fs;
      }
    }
  }

  lemma PrefixFreeAt(es: seq<Entry>, step: Step)
    requires PrefixFree(es)
    ensures PrefixFree(At([step], es))
  {
    var r := At([step], es);
    forall i, j | 0 <= i < j < |r| ensures Apart(r[i].path, r[j].path) {
      assert Apart(es[i].path, es[j].path);
      assert r[i].path[1..] == es[i].path && r[j].path[1..] == es[j].path;
    }
  }

  lemma {:induction false} DiffIsPrefixFree(b: Json, a: Json)
    ensures PrefixFree(Diff.Diff(b, a))
    decreases b, 1, 0
  {
    if b.Arr? && a.Arr? {
      DiffItemsArePrefixFree(b, a, 0);
    } else if b.Obj? && a.Obj? {
      UnionKeysSorted(b.members, a.members);
      DiffKeysArePrefixFree(b, a, UnionKeys(b.members, a.members));
    }
  }

  lemma {:induction false} DiffItemsStartLater(b: Json, a: Json, i: nat)
    requires b.Arr? && a.Arr?
    ensures forall e | e in DiffItems(b, a, i) :: e.path != [] && e.path[0].Index? && i <= e.path[0].index
    decreases |b.items| + |a.items| - i
  {
    if i < |b.items| || i < |a.items| {
      DiffItemFacts(b, a, i);
      DiffItemsStartLater(b, a, i + 1);
    }
  }

  lemma {:induction false} DiffItemsArePrefixFree(b: Json, a: Json, i: nat)
    requires b.Arr? && a.Arr?
    ensures PrefixFree(DiffItems(b, a, i))
    decreases b, 0, |b.items| + |a.items| - i
  {
    if i < |b.items| || i < |a.items| {
      DiffItemsArePrefixFree(b, a, i + 1);
      DiffItemsStartLater(b, a, i + 1);
      DiffItemFacts(b, a, i);
      if i < |b.items| && i < |a.items| {
        DiffIsPrefixFree(b.items[i], a.items[i]);
        PrefixFreeAt(Diff.Diff(b.items[i], a.items[i]), Index(i));
      }
      PrefixFreeConcat(DiffItem(b, a, i), DiffItems(b, a, i + 1), Index(i));
    }
  }

  lemma {:induction false} DiffKeysStartAt(b: Json, a: Json, ks: seq<string>)
    requires b.Obj? && a.Obj? && forall k | k in ks :: Has(b.members, k) || Has(a.members, k)
    ensures forall e | e in DiffKeys(b, a, ks) :: e.path != [] && e.path[0].Key? && e.path[0].key in ks
    decreases |ks|
  {
    if ks != [] {
      DiffKeyFacts(b, a, ks[0]);
      DiffKeysStartAt(b, a, ks[1..]);
    }
  }

  lemma {:induction false} DiffKeysArePrefixFree(b: Json, a: Json, ks: seq<string>)
    requires KeysOf(b, a, ks)
    ensures PrefixFree(DiffKeys(b, a, ks))
    decreases b, 0, |ks|
  {
    if ks != [] {
      var k := ks[0];
      SortedKeysDistinct(ks);
      assert k !in ks[1..];
      DiffKeysArePrefixFree(b, a, ks[1..]);
      DiffKeysStartAt(b, a, ks[1..]);
      DiffKeyFacts(b, a, k);
      if Has(b.members, k) && Has(a.members, k) {
        DiffIsPrefixFree(Get(b.members, k), Get(a.members, k));
        PrefixFreeAt(Diff.Diff(Get(b.members, k), Get(a.members, k)), Key(k));
      }
      PrefixFreeConcat(DiffKey(b, a, k), DiffKeys(b, a, ks[1..]), Key(k));
    }
  }
}
