/** Which entries a difference has: exactly the smallest places at which the two values differ, in
    the order of their paths. */
module DiffEntries {
  import opened Text
  import opened Json
  import opened Diff
  import opened Patch
  import opened DiffPaths

  /** Both sides are arrays, or both are objects, so that the comparison goes on inside. */
  ghost predicate BothContainers(x: Side, y: Side) {
    x.There? && y.There? && ((x.value.Arr? && y.value.Arr?) || (x.value.Obj? && y.value.Obj?))
  }

  function Parent(path: Path): Path
    requires path != []
  {
    path[..|path| - 1]
  }

  /** Something is there on one side only, in a container that is there on both; or two different
      values are there that are not containers of one kind. */
  ghost predicate IsSmallest(b: Json, a: Json, e: Entry) {
    e.before == Resolve(b, e.path) && e.after == Resolve(a, e.path) &&
    match e.kind
    case Changed =>
      e.before.There? && e.after.There? && e.before.value != e.after.value && !BothContainers(e.before, e.after)
    case Added => e.before.Missing? && e.after.There? && ParentsAreContainers(b, a, e.path)
    case Removed => e.before.There? && e.after.Missing? && ParentsAreContainers(b, a, e.path)
  }

  ghost predicate ParentsAreContainers(b: Json, a: Json, path: Path) {
    path != [] && BothContainers(Resolve(b, Parent(path)), Resolve(a, Parent(path)))
  }

  // ---------------------------------------------------------------- one level up or down

  /** A place inside two values at one step is as small inside the values around them. */
  lemma Around(b: Json, a: Json, x: Json, y: Json, step: Step, inner: Entry)
    requires Resolve(b, [step]) == There(x) && Resolve(a, [step]) == There(y)
    ensures IsSmallest(x, y, inner) <==> IsSmallest(b, a, inner.(path := [step] + inner.path))
  {
    ResolveInside(b, x, step, inner.path);
    ResolveInside(a, y, step, inner.path);
    if inner.path != [] {
      ParentsAround(b, a, x, y, step, inner.path);
    }
  }

  lemma ParentsAround(b: Json, a: Json, x: Json, y: Json, step: Step, path: Path)
    requires path != [] && Resolve(b, [step]) == There(x) && Resolve(a, [step]) == There(y)
    ensures ParentsAreContainers(b, a, [step] + path) <==> ParentsAreContainers(x, y, path)
  {
    assert Parent([step] + path) == [step] + Parent(path);
    ResolveInside(b, x, step, Parent(path));
    ResolveInside(a, y, step, Parent(path));
  }

  lemma ResolveInside(v: Json, x: Json, step: Step, path: Path)
    requires Resolve(v, [step]) == There(x)
    ensures Resolve(v, [step] + path) == Resolve(x, path)
  {
    assert ([step] + path)[1..] == path && [step][1..] == [];
  }

  lemma OneStep(b: Json, a: Json, e: Entry)
    requires |e.path| == 1
    ensures Parent(e.path) == [] && Resolve(b, []) == There(b) && Resolve(a, []) == There(a)
  {
  }

  // ---------------------------------------------------------------- what is listed is smallest

  lemma {:induction false} ListedIsSmallest(b: Json, a: Json, e: Entry)
    requires e in Diff.Diff(b, a)
    ensures IsSmallest(b, a, e)
    decreases b, 1, 0
  {
    DiffIsFaithful(b, a, e);
    if b.Arr? && a.Arr? {
      ListedItemIsSmallest(b, a, 0, e);
    } else if b.Obj? && a.Obj? {
      ListedKeyIsSmallest(b, a, UnionKeys(b.members, a.members), e);
    }
  }

  lemma {:induction false} ListedItemIsSmallest(b: Json, a: Json, i: nat, e: Entry)
    requires b.Arr? && a.Arr? && e in DiffItems(b, a, i) && Faithful(b, a, e)
    ensures IsSmallest(b, a, e)
    decreases b, 0, |b.items| + |a.items| - i
  {
    if e in DiffItems(b, a, i + 1) {
      ListedItemIsSmallest(b, a, i + 1, e);
    } else {
      assert e in DiffItem(b, a, i);
      if i < |b.items| && i < |a.items| {
        ListedInsideIsSmallest(b, a, b.items[i], a.items[i], Index(i), e);
      } else {
        OneStep(b, a, e);
      }
    }
  }

  lemma {:induction false} ListedKeyIsSmallest(b: Json, a: Json, ks: seq<string>, e: Entry)
    requires b.Obj? && a.Obj? && forall k | k in ks :: Has(b.members, k) || Has(a.members, k)
    requires e in DiffKeys(b, a, ks) && Faithful(b, a, e)
    ensures IsSmallest(b, a, e)
    decreases b, 0, |ks|
  {
    var k := ks[0];
    if e in DiffKeys(b, a, ks[1..]) {
      ListedKeyIsSmallest(b, a, ks[1..], e);
    } else {
      assert e in DiffKey(b, a, k);
      if Has(b.members, k) && Has(a.members, k) {
        ListedInsideIsSmallest(b, a, Get(b.members, k), Get(a.members, k), Key(k), e);
      } else {
        OneStep(b, a, e);
      }
    }
  }

  lemma {:induction false} ListedInsideIsSmallest(b: Json, a: Json, x: Json, y: Json, step: Step, e: Entry)
    requires x < b && e in At([step], Diff.Diff(x, y))
    requires Resolve(b, [step]) == There(x) && Resolve(a, [step]) == There(y)
    ensures IsSmallest(b, a, e)
    decreases x, 2, 0
  {
    var es := Diff.Diff(x, y);
    var n :| 0 <= n < |es| && e == At([step], es)[n];
    ListedIsSmallest(x, y, es[n]);
    Around(b, a, x, y, step, es[n]);
  }

  // ---------------------------------------------------------------- what is smallest is listed

  lemma {:induction false} SmallestIsListed(b: Json, a: Json, e: Entry)
    requires IsSmallest(b, a, e)
    ensures e in Diff.Diff(b, a)
    decreases |e.path|
  {
    if e.path != [] {
      var step := e.path[0];
      BothAround(b, a, e);
      if b.Arr? {
        ItemIsListed(b, a, e);
      } else {
        KeyIsListed(b, a, e);
      }
    }
  }

  /** A place that is smallest is reached through containers that are there on both sides. */
  lemma BothAround(b: Json, a: Json, e: Entry)
    requires IsSmallest(b, a, e) && e.path != []
    ensures (b.Arr? && a.Arr? && e.path[0].Index? && (e.path[0].index < |b.items| || e.path[0].index < |a.items|)) ||
      (b.Obj? && a.Obj? && e.path[0].Key? && (Has(b.members, e.path[0].key) || Has(a.members, e.path[0].key)))
  {
    if |e.path| == 1 {
      OneStep(b, a, e);
    }
  }

  lemma {:induction false} ItemIsListed(b: Json, a: Json, e: Entry)
    requires IsSmallest(b, a, e) && e.path != [] && b.Arr? && a.Arr? && e.path[0].Index?
    requires e.path[0].index < |b.items| || e.path[0].index < |a.items|
    ensures e in Diff.Diff(b, a)
    decreases |e.path|, 0
  {
    var i := e.path[0].index;
    if i < |b.items| && i < |a.items| {
      InsideIsListed(b, a, b.items[i], a.items[i], e);
    } else {
      OneSided(b, a, e);
    }
    assert e in DiffItem(b, a, i);
    ItemsListItem(b, a, 0, i, e);
  }

  lemma {:induction false} KeyIsListed(b: Json, a: Json, e: Entry)
    requires IsSmallest(b, a, e) && e.path != [] && b.Obj? && a.Obj? && e.path[0].Key?
    requires Has(b.members, e.path[0].key) || Has(a.members, e.path[0].key)
    ensures e in Diff.Diff(b, a)
    decreases |e.path|, 0
  {
    var k := e.path[0].key;
    if Has(b.members, k) && Has(a.members, k) {
      InsideIsListed(b, a, Get(b.members, k), Get(a.members, k), e);
    } else {
      OneSided(b, a, e);
    }
    assert e in DiffKey(b, a, k);
    KeysListKey(b, a, UnionKeys(b.members, a.members), k, e);
  }

  lemma {:induction false} InsideIsListed(b: Json, a: Json, x: Json, y: Json, e: Entry)
    requires IsSmallest(b, a, e) && e.path != []
    requires Resolve(b, [e.path[0]]) == There(x) && Resolve(a, [e.path[0]]) == There(y)
    ensures e in At([e.path[0]], Diff.Diff(x, y))
    decreases |e.path|, 0, 0
  {
    var step, inner := e.path[0], e.(path := e.path[1..]);
    assert [step] + inner.path == e.path;
    if inner.path == [] {
      assert e.path == [step];
    }
    Around(b, a, x, y, step, inner);
    SmallestIsListed(x, y, inner);
    var es := Diff.Diff(x, y);
    var n :| 0 <= n < |es| && es[n] == inner;
    assert At([step], es)[n] == e;
  }

  /** A place with a step that only one side has ends there. */
  lemma OneSided(b: Json, a: Json, e: Entry)
    requires IsSmallest(b, a, e) && e.path != []
    requires Resolve(b, [e.path[0]]).Missing? || Resolve(a, [e.path[0]]).Missing?
    ensures e.path == [e.path[0]]
    ensures e.before == Resolve(b, [e.path[0]]) && e.after == Resolve(a, [e.path[0]])
    ensures e.kind == if e.before.Missing? then Added else Removed
  {
    MissingFurther(b, e.path);
    MissingFurther(a, e.path);
    assert |e.path| == 1;
  }

  /** What is missing at the first step is missing further on. */
  lemma MissingFurther(v: Json, path: Path)
    requires path != []
    ensures Resolve(v, [path[0]]).Missing? ==>
      Resolve(v, path).Missing? && (|path| > 1 ==> Resolve(v, Parent(path)).Missing?)
  {
    if Resolve(v, [path[0]]).Missing? {
      MissingInside(v, path);
      if |path| > 1 {
        MissingInside(v, Parent(path));
      }
    }
  }

  lemma MissingInside(v: Json, path: Path)
    requires path != [] && Resolve(v, [path[0]]).Missing?
    ensures Resolve(v, path).Missing?
  {
    assert [path[0]][1..] == [];
  }

  lemma {:induction false} ItemsListItem(b: Json, a: Json, from: nat, i: nat, e: Entry)
    requires b.Arr? && a.Arr? && from <= i && (i < |b.items| || i < |a.items|) && e in DiffItem(b, a, i)
    ensures e in DiffItems(b, a, from)
    decreases i - from
  {
    if from < i {
      ItemsListItem(b, a, from + 1, i, e);
    }
  }

  lemma {:induction false} KeysListKey(b: Json, a: Json, ks: seq<string>, k: string, e: Entry)
    requires b.Obj? && a.Obj? && (forall x | x in ks :: Has(b.members, x) || Has(a.members, x))
    requires k in ks && e in DiffKey(b, a, k)
    ensures e in DiffKeys(b, a, ks)
    decreases |ks|
  {
    if ks[0] != k {
      KeysListKey(b, a, ks[1..], k, e);
    }
  }

  // ---------------------------------------------------------------- order

  ghost predicate StepBefore(s: Step, t: Step) {
    (s.Index? && t.Index? && s.index < t.index) || (s.Key? && t.Key? && Less(s.key, t.key))
  }

  /** The first step in which two paths differ decides. */
  ghost predicate PathBefore(p: Path, q: Path) {
    p != [] && q != [] && (StepBefore(p[0], q[0]) || (p[0] == q[0] && PathBefore(p[1..], q[1..])))
  }

  ghost predicate InPathOrder(es: seq<Entry>) {
    forall i, j | 0 <= i < j < |es| :: PathBefore(es[i].path, es[j].path)
  }

  lemma OrderAt(es: seq<Entry>, step: Step)
    requires InPathOrder(es)
    ensures InPathOrder(At([step], es))
  {
    var r := At([step], es);
    forall i, j | 0 <= i < j < |r| ensures PathBefore(r[i].path, r[j].path) {
      assert PathBefore(es[i].path, es[j].path);
      assert r[i].path[1..] == es[i].path && r[j].path[1..] == es[j].path;
    }
  }

  lemma OrderConcat(es: seq<Entry>, fs: seq<Entry>, step: Step)
    requires InPathOrder(es) && InPathOrder(fs) && AllStartWith(es, step)
    requires forall f | f in fs :: f.path != [] && StepBefore(step, f.path[0])
    ensures InPathOrder(es + fs)
  {
    forall i, j | 0 <= i < j < |es + fs| ensures PathBefore((es + fs)[i].path, (es + fs)[j].path) {
      if i < |es| <= j {
        assert (es + fs)[i] in es && (es + fs)[j] in fs;
      }
    }
  }

  lemma {:induction false} DiffIsInOrder(b: Json, a: Json)
    ensures InPathOrder(Diff.Diff(b, a))
    decreases b, 1, 0
  {
    if b.Arr? && a.Arr? {
      ItemsAreInOrder(b, a, 0);
    } else if b.Obj? && a.Obj? {
      UnionKeysSorted(b.members, a.members);
      KeysAreInOrder(b, a, UnionKeys(b.members, a.members));
    }
  }

  lemma {:induction false} ItemsAreInOrder(b: Json, a: Json, i: nat)
    requires b.Arr? && a.Arr?
    ensures InPathOrder(DiffItems(b, a, i))
    decreases b, 0, |b.items| + |a.items| - i
  {
    if i < |b.items| || i < |a.items| {
      ItemsAreInOrder(b, a, i + 1);
      DiffItemsStartLater(b, a, i + 1);
      DiffItemFacts(b, a, i);
      if i < |b.items| && i < |a.items| {
        DiffIsInOrder(b.items[i], a.items[i]);
        OrderAt(Diff.Diff(b.items[i], a.items[i]), Index(i));
      }
      OrderConcat(DiffItem(b, a, i), DiffItems(b, a, i + 1), Index(i));
    }
  }

  lemma {:induction false} KeysAreInOrder(b: Json, a: Json, ks: seq<string>)
    requires KeysOf(b, a, ks)
    ensures InPathOrder(DiffKeys(b, a, ks))
    decreases b, 0, |ks|
  {
    if ks != [] {
      var k := ks[0];
      forall x | x in ks[1..] ensures Less(k, x) {
        var j :| 0 <= j < |ks[1..]| && ks[1..][j] == x;
        assert ks[j + 1] == x;
      }
      KeysAreInOrder(b, a, ks[1..]);
      DiffKeysStartAt(b, a, ks[1..]);
      DiffKeyFacts(b, a, k);
      if Has(b.members, k) && Has(a.members, k) {
        DiffIsInOrder(Get(b.members, k), Get(a.members, k));
        OrderAt(Diff.Diff(Get(b.members, k), Get(a.members, k)), Key(k));
      }
      OrderConcat(DiffKey(b, a, k), DiffKeys(b, a, ks[1..]), Key(k));
    }
  }

  /** The difference lists exactly the smallest differing places, each once, in path order. */
  lemma DiffIsExact(b: Json, a: Json)
    ensures forall e :: e in Diff.Diff(b, a) <==> IsSmallest(b, a, e)
    ensures InPathOrder(Diff.Diff(b, a))
  {
    forall e ensures e in Diff.Diff(b, a) <==> IsSmallest(b, a, e) {
      if e in Diff.Diff(b, a) {
        ListedIsSmallest(b, a, e);
      }
      if IsSmallest(b, a, e) {
        SmallestIsListed(b, a, e);
      }
    }
    DiffIsInOrder(b, a);
  }
}
