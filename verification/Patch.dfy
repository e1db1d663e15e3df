/** What a list of difference entries means: a patch. Applying the difference of two canonical
    values to the first gives the second. */
module Patch {
  import opened Json
  import opened Diff
  import opened Sequences

  // ---------------------------------------------------------------- patching

  predicate EditsMemberAt(e: Entry, step: Step) {
    e.path == [step] && !e.kind.Changed?
  }

  function BelowOne(e: Entry, step: Step): seq<Entry> {
    if e.path != [] && e.path[0] == step && !EditsMemberAt(e, step) then [e.(path := e.path[1..])] else []
  }

  /** The entries that concern the inside of the value below one step, seen from there. */
  function Below(es: seq<Entry>, step: Step): seq<Entry> {
    if es == [] then [] else BelowOne(es[0], step) + Below(es[1..], step)
  }

  predicate Drops(es: seq<Entry>, step: Step) {
    exists e :: e in es && e.kind.Removed? && e.path == [step]
  }

  function After(e: Entry): Json {
    if e.after.There? then e.after.value else Undefined
  }

  function AddedItem(e: Entry): seq<Json> {
    if e.kind.Added? && |e.path| == 1 && e.path[0].Index? then [After(e)] else []
  }

  function AddedItems(es: seq<Entry>): seq<Json> {
    if es == [] then [] else AddedItem(es[0]) + AddedItems(es[1..])
  }

  function AddedMember(e: Entry): seq<Member> {
    if e.kind.Added? && |e.path| == 1 && e.path[0].Key? then [Member(e.path[0].key, After(e))] else []
  }

  function AddedMembers(es: seq<Entry>): seq<Member> {
    if es == [] then [] else AddedMember(es[0]) + AddedMembers(es[1..])
  }

  /** Replaces, drops, patches and adds what the entries say, at every level at once. */
  function Apply(v: Json, es: seq<Entry>): (r: Json)
    decreases v, 1
  {
    if es != [] && es[0].path == [] then After(es[0])
    else match v
      case Arr(items) => Arr(ApplyItems(items, es, 0) + AddedItems(es))
      case Obj(ms) => Obj(SortMembers(ApplyMembers(ms, es) + AddedMembers(es)))
      case _ => v
  }

  function ApplyItems(items: seq<Json>, es: seq<Entry>, i: nat): (r: seq<Json>)
    decreases items, 0, |items| - i
  {
    if i >= |items| then []
    else (if Drops(es, Index(i)) then [] else [Apply(items[i], Below(es, Index(i)))]) + ApplyItems(items, es, i + 1)
  }

  function ApplyMembers(ms: seq<Member>, es: seq<Entry>): (r: seq<Member>)
    decreases ms, 0
  {
    if ms == [] then []
    else (if Drops(es, Key(ms[0].key)) then [] else [Member(ms[0].key, Apply(ms[0].value, Below(es, Key(ms[0].key))))])
         + ApplyMembers(ms[1..], es)
  }

  // ---------------------------------------------------------------- shape of a difference

  /** Only an entry that replaces the whole value has an empty path. */
  ghost predicate Rooted(es: seq<Entry>) {
    forall e | e in es && e.path == [] :: e.kind.Changed?
  }

  ghost predicate AllStartWith(es: seq<Entry>, step: Step) {
    forall e | e in es :: e.path != [] && e.path[0] == step
  }

  lemma {:induction false} BelowConcat(es: seq<Entry>, fs: seq<Entry>, step: Step)
    ensures Below(es + fs, step) == Below(es, step) + Below(fs, step)
  {
    if es == [] {
      assert es + fs == fs;
    } else {
      BelowConcat(es[1..], fs, step);
      assert (es + fs)[0] == es[0] && (es + fs)[1..] == es[1..] + fs;
      Associative(BelowOne(es[0], step), Below(es[1..], step), Below(fs, step));
    }
  }

  lemma {:induction false} BelowOther(es: seq<Entry>, own: Step, step: Step)
    requires AllStartWith(es, own) && own != step
    ensures Below(es, step) == [] && !Drops(es, step)
  {
    if es != [] {
      BelowOther(es[1..], own, step);
    }
  }

  lemma {:induction false} BelowOwn(es: seq<Entry>, step: Step)
    requires Rooted(es)
    ensures Below(At([step], es), step) == es
  {
    if es != [] {
      assert At([step], es)[1..] == At([step], es[1..]);
      BelowOwn(es[1..], step);
      assert ([step] + es[0].path)[1..] == es[0].path;
      assert es == [es[0]] + es[1..];
    }
  }

  lemma AtHasNoEdits(es: seq<Entry>, step: Step)
    requires Rooted(es)
    ensures AllStartWith(At([step], es), step)
    ensures !Drops(At([step], es), step) && AddedItems(At([step], es)) == [] && AddedMembers(At([step], es)) == []
  {
    var r := At([step], es);
    forall e | e in r ensures e.path != [] && e.path[0] == step && (|e.path| == 1 ==> e.kind.Changed?) {
      var i :| 0 <= i < |r| && r[i] == e;
      assert es[i] in es;
    }
    NothingAdded(r);
  }

  lemma {:induction false} NothingAdded(es: seq<Entry>)
    requires forall e | e in es :: |e.path| == 1 ==> !e.kind.Added?
    ensures AddedItems(es) == [] && AddedMembers(es) == []
  {
    if es != [] {
      NothingAdded(es[1..]);
    }
  }

  lemma {:induction false} AddedItemsConcat(es: seq<Entry>, fs: seq<Entry>)
    ensures AddedItems(es + fs) == AddedItems(es) + AddedItems(fs)
  {
    if es == [] {
      assert es + fs == fs;
    } else {
      AddedItemsConcat(es[1..], fs);
      assert (es + fs)[0] == es[0] && (es + fs)[1..] == es[1..] + fs;
      Associative(AddedItem(es[0]), AddedItems(es[1..]), AddedItems(fs));
    }
  }

  lemma {:induction false} AddedMembersConcat(es: seq<Entry>, fs: seq<Entry>)
    ensures AddedMembers(es + fs) == AddedMembers(es) + AddedMembers(fs)
  {
    if es == [] {
      assert es + fs == fs;
    } else {
      AddedMembersConcat(es[1..], fs);
      assert (es + fs)[0] == es[0] && (es + fs)[1..] == es[1..] + fs;
      Associative(AddedMember(es[0]), AddedMembers(es[1..]), AddedMembers(fs));
    }
  }

  lemma DropsConcat(es: seq<Entry>, fs: seq<Entry>, step: Step)
    ensures Drops(es + fs, step) <==> Drops(es, step) || Drops(fs, step)
  {
  }

  lemma {:induction false} DiffItemsStart(b: Json, a: Json, i: nat)
    requires b.Arr? && a.Arr?
    ensures forall e | e in DiffItems(b, a, i) :: e.path != []
    decreases |b.items| + |a.items| - i
  {
    if i < |b.items| || i < |a.items| {
      DiffItemsStart(b, a, i + 1);
    }
  }

  lemma {:induction false} DiffKeysStart(b: Json, a: Json, ks: seq<string>)
    requires b.Obj? && a.Obj? && forall k | k in ks :: Has(b.members, k) || Has(a.members, k)
    ensures forall e | e in DiffKeys(b, a, ks) :: e.path != []
    decreases |ks|
  {
    if ks != [] {
      DiffKeysStart(b, a, ks[1..]);
    }
  }

  lemma DiffIsRooted(b: Json, a: Json)
    ensures Rooted(Diff.Diff(b, a))
  {
    if b.Arr? && a.Arr? {
      DiffItemsStart(b, a, 0);
    } else if b.Obj? && a.Obj? {
      DiffKeysStart(b, a, UnionKeys(b.members, a.members));
    }
  }

  // ---------------------------------------------------------------- arrays

  lemma DiffItemFacts(b: Json, a: Json, i: nat)
    requires b.Arr? && a.Arr? && (i < |b.items| || i < |a.items|)
    ensures AllStartWith(DiffItem(b, a, i), Index(i))
    ensures i < |b.items| && i < |a.items| ==> Below(DiffItem(b, a, i), Index(i)) == Diff.Diff(b.items[i], a.items[i])
    ensures Drops(DiffItem(b, a, i), Index(i)) <==> i >= |a.items|
    ensures AddedItems(DiffItem(b, a, i)) == if i >= |b.items| then [a.items[i]] else []
  {
    if i < |b.items| && i < |a.items| {
      var es := Diff.Diff(b.items[i], a.items[i]);
      DiffIsRooted(b.items[i], a.items[i]);
      BelowOwn(es, Index(i));
      AtHasNoEdits(es, Index(i));
    } else if i < |b.items| {
      assert DiffItem(b, a, i)[0].path == [Index(i)];
    }
  }

  lemma DiffItemsStep(b: Json, a: Json, j: nat, step: Step)
    requires b.Arr? && a.Arr? && (j < |b.items| || j < |a.items|)
    ensures Below(DiffItems(b, a, j), step) == Below(DiffItem(b, a, j), step) + Below(DiffItems(b, a, j + 1), step)
    ensures Drops(DiffItems(b, a, j), step) <==> Drops(DiffItem(b, a, j), step) || Drops(DiffItems(b, a, j + 1), step)
  {
    BelowConcat(DiffItem(b, a, j), DiffItems(b, a, j + 1), step);
    DropsConcat(DiffItem(b, a, j), DiffItems(b, a, j + 1), step);
  }

  /** At one position the entries drop the item or hold the difference of the two items there. */
  ghost predicate TellsItem(es: seq<Entry>, b: Json, a: Json, i: nat)
    requires b.Arr? && a.Arr? && i < |b.items|
  {
    (Drops(es, Index(i)) <==> i >= |a.items|) &&
    (i < |a.items| ==> Below(es, Index(i)) == Diff.Diff(b.items[i], a.items[i]))
  }

  lemma {:induction false} DiffItemsLater(b: Json, a: Json, j: nat, step: Step)
    requires b.Arr? && a.Arr? && step.Index? && step.index < j
    ensures Below(DiffItems(b, a, j), step) == [] && !Drops(DiffItems(b, a, j), step)
    decreases |b.items| + |a.items| - j
  {
    if j < |b.items| || j < |a.items| {
      DiffItemFacts(b, a, j);
      BelowOther(DiffItem(b, a, j), Index(j), step);
      DiffItemsStep(b, a, j, step);
      DiffItemsLater(b, a, j + 1, step);
    }
  }

  lemma DiffItemsHere(b: Json, a: Json, i: nat)
    requires b.Arr? && a.Arr? && i < |b.items|
    ensures TellsItem(DiffItems(b, a, i), b, a, i)
  {
    DiffItemFacts(b, a, i);
    DiffItemsStep(b, a, i, Index(i));
    DiffItemsLater(b, a, i + 1, Index(i));
    NothingAfter(Below(DiffItem(b, a, i), Index(i)));
  }

  lemma NothingAfter(es: seq<Entry>)
    ensures es + [] == es
  {
  }

  lemma DiffItemsSkip(b: Json, a: Json, j: nat, step: Step)
    requires b.Arr? && a.Arr? && (j < |b.items| || j < |a.items|) && step != Index(j)
    ensures Below(DiffItems(b, a, j), step) == Below(DiffItems(b, a, j + 1), step)
    ensures Drops(DiffItems(b, a, j), step) <==> Drops(DiffItems(b, a, j + 1), step)
  {
    DiffItemFacts(b, a, j);
    BelowOther(DiffItem(b, a, j), Index(j), step);
    DiffItemsStep(b, a, j, step);
  }

  lemma {:induction false} DiffItemsAt(b: Json, a: Json, j: nat, i: nat)
    requires b.Arr? && a.Arr? && j <= i < |b.items|
    ensures TellsItem(DiffItems(b, a, j), b, a, i)
    decreases i - j
  {
    if i == j {
      DiffItemsHere(b, a, i);
    } else {
      DiffItemsSkip(b, a, j, Index(i));
      DiffItemsAt(b, a, j + 1, i);
    }
  }

  function TailFrom(items: seq<Json>, n: nat): seq<Json> {
    if n <= |items| then items[n..] else []
  }

  lemma TailStep(items: seq<Json>, n: nat)
    requires n < |items|
    ensures TailFrom(items, n) == [items[n]] + TailFrom(items, n + 1)
  {
  }

  lemma AddedItemsStep(b: Json, a: Json, j: nat)
    requires b.Arr? && a.Arr? && (j < |b.items| || j < |a.items|)
    ensures AddedItems(DiffItems(b, a, j)) ==
            (if j >= |b.items| then [a.items[j]] else []) + AddedItems(DiffItems(b, a, j + 1))
  {
    DiffItemFacts(b, a, j);
    AddedItemsConcat(DiffItem(b, a, j), DiffItems(b, a, j + 1));
  }

  lemma {:induction false} DiffItemsAdd(b: Json, a: Json, j: nat)
    requires b.Arr? && a.Arr?
    ensures AddedItems(DiffItems(b, a, j)) == TailFrom(a.items, if j <= |b.items| then |b.items| else j)
    decreases |b.items| + |a.items| - j
  {
    if j < |b.items| || j < |a.items| {
      AddedItemsStep(b, a, j);
      DiffItemsAdd(b, a, j + 1);
      if j >= |b.items| {
        TailStep(a.items, j);
      }
    }
  }

  ghost predicate ItemsArePatched(b: Json, a: Json)
    requires b.Arr? && a.Arr?
  {
    forall k | 0 <= k < |b.items| && k < |a.items| :: Apply(b.items[k], Diff.Diff(b.items[k], a.items[k])) == a.items[k]
  }

  lemma {:induction false} ApplyItemsDropsTheRest(b: Json, a: Json, es: seq<Entry>, i: nat)
    requires b.Arr? && a.Arr? && |a.items| <= i <= |b.items|
    requires forall k: nat | k < |b.items| :: TellsItem(es, b, a, k)
    ensures ApplyItems(b.items, es, i) == []
    decreases |b.items| - i
  {
    if i < |b.items| {
      assert TellsItem(es, b, a, i);
      ApplyItemsDropsTheRest(b, a, es, i + 1);
    }
  }

  lemma ItemIsPatched(b: Json, a: Json, es: seq<Entry>, i: nat)
    requires b.Arr? && a.Arr? && i < |b.items| && i < |a.items| && ItemsArePatched(b, a) && TellsItem(es, b, a, i)
    ensures ApplyItems(b.items, es, i) == [a.items[i]] + ApplyItems(b.items, es, i + 1)
  {
    ApplyItemsStep(b.items, es, i);
  }

  lemma SliceStep(items: seq<Json>, i: nat, n: nat)
    requires i < n <= |items|
    ensures items[i..n] == [items[i]] + items[i + 1..n]
  {
  }

  lemma {:induction false} ApplyItemsGivesCommonPart(b: Json, a: Json, es: seq<Entry>, i: nat, n: nat)
    requires b.Arr? && a.Arr? && n == (if |b.items| <= |a.items| then |b.items| else |a.items|) && i <= n
    requires ItemsArePatched(b, a) && forall k: nat | k < |b.items| :: TellsItem(es, b, a, k)
    ensures ApplyItems(b.items, es, i) == a.items[i..n]
    decreases n - i
  {
    if i < n {
      ApplyItemsGivesCommonPart(b, a, es, i + 1, n);
      ItemIsPatched(b, a, es, i);
      SliceStep(a.items, i, n);
    } else if n == |a.items| {
      ApplyItemsDropsTheRest(b, a, es, i);
    }
  }

  lemma ApplyItemsGivesItems(b: Json, a: Json)
    requires b.Arr? && a.Arr? && ItemsArePatched(b, a)
    ensures Apply(b, DiffItems(b, a, 0)) == a
  {
    var n := if |b.items| <= |a.items| then |b.items| else |a.items|;
    var es := DiffItems(b, a, 0);
    forall k: nat | k < |b.items| ensures TellsItem(es, b, a, k) {
      DiffItemsAt(b, a, 0, k);
    }
    ApplyItemsGivesCommonPart(b, a, es, 0, n);
    DiffItemsAdd(b, a, 0);
    DiffItemsStart(b, a, 0);
    ApplyToArray(b.items, es);
    SplitAt(a.items, n);
  }

  lemma SplitAt(items: seq<Json>, n: nat)
    requires n <= |items|
    ensures items[0..n] + items[n..] == items
    ensures n == |items| ==> items[0..n] + [] == items
  {
  }

  lemma ApplyToArray(items: seq<Json>, es: seq<Entry>)
    requires forall e | e in es :: e.path != []
    ensures Apply(Arr(items), es) == Arr(ApplyItems(items, es, 0) + AddedItems(es))
  {
    assert es != [] ==> es[0] in es;
  }

  lemma ApplyItemsStep(items: seq<Json>, es: seq<Entry>, i: nat)
    requires i < |items| && !Drops(es, Index(i))
    ensures ApplyItems(items, es, i) == [Apply(items[i], Below(es, Index(i)))] + ApplyItems(items, es, i + 1)
  {
  }

  // ---------------------------------------------------------------- objects

  lemma DiffKeyFacts(b: Json, a: Json, k: string)
    requires b.Obj? && a.Obj? && (Has(b.members, k) || Has(a.members, k))
    ensures AllStartWith(DiffKey(b, a, k), Key(k))
    ensures Has(b.members, k) && Has(a.members, k) ==>
      Below(DiffKey(b, a, k), Key(k)) == Diff.Diff(Get(b.members, k), Get(a.members, k))
    ensures Drops(DiffKey(b, a, k), Key(k)) <==> !Has(a.members, k)
    ensures AddedMembers(DiffKey(b, a, k)) == if Has(b.members, k) then [] else [Member(k, Get(a.members, k))]
  {
    if Has(b.members, k) && Has(a.members, k) {
      var x, y := Get(b.members, k), Get(a.members, k);
      DiffIsRooted(x, y);
      BelowOwn(Diff.Diff(x, y), Key(k));
      AtHasNoEdits(Diff.Diff(x, y), Key(k));
    } else if Has(b.members, k) {
      assert DiffKey(b, a, k)[0].path == [Key(k)];
    }
  }

  ghost predicate KeysOf(b: Json, a: Json, ks: seq<string>) {
    b.Obj? && a.Obj? && SortedKeys(ks) && forall k | k in ks :: Has(b.members, k) || Has(a.members, k)
  }

  lemma {:induction false} DiffKeysAt(b: Json, a: Json, ks: seq<string>, k: string)
    requires KeysOf(b, a, ks)
    ensures k in ks && Has(b.members, k) && Has(a.members, k) ==>
      Below(DiffKeys(b, a, ks), Key(k)) == Diff.Diff(Get(b.members, k), Get(a.members, k))
    ensures k !in ks ==> Below(DiffKeys(b, a, ks), Key(k)) == []
    ensures Drops(DiffKeys(b, a, ks), Key(k)) <==> k in ks && !Has(a.members, k)
    decreases |ks|
  {
    if ks != [] {
      SortedKeysDistinct(ks);
      var first, rest := DiffKey(b, a, ks[0]), DiffKeys(b, a, ks[1..]);
      DiffKeyFacts(b, a, ks[0]);
      BelowConcat(first, rest, Key(k));
      DropsConcat(first, rest, Key(k));
      DiffKeysAt(b, a, ks[1..], k);
      assert ks[0] !in ks[1..];
      if k != ks[0] {
        BelowOther(first, Key(ks[0]), Key(k));
      }
    }
  }

  lemma {:induction false} DiffKeysAdd(b: Json, a: Json, ks: seq<string>, x: Member)
    requires KeysOf(b, a, ks)
    ensures x in AddedMembers(DiffKeys(b, a, ks)) <==>
      x.key in ks && !Has(b.members, x.key) && x.value == Get(a.members, x.key)
    decreases |ks|
  {
    if ks != [] {
      DiffKeyFacts(b, a, ks[0]);
      AddedMembersConcat(DiffKey(b, a, ks[0]), DiffKeys(b, a, ks[1..]));
      DiffKeysAdd(b, a, ks[1..], x);
      SortedKeysDistinct(ks);
    }
  }

  lemma {:induction false} DiffKeysAddDistinct(b: Json, a: Json, ks: seq<string>)
    requires KeysOf(b, a, ks)
    ensures DistinctKeys(AddedMembers(DiffKeys(b, a, ks)))
    decreases |ks|
  {
    if ks != [] {
      DiffKeyFacts(b, a, ks[0]);
      AddedMembersConcat(DiffKey(b, a, ks[0]), DiffKeys(b, a, ks[1..]));
      DiffKeysAddDistinct(b, a, ks[1..]);
      SortedKeysDistinct(ks);
      assert ks[0] !in ks[1..];
      forall x | x in AddedMembers(DiffKeys(b, a, ks[1..])) ensures x.key != ks[0] {
        DiffKeysAdd(b, a, ks[1..], x);
      }
    }
  }

  lemma {:induction false} ApplyMembersContent(ms: seq<Member>, es: seq<Entry>, x: Member)
    ensures x in ApplyMembers(ms, es) <==>
      exists m :: m in ms && !Drops(es, Key(m.key)) && x == Member(m.key, Apply(m.value, Below(es, Key(m.key))))
  {
    if ms != [] {
      ApplyMembersContent(ms[1..], es, x);
      assert forall m :: m in ms <==> m == ms[0] || m in ms[1..];
    }
  }

  lemma {:induction false} ApplyMembersDistinct(ms: seq<Member>, es: seq<Entry>)
    requires DistinctKeys(ms)
    ensures DistinctKeys(ApplyMembers(ms, es))
  {
    if ms != [] {
      ApplyMembersDistinct(ms[1..], es);
      forall x | x in ApplyMembers(ms[1..], es) ensures x.key != ms[0].key {
        ApplyMembersContent(ms[1..], es, x);
        var m :| m in ms[1..] && x.key == m.key;
        var j :| 0 <= j < |ms[1..]| && ms[1..][j] == m;
        assert ms[j + 1] == m;
      }
    }
  }

  lemma DistinctConcat(ms: seq<Member>, ns: seq<Member>)
    requires DistinctKeys(ms) && DistinctKeys(ns)
    requires forall m, n | m in ms && n in ns :: m.key != n.key
    ensures DistinctKeys(ms + ns)
  {
    forall i, j | 0 <= i < j < |ms + ns| ensures (ms + ns)[i].key != (ms + ns)[j].key {
      if i < |ms| <= j {
        assert (ms + ns)[i] in ms && (ms + ns)[j] in ns;
      }
    }
  }

  lemma PatchedMembersAreDistinct(b: Json, a: Json, ks: seq<string>)
    requires KeysOf(b, a, ks) && Sorted(b.members)
    ensures DistinctKeys(ApplyMembers(b.members, DiffKeys(b, a, ks)) + AddedMembers(DiffKeys(b, a, ks)))
  {
    var es := DiffKeys(b, a, ks);
    var kept, added := ApplyMembers(b.members, es), AddedMembers(es);
    SortedHasDistinctKeys(b.members);
    ApplyMembersDistinct(b.members, es);
    DiffKeysAddDistinct(b, a, ks);
    forall m, n | m in kept && n in added ensures m.key != n.key {
      ApplyMembersContent(b.members, es, m);
      DiffKeysAdd(b, a, ks, n);
    }
    DistinctConcat(kept, added);
  }

  lemma ApplyMembersGivesMembers(b: Json, a: Json)
    requires b.Obj? && a.Obj? && Sorted(b.members) && Sorted(a.members)
    requires forall m | m in b.members && Has(a.members, m.key) ::
      Apply(m.value, Diff.Diff(m.value, Get(a.members, m.key))) == Get(a.members, m.key)
    ensures Apply(b, Diff.Diff(b, a)) == a
  {
    var ks := UnionKeys(b.members, a.members);
    UnionKeysSorted(b.members, a.members);
    var es := DiffKeys(b, a, ks);
    DiffKeysStart(b, a, ks);
    assert es != [] ==> es[0] in es;
    var kept, added := ApplyMembers(b.members, es), AddedMembers(es);
    PatchedMembersAreDistinct(b, a, ks);
    SortMembersSorts(kept + added);
    forall x ensures x in kept + added <==> x in a.members {
      PatchedMember(b, a, x);
    }
    SortedIsUnique(SortMembers(kept + added), a.members);
  }

  lemma PatchedMember(b: Json, a: Json, x: Member)
    requires b.Obj? && a.Obj? && Sorted(b.members) && Sorted(a.members)
    requires forall m | m in b.members && Has(a.members, m.key) ::
      Apply(m.value, Diff.Diff(m.value, Get(a.members, m.key))) == Get(a.members, m.key)
    ensures var es := DiffKeys(b, a, UnionKeys(b.members, a.members));
      x in ApplyMembers(b.members, es) + AddedMembers(es) <==> x in a.members
  {
    var ks := UnionKeys(b.members, a.members);
    UnionKeysSorted(b.members, a.members);
    var es := DiffKeys(b, a, ks);
    SortedHasDistinctKeys(b.members);
    SortedHasDistinctKeys(a.members);
    ApplyMembersContent(b.members, es, x);
    DiffKeysAdd(b, a, ks, x);
    DiffKeysAt(b, a, ks, x.key);
    forall m | m in b.members && m.key == x.key ensures Get(b.members, x.key) == m.value && Has(b.members, x.key) {
      DistinctGet(b.members, m);
    }
    if x in a.members {
      DistinctGet(a.members, x);
      if Has(b.members, x.key) {
        assert Member(x.key, Get(b.members, x.key)) in b.members;
      }
    }
  }

  // ---------------------------------------------------------------- the theorem

  /** The difference is a patch from the first value to the second, for every pair of canonical
      values: other kinds, arrays that grow or shrink, members that come and go. */
  lemma {:induction false} ApplyDiff(b: Json, a: Json)
    requires IsCanonical(b) && IsCanonical(a)
    ensures Apply(b, Diff.Diff(b, a)) == a
    decreases b
  {
    if SameValue(b, a) {
    } else if b.Arr? && a.Arr? {
      forall k | 0 <= k < |b.items| && k < |a.items|
        ensures Apply(b.items[k], Diff.Diff(b.items[k], a.items[k])) == a.items[k]
      {
        assert b.items[k] in b.items && a.items[k] in a.items;
        ApplyDiff(b.items[k], a.items[k]);
      }
      ApplyItemsGivesItems(b, a);
    } else if b.Obj? && a.Obj? {
      forall m | m in b.members && Has(a.members, m.key)
        ensures Apply(m.value, Diff.Diff(m.value, Get(a.members, m.key))) == Get(a.members, m.key)
      {
        assert Member(m.key, Get(a.members, m.key)) in a.members;
        ApplyDiff(m.value, Get(a.members, m.key));
      }
      ApplyMembersGivesMembers(b, a);
    }
  }

  /** The flag of a difference is right: no entries exactly for values with one meaning. */
  lemma UnchangedMeansSame(v: Json, w: Json)
    requires WellFormed(v) && WellFormed(w)
    ensures Diff.Diff(Canonical(v), Canonical(w)) == [] <==> MeaningOf(v) == MeaningOf(w)
  {
    CanonicalIsCanonical(v);
    CanonicalIsCanonical(w);
    CanonicalIdentifiesMeaning(v, w);
    var b, a := Canonical(v), Canonical(w);
    ApplyDiff(b, a);
    ApplyDiff(a, a);
    if Diff.Diff(b, a) == [] {
      ApplyNothing(b);
    }
    if b == a {
      DiffOfSame(a);
    }
  }

  lemma {:induction false} ApplyNothing(b: Json)
    requires IsCanonical(b)
    ensures Apply(b, []) == b
    decreases b
  {
    match b
    case Arr(items) =>
      ApplyNothingToItems(items, 0);
    case Obj(ms) =>
      forall m | m in ms ensures Apply(m.value, []) == m.value {
        ApplyNothing(m.value);
      }
      SortedHasDistinctKeys(ms);
      ApplyMembersDistinct(ms, []);
      var r := ApplyMembers(ms, []) + AddedMembers([]);
      assert r == ApplyMembers(ms, []);
      SortMembersSorts(r);
      forall x ensures x in SortMembers(r) <==> x in ms {
        ApplyMembersContent(ms, [], x);
      }
      SortedIsUnique(SortMembers(r), ms);
    case _ =>
  }

  lemma {:induction false} ApplyNothingToItems(items: seq<Json>, i: nat)
    requires forall x | x in items :: IsCanonical(x)
    ensures ApplyItems(items, [], i) == if i <= |items| then items[i..] else []
    decreases items, |items| - i
  {
    if i < |items| {
      ApplyNothing(items[i]);
      ApplyNothingToItems(items, i + 1);
    }
  }

  lemma {:induction false} DiffOfSame(a: Json)
    requires IsCanonical(a)
    ensures Diff.Diff(a, a) == []
    decreases a, 1
  {
    if a.Arr? {
      DiffItemsOfSame(a, 0);
    } else if a.Obj? {
      SortedHasDistinctKeys(a.members);
      DiffKeysOfSame(a, UnionKeys(a.members, a.members));
    }
  }

  lemma {:induction false} DiffItemsOfSame(a: Json, i: nat)
    requires a.Arr? && IsCanonical(a)
    ensures DiffItems(a, a, i) == []
    decreases a, 0, |a.items| - i
  {
    if i < |a.items| {
      assert a.items[i] in a.items;
      DiffOfSame(a.items[i]);
      DiffItemsOfSame(a, i + 1);
    }
  }

  lemma {:induction false} DiffKeysOfSame(a: Json, ks: seq<string>)
    requires a.Obj? && IsCanonical(a) && forall k | k in ks :: Has(a.members, k)
    ensures DiffKeys(a, a, ks) == []
    decreases a, 0, |ks|
  {
    if ks != [] {
      assert Member(ks[0], Get(a.members, ks[0])) in a.members;
      DiffOfSame(Get(a.members, ks[0]));
      DiffKeysOfSame(a, ks[1..]);
    }
  }
}
