/** The structural difference of two canonical values, as a list of entries with paths. */
module Diff {
  import opened Text
  import opened Json

  datatype Step = Key(key: string) | Index(index: nat)

  type Path = seq<Step>

  datatype Kind = Added | Removed | Changed

  datatype Side = Missing | There(value: Json)

  datatype Entry = Entry(kind: Kind, path: Path, before: Side, after: Side)

  /** Object.is on values that were built separately: only atoms can be the same. */
  predicate SameValue(b: Json, a: Json) {
    b == a && !b.Arr? && !b.Obj?
  }

  function InsertKey(k: string, ks: seq<string>): (r: seq<string>)
    ensures forall x :: x in r <==> x == k || x in ks
    ensures |r| == |ks| + 1
  {
    if ks == [] || Less(k, ks[0]) then [k] + ks else [ks[0]] + InsertKey(k, ks[1..])
  }

  /** The keys of both objects, each once, in text order. */
  function UnionKeys(bs: seq<Member>, others: seq<Member>): (r: seq<string>)
    ensures forall k :: k in r <==> Has(bs, k) || Has(others, k)
    decreases |bs| + |others|
  {
    if bs != [] then
      var rest := UnionKeys(bs[1..], others);
      assert forall m :: m in bs <==> m == bs[0] || m in bs[1..];
      if bs[0].key in rest then rest else InsertKey(bs[0].key, rest)
    else if others != [] then
      var rest := UnionKeys(bs, others[1..]);
      assert forall m :: m in others <==> m == others[0] || m in others[1..];
      if others[0].key in rest then rest else InsertKey(others[0].key, rest)
    else []
  }

  ghost predicate SortedKeys(ks: seq<string>) {
    forall i, j | 0 <= i < j < |ks| :: Less(ks[i], ks[j])
  }

  lemma {:induction false} InsertKeySorts(k: string, ks: seq<string>)
    requires SortedKeys(ks) && k !in ks
    ensures SortedKeys(InsertKey(k, ks))
  {
    if ks != [] {
      LessIsTotal(k, ks[0]);
      if Less(k, ks[0]) {
        forall j | 0 < j < |ks| ensures Less(k, ks[j]) {
          LessIsTransitive(k, ks[0], ks[j]);
        }
      } else {
        var rest := InsertKey(k, ks[1..]);
        InsertKeySorts(k, ks[1..]);
        forall x | x in rest ensures Less(ks[0], x) {
          if x != k {
            var j :| 0 <= j < |ks[1..]| && ks[1..][j] == x;
            assert ks[j + 1] == x;
          }
        }
      }
    }
  }

  lemma {:induction false} UnionKeysSorted(bs: seq<Member>, others: seq<Member>)
    ensures SortedKeys(UnionKeys(bs, others))
    decreases |bs| + |others|
  {
    if bs != [] {
      UnionKeysSorted(bs[1..], others);
      var rest := UnionKeys(bs[1..], others);
      if bs[0].key !in rest {
        InsertKeySorts(bs[0].key, rest);
      }
    } else if others != [] {
      UnionKeysSorted(bs, others[1..]);
      var rest := UnionKeys(bs, others[1..]);
      if others[0].key !in rest {
        InsertKeySorts(others[0].key, rest);
      }
    }
  }

  lemma SortedKeysDistinct(ks: seq<string>)
    requires SortedKeys(ks)
    ensures forall i, j | 0 <= i < j < |ks| :: ks[i] != ks[j]
  {
    forall i, j | 0 <= i < j < |ks| ensures ks[i] != ks[j] {
      LessIsTotal(ks[i], ks[j]);
    }
  }

  // ---------------------------------------------------------------- the difference

  function At(path: Path, es: seq<Entry>): (r: seq<Entry>)
    ensures |r| == |es|
    ensures forall i | 0 <= i < |r| :: r[i] == es[i].(path := path + es[i].path)
  {
    seq(|es|, i requires 0 <= i < |es| => es[i].(path := path + es[i].path))
  }

  /** The entries between two values, with paths that start at these values. */
  function Diff(b: Json, a: Json): (es: seq<Entry>)
    decreases b, 1, 0
  {
    if SameValue(b, a) then []
    else if b.Arr? && a.Arr? then DiffItems(b, a, 0)
    else if b.Obj? && a.Obj? then DiffKeys(b, a, UnionKeys(b.members, a.members))
    else [Entry(Changed, [], There(b), There(a))]
  }

  function DiffItem(b: Json, a: Json, i: nat): (es: seq<Entry>)
    requires b.Arr? && a.Arr? && (i < |b.items| || i < |a.items|)
    decreases b, 0, 0
  {
    if i >= |b.items| then [Entry(Added, [Index(i)], Missing, There(a.items[i]))]
    else if i >= |a.items| then [Entry(Removed, [Index(i)], There(b.items[i]), Missing)]
    else At([Index(i)], Diff(b.items[i], a.items[i]))
  }

  function DiffItems(b: Json, a: Json, i: nat): (es: seq<Entry>)
    requires b.Arr? && a.Arr?
    decreases b, 0, if |b.items| < |a.items| then |a.items| - i else |b.items| - i
  {
    if i >= |b.items| && i >= |a.items| then []
    else DiffItem(b, a, i) + DiffItems(b, a, i + 1)
  }

  function DiffKey(b: Json, a: Json, k: string): (es: seq<Entry>)
    requires b.Obj? && a.Obj? && (Has(b.members, k) || Has(a.members, k))
    decreases b, 0, 0
  {
    if !Has(b.members, k) then [Entry(Added, [Key(k)], Missing, There(Get(a.members, k)))]
    else if !Has(a.members, k) then [Entry(Removed, [Key(k)], There(Get(b.members, k)), Missing)]
    else At([Key(k)], Diff(Get(b.members, k), Get(a.members, k)))
  }

  function DiffKeys(b: Json, a: Json, ks: seq<string>): (es: seq<Entry>)
    requires b.Obj? && a.Obj? && forall k | k in ks :: Has(b.members, k) || Has(a.members, k)
    decreases b, 0, |ks|
  {
    if ks == [] then [] else DiffKey(b, a, ks[0]) + DiffKeys(b, a, ks[1..])
  }

  lemma AtConcat(path: Path, es: seq<Entry>, fs: seq<Entry>)
    ensures At(path, es + fs) == At(path, es) + At(path, fs)
  {
  }

  lemma AtAt(path: Path, s: Step, es: seq<Entry>)
    ensures At(path, At([s], es)) == At(path + [s], es)
  {
    forall i | 0 <= i < |es| ensures At(path, At([s], es))[i] == At(path + [s], es)[i] {
      assert path + ([s] + es[i].path) == path + [s] + es[i].path;
    }
  }

  /** The list that a comparison pushes its entries into. */
  class EntryList {
    var entries: seq<Entry>

    constructor ()
      ensures entries == []
    {
      entries := [];
    }

    method Compare(before: Json, after: Json, path: Path)
      modifies this
      ensures entries == old(entries) + At(path, Diff(before, after))
      decreases before, 2
    {
      if SameValue(before, after) {
        assert At(path, []) == [];
        return;
      }
      if before.Arr? && after.Arr? {
        CompareItems(before, after, path);
        return;
      }
      if before.Obj? && after.Obj? {
        CompareKeys(before, after, path);
        return;
      }
      assert path + [] == path;
      entries := entries + [Entry(Changed, path, There(before), There(after))];
    }

    method CompareItems(before: Json, after: Json, path: Path)
      requires before.Arr? && after.Arr?
      modifies this
      ensures entries == old(entries) + At(path, DiffItems(before, after, 0))
      decreases before, 1
    {
      var length := if |before.items| < |after.items| then |after.items| else |before.items|;
      for index := 0 to length
        invariant entries + At(path, DiffItems(before, after, index)) ==
          old(entries) + At(path, DiffItems(before, after, 0))
      {
        ghost var sofar := entries;
        if index >= |before.items| {
          entries := entries + [Entry(Added, path + [Index(index)], Missing, There(after.items[index]))];
        } else if index >= |after.items| {
          entries := entries + [Entry(Removed, path + [Index(index)], There(before.items[index]), Missing)];
        } else {
          Compare(before.items[index], after.items[index], path + [Index(index)]);
          AtAt(path, Index(index), Diff(before.items[index], after.items[index]));
        }
        assert entries == sofar + At(path, DiffItem(before, after, index));
        AtConcat(path, DiffItem(before, after, index), DiffItems(before, after, index + 1));
        SplitOff(sofar, At(path, DiffItem(before, after, index)), At(path, DiffItems(before, after, index + 1)));
      }
    }

    method CompareKeys(before: Json, after: Json, path: Path)
      requires before.Obj? && after.Obj?
      modifies this
      ensures entries == old(entries) + At(path, DiffKeys(before, after, UnionKeys(before.members, after.members)))
      decreases before, 1
    {
      var keys := UnionKeys(before.members, after.members);
      for n := 0 to |keys|
        invariant entries + At(path, DiffKeys(before, after, keys[n..])) ==
          old(entries) + At(path, DiffKeys(before, after, keys))
      {
        ghost var sofar := entries;
        var key := keys[n];
        if !Has(before.members, key) {
          entries := entries + [Entry(Added, path + [Key(key)], Missing, There(Get(after.members, key)))];
        } else if !Has(after.members, key) {
          entries := entries + [Entry(Removed, path + [Key(key)], There(Get(before.members, key)), Missing)];
        } else {
          Compare(Get(before.members, key), Get(after.members, key), path + [Key(key)]);
          AtAt(path, Key(key), Diff(Get(before.members, key), Get(after.members, key)));
        }
        assert entries == sofar + At(path, DiffKey(before, after, key));
        assert keys[n..][1..] == keys[n + 1..];
        AtConcat(path, DiffKey(before, after, key), DiffKeys(before, after, keys[n + 1..]));
        SplitOff(sofar, At(path, DiffKey(before, after, key)), At(path, DiffKeys(before, after, keys[n + 1..])));
      }
    }
  }

  lemma SplitOff(s: seq<Entry>, t: seq<Entry>, u: seq<Entry>)
    ensures s + (t + u) == s + t + u
  {
  }

  lemma AtStart(es: seq<Entry>)
    ensures At([], es) == es
  {
    forall i | 0 <= i < |es| ensures At([], es)[i] == es[i] {
      assert [] + es[i].path == es[i].path;
    }
  }

  method DiffManifestValues(before: Json, after: Json) returns (changed: bool, entries: seq<Entry>)
    ensures entries == Diff(Canonical(before), Canonical(after))
    ensures changed <==> entries != []
  {
    var list := new EntryList();
    list.Compare(Canonical(before), Canonical(after), []);
    entries := list.entries;
    AtStart(Diff(Canonical(before), Canonical(after)));
    changed := |entries| > 0;
  }
}
