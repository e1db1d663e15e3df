/** The order in which a flat list of tree positions is presented: each root followed by its
    subtree, siblings by sort key. Parent pointers are arbitrary; they may dangle or form cycles. */
module TreeOrder {
  import opened Wrappers
  import opened Forest
  import opened Sequences
  import opened Preorder

  datatype Item = Item(id: string, parent: Option<string>, sortKey: int)

  function SortKey(p: Item): int {
    p.sortKey
  }

  function ParentKey(p: Item): string {
    if p.parent.None? then "" else p.parent.value
  }

  function IdsOf(items: seq<Item>): (ids: seq<string>)
    ensures |ids| == |items| && forall i | 0 <= i < |ids| :: ids[i] == items[i].id
  {
    seq(|items|, i requires 0 <= i < |items| => items[i].id)
  }

  /** Ids are distinct and, as everywhere in the system, not empty. */
  ghost predicate DistinctIds(items: seq<Item>) {
    NoDuplicates(IdsOf(items)) && forall p | p in items :: p.id != ""
  }

  /** The lookup table of the presenter; a later item would replace an earlier one. */
  function ById(items: seq<Item>): map<string, Item> {
    if items == [] then map[]
    else var last := items[|items| - 1]; ById(items[..|items| - 1])[last.id := last]
  }

  /** A root has no parent, or one that is not in the list. */
  predicate IsRoot(items: seq<Item>, p: Item) {
    p.parent.None? || p.parent.value !in ById(items)
  }

  /** The parent pointers as a forest; all roots hang under the presented collection. */
  function LinksOf(items: seq<Item>): Links {
    map d | d in ById(items) ::
      if IsRoot(items, ById(items)[d]) then InCollection("") else Under(ById(items)[d].parent.value)
  }

  function WithKey(items: seq<Item>, key: string): seq<Item> {
    Filter(items, (p: Item) => ParentKey(p) == key)
  }

  function Siblings(items: seq<Item>, key: string): seq<Item> {
    SortBy(WithKey(items, key), SortKey)
  }

  function Roots(items: seq<Item>): seq<Item> {
    SortBy(Filter(items, (p: Item) => IsRoot(items, p)), SortKey)
  }

  function KidsOf(items: seq<Item>): Kids {
    map d | d in ById(items) :: IdsOf(Siblings(items, d))
  }

  // ---------------------------------------------------------------- items and ids

  lemma {:induction false} ByIdMeaning(items: seq<Item>)
    requires NoDuplicates(IdsOf(items))
    ensures forall p :: p in items <==> p.id in ById(items) && ById(items)[p.id] == p
    ensures forall d | d in ById(items) :: ById(items)[d].id == d
  {
    if items != [] {
      var rest, last := items[..|items| - 1], items[|items| - 1];
      assert forall i | 0 <= i < |rest| :: IdsOf(rest)[i] == IdsOf(items)[i];
      ByIdMeaning(rest);
      assert items == rest + [last];
      forall p | p in rest ensures p.id != last.id {
        var i :| 0 <= i < |rest| && rest[i] == p;
        assert IdsOf(items)[i] != IdsOf(items)[|rest|];
      }
    }
  }

  lemma ItemsAreDistinct(items: seq<Item>)
    requires NoDuplicates(IdsOf(items))
    ensures NoDuplicates(items)
  {
    forall i, j | 0 <= i < j < |items| ensures items[i] != items[j] {
      assert IdsOf(items)[i] != IdsOf(items)[j];
    }
  }

  lemma IdsOfPart(items: seq<Item>, part: seq<Item>)
    requires NoDuplicates(IdsOf(items)) && NoDuplicates(part) && forall p | p in part :: p in items
    ensures NoDuplicates(IdsOf(part))
    ensures forall p | p in items :: p in part <==> p.id in IdsOf(part)
  {
    ByIdMeaning(items);
    var ids := IdsOf(part);
    forall i, j | 0 <= i < j < |ids| ensures ids[i] != ids[j] {
      assert part[i] in part && part[j] in part;
    }
    forall p | p in items ensures p in part <==> p.id in ids {
      if p in part {
        var i :| 0 <= i < |part| && part[i] == p;
        assert ids[i] == p.id;
      }
      if p.id in ids {
        var i :| 0 <= i < |ids| && ids[i] == p.id;
        assert part[i] in part;
      }
    }
  }

  lemma SortedPart(items: seq<Item>, keep: Item -> bool)
    requires NoDuplicates(IdsOf(items))
    ensures var part := SortBy(Filter(items, keep), SortKey);
      NoDuplicates(IdsOf(part)) && forall p | p in items :: keep(p) <==> p.id in IdsOf(part)
  {
    ItemsAreDistinct(items);
    NoDuplicatesFilter(items, keep);
    SortByOrders(Filter(items, keep), SortKey);
    IdsOfPart(items, SortBy(Filter(items, keep), SortKey));
  }

  lemma IdInPart(items: seq<Item>, part: seq<Item>, d: string)
    requires NoDuplicates(IdsOf(items)) && d in IdsOf(part) && forall p | p in part :: p in items
    ensures d in ById(items) && ById(items)[d] in part
  {
    ByIdMeaning(items);
    var i :| 0 <= i < |part| && IdsOf(part)[i] == d;
    assert part[i] in part;
  }

  lemma LinksHaveChildLists(items: seq<Item>)
    requires DistinctIds(items)
    ensures ChildLists(LinksOf(items), KidsOf(items))
  {
    var f, kids := LinksOf(items), KidsOf(items);
    ByIdMeaning(items);
    forall d | d in kids ensures NoDuplicates(kids[d]) {
      SortedPart(items, (p: Item) => ParentKey(p) == d);
    }
    forall d, c | d in kids && c in kids[d] ensures c in f && f[c] == Under(d) {
      ListedChildIsLinked(items, d, c);
    }
    forall c | c in f && f[c].Under? && f[c].parent in kids ensures c in kids[f[c].parent] {
      LinkedChildIsListed(items, c);
    }
  }

  lemma ListedChildIsLinked(items: seq<Item>, d: string, c: string)
    requires DistinctIds(items) && d in KidsOf(items) && c in KidsOf(items)[d]
    ensures c in LinksOf(items) && LinksOf(items)[c] == Under(d)
  {
    ByIdMeaning(items);
    IdInPart(items, Siblings(items, d), c);
    assert ParentKey(ById(items)[c]) == d && ById(items)[d] in items;
  }

  lemma LinkedChildIsListed(items: seq<Item>, c: string)
    requires DistinctIds(items) && c in LinksOf(items) && LinksOf(items)[c].Under? &&
      LinksOf(items)[c].parent in KidsOf(items)
    ensures c in KidsOf(items)[LinksOf(items)[c].parent]
  {
    ByIdMeaning(items);
    SortedPart(items, (p: Item) => ParentKey(p) == LinksOf(items)[c].parent);
    assert ById(items)[c] in items;
  }

  lemma LinksHaveRoots(items: seq<Item>)
    requires DistinctIds(items)
    ensures AllRoots(LinksOf(items), IdsOf(Roots(items)))
  {
    var f, roots := LinksOf(items), IdsOf(Roots(items));
    ByIdMeaning(items);
    SortedPart(items, (p: Item) => IsRoot(items, p));
    forall r | r in roots ensures RootedAt(f, r, 0) {
      IdInPart(items, Roots(items), r);
    }
    forall r | r in f && f[r].InCollection? ensures r in roots {
      assert ById(items)[r] in items;
    }
  }

  // ---------------------------------------------------------------- the order

  ghost function OrderedIds(items: seq<Item>): seq<string>
    requires DistinctIds(items)
  {
    LinksHaveChildLists(items);
    LinksHaveRoots(items);
    WalkAll(LinksOf(items), KidsOf(items), IdsOf(Roots(items)), 0)
  }

  /** a is presented before its sibling b: smaller sort key, or the same key and listed earlier. */
  ghost predicate SortsBefore(items: seq<Item>, a: Item, b: Item) {
    a in items && b in items &&
    (a.sortKey < b.sortKey || (a.sortKey == b.sortKey && Before(items, a, b)))
  }

  /** What the ordering promises, without saying how it is found: every item whose parents lead
      to a root once and nothing else, parents first, siblings sorted, each subtree one block. */
  ghost predicate InTreeOrder(items: seq<Item>, out: seq<string>) {
    var f := LinksOf(items);
    NoDuplicates(out) &&
    (forall d :: d in out <==> Rooted(f, d)) &&
    (forall c | c in out && f[c].Under? :: Before(out, f[c].parent, c)) &&
    SiblingsSorted(items, out) && SubtreesTogether(f, out)
  }

  ghost predicate SiblingsSorted(items: seq<Item>, out: seq<string>) {
    var f := LinksOf(items);
    forall a, b | SortsBefore(items, a, b) && a.id in out && b.id in out ::
      a.id in f && b.id in f && f[a.id] == f[b.id] ==> Before(out, a.id, b.id)
  }

  ghost predicate SubtreesTogether(f: Links, out: seq<string>) {
    forall x, i, j, k | 0 <= i < j < k < |out| && Below(f, out[i], x) && Below(f, out[k], x) :: Below(f, out[j], x)
  }

  lemma {:induction false} BeforeInIds(items: seq<Item>, a: Item, b: Item)
    requires Before(items, a, b)
    ensures Before(IdsOf(items), a.id, b.id)
  {
    BeforeMeaning(items, a, b);
    BeforeMeaning(IdsOf(items), a.id, b.id);
    var i, j :| 0 <= i < j < |items| && items[i] == a && items[j] == b;
    assert IdsOf(items)[i] == a.id && IdsOf(items)[j] == b.id;
  }

  lemma SortedGroup(items: seq<Item>, keep: Item -> bool, a: Item, b: Item)
    requires SortsBefore(items, a, b) && keep(a) && keep(b)
    ensures Before(IdsOf(SortBy(Filter(items, keep), SortKey)), a.id, b.id)
  {
    if a.sortKey < b.sortKey {
      SmallerKeyFirst(Filter(items, keep), SortKey, a, b);
    } else {
      BeforeInFilter(items, keep, a, b);
      SortByIsStable(Filter(items, keep), SortKey, a, b);
    }
    BeforeInIds(SortBy(Filter(items, keep), SortKey), a, b);
  }

  lemma RootsInOrder(items: seq<Item>, a: Item, b: Item)
    requires DistinctIds(items) && SortsBefore(items, a, b) && IsRoot(items, a) && IsRoot(items, b)
    ensures Before(OrderedIds(items), a.id, b.id)
  {
    LinksHaveChildLists(items);
    LinksHaveRoots(items);
    SortedGroup(items, (p: Item) => IsRoot(items, p), a, b);
    WalkedInOrder(LinksOf(items), KidsOf(items), IdsOf(Roots(items)), 0, a.id, b.id);
  }

  lemma SiblingsInOrder(items: seq<Item>, p: string, a: Item, b: Item)
    requires DistinctIds(items) && SortsBefore(items, a, b)
    requires p in ById(items) && Rooted(LinksOf(items), p) && a.parent == b.parent == Some(p)
    ensures Before(OrderedIds(items), a.id, b.id)
  {
    LinksHaveChildLists(items);
    LinksHaveRoots(items);
    SortedGroup(items, (q: Item) => ParentKey(q) == p, a, b);
    ChildrenInOrder(LinksOf(items), KidsOf(items), IdsOf(Roots(items)), p, a.id, b.id);
  }

  lemma GroupInOrder(items: seq<Item>, a: Item, b: Item)
    requires DistinctIds(items) && SortsBefore(items, a, b)
    requires Rooted(LinksOf(items), a.id) && a.id in LinksOf(items) && b.id in LinksOf(items)
    requires LinksOf(items)[a.id] == LinksOf(items)[b.id]
    ensures Before(OrderedIds(items), a.id, b.id)
  {
    var f := LinksOf(items);
    ByIdMeaning(items);
    assert ById(items)[a.id] == a && ById(items)[b.id] == b;
    if f[a.id].InCollection? {
      RootsInOrder(items, a, b);
    } else {
      var n: nat :| RootedAt(f, a.id, n);
      assert RootedAt(f, f[a.id].parent, n - 1);
      SiblingsInOrder(items, f[a.id].parent, a, b);
    }
  }

  /** The presented order has every promised property, whatever the parent pointers are. */
  lemma OrderedIdsInTreeOrder(items: seq<Item>)
    requires DistinctIds(items)
    ensures InTreeOrder(items, OrderedIds(items))
  {
    var f, kids, roots, out := LinksOf(items), KidsOf(items), IdsOf(Roots(items)), OrderedIds(items);
    LinksHaveChildLists(items);
    LinksHaveRoots(items);
    WalkAllHasNoDuplicates(f, kids, roots, 0);
    forall d ensures d in out <==> Rooted(f, d) {
      OnlyRootedAreListed(items, d);
    }
    forall c | c in out && f[c].Under? ensures Before(out, f[c].parent, c) {
      ParentsFirst(f, kids, roots, c);
    }
    OrderedSiblings(items);
    OrderedSubtrees(items);
  }

  /** The links in terms of the items: a parent that is not among them counts as none. */
  lemma LinksMean(items: seq<Item>, p: Item)
    requires DistinctIds(items) && p in items
    ensures p.id in LinksOf(items)
    ensures LinksOf(items)[p.id] ==
      if p.parent.Some? && exists q :: q in items && q.id == p.parent.value then Under(p.parent.value)
      else InCollection("")
  {
    ByIdMeaning(items);
  }

  /** The parents of an item come to an end after n of them: one has none, or one that is not among
      the items. */
  ghost predicate ParentsEnd(items: seq<Item>, d: string, n: nat)
    decreases n
  {
    exists p :: p in items && p.id == d &&
      (p.parent.None? || (forall q | q in items :: q.id != p.parent.value) ||
       (n > 0 && ParentsEnd(items, p.parent.value, n - 1)))
  }

  /** Exactly the items are listed whose parents come to an end: a dangling parent makes a root, a
      cycle hides all that hangs on it. */
  lemma ListedExactlyIfParentsEnd(items: seq<Item>, d: string)
    requires DistinctIds(items)
    ensures d in OrderedIds(items) <==> exists n: nat :: ParentsEnd(items, d, n)
  {
    OnlyRootedAreListed(items, d);
    if Rooted(LinksOf(items), d) {
      SomeParentsEnd(items, d);
    }
    forall n: nat | ParentsEnd(items, d, n) ensures Rooted(LinksOf(items), d) {
      ParentsEndRooted(items, d, n);
    }
  }

  lemma SomeParentsEnd(items: seq<Item>, d: string)
    requires DistinctIds(items) && Rooted(LinksOf(items), d)
    ensures exists n: nat :: ParentsEnd(items, d, n)
  {
    var n: nat :| RootedAt(LinksOf(items), d, n);
    RootedParentsEnd(items, d, n);
  }

  lemma {:induction false} RootedParentsEnd(items: seq<Item>, d: string, n: nat)
    requires DistinctIds(items) && RootedAt(LinksOf(items), d, n)
    ensures ParentsEnd(items, d, n)
    decreases n
  {
    ByIdMeaning(items);
    var p := ById(items)[d];
    assert p in items && p.id == d;
    if n > 0 {
      RootedParentsEnd(items, p.parent.value, n - 1);
    }
  }

  lemma {:induction false} ParentsEndRooted(items: seq<Item>, d: string, n: nat)
    requires DistinctIds(items) && ParentsEnd(items, d, n)
    ensures Rooted(LinksOf(items), d)
    decreases n
  {
    var f := LinksOf(items);
    var p :| p in items && p.id == d &&
      (p.parent.None? || (forall q | q in items :: q.id != p.parent.value) ||
       (n > 0 && ParentsEnd(items, p.parent.value, n - 1)));
    LinksMean(items, p);
    if f[d].InCollection? {
      assert RootedAt(f, d, 0);
    } else {
      ParentsEndRooted(items, p.parent.value, n - 1);
      var m: nat :| RootedAt(f, p.parent.value, m);
      assert RootedAt(f, d, m + 1);
    }
  }

  lemma OrderedSiblings(items: seq<Item>)
    requires DistinctIds(items)
    ensures SiblingsSorted(items, OrderedIds(items))
  {
    var f, out := LinksOf(items), OrderedIds(items);
    forall a, b | SortsBefore(items, a, b) && a.id in out && b.id in out && a.id in f && b.id in f && f[a.id] == f[b.id]
      ensures Before(out, a.id, b.id)
    {
      OnlyRootedAreListed(items, a.id);
      GroupInOrder(items, a, b);
    }
  }

  lemma OnlyRootedAreListed(items: seq<Item>, d: string)
    requires DistinctIds(items)
    ensures d in OrderedIds(items) <==> Rooted(LinksOf(items), d)
  {
    LinksHaveChildLists(items);
    LinksHaveRoots(items);
    ListsExactlyTheRooted(LinksOf(items), KidsOf(items), IdsOf(Roots(items)), d);
  }

  lemma OrderedSubtrees(items: seq<Item>)
    requires DistinctIds(items)
    ensures SubtreesTogether(LinksOf(items), OrderedIds(items))
  {
    var f, kids, roots, out := LinksOf(items), KidsOf(items), IdsOf(Roots(items)), OrderedIds(items);
    LinksHaveChildLists(items);
    LinksHaveRoots(items);
    forall x, i, j, k | 0 <= i < j < k < |out| && Below(f, out[i], x) && Below(f, out[k], x)
      ensures Below(f, out[j], x)
    {
      SubtreeIsContiguous(f, kids, roots, x, i, j, k);
    }
  }

  lemma {:induction false} CountInDistinct<T>(s: seq<T>, x: T)
    requires NoDuplicates(s)
    ensures multiset(s)[x] == if x in s then 1 else 0
  {
    if s != [] {
      CountInDistinct(s[1..], x);
      assert s == [s[0]] + s[1..];
    }
  }

  /** On acyclic parent pointers the order is a permutation of the listed ids. */
  lemma AcyclicOrderIsPermutation(items: seq<Item>, out: seq<string>)
    requires DistinctIds(items) && InTreeOrder(items, out)
    requires forall p | p in items :: Rooted(LinksOf(items), p.id)
    ensures multiset(out) == multiset(IdsOf(items))
  {
    ByIdMeaning(items);
    var ids := IdsOf(items);
    forall d ensures multiset(out)[d] == multiset(ids)[d] {
      CountInDistinct(out, d);
      CountInDistinct(ids, d);
      if d in ids {
        var i :| 0 <= i < |ids| && ids[i] == d;
        assert items[i] in items;
      }
      if d in out {
        assert ById(items)[d] in items;
        var i :| 0 <= i < |items| && items[i] == ById(items)[d];
        assert ids[i] == d;
      }
    }
  }
}
