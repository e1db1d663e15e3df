/** Presenting a tree to one reader: ordering, then hiding what the reader may not see. */
module TreePresenter {
  import opened Wrappers
  import opened Forest
  import opened Sequences
  import opened Preorder
  import opened TreeOrder

  datatype Access = Readable | Forbidden | Broken

  datatype Node = Node(
    id: string, parent: Option<string>, position: int, depth: int, path: seq<string>, hasChildren: bool)

  datatype Presentation = Tree(nodes: seq<Node>) | TooLarge | ReadFailed

  const MAX_NODES := 1000

  // ---------------------------------------------------------------- ordering

  function Group(children: map<string, seq<Item>>, key: string): seq<Item> {
    if key in children then children[key] else []
  }

  lemma WithKeyPush(items: seq<Item>, p: Item, key: string)
    ensures WithKey(items + [p], key) == WithKey(items, key) + (if ParentKey(p) == key then [p] else [])
  {
    FilterConcat(items, [p], (q: Item) => ParentKey(q) == key);
  }

  method CollectGroups(items: seq<Item>) returns (children: map<string, seq<Item>>)
    ensures forall key :: Group(children, key) == WithKey(items, key)
  {
    children := map[];
    for i := 0 to |items|
      invariant forall key :: Group(children, key) == WithKey(items[..i], key)
    {
      var parentKey := ParentKey(items[i]);
      forall key {
        WithKeyPush(items[..i], items[i], key);
      }
      assert items[..i + 1] == items[..i] + [items[i]];
      children := children[parentKey := Group(children, parentKey) + [items[i]]];
    }
    assert items[..|items|] == items;
  }

  method GroupByParent(items: seq<Item>) returns (children: map<string, seq<Item>>)
    ensures forall key :: Group(children, key) == Siblings(items, key)
  {
    children := CollectGroups(items);
    var keys := children.Keys;
    while keys != {}
      invariant keys <= children.Keys
      invariant forall key :: Group(children, key) == if key in keys then WithKey(items, key) else Siblings(items, key)
      decreases keys
    {
      var key :| key in keys;
      children := children[key := SortBy(children[key], SortKey)];
      keys := keys - {key};
    }
  }

  ghost predicate AllFrom(items: seq<Item>, part: seq<Item>) {
    forall p | p in part :: p in items
  }

  /** The groups of positions say the same as the child lists of ids. */
  ghost predicate Groups(items: seq<Item>, children: map<string, seq<Item>>, kids: Kids) {
    forall d | d in kids :: IdsOf(Group(children, d)) == kids[d] && AllFrom(items, Group(children, d))
  }

  lemma IdsOfPush(items: seq<Item>, p: Item)
    ensures IdsOf(items + [p]) == IdsOf(items) + [p.id]
  {
  }

  lemma SubtreeWalk(items: seq<Item>, children: map<string, seq<Item>>, position: Item, f: Links, kids: Kids, n: nat)
    returns (below: seq<string>)
    requires ChildLists(f, kids) && Groups(items, children, kids) && RootedAt(f, position.id, n)
    ensures var group := Group(children, position.id);
      AllFrom(items, group) && AtLevel(f, IdsOf(group), n + 1) &&
      below == WalkAll(f, kids, IdsOf(group), n + 1) && Walk(f, kids, position.id, n) == [position.id] + below
  {
    ChildrenAreOneDeeper(f, kids, position.id, n);
    below := WalkAll(f, kids, kids[position.id], n + 1);
  }

  /** Collects positions while the tree is walked. */
  class Ordering {
    var positions: seq<Item>

    constructor ()
      ensures positions == []
    {
      positions := [];
    }

    method AppendSubtree(ghost items: seq<Item>, children: map<string, seq<Item>>, position: Item,
                         ghost f: Links, ghost kids: Kids, ghost n: nat)
      requires ChildLists(f, kids) && Groups(items, children, kids)
      requires position in items && RootedAt(f, position.id, n)
      modifies this
      ensures IdsOf(positions) == old(IdsOf(positions)) + Walk(f, kids, position.id, n)
      ensures old(AllFrom(items, positions)) ==> AllFrom(items, positions)
      decreases Deeper(f, n), 0
    {
      DeeperShrinks(f, position.id, n);
      ghost var before := positions;
      positions := positions + [position];
      IdsOfPush(before, position);
      assert AllFrom(items, before) ==> AllFrom(items, before + [position]);
      ghost var below := SubtreeWalk(items, children, position, f, kids, n);
      AppendAll(items, children, Group(children, position.id), f, kids, n + 1);
      Associative(IdsOf(before), [position.id], below);
    }

    method AppendAll(ghost items: seq<Item>, children: map<string, seq<Item>>, siblings: seq<Item>,
                     ghost f: Links, ghost kids: Kids, ghost n: nat)
      requires ChildLists(f, kids) && Groups(items, children, kids)
      requires AllFrom(items, siblings) && AtLevel(f, IdsOf(siblings), n)
      modifies this
      ensures IdsOf(positions) == old(IdsOf(positions)) + WalkAll(f, kids, IdsOf(siblings), n)
      ensures old(AllFrom(items, positions)) ==> AllFrom(items, positions)
      decreases Deeper(f, n), 1 + |siblings|
    {
      if siblings != [] {
        assert IdsOf(siblings)[0] in IdsOf(siblings) && IdsOf(siblings)[1..] == IdsOf(siblings[1..]);
        AppendSubtree(items, children, siblings[0], f, kids, n);
        AppendAll(items, children, siblings[1..], f, kids, n);
      }
    }
  }

  method OrderPositions(items: seq<Item>) returns (ordered: seq<Item>)
    requires DistinctIds(items)
    ensures InTreeOrder(items, IdsOf(ordered)) && IdsOf(ordered) == OrderedIds(items)
    ensures AllFrom(items, ordered)
  {
    OrderedIdsInTreeOrder(items);
    ordered := WalkPositions(items);
  }

  lemma ReadyToWalk(items: seq<Item>, children: map<string, seq<Item>>)
    requires DistinctIds(items) && forall key :: Group(children, key) == Siblings(items, key)
    ensures ChildLists(LinksOf(items), KidsOf(items)) && Groups(items, children, KidsOf(items))
    ensures AllFrom(items, Roots(items)) && AtLevel(LinksOf(items), IdsOf(Roots(items)), 0)
    ensures OrderedIds(items) == WalkAll(LinksOf(items), KidsOf(items), IdsOf(Roots(items)), 0)
  {
    LinksHaveChildLists(items);
    LinksHaveRoots(items);
  }

  method WalkPositions(items: seq<Item>) returns (ordered: seq<Item>)
    requires DistinctIds(items)
    ensures IdsOf(ordered) == OrderedIds(items) && AllFrom(items, ordered)
  {
    var children := GroupByParent(items);
    var ordering := new Ordering();
    ReadyToWalk(items, children);
    ordering.AppendAll(items, children, Roots(items), LinksOf(items), KidsOf(items), 0);
    ordered := ordering.positions;
  }

  // ---------------------------------------------------------------- visibility

  /** The part of the path a reader sees: up to the first hidden or missing parent. */
  ghost function VisiblePath(f: Links, readable: set<string>, d: string, n: nat): (path: seq<string>)
    requires RootedAt(f, d, n)
    decreases n
  {
    if f[d].Under? && f[d].parent in readable
    then VisiblePath(f, readable, f[d].parent, n - 1) + [d]
    else [d]
  }

  function VisibleParent(p: Item, readable: set<string>): Option<string> {
    if p.parent.Some? && p.parent.value in readable then p.parent else None
  }

  predicate HasReadableChild(items: seq<Item>, readable: set<string>, d: string) {
    exists c :: c in items && c.parent == Some(d) && c.id in readable
  }

  ghost predicate Presents(items: seq<Item>, readable: set<string>, p: Item, node: Node) {
    exists n: nat :: RootedAt(LinksOf(items), p.id, n) &&
      node == Node(p.id, VisibleParent(p, readable), p.sortKey,
                   |VisiblePath(LinksOf(items), readable, p.id, n)| - 1,
                   VisiblePath(LinksOf(items), readable, p.id, n),
                   HasReadableChild(items, readable, p.id))
  }

  /** d lies at a level or further down. */
  ghost predicate AtOrBelow(f: Links, d: string, level: int) {
    exists k: nat :: level <= k && RootedAt(f, d, k)
  }

  lemma NotVisitedYet(f: Links, child: string, parent: string, level: nat)
    requires child in f && f[child] == Under(parent) && RootedAt(f, child, level + 1)
    ensures !AtOrBelow(f, parent, level + 1)
  {
    if AtOrBelow(f, parent, level + 1) {
      var k: nat :| level + 1 <= k && RootedAt(f, parent, k);
      LevelIsUnique(f, parent, k, level);
    }
  }

  /** The path found so far is the end of the visible path. */
  ghost predicate Climbing(f: Links, readable: set<string>, start: string, n: nat, path: seq<string>) {
    1 <= |path| <= n + 1 && RootedAt(f, start, n) && RootedAt(f, path[0], n + 1 - |path|) &&
    VisiblePath(f, readable, start, n) == VisiblePath(f, readable, path[0], n + 1 - |path|) + path[1..]
  }

  lemma ClimbOne(f: Links, readable: set<string>, start: string, n: nat, path: seq<string>, parent: string)
    requires Climbing(f, readable, start, n, path) && f[path[0]] == Under(parent) && parent in readable
    ensures Climbing(f, readable, start, n, [parent] + path) && AtOrBelow(f, parent, n - |path|)
  {
    var level := n - |path|;
    var above := VisiblePath(f, readable, parent, level);
    Associative(above, [path[0]], path[1..]);
    assert [path[0]] + path[1..] == path && ([parent] + path)[1..] == path;
    assert RootedAt(f, parent, level);
  }

  lemma ClimbedAll(f: Links, readable: set<string>, start: string, n: nat, path: seq<string>)
    requires Climbing(f, readable, start, n, path) && !(f[path[0]].Under? && f[path[0]].parent in readable)
    ensures VisiblePath(f, readable, start, n) == path
  {
    assert [path[0]] + path[1..] == path;
  }

  method PresentNode(items: seq<Item>, byId: map<string, Item>, readable: set<string>, p: Item, ghost n: nat)
    returns (node: Node)
    requires DistinctIds(items) && byId == ById(items) && p in items
    requires readable <= byId.Keys && RootedAt(LinksOf(items), p.id, n)
    ensures Presents(items, readable, p, node)
  {
    ghost var f := LinksOf(items);
    ByIdMeaning(items);
    var path, cursor, visited := [p.id], p.parent, {p.id};
    assert Climbing(f, readable, p.id, n, path);
    assert AtOrBelow(f, p.id, n);
    while cursor.Some? && cursor.value in readable && cursor.value !in visited
      invariant Climbing(f, readable, p.id, n, path) && cursor == byId[path[0]].parent
      invariant forall v | v in visited :: AtOrBelow(f, v, n + 1 - |path|)
      decreases n + 1 - |path|
    {
      assert f[path[0]] == Under(cursor.value);
      ClimbOne(f, readable, p.id, n, path, cursor.value);
      path := [cursor.value] + path;
      visited := visited + {cursor.value};
      cursor := byId[cursor.value].parent;
    }
    if cursor.Some? && cursor.value in readable {
      assert f[path[0]] == Under(cursor.value);
      NotVisitedYet(f, path[0], cursor.value, n - |path|);
      assert false;
    }
    ClimbedAll(f, readable, p.id, n, path);
    node := Node(p.id, VisibleParent(p, readable), p.sortKey, |path| - 1, path,
      HasReadableChild(items, readable, p.id));
  }

  function Shown(ordered: seq<Item>, readable: set<string>): seq<Item> {
    Filter(ordered, (p: Item) => p.id in readable)
  }

  lemma ShownPush(ordered: seq<Item>, p: Item, readable: set<string>)
    ensures Shown(ordered + [p], readable) == Shown(ordered, readable) + (if p.id in readable then [p] else [])
  {
    FilterConcat(ordered, [p], (q: Item) => q.id in readable);
  }

  /** The nodes shown for the listed positions: the readable ones, in order. */
  ghost predicate PresentsAll(items: seq<Item>, readable: set<string>, shown: seq<Item>, nodes: seq<Node>) {
    |nodes| == |shown| && forall i | 0 <= i < |nodes| :: Presents(items, readable, shown[i], nodes[i])
  }

  function ReadableIds(ids: seq<string>, access: string -> Access): (r: set<string>) {
    set d | d in ids && access(d).Readable?
  }

  lemma OrderedAreRooted(items: seq<Item>, ordered: seq<Item>)
    requires DistinctIds(items) && InTreeOrder(items, IdsOf(ordered)) && AllFrom(items, ordered)
    ensures forall p | p in ordered :: Rooted(LinksOf(items), p.id)
    ensures forall d | d in IdsOf(ordered) :: d in ById(items)
  {
    ByIdMeaning(items);
    forall p | p in ordered ensures Rooted(LinksOf(items), p.id) {
      var i :| 0 <= i < |ordered| && ordered[i] == p;
      assert IdsOf(ordered)[i] == p.id;
    }
    forall d | d in IdsOf(ordered) ensures d in ById(items) {
      IdInPart(items, ordered, d);
    }
  }

  method PresentNodes(items: seq<Item>, readable: set<string>, ordered: seq<Item>) returns (nodes: seq<Node>)
    requires DistinctIds(items) && AllFrom(items, ordered) && readable <= ById(items).Keys
    requires forall p | p in ordered :: Rooted(LinksOf(items), p.id)
    ensures PresentsAll(items, readable, Shown(ordered, readable), nodes)
  {
    var byId := ById(items);
    nodes := [];
    for i := 0 to |ordered|
      invariant PresentsAll(items, readable, Shown(ordered[..i], readable), nodes)
    {
      var position := ordered[i];
      ShownPush(ordered[..i], position, readable);
      assert ordered[..i + 1] == ordered[..i] + [position];
      if position.id in readable {
        ghost var n: nat :| RootedAt(LinksOf(items), position.id, n);
        var node := PresentNode(items, byId, readable, position, n);
        nodes := nodes + [node];
      }
    }
    assert ordered[..|ordered|] == ordered;
  }

  // ---------------------------------------------------------------- consistency

  ghost predicate ParentClause(nodes: seq<Node>, node: Node) {
    match node.parent
    case None => node.path == [node.id]
    case Some(p) => exists other :: other in nodes && other.id == p && node.path == other.path + [node.id]
  }

  /** Every path, depth, parent and child mark of a presentation can be checked against the
      presentation itself, however the reader's rights cut the tree. */
  ghost predicate SelfConsistent(nodes: seq<Node>) {
    forall node | node in nodes ::
      node.depth == |node.path| - 1 && ParentClause(nodes, node) &&
      (node.hasChildren <==> exists child :: child in nodes && child.parent == Some(node.id))
  }

  /** The setting of the consistency lemmas: what PresentTree returns. */
  ghost predicate PresentedTo(items: seq<Item>, readable: set<string>, ordered: seq<Item>, nodes: seq<Node>) {
    DistinctIds(items) && AllFrom(items, ordered) &&
    (forall d | d in readable :: d in IdsOf(ordered)) &&
    PresentsAll(items, readable, Shown(ordered, readable), nodes)
  }

  lemma ReadableIsShown(items: seq<Item>, readable: set<string>, ordered: seq<Item>, nodes: seq<Node>, d: string)
    returns (p: Item, node: Node)
    requires PresentedTo(items, readable, ordered, nodes) && d in readable
    ensures p in items && p.id == d && node in nodes && Presents(items, readable, p, node)
  {
    IdInPart(items, ordered, d);
    ByIdMeaning(items);
    p := ById(items)[d];
    var shown := Shown(ordered, readable);
    var j :| 0 <= j < |shown| && shown[j] == p;
    node := nodes[j];
  }

  lemma ShownIsReadable(items: seq<Item>, readable: set<string>, ordered: seq<Item>, nodes: seq<Node>, node: Node)
    returns (p: Item)
    requires PresentedTo(items, readable, ordered, nodes) && node in nodes
    ensures p in items && p.id in readable && Presents(items, readable, p, node)
  {
    var j :| 0 <= j < |nodes| && nodes[j] == node;
    p := Shown(ordered, readable)[j];
    assert p in Shown(ordered, readable);
  }

  lemma PathExtendsVisibleParent(items: seq<Item>, readable: set<string>, p: Item, q: Item, node: Node, parent: Node)
    requires DistinctIds(items) && p in items && q in items
    requires Presents(items, readable, p, node) && Presents(items, readable, q, parent)
    requires p.parent == Some(q.id) && q.id in readable
    ensures node.path == parent.path + [node.id]
  {
    var f := LinksOf(items);
    ByIdMeaning(items);
    var n: nat :| RootedAt(f, p.id, n) && node.path == VisiblePath(f, readable, p.id, n);
    var m: nat :| RootedAt(f, q.id, m) && parent.path == VisiblePath(f, readable, q.id, m);
    assert f[p.id] == Under(q.id);
    LevelIsUnique(f, q.id, m, n - 1);
  }

  lemma ParentIsShown(items: seq<Item>, readable: set<string>, ordered: seq<Item>, nodes: seq<Node>, node: Node)
    requires PresentedTo(items, readable, ordered, nodes) && node in nodes
    ensures ParentClause(nodes, node)
  {
    ByIdMeaning(items);
    var p := ShownIsReadable(items, readable, ordered, nodes, node);
    if node.parent.Some? {
      var q, parent := ReadableIsShown(items, readable, ordered, nodes, node.parent.value);
      PathExtendsVisibleParent(items, readable, p, q, node, parent);
    }
  }

  lemma ChildMarkIsShown(items: seq<Item>, readable: set<string>, ordered: seq<Item>, nodes: seq<Node>, node: Node)
    requires PresentedTo(items, readable, ordered, nodes) && node in nodes
    ensures node.hasChildren <==> exists child :: child in nodes && child.parent == Some(node.id)
  {
    var p := ShownIsReadable(items, readable, ordered, nodes, node);
    if node.hasChildren {
      var c :| c in items && c.parent == Some(node.id) && c.id in readable;
      var q, child := ReadableIsShown(items, readable, ordered, nodes, c.id);
      ByIdMeaning(items);
      assert q == c && child.parent == Some(node.id);
    }
    if child :| child in nodes && child.parent == Some(node.id) {
      var c := ShownIsReadable(items, readable, ordered, nodes, child);
      assert c.parent == Some(node.id);
    }
  }

  lemma PresentationIsSelfConsistent(items: seq<Item>, readable: set<string>, ordered: seq<Item>, nodes: seq<Node>)
    requires PresentedTo(items, readable, ordered, nodes)
    ensures SelfConsistent(nodes)
  {
    forall node | node in nodes
      ensures node.depth == |node.path| - 1 && ParentClause(nodes, node)
      ensures node.hasChildren <==> exists child :: child in nodes && child.parent == Some(node.id)
    {
      var p := ShownIsReadable(items, readable, ordered, nodes, node);
      ParentIsShown(items, readable, ordered, nodes, node);
      ChildMarkIsShown(items, readable, ordered, nodes, node);
    }
  }

  // ---------------------------------------------------------------- what a reader gets to see

  function NodeIds(nodes: seq<Node>): seq<string> {
    seq(|nodes|, i requires 0 <= i < |nodes| => nodes[i].id)
  }

  /** The ids that may be read, in the order given. */
  function MayRead(ids: seq<string>, access: string -> Access): (r: seq<string>)
    ensures forall d :: d in r <==> d in ids && access(d) == Readable
  {
    if ids == [] then []
    else (if access(ids[0]) == Readable then [ids[0]] else []) + MayRead(ids[1..], access)
  }

  /** A node is its item, below its parent if that may be read too, and names nothing else. */
  ghost predicate IsItem(items: seq<Item>, access: string -> Access, node: Node)
    requires DistinctIds(items)
  {
    exists p :: p in items && p.id == node.id && p.sortKey == node.position &&
      node.parent == (if p.parent.Some? && p.parent.value in OrderedIds(items) && access(p.parent.value) == Readable
                      then p.parent else None)
  }

  /** What is shown: the readable documents of the tree order, each once, in that order; nothing that
      a node says names a document that may not be read. */
  ghost predicate ShowsTheReadable(items: seq<Item>, access: string -> Access, nodes: seq<Node>)
    requires DistinctIds(items)
  {
    NodeIds(nodes) == MayRead(OrderedIds(items), access) &&
    forall node | node in nodes ::
      IsItem(items, access, node) && forall d | d in node.path :: access(d) == Readable
  }

  lemma {:induction false} ShownIds(ordered: seq<Item>, ids: seq<string>, readable: set<string>,
                                    access: string -> Access)
    requires ids == IdsOf(ordered) && forall d | d in ids :: d in readable <==> access(d) == Readable
    ensures IdsOf(Shown(ordered, readable)) == MayRead(ids, access)
  {
    if ordered != [] {
      var rest, more := ordered[1..], ids[1..];
      assert ids[0] in ids && forall d | d in more :: d in ids;
      ShownIds(rest, more, readable, access);
      var shown := Shown(rest, readable);
      assert IdsOf([ordered[0]] + shown) == [ordered[0].id] + IdsOf(shown);
    }
  }

  lemma {:induction false} VisiblePathIsReadable(f: Links, readable: set<string>, d: string, n: nat)
    requires RootedAt(f, d, n) && d in readable
    ensures forall x | x in VisiblePath(f, readable, d, n) :: x in readable
    decreases n
  {
    if f[d].Under? && f[d].parent in readable {
      VisiblePathIsReadable(f, readable, f[d].parent, n - 1);
    }
  }

  lemma PresentedShowsTheReadable(items: seq<Item>, access: string -> Access, readable: set<string>,
                                  ordered: seq<Item>, nodes: seq<Node>)
    requires PresentedTo(items, readable, ordered, nodes) && IdsOf(ordered) == OrderedIds(items)
    requires forall d :: d in readable <==> d in OrderedIds(items) && access(d) == Readable
    ensures ShowsTheReadable(items, access, nodes)
  {
    var shown := Shown(ordered, readable);
    ShownIds(ordered, OrderedIds(items), readable, access);
    assert NodeIds(nodes) == IdsOf(shown);
    forall node | node in nodes
      ensures IsItem(items, access, node) && forall d | d in node.path :: access(d) == Readable
    {
      var p := ShownIsReadable(items, readable, ordered, nodes, node);
      var n: nat :| RootedAt(LinksOf(items), p.id, n) && node.path == VisiblePath(LinksOf(items), readable, p.id, n);
      VisiblePathIsReadable(LinksOf(items), readable, p.id, n);
    }
  }

  method PresentTree(items: seq<Item>, access: string -> Access) returns (r: Presentation)
    requires DistinctIds(items)
    ensures r.TooLarge? <==> |items| > 1000
    ensures r.ReadFailed? <==> |items| <= 1000 && exists d :: d in OrderedIds(items) && access(d).Broken?
    ensures r.Tree? ==> exists ordered ::
      IdsOf(ordered) == OrderedIds(items) && AllFrom(items, ordered) &&
      var readable := ReadableIds(OrderedIds(items), access);
      PresentsAll(items, readable, Shown(ordered, readable), r.nodes)
    ensures r.Tree? ==> ShowsTheReadable(items, access, r.nodes) && SelfConsistent(r.nodes)
  {
    if |items| > MAX_NODES {
      return TooLarge;
    }
    var ordered := OrderPositions(items);
    OrderedAreRooted(items, ordered);
    var ids := IdsOf(ordered);
    if exists d :: d in ids && access(d).Broken? {
      return ReadFailed;
    }
    var readable := ReadableIds(ids, access);
    var nodes := PresentNodes(items, readable, ordered);
    PresentationIsSelfConsistent(items, readable, ordered, nodes);
    PresentedShowsTheReadable(items, access, readable, ordered, nodes);
    r := Tree(nodes);
  }
}
