/** The content tree of the collections: documents with a parent in the same collection, and what
    removing and placing documents does to their chains of ancestors. */
module ContentTree {
  import opened Wrappers
  import opened Forest

  /** A committed tree position: every parent lies in the collection of its child. */
  datatype Position = Position(collection: string, parent: Option<string>)

  type Tree = map<string, Position>

  function LinkOf(p: Position): Link {
    match p.parent
    case None => InCollection(p.collection)
    case Some(parent) => Under(parent)
  }

  function CommittedLinks(tree: Tree): Links {
    map d | d in tree :: LinkOf(tree[d])
  }

  /** What a reconcile projects: the documents of the collections whose permissions inherit. */
  function Desired(tree: Tree, inheriting: set<string>): Links {
    map d | d in tree && tree[d].collection in inheriting :: LinkOf(tree[d])
  }

  /** Every parent exists in the same collection and every chain of parents ends. */
  ghost predicate WellPlaced(tree: Tree) {
    (forall d | d in tree :: Rooted(CommittedLinks(tree), d)) &&
    forall d | d in tree && tree[d].parent.Some? ::
      tree[d].parent.value in tree && tree[tree[d].parent.value].collection == tree[d].collection
  }

  /** Removing a node promotes its children to its own parent. */
  function Remove(tree: Tree, id: string): Tree {
    map d | d in tree && d != id ::
      if id in tree && tree[d].parent == Some(id) then Position(tree[d].collection, tree[id].parent) else tree[d]
  }

  function RemoveAll(tree: Tree, ids: seq<string>): Tree {
    if ids == [] then tree else RemoveAll(Remove(tree, ids[0]), ids[1..])
  }

  // ---------------------------------------------------------------- placement

  lemma {:induction false} RemoveKeepsRooted(tree: Tree, id: string, d: string, n: nat)
    requires WellPlaced(tree) && d in tree && d != id && RootedAt(CommittedLinks(tree), d, n)
    ensures Rooted(CommittedLinks(Remove(tree, id)), d)
    decreases n
  {
    var f, g := CommittedLinks(tree), CommittedLinks(Remove(tree, id));
    if g[d].InCollection? {
      assert RootedAt(g, d, 0);
    } else {
      var q := g[d].parent;
      if f[d].parent == id {
        RootedHasNoSelfParent(f, id, n - 1);
        RemoveKeepsRooted(tree, id, q, n - 2);
      } else {
        RemoveKeepsRooted(tree, id, q, n - 1);
      }
      var k: nat :| RootedAt(g, q, k);
      assert RootedAt(g, d, k + 1);
    }
  }

  lemma RemoveKeepsPlacement(tree: Tree, id: string)
    requires WellPlaced(tree)
    ensures WellPlaced(Remove(tree, id))
  {
    var f := CommittedLinks(tree);
    if id in tree {
      var n: nat :| RootedAt(f, id, n);
      RootedHasNoSelfParent(f, id, n);
    }
    forall d | d in Remove(tree, id) ensures Rooted(CommittedLinks(Remove(tree, id)), d) {
      var n: nat :| RootedAt(f, d, n);
      RemoveKeepsRooted(tree, id, d, n);
    }
  }

  lemma {:induction false} RemoveAllKeepsPlacement(tree: Tree, ids: seq<string>)
    requires WellPlaced(tree)
    ensures WellPlaced(RemoveAll(tree, ids))
    decreases ids
  {
    if ids != [] {
      RemoveKeepsPlacement(tree, ids[0]);
      RemoveAllKeepsPlacement(Remove(tree, ids[0]), ids[1..]);
    }
  }

  lemma PlacingKeepsPlacement(tree: Tree, id: string, at: Position)
    requires WellPlaced(tree) && (id in tree ==> tree[id].collection == at.collection)
    requires at.parent.Some? ==> at.parent.value in tree && tree[at.parent.value].collection == at.collection &&
                                 !Below(CommittedLinks(tree), at.parent.value, id)
    ensures WellPlaced(tree[id := at])
  {
    var f, link := CommittedLinks(tree), LinkOf(at);
    assert CommittedLinks(tree[id := at]) == f[id := link];
    RootedAfterRelink(f, id, link);
    forall d | d in tree ensures Rooted(f[id := link], d) {
      RelinkKeepsRooted(f, id, link, d);
    }
  }

  /** Every ancestor of a placed document is placed, in the same collection. */
  lemma {:induction false} AncestorsStayInCollection(tree: Tree, d: string, n: nat)
    requires WellPlaced(tree) && d in tree && AncestorAt(CommittedLinks(tree), d, n).Some?
    ensures var a := AncestorAt(CommittedLinks(tree), d, n).value;
      a in tree && tree[a].collection == tree[d].collection
    decreases n
  {
    if n > 0 {
      AncestorsStayInCollection(tree, tree[d].parent.value, n - 1);
    }
  }

  lemma NothingBelowAnUnknown(tree: Tree, d: string, id: string)
    requires WellPlaced(tree) && d in tree && id !in tree
    ensures !Below(CommittedLinks(tree), d, id)
  {
    if Below(CommittedLinks(tree), d, id) {
      var n: nat :| AncestorAt(CommittedLinks(tree), d, n) == Some(id);
      AncestorsStayInCollection(tree, d, n);
    }
  }

  /** The projection of the whole tree gives every projected document its committed chain. */
  lemma DesiredIsFaithful(tree: Tree, inheriting: set<string>, d: string)
    requires WellPlaced(tree) && d in tree && tree[d].collection in inheriting
    ensures SameChain(Desired(tree, inheriting), CommittedLinks(tree), d)
  {
    var f, g := Desired(tree, inheriting), CommittedLinks(tree);
    forall n: nat ensures LinkAt(f, d, n) == LinkAt(g, d, n) {
      AgreeOnClosedSet(f, g, f.Keys, d, n);
    }
  }

  // ---------------------------------------------------------------- removal and chains

  lemma {:induction false} RemovedStaysRemoved(tree: Tree, ids: seq<string>, d: string)
    ensures d in RemoveAll(tree, ids) <==> d in tree && d !in ids
    ensures d in RemoveAll(tree, ids) ==> RemoveAll(tree, ids)[d].collection == tree[d].collection
    decreases |ids|
  {
    if ids != [] {
      RemovedStaysRemoved(Remove(tree, ids[0]), ids[1..], d);
    }
  }

  /** Removing a document that is not above d, nor d itself, leaves the chain of d alone. */
  lemma RemoveElsewhere(tree: Tree, id: string, d: string)
    requires WellPlaced(tree) && d in tree && !Below(CommittedLinks(tree), d, id)
    ensures SameChain(CommittedLinks(tree), CommittedLinks(Remove(tree, id)), d)
  {
    var f, g := CommittedLinks(tree), CommittedLinks(Remove(tree, id));
    var above := set x | x in tree && Below(f, d, x);
    assert AncestorAt(f, d, 0) == Some(d);
    forall x | x in above
      ensures x in f && x in g && f[x] == g[x]
      ensures f[x].Under? ==> f[x].parent in above
    {
      if f[x].Under? {
        var n: nat :| AncestorAt(f, d, n) == Some(x);
        OneFurtherUp(f, d, n, x);
        AncestorsStayInCollection(tree, d, n + 1);
      }
    }
    forall n: nat ensures LinkAt(f, d, n) == LinkAt(g, d, n) {
      AgreeOnClosedSet(f, g, above, d, n);
    }
  }

  lemma {:induction false} OneFurtherUp(f: Links, d: string, n: nat, x: string)
    requires AncestorAt(f, d, n) == Some(x) && x in f && f[x].Under?
    ensures AncestorAt(f, d, n + 1) == Some(f[x].parent)
    decreases n
  {
    if n > 0 {
      OneFurtherUp(f, f[d].parent, n - 1, x);
    } else {
      assert AncestorAt(f, f[d].parent, 0) == Some(f[d].parent);
    }
  }

  /** Removing a document brings those below it one level up. */
  lemma {:induction false} RemoveLifts(tree: Tree, id: string, d: string, n: nat) returns (k: nat)
    requires WellPlaced(tree) && d in tree && d != id && RootedAt(CommittedLinks(tree), d, n)
    ensures RootedAt(CommittedLinks(Remove(tree, id)), d, k)
    ensures k <= n && (Below(CommittedLinks(tree), d, id) ==> k < n)
    decreases n
  {
    var f, g := CommittedLinks(tree), CommittedLinks(Remove(tree, id));
    if f[d].InCollection? {
      k := 0;
      assert forall m: nat :: AncestorAt(f, d, m) == Some(id) ==> m == 0;
    } else {
      var p := f[d].parent;
      if p == id {
        if f[p].InCollection? {
          k := 0;
        } else {
          RootedHasNoSelfParent(f, id, n - 1);
          var above := RemoveLifts(tree, id, f[p].parent, n - 2);
          k := above + 1;
        }
      } else {
        var above := RemoveLifts(tree, id, p, n - 1);
        k := above + 1;
        if Below(f, d, id) {
          var m: nat :| AncestorAt(f, d, m) == Some(id);
          assert AncestorAt(f, p, m - 1) == Some(id);
        }
      }
    }
  }

  ghost predicate BelowAny(f: Links, d: string, ids: seq<string>) {
    exists i :: 0 <= i < |ids| && Below(f, d, ids[i])
  }

  lemma BelowAnyStep(f: Links, d: string, ids: seq<string>)
    requires ids != []
    ensures BelowAny(f, d, ids) <==> Below(f, d, ids[0]) || BelowAny(f, d, ids[1..])
  {
    if BelowAny(f, d, ids[1..]) {
      var i :| 0 <= i < |ids[1..]| && Below(f, d, ids[1..][i]);
      assert Below(f, d, ids[i + 1]);
    }
    if i :| 0 <= i < |ids| && Below(f, d, ids[i]) {
      assert i > 0 ==> ids[i] == ids[1..][i - 1];
    }
  }

  lemma {:induction false} RemoveAllElsewhere(tree: Tree, ids: seq<string>, d: string)
    requires WellPlaced(tree) && d in tree && !BelowAny(CommittedLinks(tree), d, ids)
    ensures d in RemoveAll(tree, ids) && SameChain(CommittedLinks(tree), CommittedLinks(RemoveAll(tree, ids)), d)
    decreases |ids|
  {
    if ids != [] {
      var f, next := CommittedLinks(tree), Remove(tree, ids[0]);
      BelowAnyStep(f, d, ids);
      assert AncestorAt(f, d, 0) == Some(d);
      RemoveElsewhere(tree, ids[0], d);
      RemoveKeepsPlacement(tree, ids[0]);
      forall i | 0 <= i < |ids[1..]| ensures !Below(CommittedLinks(next), d, ids[1..][i]) {
        SameChainSameAncestors(f, CommittedLinks(next), d, ids[1..][i]);
      }
      RemoveAllElsewhere(next, ids[1..], d);
      SameChainTransitive(f, CommittedLinks(next), CommittedLinks(RemoveAll(tree, ids)), d);
    }
  }

  lemma {:induction false} RemoveAllLifts(tree: Tree, ids: seq<string>, d: string, n: nat) returns (k: nat)
    requires WellPlaced(tree) && d in RemoveAll(tree, ids) && d in tree && RootedAt(CommittedLinks(tree), d, n)
    ensures RootedAt(CommittedLinks(RemoveAll(tree, ids)), d, k)
    ensures k <= n && (BelowAny(CommittedLinks(tree), d, ids) ==> k < n)
    decreases |ids|
  {
    if ids == [] {
      k := n;
    } else {
      var f, next := CommittedLinks(tree), Remove(tree, ids[0]);
      BelowAnyStep(f, d, ids);
      RemovedStaysRemoved(tree, ids, d);
      RemoveKeepsPlacement(tree, ids[0]);
      var first := RemoveLifts(tree, ids[0], d, n);
      k := RemoveAllLifts(next, ids[1..], d, first);
      if !Below(f, d, ids[0]) && BelowAny(f, d, ids[1..]) {
        RemoveElsewhere(tree, ids[0], d);
        var i :| 0 <= i < |ids[1..]| && Below(f, d, ids[1..][i]);
        SameChainSameAncestors(f, CommittedLinks(next), d, ids[1..][i]);
      }
    }
  }

  /** A purge leaves a document and its chain alone exactly if it removes neither the document nor
      anything above it. */
  lemma PurgeKeepsExactlyTheRest(tree: Tree, ids: seq<string>, d: string)
    requires WellPlaced(tree) && d in tree
    ensures d in RemoveAll(tree, ids) && SameChain(CommittedLinks(tree), CommittedLinks(RemoveAll(tree, ids)), d) <==>
            !BelowAny(CommittedLinks(tree), d, ids)
  {
    var f, g := CommittedLinks(tree), CommittedLinks(RemoveAll(tree, ids));
    if !BelowAny(f, d, ids) {
      RemoveAllElsewhere(tree, ids, d);
    } else if d in RemoveAll(tree, ids) && SameChain(f, g, d) {
      var n: nat :| RootedAt(f, d, n);
      var k := RemoveAllLifts(tree, ids, d, n);
      assert RootedAt(g, d, n);
      LevelIsUnique(g, d, k, n);
    }
  }
}
