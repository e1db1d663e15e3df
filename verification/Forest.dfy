/** Parent pointers of documents, read as a forest: what a document's chain of ancestors is,
    who lies below whom, and which updates leave a chain alone. */
module Forest {
  import opened Wrappers

  datatype Link = InCollection(collection: string) | Under(parent: string)

  type Links = map<string, Link>

  /** The link found after following n parent pointers from d; None once the chain has ended. */
  function LinkAt(f: Links, d: string, n: nat): (link: Option<Link>)
    decreases n
  {
    if d !in f then None
    else if n == 0 then Some(f[d])
    else match f[d]
      case InCollection(_) => None
      case Under(p) => LinkAt(f, p, n - 1)
  }

  /** The document reached after following n parent pointers from d. */
  function AncestorAt(f: Links, d: string, n: nat): (ancestor: Option<string>)
    decreases n
  {
    if n == 0 then Some(d)
    else if d !in f || f[d].InCollection? then None
    else AncestorAt(f, f[d].parent, n - 1)
  }

  /** The whole chain of d, collection included, is the same in both forests. */
  ghost predicate SameChain(f: Links, g: Links, d: string) {
    forall n: nat :: LinkAt(f, d, n) == LinkAt(g, d, n)
  }

  /** d is m or lies somewhere below it. */
  ghost predicate Below(f: Links, d: string, m: string) {
    exists n: nat :: AncestorAt(f, d, n) == Some(m)
  }

  /** The subtree of m: the documents whose chain a new parent for m can change. */
  ghost function Subtree(f: Links, m: string): (s: set<string>) {
    set d | d in f && Below(f, d, m)
  }

  /** The walk up from d reaches a collection after n parents. */
  ghost predicate RootedAt(f: Links, d: string, n: nat) {
    LinkAt(f, d, n).Some? && LinkAt(f, d, n).value.InCollection?
  }

  /** The walk up from d ends: no cycle, no missing parent. */
  ghost predicate Rooted(f: Links, d: string) {
    exists n: nat :: RootedAt(f, d, n)
  }

  lemma SameChainTransitive(f: Links, g: Links, h: Links, d: string)
    requires SameChain(f, g, d) && SameChain(g, h, d)
    ensures SameChain(f, h, d)
  {
  }

  lemma {:induction false} RelinkOutsideAt(f: Links, m: string, link: Link, d: string, n: nat)
    requires forall k: nat | k <= n :: AncestorAt(f, d, k) != Some(m)
    ensures LinkAt(f, d, n) == LinkAt(f[m := link], d, n)
    decreases n
  {
    assert AncestorAt(f, d, 0) != Some(m);
    if n > 0 && d in f && f[d].Under? {
      var p := f[d].parent;
      forall k: nat | k <= n - 1 ensures AncestorAt(f, p, k) != Some(m) {
        assert AncestorAt(f, d, k + 1) == AncestorAt(f, p, k);
      }
      RelinkOutsideAt(f, m, link, p, n - 1);
    }
  }

  /** A new parent for m (or a first one) changes chains only inside the subtree of m. */
  lemma RelinkOutside(f: Links, m: string, link: Link, d: string)
    requires !Below(f, d, m)
    ensures SameChain(f, f[m := link], d)
  {
    forall n: nat ensures LinkAt(f, d, n) == LinkAt(f[m := link], d, n) {
      RelinkOutsideAt(f, m, link, d, n);
    }
  }

  lemma {:induction false} RelinkInside(f: Links, m: string, link: Link, d: string, n: nat)
    requires m in f && f[m] != link
    requires AncestorAt(f, d, n) == Some(m)
    requires forall k: nat | k < n :: AncestorAt(f, d, k) != Some(m)
    ensures LinkAt(f, d, n) != LinkAt(f[m := link], d, n)
    decreases n
  {
    if n > 0 {
      assert AncestorAt(f, d, 0) != Some(m);
      var p := f[d].parent;
      forall k: nat | k < n - 1 ensures AncestorAt(f, p, k) != Some(m) {
        assert AncestorAt(f, d, k + 1) == AncestorAt(f, p, k);
      }
      RelinkInside(f, m, link, p, n - 1);
    }
  }

  /** The first time the walk up from d meets m. */
  lemma {:induction false} FirstMeeting(f: Links, d: string, m: string, n: nat) returns (k: nat)
    requires AncestorAt(f, d, n) == Some(m)
    ensures k <= n && AncestorAt(f, d, k) == Some(m)
    ensures forall j: nat | j < k :: AncestorAt(f, d, j) != Some(m)
    decreases n
  {
    k := n;
    if j: nat :| j < n && AncestorAt(f, d, j) == Some(m) {
      k := FirstMeeting(f, d, m, j);
    }
  }

  /** Giving m a genuinely new parent changes the chains of the subtree of m, and of nothing else. */
  lemma MoveChangesExactlyTheSubtree(f: Links, m: string, link: Link, d: string)
    requires m in f && f[m] != link
    ensures SameChain(f, f[m := link], d) <==> !Below(f, d, m)
  {
    if Below(f, d, m) {
      var n: nat :| AncestorAt(f, d, n) == Some(m);
      var k := FirstMeeting(f, d, m, n);
      RelinkInside(f, m, link, d, k);
    } else {
      RelinkOutside(f, m, link, d);
    }
  }

  /** Two forests that agree on a parent-closed set of documents agree on their chains. */
  lemma {:induction false} AgreeOnClosedSet(f: Links, g: Links, s: set<string>, d: string, n: nat)
    requires d in s
    requires forall x | x in s :: x in f && x in g && f[x] == g[x]
    requires forall x | x in s && f[x].Under? :: f[x].parent in s
    ensures LinkAt(f, d, n) == LinkAt(g, d, n)
    decreases n
  {
    if n > 0 && f[d].Under? {
      AgreeOnClosedSet(f, g, s, f[d].parent, n - 1);
    }
  }

  lemma {:induction false} RootedHasNoSelfParent(f: Links, d: string, n: nat)
    requires RootedAt(f, d, n)
    ensures f[d] != Under(d)
    decreases n
  {
    if n > 0 && f[d] == Under(d) {
      RootedHasNoSelfParent(f, d, n - 1);
    }
  }

  lemma RootedBySameChain(f: Links, g: Links, d: string)
    requires SameChain(f, g, d) && Rooted(f, d)
    ensures Rooted(g, d)
  {
    var n: nat :| RootedAt(f, d, n);
    assert RootedAt(g, d, n);
  }

  /** What is below a rooted document is rooted. */
  lemma {:induction false} RootedThroughAncestor(f: Links, d: string, m: string, n: nat)
    requires AncestorAt(f, d, n) == Some(m) && Rooted(f, m)
    ensures Rooted(f, d)
    decreases n
  {
    if n > 0 {
      var p := f[d].parent;
      RootedThroughAncestor(f, p, m, n - 1);
      var k: nat :| RootedAt(f, p, k);
      assert RootedAt(f, d, k + 1);
    }
  }

  /** Up to the first meeting with m, a new parent for m leaves the walk up from d alone. */
  lemma {:induction false} RelinkKeepsWay(f: Links, m: string, link: Link, d: string, n: nat)
    requires AncestorAt(f, d, n) == Some(m)
    requires forall j: nat | j < n :: AncestorAt(f, d, j) != Some(m)
    ensures AncestorAt(f[m := link], d, n) == Some(m)
    decreases n
  {
    if n > 0 {
      assert AncestorAt(f, d, 0) != Some(m);
      var p := f[d].parent;
      forall j: nat | j < n - 1 ensures AncestorAt(f, p, j) != Some(m) {
        assert AncestorAt(f, d, j + 1) == AncestorAt(f, p, j);
      }
      RelinkKeepsWay(f, m, link, p, n - 1);
    }
  }

  /** A move that does not go below the moved document creates no cycle. */
  lemma RelinkKeepsRooted(f: Links, m: string, link: Link, d: string)
    requires Rooted(f, d)
    requires link.Under? ==> Rooted(f, link.parent) && !Below(f, link.parent, m)
    ensures Rooted(f[m := link], d)
  {
    var g := f[m := link];
    if Below(f, d, m) {
      var n: nat :| AncestorAt(f, d, n) == Some(m);
      var k := FirstMeeting(f, d, m, n);
      RelinkKeepsWay(f, m, link, d, k);
      RootedAfterRelink(f, m, link);
      RootedThroughAncestor(g, d, m, k);
    } else {
      RelinkOutside(f, m, link, d);
      RootedBySameChain(f, g, d);
    }
  }

  /** How far a document is from its collection is determined. */
  lemma {:induction false} LevelIsUnique(f: Links, d: string, m: nat, n: nat)
    requires RootedAt(f, d, m) && RootedAt(f, d, n)
    ensures m == n
    decreases m
  {
    if m > 0 && n > 0 {
      LevelIsUnique(f, f[d].parent, m - 1, n - 1);
    }
  }

  /** With a new parent the document itself is rooted exactly if the parent was and does not lie
      below it. */
  lemma RootedAfterRelink(f: Links, m: string, link: Link)
    ensures Rooted(f[m := link], m) <==> (link.Under? ==> Rooted(f, link.parent) && !Below(f, link.parent, m))
  {
    var g := f[m := link];
    if link.InCollection? {
      assert RootedAt(g, m, 0);
    } else if Below(f, link.parent, m) {
      RelinkBelowItself(f, m, link);
    } else {
      RelinkOutside(f, m, link, link.parent);
      if Rooted(f, link.parent) {
        RootedBySameChain(f, g, link.parent);
        var k: nat :| RootedAt(g, link.parent, k);
        assert RootedAt(g, m, k + 1);
      }
      if Rooted(g, m) {
        var k: nat :| RootedAt(g, m, k);
        assert RootedAt(g, link.parent, k - 1);
        RootedBySameChain(g, f, link.parent);
      }
    }
  }

  /** A parent below the document itself makes a cycle. */
  lemma RelinkBelowItself(f: Links, m: string, link: Link)
    requires link.Under? && Below(f, link.parent, m)
    ensures !Rooted(f[m := link], m)
  {
    var g := f[m := link];
    var n: nat :| AncestorAt(f, link.parent, n) == Some(m);
    var k := FirstMeeting(f, link.parent, m, n);
    RelinkKeepsWay(f, m, link, link.parent, k);
    if Rooted(g, m) {
      var level: nat :| RootedAt(g, m, level);
      assert AncestorAt(g, m, k + 1) == Some(m);
      LevelOfAncestor(g, m, m, k + 1, level);
      LevelIsUnique(g, m, level - (k + 1), level);
    }
  }

  lemma {:induction false} LevelOfAncestor(f: Links, d: string, a: string, n: nat, level: nat)
    requires AncestorAt(f, d, n) == Some(a) && RootedAt(f, d, level)
    ensures n <= level && RootedAt(f, a, level - n)
    decreases n
  {
    if n > 0 {
      LevelOfAncestor(f, f[d].parent, a, n - 1, level - 1);
    }
  }

  /** The next ancestor can be read off the chain. */
  lemma {:induction false} AncestorFromLink(f: Links, d: string, n: nat)
    ensures AncestorAt(f, d, n + 1) ==
            match LinkAt(f, d, n)
            case Some(Under(p)) => Some(p)
            case _ => None
    decreases n
  {
    if n > 0 && d in f && f[d].Under? {
      AncestorFromLink(f, f[d].parent, n - 1);
    }
  }

  lemma SameChainSameAncestors(f: Links, g: Links, d: string, x: string)
    requires SameChain(f, g, d)
    ensures Below(f, d, x) <==> Below(g, d, x)
  {
    forall n: nat ensures AncestorAt(f, d, n) == AncestorAt(g, d, n) {
      if n > 0 {
        AncestorFromLink(f, d, n - 1);
        AncestorFromLink(g, d, n - 1);
        assert LinkAt(f, d, n - 1) == LinkAt(g, d, n - 1);
      }
    }
  }
}
