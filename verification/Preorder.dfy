/** Depth-first order of a forest given by parent links and ordered lists of children. */
module Preorder {
  import opened Wrappers
  import opened Forest
  import opened Sequences

  type Kids = map<string, seq<string>>

  /** The lists of children list, for every node, exactly the nodes linked under it, once. */
  ghost predicate ChildLists(f: Links, kids: Kids) {
    kids.Keys == f.Keys &&
    (forall d | d in kids :: NoDuplicates(kids[d])) &&
    (forall d, c | d in kids && c in kids[d] :: c in f && f[c] == Under(d)) &&
    (forall c | c in f && f[c].Under? && f[c].parent in kids :: c in kids[f[c].parent])
  }

  ghost predicate AtLevel(f: Links, ps: seq<string>, n: nat) {
    forall p | p in ps :: RootedAt(f, p, n)
  }

  /** The documents that are not known to sit above level n; each level takes some away. */
  ghost function Deeper(f: Links, n: nat): set<string> {
    set d | d in f && !(exists k: nat :: k < n && RootedAt(f, d, k))
  }

  ghost function Walk(f: Links, kids: Kids, p: string, n: nat): (out: seq<string>)
    requires ChildLists(f, kids) && RootedAt(f, p, n)
    decreases Deeper(f, n), 0
  {
    DeeperShrinks(f, p, n);
    ChildrenAreOneDeeper(f, kids, p, n);
    [p] + WalkAll(f, kids, kids[p], n + 1)
  }

  ghost function WalkAll(f: Links, kids: Kids, ps: seq<string>, n: nat): (out: seq<string>)
    requires ChildLists(f, kids) && AtLevel(f, ps, n)
    decreases Deeper(f, n), 1 + |ps|
  {
    if ps == [] then [] else Walk(f, kids, ps[0], n) + WalkAll(f, kids, ps[1..], n)
  }

  // ---------------------------------------------------------------- levels

  lemma DeeperShrinks(f: Links, d: string, n: nat)
    requires RootedAt(f, d, n)
    ensures Deeper(f, n + 1) < Deeper(f, n)
  {
    assert d !in Deeper(f, n + 1);
    forall k: nat | k < n ensures !RootedAt(f, d, k) {
      if RootedAt(f, d, k) {
        LevelIsUnique(f, d, k, n);
      }
    }
    assert d in Deeper(f, n);
  }

  lemma ChildrenAreOneDeeper(f: Links, kids: Kids, p: string, n: nat)
    requires ChildLists(f, kids) && RootedAt(f, p, n)
    ensures p in kids && AtLevel(f, kids[p], n + 1)
  {
  }

  lemma {:induction false} AncestorStep(f: Links, d: string, k: nat, c: string, m: string)
    requires AncestorAt(f, d, k) == Some(c) && c in f && f[c] == Under(m)
    ensures AncestorAt(f, d, k + 1) == Some(m)
    decreases k
  {
    if k > 0 {
      AncestorStep(f, f[d].parent, k - 1, c, m);
    } else {
      assert AncestorAt(f, m, 0) == Some(m);
    }
  }

  lemma {:induction false} LevelBelow(f: Links, d: string, k: nat, m: string, n: nat)
    requires AncestorAt(f, d, k) == Some(m) && RootedAt(f, m, n)
    ensures RootedAt(f, d, n + k)
    decreases k
  {
    if k > 0 {
      LevelBelow(f, f[d].parent, k - 1, m, n);
    }
  }

  lemma {:induction false} AncestorBefore(f: Links, d: string, k: nat, m: string) returns (c: string)
    requires k > 0 && AncestorAt(f, d, k) == Some(m)
    ensures AncestorAt(f, d, k - 1) == Some(c) && c in f && f[c] == Under(m)
    decreases k
  {
    if k == 1 {
      c := d;
      assert AncestorAt(f, f[d].parent, 0) == Some(m);
    } else {
      c := AncestorBefore(f, f[d].parent, k - 1, m);
    }
  }

  lemma BelowChildIsBelowParent(f: Links, q: string, c: string, p: string)
    requires Below(f, q, c) && c in f && f[c] == Under(p)
    ensures Below(f, q, p)
  {
    var k: nat :| AncestorAt(f, q, k) == Some(c);
    AncestorStep(f, q, k, c, p);
  }

  lemma StrictlyBelowIsBelowAChild(f: Links, q: string, p: string) returns (c: string)
    requires Below(f, q, p) && q != p
    ensures Below(f, q, c) && c in f && f[c] == Under(p)
  {
    var k: nat :| AncestorAt(f, q, k) == Some(p);
    c := AncestorBefore(f, q, k, p);
  }

  /** Two different documents of one level have nothing below them in common. */
  lemma SubtreesOfALevelAreDisjoint(f: Links, a: string, b: string, n: nat, q: string)
    requires RootedAt(f, a, n) && RootedAt(f, b, n) && Below(f, q, a) && Below(f, q, b)
    ensures a == b
  {
    var j: nat :| AncestorAt(f, q, j) == Some(a);
    var k: nat :| AncestorAt(f, q, k) == Some(b);
    LevelBelow(f, q, j, a, n);
    LevelBelow(f, q, k, b, n);
    LevelIsUnique(f, q, n + j, n + k);
  }

  lemma NotBelowOwnChild(f: Links, c: string, p: string, n: nat)
    requires RootedAt(f, p, n) && c in f && f[c] == Under(p)
    ensures !Below(f, p, c)
  {
    if Below(f, p, c) {
      var k: nat :| AncestorAt(f, p, k) == Some(c);
      assert RootedAt(f, c, n + 1);
      LevelBelow(f, p, k, c, n + 1);
      LevelIsUnique(f, p, n, n + 1 + k);
    }
  }

  // ---------------------------------------------------------------- content

  /** The walk of p lists p and what is below it, and nothing else. */
  lemma {:induction false} WalkContent(f: Links, kids: Kids, p: string, n: nat, q: string)
    requires ChildLists(f, kids) && RootedAt(f, p, n)
    ensures q in Walk(f, kids, p, n) <==> Below(f, q, p)
    decreases Deeper(f, n), 0
  {
    DeeperShrinks(f, p, n);
    ChildrenAreOneDeeper(f, kids, p, n);
    WalkAllContent(f, kids, kids[p], n + 1, q);
    BelowThroughChildren(f, kids, p, q);
  }

  ghost predicate BelowOneOf(f: Links, q: string, ps: seq<string>) {
    exists p :: p in ps && Below(f, q, p)
  }

  lemma BelowThroughChildren(f: Links, kids: Kids, p: string, q: string)
    requires ChildLists(f, kids) && p in kids
    ensures Below(f, q, p) <==> q == p || BelowOneOf(f, q, kids[p])
  {
    if q == p {
      assert AncestorAt(f, q, 0) == Some(p);
    } else if BelowOneOf(f, q, kids[p]) {
      var c :| c in kids[p] && Below(f, q, c);
      BelowChildIsBelowParent(f, q, c, p);
    } else if Below(f, q, p) {
      var c := StrictlyBelowIsBelowAChild(f, q, p);
    }
  }

  lemma {:induction false} WalkAllContent(f: Links, kids: Kids, ps: seq<string>, n: nat, q: string)
    requires ChildLists(f, kids) && AtLevel(f, ps, n)
    ensures q in WalkAll(f, kids, ps, n) <==> BelowOneOf(f, q, ps)
    decreases Deeper(f, n), 1 + |ps|
  {
    if ps != [] {
      WalkContent(f, kids, ps[0], n, q);
      WalkAllContent(f, kids, ps[1..], n, q);
    }
  }

  lemma {:induction false} WalkHasNoDuplicates(f: Links, kids: Kids, p: string, n: nat)
    requires ChildLists(f, kids) && RootedAt(f, p, n)
    ensures NoDuplicates(Walk(f, kids, p, n))
    decreases Deeper(f, n), 0
  {
    DeeperShrinks(f, p, n);
    ChildrenAreOneDeeper(f, kids, p, n);
    WalkAllHasNoDuplicates(f, kids, kids[p], n + 1);
    WalkAllContent(f, kids, kids[p], n + 1, p);
    forall c | c in kids[p] ensures !Below(f, p, c) {
      NotBelowOwnChild(f, c, p, n);
    }
    NoDuplicatesConcat([p], WalkAll(f, kids, kids[p], n + 1));
  }

  lemma {:induction false} WalkAllHasNoDuplicates(f: Links, kids: Kids, ps: seq<string>, n: nat)
    requires ChildLists(f, kids) && AtLevel(f, ps, n) && NoDuplicates(ps)
    ensures NoDuplicates(WalkAll(f, kids, ps, n))
    decreases Deeper(f, n), 1 + |ps|
  {
    if ps != [] {
      var p, rest := ps[0], ps[1..];
      assert p !in rest;
      WalkHasNoDuplicates(f, kids, p, n);
      WalkAllHasNoDuplicates(f, kids, rest, n);
      forall q | q in Walk(f, kids, p, n) ensures q !in WalkAll(f, kids, rest, n) {
        WalkContent(f, kids, p, n, q);
        WalkAllContent(f, kids, rest, n, q);
        if r :| r in rest && Below(f, q, r) {
          SubtreesOfALevelAreDisjoint(f, p, r, n, q);
        }
      }
      NoDuplicatesConcat(Walk(f, kids, p, n), WalkAll(f, kids, rest, n));
    }
  }

  // ---------------------------------------------------------------- blocks

  /** The walk of a listed document is one block of the list. */
  lemma {:induction false} BlockInWalk(f: Links, kids: Kids, p: string, n: nat, x: string, m: nat)
    returns (pre: seq<string>, post: seq<string>)
    requires ChildLists(f, kids) && RootedAt(f, p, n) && RootedAt(f, x, m)
    requires x in Walk(f, kids, p, n)
    ensures Walk(f, kids, p, n) == pre + Walk(f, kids, x, m) + post
    decreases Deeper(f, n), 0
  {
    DeeperShrinks(f, p, n);
    ChildrenAreOneDeeper(f, kids, p, n);
    if x == p {
      LevelIsUnique(f, p, m, n);
      pre, post := [], [];
    } else {
      pre, post := BlockInWalkAll(f, kids, kids[p], n + 1, x, m);
      pre := [p] + pre;
    }
  }

  lemma {:induction false} BlockInWalkAll(f: Links, kids: Kids, ps: seq<string>, n: nat, x: string, m: nat)
    returns (pre: seq<string>, post: seq<string>)
    requires ChildLists(f, kids) && AtLevel(f, ps, n) && RootedAt(f, x, m)
    requires x in WalkAll(f, kids, ps, n)
    ensures WalkAll(f, kids, ps, n) == pre + Walk(f, kids, x, m) + post
    decreases Deeper(f, n), 1 + |ps|
  {
    var first, rest := Walk(f, kids, ps[0], n), WalkAll(f, kids, ps[1..], n);
    if x in first {
      pre, post := BlockInWalk(f, kids, ps[0], n, x, m);
      post := post + rest;
    } else {
      pre, post := BlockInWalkAll(f, kids, ps[1..], n, x, m);
      pre := first + pre;
    }
  }

  /** Documents of one list of siblings are walked in the order of that list. */
  lemma {:induction false} WalkedInOrder(f: Links, kids: Kids, ps: seq<string>, n: nat, a: string, b: string)
    requires ChildLists(f, kids) && AtLevel(f, ps, n) && Before(ps, a, b)
    ensures Before(WalkAll(f, kids, ps, n), a, b)
    decreases |ps|
  {
    if ps[0] == a && b in ps[1..] {
      assert AncestorAt(f, b, 0) == Some(b);
      WalkAllContent(f, kids, ps[1..], n, b);
    } else {
      WalkedInOrder(f, kids, ps[1..], n, a, b);
    }
    BeforeInConcat(Walk(f, kids, ps[0], n), WalkAll(f, kids, ps[1..], n), a, b);
  }

  lemma BeforeInBlock(pre: seq<string>, block: seq<string>, post: seq<string>, a: string, b: string)
    requires Before(block, a, b)
    ensures Before(pre + block + post, a, b)
  {
    BeforeInConcat(pre, block, a, b);
    BeforeInConcat(pre + block, post, a, b);
  }

  // ---------------------------------------------------------------- the whole forest

  ghost predicate AllRoots(f: Links, roots: seq<string>) {
    NoDuplicates(roots) && (forall r | r in roots :: RootedAt(f, r, 0)) &&
    (forall r | r in f && f[r].InCollection? :: r in roots)
  }

  lemma {:induction false} RootAbove(f: Links, d: string, n: nat) returns (r: string)
    requires RootedAt(f, d, n)
    ensures RootedAt(f, r, 0) && Below(f, d, r)
    decreases n
  {
    if n == 0 {
      r := d;
      assert AncestorAt(f, d, 0) == Some(d);
    } else {
      r := RootAbove(f, f[d].parent, n - 1);
      var k: nat :| AncestorAt(f, f[d].parent, k) == Some(r);
      assert AncestorAt(f, d, k + 1) == Some(r);
    }
  }

  lemma ListsExactlyTheRooted(f: Links, kids: Kids, roots: seq<string>, d: string)
    requires ChildLists(f, kids) && AllRoots(f, roots)
    ensures d in WalkAll(f, kids, roots, 0) <==> Rooted(f, d)
  {
    WalkAllContent(f, kids, roots, 0, d);
    if r :| r in roots && Below(f, d, r) {
      var k: nat :| AncestorAt(f, d, k) == Some(r);
      LevelBelow(f, d, k, r, 0);
    }
    if Rooted(f, d) {
      var n: nat :| RootedAt(f, d, n);
      var r := RootAbove(f, d, n);
      assert r in roots;
    }
  }

  lemma ParentsFirst(f: Links, kids: Kids, roots: seq<string>, c: string)
    requires ChildLists(f, kids) && AllRoots(f, roots)
    requires Rooted(f, c) && f[c].Under?
    ensures Before(WalkAll(f, kids, roots, 0), f[c].parent, c)
  {
    var p := f[c].parent;
    var n: nat :| RootedAt(f, c, n);
    assert RootedAt(f, p, n - 1);
    ListsExactlyTheRooted(f, kids, roots, p);
    var pre, post := BlockInWalkAll(f, kids, roots, 0, p, n - 1);
    ChildrenAreOneDeeper(f, kids, p, n - 1);
    var rest := WalkAll(f, kids, kids[p], n);
    assert AncestorAt(f, c, 0) == Some(c);
    WalkAllContent(f, kids, kids[p], n, c);
    BeforeInConcat([p], rest, p, c);
    BeforeInBlock(pre, [p] + rest, post, p, c);
  }

  lemma ChildrenInOrder(f: Links, kids: Kids, roots: seq<string>, p: string, a: string, b: string)
    requires ChildLists(f, kids) && AllRoots(f, roots)
    requires Rooted(f, p) && p in kids && Before(kids[p], a, b)
    ensures Before(WalkAll(f, kids, roots, 0), a, b)
  {
    var n: nat :| RootedAt(f, p, n);
    ListsExactlyTheRooted(f, kids, roots, p);
    var pre, post := BlockInWalkAll(f, kids, roots, 0, p, n);
    ChildrenAreOneDeeper(f, kids, p, n);
    var rest := WalkAll(f, kids, kids[p], n + 1);
    WalkedInOrder(f, kids, kids[p], n + 1, a, b);
    BeforeInConcat([p], rest, a, b);
    BeforeInBlock(pre, [p] + rest, post, a, b);
  }

  lemma {:induction false} AncestorIsRooted(f: Links, d: string, n: nat, k: nat, x: string)
    requires RootedAt(f, d, n) && AncestorAt(f, d, k) == Some(x)
    ensures k <= n && RootedAt(f, x, n - k)
    decreases k
  {
    if k > 0 {
      AncestorIsRooted(f, f[d].parent, n - 1, k - 1, x);
    }
  }

  lemma SubtreeIsContiguous(f: Links, kids: Kids, roots: seq<string>, x: string, i: nat, j: nat, k: nat)
    requires ChildLists(f, kids) && AllRoots(f, roots)
    requires var out := WalkAll(f, kids, roots, 0);
      i < j < k < |out| && Below(f, out[i], x) && Below(f, out[k], x)
    ensures Below(f, WalkAll(f, kids, roots, 0)[j], x)
  {
    var out := WalkAll(f, kids, roots, 0);
    ListsExactlyTheRooted(f, kids, roots, out[i]);
    var n: nat :| RootedAt(f, out[i], n);
    var s: nat :| AncestorAt(f, out[i], s) == Some(x);
    AncestorIsRooted(f, out[i], n, s, x);
    ListsExactlyTheRooted(f, kids, roots, x);
    var pre, post := BlockInWalkAll(f, kids, roots, 0, x, n - s);
    var block := Walk(f, kids, x, n - s);
    WalkAllHasNoDuplicates(f, kids, roots, 0);
    InsideBlock(f, kids, x, n - s, pre, post, out, i);
    InsideBlock(f, kids, x, n - s, pre, post, out, k);
    assert out[j] == block[j - |pre|];
    WalkContent(f, kids, x, n - s, out[j]);
  }

  lemma InsideBlock(f: Links, kids: Kids, x: string, m: nat, pre: seq<string>, post: seq<string>, out: seq<string>,
                    h: nat)
    requires ChildLists(f, kids) && RootedAt(f, x, m)
    requires out == pre + Walk(f, kids, x, m) + post && NoDuplicates(out)
    requires h < |out| && Below(f, out[h], x)
    ensures |pre| <= h < |pre| + |Walk(f, kids, x, m)|
  {
    var block := Walk(f, kids, x, m);
    WalkContent(f, kids, x, m, out[h]);
    var g :| 0 <= g < |block| && block[g] == out[h];
    assert out[|pre| + g] == out[h];
  }
}
