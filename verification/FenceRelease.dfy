/** When handing fences back after a failure is safe: exact conditions, and runs of the system as it
    is that end unsafe where they do not hold. */
module FenceRelease {
  import opened Wrappers
  import opened Forest
  import opened ContentTree
  import opened Fence

  // ---------------------------------------------------------------- commits that took effect

  /** If nothing was fenced before, a release after a commit that took effect unseen is safe exactly
      if the change was harmless. */
  lemma UnseenCommitIsSafeExactlyWhen(s: State, t: State)
    requires Inv(s) && CommitUnseen(s, t) && NothingOlder(s)
    ensures Safe(t) <==> Harmless(s)
  {
    assert s.phase.released - s.phase.older == s.phase.released;
    UnseenCommitIsSafeExactlyWhenHarmless(s, t);
  }

  /** A schema apply is always harmless, a move where permissions inherit exactly if the document
      stays under its parent, any other move always, and a purge exactly if it removes nothing at or
      above a projected document. */
  lemma HarmlessExactlyWhen(s: State)
    requires Inv(s) && s.phase.Fencing? && NothingOlder(s)
    ensures Harmless(s) <==>
      match s.phase.change
      case Create(_, _) => true
      case Move(id, newParent) => HasInheritedMove(s, s.phase.change) ==> s.tree[id].parent == newParent
      case Purge(ids) => forall d | d in s.projected :: !BelowAny(CommittedLinks(s.tree), d, ids)
      case Apply(_) => true
  {
    var c := s.phase.change;
    if HasInheritedMove(s, c) {
      assert AncestorAt(CommittedLinks(s.tree), c.id, 0) == Some(c.id);
      assert c.id in s.phase.released;
    }
  }

  // ---------------------------------------------------------------- reachable states

  /** Some clean run ends here. */
  ghost predicate Reachable(s: State) {
    exists states :: CleanRun(states) && states[|states| - 1] == s
  }

  lemma ReachStep(s: State, t: State)
    requires Reachable(s) && CleanStep(s, t)
    ensures Reachable(t)
  {
    var states :| CleanRun(states) && states[|states| - 1] == s;
    var more := states + [t];
    forall i | 0 <= i < |more| - 1 ensures CleanStep(more[i], more[i + 1]) {
      if i < |states| - 1 {
        assert more[i] == states[i] && more[i + 1] == states[i + 1];
      }
    }
    assert CleanRun(more) && more[|more| - 1] == t;
  }

  lemma ReachableIsGood(s: State)
    requires Reachable(s)
    ensures Inv(s)
  {
    var states :| CleanRun(states) && states[|states| - 1] == s;
    RunIsSafe(states, |states| - 1);
  }

  /** Documents at the top of one collection, and nothing else. */
  ghost predicate Flat(tree: Tree, ids: set<string>) {
    tree.Keys == ids && forall d | d in tree :: tree[d] == Position("pages", None)
  }

  ghost predicate FlatLinks(f: Links, ids: set<string>) {
    f.Keys == ids && forall d | d in f :: f[d] == InCollection("pages")
  }

  /** Nobody holds the lock, and the permissions of pages inherit. */
  ghost predicate AtRest(s: State) {
    Reachable(s) && s.phase.Idle? && s.inheriting == {"pages"}
  }

  lemma EmptyIsReachable() returns (s: State)
    ensures AtRest(s) && Flat(s.tree, {}) && FlatLinks(s.projected, {}) && s.fenced == {}
  {
    s := State(map[], {"pages"}, map[], {}, Idle);
    assert CleanRun([s]) && [s][|[s]| - 1] == s;
  }

  /** A document is created and not projected. */
  lemma CreateRoot(s: State, id: string) returns (t: State)
    requires AtRest(s) && id !in s.tree
    ensures AtRest(t) && t == s.(tree := s.tree[id := Position("pages", None)])
  {
    var planned := s.(phase := Planned(Create(id, Position("pages", None))));
    var committed := planned.(tree := s.tree[id := Position("pages", None)], phase := Pending);
    t := committed.(phase := Idle);
    assert Begin(s, planned);
    ReachStep(s, planned);
    assert Commit(planned, committed);
    ReachStep(planned, committed);
    assert Stop(committed, t);
    ReachStep(committed, t);
  }

  lemma {:induction false} CreateRoots(s: State, ids: set<string>) returns (t: State)
    requires AtRest(s) && Flat(s.tree, {})
    ensures AtRest(t) && Flat(t.tree, ids) && t.projected == s.projected && t.fenced == s.fenced
    decreases ids
  {
    if ids == {} {
      t := s;
    } else {
      var x :| x in ids;
      var fewer := CreateRoots(s, ids - {x});
      t := CreateRoot(fewer, x);
    }
  }

  /** A reconcile that runs through, without retired resources. */
  lemma ReconcileFlat(s: State, ids: set<string>) returns (t: State)
    requires AtRest(s) && Flat(s.tree, ids)
    ensures AtRest(t) && t.tree == s.tree && FlatLinks(t.projected, ids) && t.fenced == s.fenced - ids
  {
    var pending := s.(phase := Pending);
    var after := pending.(projected := Desired(s.tree, s.inheriting), phase := Phase.Projected);
    t := after.(fenced := s.fenced - (after.projected.Keys + {}), phase := Idle);
    assert Begin(s, pending);
    ReachStep(s, pending);
    assert Project(pending, after);
    ReachStep(pending, after);
    assert Unfence(after, t, {});
    ReachStep(after, t);
  }

  /** A purge or an apply has fenced what is projected. */
  lemma FenceAll(s: State, c: Change) returns (t: State)
    requires AtRest(s) && (c.Purge? || c.Apply?) && Admissible(s.tree, s.inheriting, c)
    ensures Reachable(t)
    ensures t == s.(fenced := s.fenced + s.projected.Keys, phase := Fencing(c, s.projected.Keys, s.fenced))
  {
    var planned := s.(phase := Planned(c));
    t := s.(fenced := s.fenced + s.projected.Keys, phase := Fencing(c, s.projected.Keys, s.fenced));
    assert Begin(s, planned);
    ReachStep(s, planned);
    assert Quarantine(planned, t);
    ReachStep(planned, t);
  }

  /** It commits and is not projected. */
  lemma PurgeOne(s: State, id: string) returns (t: State)
    requires AtRest(s)
    ensures AtRest(t) && t == s.(tree := Remove(s.tree, id), fenced := s.fenced + s.projected.Keys)
  {
    var fencing := FenceAll(s, Purge([id]));
    var committed := fencing.(tree := Remove(s.tree, id), phase := Pending);
    t := committed.(phase := Idle);
    assert [id][1..] == [] && RemoveAll(s.tree, [id]) == RemoveAll(Remove(s.tree, id), []);
    assert Commit(fencing, committed);
    ReachStep(fencing, committed);
    assert Stop(committed, t);
    ReachStep(committed, t);
  }

  /** Purges without a reconcile: all that was projected stays fenced. */
  lemma {:induction false} PurgeAll(s: State, ids: set<string>) returns (t: State)
    requires AtRest(s) && Flat(s.tree, ids) && s.fenced <= s.projected.Keys &&
      (ids != {} || s.fenced == s.projected.Keys)
    ensures AtRest(t) && Flat(t.tree, {}) && t.projected == s.projected && t.fenced == s.projected.Keys
    decreases ids
  {
    if ids == {} {
      t := s;
    } else {
      var x :| x in ids;
      var next := PurgeOne(s, x);
      t := PurgeAll(next, ids - {x});
    }
  }

  /** Fences of documents that do not exist any more. */
  lemma LeftoverFences(gone: set<string>) returns (s: State)
    ensures AtRest(s) && Flat(s.tree, {}) && s.fenced == gone
  {
    var empty := EmptyIsReachable();
    if gone == {} {
      s := empty;
    } else {
      var created := CreateRoots(empty, gone);
      var projected := ReconcileFlat(created, gone);
      var purged := PurgeAll(projected, gone);
      s := ReconcileFlat(purged, {});
    }
  }

  /** Documents at the top of one collection, some of them moved below one of them. */
  ghost predicate BelowTop(tree: Tree, ids: set<string>, top: string, moved: set<string>) {
    top !in ids && tree.Keys == ids + {top} &&
    forall d | d in tree :: tree[d] == Position("pages", if d in moved then Some(top) else None)
  }

  lemma OnlyItselfBelow(tree: Tree, ids: set<string>, top: string, moved: set<string>, z: string)
    requires BelowTop(tree, ids, top, moved) && moved <= ids && z in ids && z !in moved
    ensures Subtree(CommittedLinks(tree), z) == {z}
    ensures !Below(CommittedLinks(tree), top, z)
  {
    var f := CommittedLinks(tree);
    assert forall n: nat :: AncestorAt(f, top, n) == (if n == 0 then Some(top) else None);
    assert AncestorAt(f, z, 0) == Some(z);
    forall d | d in f && d != z ensures !Below(f, d, z) {
      forall n: nat ensures AncestorAt(f, d, n) != Some(z) {
        if n > 0 && f[d].Under? {
          assert AncestorAt(f, d, n) == AncestorAt(f, top, n - 1);
        }
      }
    }
  }

  /** A move has fenced its document. */
  lemma FenceMove(s: State, id: string, top: string) returns (t: State)
    requires AtRest(s) && Admissible(s.tree, s.inheriting, Move(id, Some(top)))
    requires Subtree(CommittedLinks(s.tree), id) == {id} && s.tree[id].collection == "pages" && id in s.projected
    ensures Reachable(t) && t == s.(fenced := s.fenced + {id}, phase := Fencing(Move(id, Some(top)), {id}, s.fenced))
  {
    var planned := s.(phase := Planned(Move(id, Some(top))));
    assert Begin(s, planned);
    ReachStep(s, planned);
    t := s.(fenced := s.fenced + {id}, phase := Fencing(Move(id, Some(top)), {id}, s.fenced));
    assert Quarantine(planned, t);
    ReachStep(planned, t);
  }

  /** Moves are committed and not projected: the documents stay fenced. */
  lemma {:induction false} MoveBelow(s: State, ids: set<string>, top: string, moved: set<string>) returns (t: State)
    requires AtRest(s) && BelowTop(s.tree, ids, top, {}) && FlatLinks(s.projected, ids) && moved <= ids
    ensures AtRest(t) && BelowTop(t.tree, ids, top, moved) && t.projected == s.projected && t.fenced == s.fenced + moved
    decreases moved
  {
    if moved == {} {
      t := s;
    } else {
      var z :| z in moved;
      var fewer := moved - {z};
      var before := MoveBelow(s, ids, top, fewer);
      OnlyItselfBelow(before.tree, ids, top, fewer, z);
      var fencing := FenceMove(before, z, top);
      var committed := fencing.(tree := Fence.Committed(before.tree, Move(z, Some(top))), phase := Pending);
      t := committed.(phase := Idle);
      assert Commit(fencing, committed);
      ReachStep(fencing, committed);
      assert Stop(committed, t);
      ReachStep(committed, t);
    }
  }

  lemma {:induction false} LongerThanAll(ids: set<string>) returns (n: nat)
    ensures forall x | x in ids :: |x| <= n
    decreases ids
  {
    if ids == {} {
      n := 0;
    } else {
      var x :| x in ids;
      var m := LongerThanAll(ids - {x});
      n := if |x| <= m then m else |x|;
      assert forall y | y in ids :: y == x || y in ids - {x};
    }
  }

  lemma NewName(ids: set<string>) returns (name: string)
    ensures name !in ids
  {
    var n := LongerThanAll(ids);
    name := seq(n + 1, i => 'a');
  }

  /** The documents of a set were projected; since then those that are also in another set were moved
      below a new document, and these moves are not projected yet. */
  lemma UnfinishedMoves(ids: set<string>, older: set<string>) returns (s: State, top: string)
    ensures AtRest(s) && BelowTop(s.tree, ids, top, older * ids) && FlatLinks(s.projected, ids) && s.fenced == older
  {
    var left := LeftoverFences(older - ids);
    var created := CreateRoots(left, ids);
    var projected := ReconcileFlat(created, ids);
    top := NewName(ids);
    var more := CreateRoot(projected, top);
    s := MoveBelow(more, ids, top, older * ids);
  }

  // ---------------------------------------------------------------- aborts

  /** Release is a plain subtraction: for given older fences and released ids, aborts are safe from
      every reachable state exactly if the two have nothing in common. */
  lemma AbortIsSafeExactlyWhenDisjoint(older: set<string>, ids: set<string>)
    ensures (forall s, t | Reachable(s) && s.phase.Fencing? && s.phase.older == older &&
                           s.phase.released == ids && Abort(s, t) :: Safe(t))
            <==> older !! ids
  {
    if older !! ids {
      forall s, t | Reachable(s) && s.phase.Fencing? && s.phase.older == older && s.phase.released == ids && Abort(s, t)
        ensures Safe(t)
      {
        ReachableIsGood(s);
        StepIsSafe(s, t);
      }
    } else {
      var x :| x in older && x in ids;
      var s, t := UnsafeAbort(older, ids, x);
    }
  }

  /** Unfinished moves, then a purge that fences everything, fails and hands everything back. */
  lemma UnsafeAbort(older: set<string>, ids: set<string>, x: string) returns (s: State, t: State)
    requires x in older && x in ids
    ensures Reachable(s) && s.phase.Fencing? && s.phase.older == older && s.phase.released == ids
    ensures Abort(s, t) && !Safe(t)
  {
    var idle, top := UnfinishedMoves(ids, older);
    s := FenceAll(idle, Purge([top]));
    t := s.(fenced := s.fenced - ids, phase := Idle);
    assert LinkAt(t.projected, x, 0) != LinkAt(CommittedLinks(t.tree), x, 0);
  }

  /** The same for commits that took effect unseen and changed nothing that matters. */
  lemma HarmlessCommitIsSafeExactlyWhenDisjoint(older: set<string>, ids: set<string>)
    ensures (forall s, t | Reachable(s) && s.phase.Fencing? && s.phase.older == older && s.phase.released == ids &&
                           Harmless(s) && CommitUnseen(s, t) :: Safe(t))
            <==> older !! ids
  {
    if older !! ids {
      forall s, t | Reachable(s) && s.phase.Fencing? && s.phase.older == older && s.phase.released == ids &&
                    Harmless(s) && CommitUnseen(s, t)
        ensures Safe(t)
      {
        ReachableIsGood(s);
        StepIsSafe(s, t);
      }
    } else {
      var x :| x in older && x in ids;
      var s, t := UnsafeHarmlessCommit(older, ids, x);
    }
  }

  /** Unfinished moves, then a schema apply that changes nothing and is reported as failed. */
  lemma UnsafeHarmlessCommit(older: set<string>, ids: set<string>, x: string) returns (s: State, t: State)
    requires x in older && x in ids
    ensures Reachable(s) && s.phase.Fencing? && s.phase.older == older && s.phase.released == ids
    ensures Harmless(s) && CommitUnseen(s, t) && !Safe(t)
  {
    var idle, top := UnfinishedMoves(ids, older);
    s := FenceAll(idle, Apply(idle.inheriting));
    t := s.(fenced := s.fenced - ids, phase := Idle);
    assert LinkAt(t.projected, x, 0) != LinkAt(CommittedLinks(t.tree), x, 0);
  }

  /** A run of the system as it is that ends unsafe: a move is committed but not projected, then a
      purge fences everything, fails, and takes the fence of the move away with its own. */
  lemma AbortedPurgeUncoversAnEarlierMove() returns (states: seq<State>)
    ensures Run(states) && |states| >= 2 && !Safe(states[|states| - 1])
    ensures Reachable(states[|states| - 2]) && Abort(states[|states| - 2], states[|states| - 1])
  {
    var s, t := UnsafeAbort({"a"}, {"a"}, "a");
    states := OneMoreStep(s, t);
  }

  lemma OneMoreStep(s: State, t: State) returns (states: seq<State>)
    requires Reachable(s) && Next(s, t)
    ensures Run(states) && |states| >= 2 && states[|states| - 2] == s && states[|states| - 1] == t
  {
    var before :| CleanRun(before) && before[|before| - 1] == s;
    states := before + [t];
    forall i | 0 <= i < |states| - 1 ensures Next(states[i], states[i + 1]) {
      if i < |before| - 1 {
        assert CleanStep(before[i], before[i + 1]);
        assert states[i] == before[i] && states[i + 1] == before[i + 1];
      }
    }
  }

  /** A run of the system as it is that ends unsafe although nothing was fenced before: a move
      takes effect, its reply is lost, and its fence is handed back. */
  lemma ReleaseAfterUnseenCommitIsUnsafe() returns (states: seq<State>)
    ensures Run(states) && |states| >= 2 && !Safe(states[|states| - 1])
    ensures var s := states[|states| - 2];
      Reachable(s) && s.phase.Fencing? && NothingOlder(s) && CommitUnseen(s, states[|states| - 1])
  {
    var idle, top := UnfinishedMoves({"a"}, {});
    OnlyItselfBelow(idle.tree, {"a"}, top, {}, "a");
    var s := FenceMove(idle, "a", top);
    var t := s.(tree := Fence.Committed(s.tree, s.phase.change), fenced := s.fenced - s.phase.released, phase := Idle);
    ReachableIsGood(s);
    HarmlessExactlyWhen(s);
    UnseenCommitIsSafeExactlyWhen(s, t);
    states := OneMoreStep(s, t);
  }
}
