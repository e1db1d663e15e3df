/** Create, move, purge, schema apply and startup keep two copies of the content tree: the one
    that is committed with the documents and the one projected into the authorization policy.
    Every operation holds the content projection lock; a durable set of fenced resources denies
    access while the copies may differ. Readers run between any two steps. */
module Fence {
  import opened Wrappers
  import opened Forest
  import opened ContentTree

  datatype Change =
    | Create(id: string, at: Position)
    | Move(id: string, newParent: Option<string>)
    | Purge(ids: seq<string>)
    | Apply(newInheriting: set<string>)

  /** The tree service rejects every other change before anything is fenced or written. */
  ghost predicate Admissible(tree: Tree, inheriting: set<string>, c: Change) {
    match c
    case Create(id, at) =>
      id !in tree &&
      (at.parent.Some? ==> at.parent.value in tree && tree[at.parent.value].collection == at.collection)
    case Move(id, newParent) =>
      id in tree &&
      (newParent.Some? ==>
        newParent.value in tree && tree[newParent.value].collection == tree[id].collection &&
        !Below(CommittedLinks(tree), newParent.value, id))
    case Purge(_) => true
    case Apply(newInheriting) =>
      forall d | d in tree :: tree[d].collection in inheriting <==> tree[d].collection in newInheriting
  }

  function Committed(tree: Tree, c: Change): Tree {
    match c
    case Create(id, at) => tree[id := at]
    case Move(id, newParent) => if id in tree then tree[id := Position(tree[id].collection, newParent)] else tree
    case Purge(ids) => RemoveAll(tree, ids)
    case Apply(_) => tree
  }

  /** Where the operation that holds the lock stands. The released set and the fences that are
      older than the operation are remembered from the moment of fencing. */
  datatype Phase =
    | Idle
    | Planned(change: Change)
    | Fencing(change: Change, released: set<string>, older: set<string>)
    | Pending
    | Projected

  datatype State = State(
    tree: Tree,
    inheriting: set<string>,
    projected: Links,
    fenced: set<string>,
    phase: Phase)

  ghost predicate HasInheritedMove(s: State, c: Change) {
    c.Move? && c.id in s.tree && s.tree[c.id].collection in s.inheriting
  }

  /** The ids an operation fences before it commits, and hands back if the commit fails. */
  ghost function FenceSet(s: State, c: Change): set<string> {
    match c
    case Create(_, _) => {}
    case Move(id, _) => if HasInheritedMove(s, c) then Subtree(CommittedLinks(s.tree), id) else {}
    case Purge(_) => s.projected.Keys
    case Apply(_) => s.projected.Keys
  }

  /** Taking the lock: a change to perform, or (startup) only a reconcile. */
  ghost predicate Begin(s: State, t: State) {
    s.phase.Idle? &&
    (t == s.(phase := Pending) ||
     (t.phase.Planned? && t == s.(phase := t.phase) && Admissible(s.tree, s.inheriting, t.phase.change)))
  }

  /** Quarantine refuses ids without a projection; otherwise it only adds fences. */
  ghost predicate Quarantine(s: State, t: State) {
    s.phase.Planned? && !s.phase.change.Create? &&
    var ids := FenceSet(s, s.phase.change);
    ids <= s.projected.Keys &&
    t == s.(fenced := s.fenced + ids, phase := Fencing(s.phase.change, ids, s.fenced))
  }

  function InheritingAfter(s: State, c: Change): set<string> {
    if c.Apply? then c.newInheriting else s.inheriting
  }

  ghost predicate Commit(s: State, t: State) {
    ((s.phase.Planned? && s.phase.change.Create?) || s.phase.Fencing?) &&
    t == s.(
      tree := Committed(s.tree, s.phase.change), inheriting := InheritingAfter(s, s.phase.change), phase := Pending)
  }

  /** The commit failed: the fences handed out by this operation are subtracted again. */
  ghost predicate Abort(s: State, t: State) {
    s.phase.Fencing? && t == s.(fenced := s.fenced - s.phase.released, phase := Idle)
  }

  /** The same with a release that gives back only what this operation added: what the callers rely
      on, and what a plain subtraction is if there were no older fences among the ids. */
  ghost predicate AbortOwn(s: State, t: State) {
    s.phase.Fencing? && t == s.(fenced := s.fenced - (s.phase.released - s.phase.older), phase := Idle)
  }

  /** The commit took effect, the caller saw a failure and subtracted the fences again. (Without that
      subtraction this is a commit followed by a stop.) */
  ghost predicate CommitUnseen(s: State, t: State) {
    s.phase.Fencing? &&
    t == s.(tree := Committed(s.tree, s.phase.change), inheriting := InheritingAfter(s, s.phase.change),
            fenced := s.fenced - s.phase.released, phase := Idle)
  }

  ghost predicate CommitUnseenOwn(s: State, t: State) {
    s.phase.Fencing? &&
    t == s.(tree := Committed(s.tree, s.phase.change), inheriting := InheritingAfter(s, s.phase.change),
            fenced := s.fenced - (s.phase.released - s.phase.older), phase := Idle)
  }

  /** The policy takes over the whole committed tree in one transaction. */
  ghost predicate Project(s: State, t: State) {
    s.phase.Pending? && t == s.(projected := Desired(s.tree, s.inheriting), phase := Projected)
  }

  /** Afterwards the fences of all projected and all retired resources are dropped. */
  ghost predicate Unfence(s: State, t: State, retired: set<string>) {
    s.phase.Projected? && retired !! s.projected.Keys &&
    t == s.(fenced := s.fenced - (s.projected.Keys + retired), phase := Idle)
  }

  /** A failure without compensation or a crash: durable state stays, the lock is lost. */
  ghost predicate Stop(s: State, t: State) {
    t == s.(phase := Idle)
  }

  ghost predicate Next(s: State, t: State) {
    Orderly(s, t) || Abort(s, t) || CommitUnseen(s, t)
  }

  /** The steps that release nothing after a failure. */
  ghost predicate Orderly(s: State, t: State) {
    Begin(s, t) || Quarantine(s, t) || Commit(s, t) || Project(s, t) ||
    (exists retired :: Unfence(s, t, retired)) || Stop(s, t)
  }

  /** What the caller fenced was not fenced before by an operation that did not finish. */
  ghost predicate NothingOlder(s: State)
    requires s.phase.Fencing?
  {
    s.phase.released !! s.phase.older
  }

  /** The change may be committed and uncovered: a schema apply; a move that keeps the parent, or
      moves only what stays fenced; a purge that removes nothing at or above a document that is
      projected and not fenced by others. */
  ghost predicate Harmless(s: State)
    requires s.phase.Fencing?
  {
    match s.phase.change
    case Create(_, _) => true
    case Move(id, newParent) => (id in s.tree && s.tree[id].parent == newParent) || s.phase.released <= s.phase.older
    case Purge(ids) =>
      forall d | d in s.projected && d !in s.phase.older :: !BelowAny(CommittedLinks(s.tree), d, ids)
    case Apply(_) => true
  }

  /** A release gives back no older fence, and after a commit that took effect it is harmless. */
  ghost predicate CleanStep(s: State, t: State) {
    Orderly(s, t) ||
    (Abort(s, t) && NothingOlder(s)) ||
    (CommitUnseen(s, t) && NothingOlder(s) && Harmless(s))
  }

  /** The steps with a release that gives back only what the same operation added. */
  ghost predicate CleanStepOwn(s: State, t: State) {
    Orderly(s, t) || AbortOwn(s, t) || (CommitUnseenOwn(s, t) && Harmless(s))
  }

  /** What authorization relies on, whatever the lock holder is doing. */
  ghost predicate SafeWith(s: State, fenced: set<string>) {
    forall d | d in s.projected && d !in fenced :: HasItsChain(s, d)
  }

  ghost predicate HasItsChain(s: State, d: string) {
    d in s.tree && s.tree[d].collection in s.inheriting && SameChain(s.projected, CommittedLinks(s.tree), d)
  }

  ghost predicate Safe(s: State) {
    SafeWith(s, s.fenced)
  }

  /** What no step breaks, clean or not: the committed tree is well placed, a planned change is
      admissible, and what was just projected is the whole inheriting tree. */
  ghost predicate Kept(s: State) {
    WellPlaced(s.tree) &&
    match s.phase
    case Planned(c) => Admissible(s.tree, s.inheriting, c)
    case Fencing(c, _, _) => Admissible(s.tree, s.inheriting, c)
    case Projected => s.projected == Desired(s.tree, s.inheriting)
    case _ => true
  }

  ghost predicate Inv(s: State) {
    Kept(s) && Safe(s) &&
    match s.phase
    case Fencing(c, released, older) =>
      !c.Create? && released == FenceSet(s, c) && released <= s.projected.Keys &&
      s.fenced == older + released && SafeWith(s, older)
    case _ => true
  }

  ghost predicate Init(s: State) {
    s.tree == map[] && s.projected == map[] && s.fenced == {} && s.phase.Idle?
  }

  ghost predicate Run(states: seq<State>) {
    states != [] && Init(states[0]) && forall i | 0 <= i < |states| - 1 :: Next(states[i], states[i + 1])
  }

  ghost predicate CleanRun(states: seq<State>) {
    states != [] && Init(states[0]) && forall i | 0 <= i < |states| - 1 :: CleanStep(states[i], states[i + 1])
  }

  ghost predicate CleanRunOwn(states: seq<State>) {
    states != [] && Init(states[0]) && forall i | 0 <= i < |states| - 1 :: CleanStepOwn(states[i], states[i + 1])
  }

  lemma CommittedKeepsPlacement(tree: Tree, inheriting: set<string>, c: Change)
    requires WellPlaced(tree) && Admissible(tree, inheriting, c)
    ensures WellPlaced(Committed(tree, c))
  {
    match c
    case Purge(ids) => RemoveAllKeepsPlacement(tree, ids);
    case Create(id, at) =>
      if at.parent.Some? && Below(CommittedLinks(tree), at.parent.value, id) {
        NothingBelowAnUnknown(tree, at.parent.value, id);
      }
      PlacingKeepsPlacement(tree, id, at);
    case Move(id, newParent) => PlacingKeepsPlacement(tree, id, Position(tree[id].collection, newParent));
    case Apply(_) =>
  }

  // ---------------------------------------------------------------- commits

  /** A commit leaves the committed chain of every unfenced projected document alone. */
  lemma CommitKeepsUnfencedChains(s: State, c: Change, d: string)
    requires WellPlaced(s.tree) && Admissible(s.tree, s.inheriting, c)
    requires c.Create? || c.Move?
    requires d in s.tree && s.tree[d].collection in s.inheriting && d !in FenceSet(s, c)
    ensures d in Committed(s.tree, c) && Committed(s.tree, c)[d].collection == s.tree[d].collection
    ensures SameChain(CommittedLinks(s.tree), CommittedLinks(Committed(s.tree, c)), d)
  {
    var f := CommittedLinks(s.tree);
    if Below(f, d, c.id) {
      var n: nat :| AncestorAt(f, d, n) == Some(c.id);
      AncestorsStayInCollection(s.tree, d, n);
      assert false;
    }
    var link := LinkOf(Committed(s.tree, c)[c.id]);
    RelinkOutside(f, c.id, link, d);
    assert CommittedLinks(Committed(s.tree, c)) == f[c.id := link];
  }

  lemma CommitIsSafe(s: State, t: State)
    requires Inv(s) && Commit(s, t)
    ensures Inv(t)
  {
    var c := s.phase.change;
    CommittedKeepsPlacement(s.tree, s.inheriting, c);
    forall d | d in t.projected && d !in t.fenced
      ensures HasItsChain(t, d)
    {
      if c.Create? || c.Move? {
        CommitKeepsUnfencedChains(s, c, d);
        SameChainTransitive(s.projected, CommittedLinks(s.tree), CommittedLinks(t.tree), d);
      }
    }
  }

  // ---------------------------------------------------------------- safety

  lemma ProjectIsSafe(s: State, t: State)
    requires Inv(s) && Project(s, t)
    ensures Inv(t)
  {
    ProjectedIsSafe(t);
  }

  lemma UnfenceIsSafe(s: State, t: State, retired: set<string>)
    requires Inv(s) && Unfence(s, t, retired)
    ensures Inv(t)
  {
    ProjectedIsSafe(t);
  }

  lemma AbortIsSafe(s: State, t: State)
    requires Inv(s) && AbortOwn(s, t)
    ensures Inv(t)
  {
    assert t.fenced == s.phase.older;
  }

  lemma OrderlyIsSafe(s: State, t: State)
    requires Inv(s) && Orderly(s, t)
    ensures Inv(t)
  {
    if Stop(s, t) || Begin(s, t) || Quarantine(s, t) {
    } else if Commit(s, t) {
      CommitIsSafe(s, t);
    } else if Project(s, t) {
      ProjectIsSafe(s, t);
    } else {
      var retired :| Unfence(s, t, retired);
      UnfenceIsSafe(s, t, retired);
    }
  }

  lemma StepIsSafe(s: State, t: State)
    requires Inv(s) && CleanStep(s, t)
    ensures Inv(t)
  {
    OwnStepOf(s, t);
    OwnStepIsSafe(s, t);
  }

  lemma OwnStepOf(s: State, t: State)
    requires CleanStep(s, t)
    ensures CleanStepOwn(s, t)
  {
    if s.phase.Fencing? && NothingOlder(s) {
      assert s.phase.released - s.phase.older == s.phase.released;
    }
  }

  lemma OwnStepIsSafe(s: State, t: State)
    requires Inv(s) && CleanStepOwn(s, t)
    ensures Inv(t)
  {
    if Orderly(s, t) {
      OrderlyIsSafe(s, t);
    } else if AbortOwn(s, t) {
      AbortIsSafe(s, t);
    } else {
      UnseenCommitIsSafeExactlyWhenHarmless(s, t);
      CommittedKeepsPlacement(s.tree, s.inheriting, s.phase.change);
    }
  }

  /** Clean steps stay safe from wherever it was safe once. */
  lemma {:induction false} CleanStepsStaySafe(states: seq<State>, i: nat)
    requires i < |states| && Inv(states[0])
    requires forall k | 0 <= k < |states| - 1 :: CleanStep(states[k], states[k + 1])
    ensures Inv(states[i])
  {
    if i > 0 {
      CleanStepsStaySafe(states, i - 1);
      StepIsSafe(states[i - 1], states[i]);
    }
  }

  /** Whatever the order of operations, failures and crashes: at every point of every clean run
      each projected and unfenced document has its committed chain in the projection. */
  lemma RunIsSafe(states: seq<State>, i: nat)
    requires CleanRun(states) && i < |states|
    ensures Inv(states[i])
  {
    CleanStepsStaySafe(states, i);
  }

  /** With a release of the operation's own fences only, older fences need no premise any more. */
  lemma {:induction false} OwnReleaseRunIsSafe(states: seq<State>, i: nat)
    requires CleanRunOwn(states) && i < |states|
    ensures Inv(states[i])
  {
    if i > 0 {
      OwnReleaseRunIsSafe(states, i - 1);
      OwnStepIsSafe(states[i - 1], states[i]);
    }
  }

  // ---------------------------------------------------------------- every run, clean or not

  lemma StepKeeps(s: State, t: State)
    requires Kept(s) && Next(s, t)
    ensures Kept(t)
  {
    if Commit(s, t) || CommitUnseen(s, t) {
      CommittedKeepsPlacement(s.tree, s.inheriting, s.phase.change);
    }
  }

  lemma {:induction false} RunKeeps(states: seq<State>, i: nat)
    requires Run(states) && i < |states|
    ensures Kept(states[i])
  {
    if i > 0 {
      RunKeeps(states, i - 1);
      StepKeeps(states[i - 1], states[i]);
    }
  }

  /** Whatever the projection holds, it is right once it is the whole inheriting tree. */
  lemma ProjectedIsSafe(s: State)
    requires WellPlaced(s.tree) && s.projected == Desired(s.tree, s.inheriting)
    ensures Safe(s)
  {
    forall d | d in s.projected ensures HasItsChain(s, d) {
      DesiredIsFaithful(s.tree, s.inheriting, d);
    }
  }

  /** A reconcile that runs through (the next operation's, or startup's) restores the invariant from
      every state of every run, the unsafe ones included: the projection is the whole inheriting
      tree, right for each of its documents, and nothing in it stays fenced. */
  lemma ReconcileRestores(states: seq<State>, i: nat, t: State, u: State, retired: set<string>)
    requires Run(states) && i < |states| && Project(states[i], t) && Unfence(t, u, retired)
    ensures Inv(u) && u.tree == states[i].tree && u.inheriting == states[i].inheriting
    ensures u.projected == Desired(u.tree, u.inheriting) && u.fenced !! u.projected.Keys
  {
    RunKeeps(states, i);
    ProjectedIsSafe(u);
  }

  /** However a run went, a restart ends it well: whoever holds the lock stops, startup reconciles,
      and what then comes is as after a clean run. */
  lemma RestartHeals(states: seq<State>, retired: set<string>) returns (healed: seq<State>)
    requires Run(states)
    requires var s := states[|states| - 1]; retired !! Desired(s.tree, s.inheriting).Keys
    ensures Run(healed) && states < healed && healed[|healed| - 1].tree == states[|states| - 1].tree
    ensures var u := healed[|healed| - 1];
      Inv(u) && u.phase.Idle? && u.projected == Desired(u.tree, u.inheriting) && u.fenced !! u.projected.Keys
  {
    var s := states[|states| - 1];
    var stopped := s.(phase := Idle);
    var pending := s.(phase := Pending);
    var projected := s.(projected := Desired(s.tree, s.inheriting), phase := Projected);
    var u := projected.(fenced := s.fenced - (projected.projected.Keys + retired), phase := Idle);
    assert Stop(s, stopped);
    ExtendRun(states, stopped);
    var one := states + [stopped];
    assert Begin(stopped, pending);
    ExtendRun(one, pending);
    var two := one + [pending];
    assert Project(pending, projected);
    ExtendRun(two, projected);
    var three := two + [projected];
    assert Unfence(projected, u, retired);
    ExtendRun(three, u);
    ReconcileRestores(two, |two| - 1, projected, u, retired);
    healed := three + [u];
  }

  lemma ExtendRun(states: seq<State>, t: State)
    requires Run(states) && Next(states[|states| - 1], t)
    ensures Run(states + [t])
  {
  }

  // ---------------------------------------------------------------- commits reported as failed

  /** A document outside the older fences, before and after: it had its committed chain. */
  lemma UncoveredHasItsChain(s: State, d: string)
    requires Inv(s) && s.phase.Fencing? && d in s.projected && d !in s.phase.older
    ensures HasItsChain(s, d)
  {
  }

  /** A chain that a change leaves alone still agrees with the projection, and one it does not, not. */
  lemma AgreesAsBefore(s: State, after: Tree, d: string)
    requires SameChain(s.projected, CommittedLinks(s.tree), d)
    ensures SameChain(s.projected, CommittedLinks(after), d) <==>
      SameChain(CommittedLinks(s.tree), CommittedLinks(after), d)
  {
    var f, g, h := s.projected, CommittedLinks(s.tree), CommittedLinks(after);
    if SameChain(f, h, d) {
      assert SameChain(g, f, d);
      SameChainTransitive(g, f, h, d);
    } else if SameChain(g, h, d) {
      SameChainTransitive(f, g, h, d);
    }
  }

  lemma UnseenApply(s: State, t: State)
    requires Inv(s) && CommitUnseenOwn(s, t) && s.phase.change.Apply?
    ensures Safe(t)
  {
    assert t.fenced == s.phase.older;
  }

  lemma UnseenMove(s: State, t: State)
    requires Inv(s) && CommitUnseenOwn(s, t) && s.phase.change.Move?
    ensures Safe(t) <==> Harmless(s)
  {
    var c := s.phase.change;
    var f, link := CommittedLinks(s.tree), LinkOf(t.tree[c.id]);
    assert t.fenced == s.phase.older;
    assert CommittedLinks(t.tree) == f[c.id := link];
    if s.tree[c.id].parent == c.newParent {
      assert t.tree == s.tree;
    } else if s.phase.released <= s.phase.older {
      forall d | d in t.projected && d !in t.fenced
        ensures HasItsChain(t, d)
      {
        UncoveredHasItsChain(s, d);
        CommitKeepsUnfencedChains(s, c, d);
        AgreesAsBefore(s, t.tree, d);
      }
    } else {
      var d :| d in s.phase.released && d !in s.phase.older;
      UncoveredHasItsChain(s, d);
      MoveChangesExactlyTheSubtree(f, c.id, link, d);
      AgreesAsBefore(s, t.tree, d);
      assert !Safe(t);
    }
  }

  lemma UnseenPurge(s: State, t: State)
    requires Inv(s) && CommitUnseenOwn(s, t) && s.phase.change.Purge?
    ensures Safe(t) <==> Harmless(s)
  {
    var ids := s.phase.change.ids;
    assert t.fenced == s.phase.older;
    forall d | d in s.projected && d !in s.phase.older
      ensures HasItsChain(t, d) <==> !BelowAny(CommittedLinks(s.tree), d, ids)
    {
      UncoveredHasItsChain(s, d);
      PurgeKeepsExactlyTheRest(s.tree, ids, d);
      RemovedStaysRemoved(s.tree, ids, d);
      AgreesAsBefore(s, t.tree, d);
    }
  }

  /** When a commit takes effect although it is reported as failed and the fences of the operation
      are released: safe exactly if the change was harmless. */
  lemma UnseenCommitIsSafeExactlyWhenHarmless(s: State, t: State)
    requires Inv(s) && CommitUnseenOwn(s, t)
    ensures Safe(t) <==> Harmless(s)
  {
    match s.phase.change
    case Create(_, _) =>
    case Move(_, _) => UnseenMove(s, t);
    case Purge(_) => UnseenPurge(s, t);
    case Apply(_) => UnseenApply(s, t);
  }

  // ---------------------------------------------------------------- releases that reach further

  /** Documents that were fenced before the operation and lose their fence with its own. */
  ghost predicate OlderAreRight(s: State, t: State)
    requires s.phase.Fencing?
  {
    forall d | d in s.phase.older && d in s.phase.released :: HasItsChain(t, d)
  }

  /** The plain release as it is, whatever was fenced before: after a commit without effect it is
      safe exactly if the projection was right already for the older fences it takes away. */
  lemma AbortIsSafeExactlyWhen(s: State, t: State)
    requires Inv(s) && Abort(s, t)
    ensures Safe(t) <==> OlderAreRight(s, t)
  {
    if !OlderAreRight(s, t) {
      var d :| d in s.phase.older && d in s.phase.released && !HasItsChain(t, d);
      assert d in t.projected && d !in t.fenced;
    } else {
      forall d | d in t.projected && d !in t.fenced ensures HasItsChain(t, d) {
        assert d in s.phase.older ==> d in s.phase.released;
      }
    }
  }

  /** After a commit that took effect unseen the change must have been harmless besides. */
  lemma PlainUnseenCommitIsSafeExactlyWhen(s: State, t: State)
    requires Inv(s) && CommitUnseen(s, t)
    ensures Safe(t) <==> Harmless(s) && OlderAreRight(s, t)
  {
    var own := t.(fenced := s.fenced - (s.phase.released - s.phase.older));
    assert own.fenced == s.phase.older && t.fenced == s.phase.older - s.phase.released;
    UnseenCommitIsSafeExactlyWhenHarmless(s, own);
    if Safe(own) && OlderAreRight(s, t) {
      forall d | d in t.projected && d !in t.fenced ensures HasItsChain(t, d) {
        assert d in s.phase.older ==> d in s.phase.released;
        assert d !in s.phase.older ==> HasItsChain(own, d);
      }
    }
    if Safe(t) {
      forall d | d in own.projected && d !in own.fenced ensures HasItsChain(own, d) {
        assert HasItsChain(t, d);
      }
      forall d | d in s.phase.older && d in s.phase.released ensures HasItsChain(t, d) {
        assert d in t.projected && d !in t.fenced;
      }
    }
  }
}
