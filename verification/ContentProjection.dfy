/** The durable state and the operations on it, step by step as the server performs them. A reply
    says how a durable call ended; the recorded history shows that every path is a run. */
module ContentProjection {
  import opened Wrappers
  import opened Forest
  import opened ContentTree
  import opened Fence

  datatype FenceReply = Fenced | Refused | FencedReplyLost

  /** A commit may take effect although the caller sees a failure. */
  datatype CommitReply = Committed | NoEffect | CommittedUnseen

  /** How the durable calls of one operation end. */
  datatype Replies = Replies(
    fence: FenceReply, commit: CommitReply, released: bool, projected: bool, unfenced: bool)

  datatype Outcome = Rejected | NotCommitted | ReportedAsFailed | NotProjected | NotUnfenced | Done

  ghost predicate Inherits(tree: Tree, inheriting: set<string>, id: string) {
    id in tree && tree[id].collection in inheriting
  }

  /** The tree service finds out about cycles from the set of descendants. */
  lemma AdmissibleMove(tree: Tree, inheriting: set<string>, id: string, newParent: Option<string>)
    ensures Admissible(tree, inheriting, Move(id, newParent)) <==>
      id in tree && (newParent.Some? ==>
        newParent.value in tree && tree[newParent.value].collection == tree[id].collection &&
        newParent.value !in Subtree(CommittedLinks(tree), id))
  {
  }

  /** How an operation ends: refused, fenced in vain, or as far as the replies let it go. */
  ghost function EndOf(s: State, c: Change, replies: Replies): Outcome {
    if !Admissible(s.tree, s.inheriting, c) then Rejected
    else if !c.Create? && !(FenceSet(s, c) <= s.projected.Keys && replies.fence.Fenced?) then Rejected
    else match replies.commit
      case NoEffect => NotCommitted
      case CommittedUnseen => ReportedAsFailed
      case Committed => ReconciledAs(replies)
  }

  function ReconciledAs(replies: Replies): Outcome {
    if !replies.projected then NotProjected else if !replies.unfenced then NotUnfenced else Done
  }

  /** The fences an operation leaves, given those before it and the retired resources. */
  ghost function FencesAfter(s: State, c: Change, replies: Replies, retired: set<string>, after: State): set<string> {
    var ids := FenceSet(s, c);
    match EndOf(s, c, replies)
    case Rejected =>
      if Admissible(s.tree, s.inheriting, c) && !c.Create? && ids <= s.projected.Keys && replies.fence.FencedReplyLost?
      then s.fenced + ids else s.fenced
    case NotCommitted => if replies.released then s.fenced - ids else s.fenced + ids
    case ReportedAsFailed => if replies.released then s.fenced - ids else s.fenced + ids
    case Done => s.fenced + ids - (Desired(after.tree, after.inheriting).Keys + retired)
    case _ => s.fenced + ids
  }

  /** The whole effect of one operation, in terms of the state before it and the replies alone. */
  ghost predicate Performed(
    s: State, t: State, c: Change, replies: Replies, retired: set<string>, outcome: Outcome)
  {
    outcome == EndOf(s, c, replies) &&
    (if outcome.Rejected? || outcome.NotCommitted? then t.tree == s.tree && t.inheriting == s.inheriting
     else t.tree == Fence.Committed(s.tree, c) && t.inheriting == InheritingAfter(s, c)) &&
    t.projected == (if outcome.NotUnfenced? || outcome.Done? then Desired(t.tree, t.inheriting) else s.projected) &&
    t.fenced == FencesAfter(s, c, replies, retired, t)
  }

  /** What that says of an operation that went through, or stopped on the way. */
  lemma PerformedProjects(s: State, t: State, c: Change, replies: Replies, retired: set<string>, outcome: Outcome)
    requires Performed(s, t, c, replies, retired, outcome)
    ensures outcome.Done? ==> t.projected == Desired(t.tree, t.inheriting) && t.fenced !! t.projected.Keys
    ensures outcome.NotProjected? ==> t.projected == s.projected && t.fenced == s.fenced + FenceSet(s, c)
    ensures outcome.ReportedAsFailed? && replies.released ==>
      t.projected == s.projected && t.fenced == s.fenced - FenceSet(s, c)
  {
  }

  class Server {
    var tree: Tree
    var inheriting: set<string>
    var projected: Links
    var fenced: set<string>
    ghost var history: seq<State>

    ghost function Now(phase: Phase): State
      reads this
    {
      State(tree, inheriting, projected, fenced, phase)
    }

    ghost predicate At(phase: Phase)
      reads this
    {
      Run(history) && history[|history| - 1] == Now(phase)
    }

    ghost predicate Valid()
      reads this
    {
      At(Idle)
    }

    constructor (inheriting: set<string>)
      ensures Valid() && this.inheriting == inheriting && tree == map[] && projected == map[] && fenced == {}
    {
      this.inheriting := inheriting;
      tree, projected, fenced := map[], map[], {};
      history := [State(map[], inheriting, map[], {}, Idle)];
    }

    /** Writes down the current state as the next one of the run. */
    ghost method Record(phase: Phase)
      requires Run(history) && Next(history[|history| - 1], Now(phase))
      modifies `history
      ensures At(phase) && old(history) <= history
    {
      ExtendRun(history, Now(phase));
      history := history + [Now(phase)];
    }

    /** The documents of some collections and some more are collected. */
    ghost predicate Collected(projections: Links, collections: set<string>, more: set<string>)
      reads this
    {
      (forall d :: d in projections <==> d in tree && (tree[d].collection in collections || d in more)) &&
      (forall d | d in projections :: projections[d] == LinkOf(tree[d]))
    }

    /** Collects the projection of every inheriting collection, node by node. */
    method CollectProjections() returns (projections: Links)
      ensures projections == Desired(tree, inheriting)
    {
      projections := map[];
      var collections := inheriting;
      while collections != {}
        invariant collections <= inheriting
        invariant Collected(projections, inheriting - collections, {})
        decreases collections
      {
        var collection :| collection in collections;
        var nodes := set d | d in tree && tree[d].collection == collection;
        ghost var all := nodes;
        while nodes != {}
          invariant nodes <= all
          invariant Collected(projections, inheriting - collections, all - nodes)
          decreases nodes
        {
          var d :| d in nodes;
          projections := projections[d := LinkOf(tree[d])];
          nodes := nodes - {d};
        }
        collections := collections - {collection};
      }
      assert inheriting - collections == inheriting;
    }

    /** The policy takes the committed tree over, then the fences are dropped. */
    method Reconcile(replies: Replies, retired: set<string>) returns (outcome: Outcome)
      requires At(Pending)
      modifies `projected, `fenced, `history
      ensures Valid() && old(history) <= history
      ensures outcome == ReconciledAs(replies)
      ensures outcome == if !replies.projected then NotProjected else if !replies.unfenced then NotUnfenced else Done
      ensures projected == if replies.projected then Desired(tree, inheriting) else old(projected)
      ensures fenced == if outcome.Done?
        then old(fenced) - (projected.Keys + (retired - projected.Keys)) else old(fenced)
    {
      var projections := CollectProjections();
      if !replies.projected {
        Record(Idle);
        return NotProjected;
      }
      projected := projections;
      Record(Phase.Projected);
      if !replies.unfenced {
        Record(Idle);
        return NotUnfenced;
      }
      var released := projected.Keys + (retired - projected.Keys);
      fenced := fenced - released;
      assert Unfence(history[|history| - 1], Now(Idle), retired - projected.Keys);
      Record(Idle);
      return Done;
    }

    method Startup(replies: Replies, retired: set<string>) returns (outcome: Outcome)
      requires Valid()
      modifies `projected, `fenced, `history
      ensures Valid() && old(history) <= history
      ensures outcome.Done? ==> projected == Desired(tree, inheriting) && fenced !! projected.Keys
      ensures outcome.Done? ==> Safe(Now(Idle))
      ensures outcome == ReconciledAs(replies)
      ensures projected == if replies.projected then Desired(tree, inheriting) else old(projected)
      ensures fenced == if outcome.Done? then old(fenced) - (projected.Keys + retired) else old(fenced)
    {
      Record(Pending);
      outcome := Reconcile(replies, retired);
      if outcome.Done? {
        RunKeeps(history, |history| - 1);
        ProjectedIsSafe(Now(Idle));
      }
    }

    method CreateContentDocument(id: string, at: Position, replies: Replies, retired: set<string>)
      returns (outcome: Outcome)
      requires Valid()
      modifies `tree, `projected, `fenced, `history
      ensures Valid() && old(history) <= history
      ensures outcome.Rejected? <==> !Admissible(old(tree), inheriting, Create(id, at))
      ensures tree == if outcome.Rejected? || outcome.NotCommitted? then old(tree) else old(tree)[id := at]
      ensures outcome.ReportedAsFailed? <==> !outcome.Rejected? && replies.commit.CommittedUnseen?
      ensures outcome.Done? ==> projected == Desired(tree, inheriting) && fenced !! projected.Keys
      ensures !outcome.Done? ==> fenced == old(fenced)
      ensures Performed(old(Now(Idle)), Now(Idle), Create(id, at), replies, retired, outcome)
    {
      if id in tree ||
        (at.parent.Some? && (at.parent.value !in tree || tree[at.parent.value].collection != at.collection)) {
        return Rejected;
      }
      Record(Planned(Create(id, at)));
      if replies.commit.NoEffect? {
        Record(Idle);
        return NotCommitted;
      }
      tree := tree[id := at];
      Record(Pending);
      if replies.commit.CommittedUnseen? {
        Record(Idle);
        return ReportedAsFailed;
      }
      outcome := Reconcile(replies, retired);
    }

    /** The fence of an operation: an outcome if the operation ends here, None to go on. */
    method FenceResources(ghost change: Change, ids: set<string>, reply: FenceReply) returns (ended: bool)
      requires At(Planned(change)) && !change.Create?
      requires ids == FenceSet(Now(Planned(change)), change)
      modifies `fenced, `history
      ensures old(history) <= history
      ensures ended <==> !(ids <= projected.Keys) || !reply.Fenced?
      ensures ended ==>
        Valid() && fenced == if ids <= projected.Keys && reply.FencedReplyLost? then old(fenced) + ids else old(fenced)
      ensures !ended ==> At(Fencing(change, ids, old(fenced))) && fenced == old(fenced) + ids
    {
      if !(ids <= projected.Keys) || reply.Refused? {
        Record(Idle);
        return true;
      }
      ghost var older := fenced;
      fenced := fenced + ids;
      Record(Fencing(change, ids, older));
      if reply.FencedReplyLost? {
        Record(Idle);
        return true;
      }
      return false;
    }

    /** The commit failed after fencing: release, if the release itself goes through. */
    method ReleaseAfterFailure(ghost change: Change, ids: set<string>, released: bool, ghost older: set<string>)
      requires At(Fencing(change, ids, older))
      modifies `fenced, `history
      ensures Valid() && old(history) <= history
      ensures fenced == if released then old(fenced) - ids else old(fenced)
    {
      if released {
        fenced := fenced - ids;
      }
      Record(Idle);
    }

    /** The commit took effect, but the operation sees a failure and releases all the same. */
    method ReleaseAfterUnseenCommit(ghost change: Change, ids: set<string>, released: bool, ghost older: set<string>,
                                    ghost treeBefore: Tree, ghost inheritingBefore: set<string>)
      requires Run(history) && !change.Create?
      requires history[|history| - 1] ==
        State(treeBefore, inheritingBefore, projected, fenced, Fencing(change, ids, older))
      requires tree == Fence.Committed(treeBefore, change)
      requires inheriting == InheritingAfter(history[|history| - 1], change)
      modifies `fenced, `history
      ensures Valid() && old(history) <= history
      ensures fenced == if released then old(fenced) - ids else old(fenced)
    {
      if released {
        fenced := fenced - ids;
        Record(Idle);
      } else {
        Record(Pending);
        Record(Idle);
      }
    }

    /** The commit took effect: a failure to the caller, or the reconcile. */
    method AfterCommit(ghost change: Change, ids: set<string>, replies: Replies, retired: set<string>,
                       ghost older: set<string>, ghost treeBefore: Tree, ghost inheritingBefore: set<string>)
      returns (outcome: Outcome)
      requires Run(history) && !change.Create? && !replies.commit.NoEffect?
      requires history[|history| - 1] ==
        State(treeBefore, inheritingBefore, projected, fenced, Fencing(change, ids, older))
      requires tree == Fence.Committed(treeBefore, change)
      requires inheriting == InheritingAfter(history[|history| - 1], change)
      modifies `projected, `fenced, `history
      ensures Valid() && old(history) <= history
      ensures outcome == if replies.commit.CommittedUnseen? then ReportedAsFailed else ReconciledAs(replies)
      ensures projected ==
        if outcome.NotUnfenced? || outcome.Done? then Desired(tree, inheriting) else old(projected)
      ensures fenced ==
        if outcome.Done? then old(fenced) - (projected.Keys + retired)
        else if outcome.ReportedAsFailed? && replies.released then old(fenced) - ids
        else old(fenced)
    {
      if replies.commit.CommittedUnseen? {
        ReleaseAfterUnseenCommit(change, ids, replies.released, older, treeBefore, inheritingBefore);
        return ReportedAsFailed;
      }
      Record(Pending);
      outcome := Reconcile(replies, retired);
    }

    /** The affected set comes from the tree service: the moved document and all its descendants. */
    method MoveHierarchyDocument(id: string, newParent: Option<string>, subtree: set<string>, replies: Replies,
                                 retired: set<string>)
      returns (outcome: Outcome)
      requires Valid()
      requires subtree == Subtree(CommittedLinks(tree), id)
      modifies `tree, `projected, `fenced, `history
      ensures Valid() && old(history) <= history
      ensures outcome.Rejected? || outcome.NotCommitted? ==> tree == old(tree) && projected == old(projected)
      ensures !outcome.Rejected? && !outcome.NotCommitted? ==> tree == Fence.Committed(old(tree), Move(id, newParent))
      ensures outcome.Done? ==> projected == Desired(tree, inheriting) && fenced !! projected.Keys
      ensures !Admissible(old(tree), inheriting, Move(id, newParent)) ==> outcome.Rejected? && fenced == old(fenced)
      ensures Performed(old(Now(Idle)), Now(Idle), Move(id, newParent), replies, retired, outcome)
      ensures outcome.NotProjected? && Inherits(old(tree), inheriting, id) ==>
        projected == old(projected) && fenced == old(fenced) + subtree
      ensures outcome.ReportedAsFailed? && replies.released && Inherits(old(tree), inheriting, id) ==>
        projected == old(projected) && fenced == old(fenced) - subtree
    {
      AdmissibleMove(tree, inheriting, id, newParent);
      if id !in tree || (newParent.Some? &&
          (newParent.value !in tree || tree[newParent.value].collection != tree[id].collection ||
            newParent.value in subtree)) {
        return Rejected;
      }
      var affected := if tree[id].collection in inheriting then subtree else {};
      outcome := FenceAndMove(id, newParent, affected, replies, retired);
      PerformedProjects(old(Now(Idle)), Now(Idle), Move(id, newParent), replies, retired, outcome);
    }

    /** The move once it is found admissible: fence, commit, project. */
    method FenceAndMove(id: string, newParent: Option<string>, affected: set<string>, replies: Replies,
                        retired: set<string>)
      returns (outcome: Outcome)
      requires Valid() && Admissible(tree, inheriting, Move(id, newParent))
      requires affected == FenceSet(Now(Idle), Move(id, newParent))
      modifies `tree, `projected, `fenced, `history
      ensures Valid() && old(history) <= history
      ensures Performed(old(Now(Idle)), Now(Idle), Move(id, newParent), replies, retired, outcome)
    {
      ghost var change := Move(id, newParent);
      Record(Planned(change));
      var ended := FenceResources(change, affected, replies.fence);
      if ended {
        return Rejected;
      }
      if replies.commit.NoEffect? {
        ReleaseAfterFailure(change, affected, replies.released, old(fenced));
        return NotCommitted;
      }
      tree := tree[id := Position(tree[id].collection, newParent)];
      outcome := AfterCommit(change, affected, replies, retired, old(fenced), old(tree), inheriting);
    }

    method PurgeDocuments(ids: seq<string>, replies: Replies, retired: set<string>) returns (outcome: Outcome)
      requires Valid()
      modifies `tree, `projected, `fenced, `history
      ensures Valid() && old(history) <= history
      ensures outcome.Rejected? || outcome.NotCommitted? ==> tree == old(tree) && projected == old(projected)
      ensures !outcome.Rejected? && !outcome.NotCommitted? ==> tree == RemoveAll(old(tree), ids)
      ensures Performed(old(Now(Idle)), Now(Idle), Purge(ids), replies, retired, outcome)
      ensures outcome.Done? ==> projected == Desired(tree, inheriting) && fenced !! projected.Keys
      ensures outcome.NotProjected? ==> projected.Keys <= fenced
      ensures outcome.ReportedAsFailed? && replies.released ==>
        projected == old(projected) && fenced == old(fenced) - projected.Keys
    {
      outcome := FenceAndPurge(ids, projected.Keys, replies, retired);
      PerformedProjects(old(Now(Idle)), Now(Idle), Purge(ids), replies, retired, outcome);
    }

    /** The purge itself: fence what is projected, commit, project. */
    method FenceAndPurge(ids: seq<string>, quarantined: set<string>, replies: Replies, retired: set<string>)
      returns (outcome: Outcome)
      requires Valid() && quarantined == projected.Keys
      modifies `tree, `projected, `fenced, `history
      ensures Valid() && old(history) <= history
      ensures Performed(old(Now(Idle)), Now(Idle), Purge(ids), replies, retired, outcome)
    {
      ghost var change := Purge(ids);
      Record(Planned(change));
      var ended := FenceResources(change, quarantined, replies.fence);
      if ended {
        return Rejected;
      }
      if replies.commit.NoEffect? {
        ReleaseAfterFailure(change, quarantined, replies.released, old(fenced));
        return NotCommitted;
      }
      tree := RemoveAll(tree, ids);
      outcome := AfterCommit(change, quarantined, replies, retired, old(fenced), old(tree), inheriting);
    }

    /** Schema changes that would switch inheritance for existing documents are refused. */
    method ApplySchemaWithProjection(newInheriting: set<string>, replies: Replies, retired: set<string>)
      returns (outcome: Outcome)
      requires Valid()
      modifies `inheriting, `projected, `fenced, `history
      ensures Valid() && old(history) <= history
      ensures outcome.Rejected? || outcome.NotCommitted? ==>
        inheriting == old(inheriting) && projected == old(projected)
      ensures !outcome.Rejected? && !outcome.NotCommitted? ==>
        inheriting == newInheriting && Admissible(tree, old(inheriting), Apply(newInheriting))
      ensures Performed(old(Now(Idle)), Now(Idle), Apply(newInheriting), replies, retired, outcome)
      ensures outcome.Done? ==> projected == Desired(tree, inheriting) && fenced !! projected.Keys
      ensures outcome.NotProjected? ==> projected.Keys <= fenced
      ensures outcome.ReportedAsFailed? && replies.released ==>
        projected == old(projected) && fenced == old(fenced) - projected.Keys
    {
      if exists d :: d in tree && (tree[d].collection in inheriting) != (tree[d].collection in newInheriting) {
        return Rejected;
      }
      outcome := FenceAndApply(newInheriting, projected.Keys, replies, retired);
      PerformedProjects(old(Now(Idle)), Now(Idle), Apply(newInheriting), replies, retired, outcome);
    }

    /** The apply once it is found admissible: fence what is projected, commit, project. */
    method FenceAndApply(newInheriting: set<string>, quarantined: set<string>, replies: Replies, retired: set<string>)
      returns (outcome: Outcome)
      requires Valid() && Admissible(tree, inheriting, Apply(newInheriting)) && quarantined == projected.Keys
      modifies `inheriting, `projected, `fenced, `history
      ensures Valid() && old(history) <= history
      ensures Performed(old(Now(Idle)), Now(Idle), Apply(newInheriting), replies, retired, outcome)
    {
      ghost var change := Apply(newInheriting);
      Record(Planned(change));
      var ended := FenceResources(change, quarantined, replies.fence);
      if ended {
        return Rejected;
      }
      if replies.commit.NoEffect? {
        ReleaseAfterFailure(change, quarantined, replies.released, old(fenced));
        return NotCommitted;
      }
      inheriting := newInheriting;
      outcome := AfterCommit(change, quarantined, replies, retired, old(fenced), tree, old(inheriting));
    }
  }

  /** Safety for the object: unless some release in its history gave back an older fence, or was one
      after a harmful commit that took effect unseen, every projected and unfenced document has its
      committed chain in the projection. */
  lemma ServerIsSafe(server: Server)
    requires server.Valid() && CleanRun(server.history)
    ensures Safe(server.Now(Idle))
  {
    RunIsSafe(server.history, |server.history| - 1);
  }

  /** Whatever its history, the object is safe again once an operation or a startup was done. */
  lemma ReconciledServerIsSafe(server: Server)
    requires server.Valid() && server.projected == Desired(server.tree, server.inheriting)
    ensures Safe(server.Now(Idle))
  {
    RunKeeps(server.history, |server.history| - 1);
    ProjectedIsSafe(server.Now(Idle));
  }
}
