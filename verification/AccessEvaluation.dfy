/** Building the access profile: visiting the pages, evaluating the checks against a policy that
    may change at any time, and putting the answers together. */
module AccessEvaluation {
  import opened Wrappers
  import opened AccessProfile

  // ---------------------------------------------------------------- what pages ask

  datatype FormMode = CreateMode | EditMode | CreateOrEdit

  datatype ComposedAction = ComposedAction(id: string, collection: Option<string>)

  datatype PageKind =
    | CollectionList
    | DocumentForm(mode: FormMode)
    | DocumentDetail(revisions: bool)
    | Singleton
    | Dashboard
    | PluginPage
    | Composed(effects: seq<ComposedAction>)

  datatype Page = Page(id: string, kind: PageKind, collection: string, actions: seq<string>)

  /** The naming of resources, which is not part of this model. */
  datatype Names = Names(
    app: string,
    page: string -> string,
    action: (string, string) -> string,
    collection: string -> string,
    media: string,
    permissionKey: (string, string) -> string)

  datatype Request = Request(
    names: Names, granular: bool, references: seq<(string, string)>, pages: seq<Page>, collections: seq<CollectionInfo>)

  function BuiltInPermission(action: string): Option<string> {
    match action
    case "core.action.create" => Some("content.create")
    case "core.action.update" => Some("content.update")
    case "core.action.delete" => Some("content.delete")
    case "core.action.archive" => Some("content.archive")
    case "core.action.restore" => Some("content.restore")
    case "core.action.publish" => Some("content.publish")
    case "core.action.unpublish" => Some("content.unpublish")
    case "core.action.export" => Some("content.read")
    case _ => None
  }

  predicate HasCollection(kind: PageKind) {
    kind.CollectionList? || kind.DocumentForm? || kind.DocumentDetail? || kind.Singleton?
  }

  function PageActions(page: Page): (actions: seq<string>)
    ensures forall a :: a in actions <==>
      if page.kind.Composed? then exists e :: e in page.kind.effects && e.id == a else a in page.actions
  {
    if page.kind.Composed? then ComposedIds(page.kind.effects) else page.actions
  }

  function ComposedIds(effects: seq<ComposedAction>): (ids: seq<string>)
    ensures forall a :: a in ids <==> exists e :: e in effects && e.id == a
  {
    if effects == [] then []
    else
      assert forall e :: e in effects <==> e == effects[0] || e in effects[1..];
      [effects[0].id] + ComposedIds(effects[1..])
  }

  function PageRequirement(page: Page, resource: string): Requirement<Question> {
    match page.kind
    case CollectionList => Requirement(true, [Permission("content.list", resource)])
    case DocumentDetail(_) => Requirement(true, [Permission("content.read", resource)])
    case Singleton => Requirement(false, [Permission("content.read", resource), Permission("content.update", resource)])
    case DocumentForm(CreateMode) => Requirement(true, [Permission("content.create", resource)])
    case DocumentForm(EditMode) => Requirement(true, [Permission("content.update", resource)])
    case DocumentForm(CreateOrEdit) =>
      Requirement(false, [Permission("content.create", resource), Permission("content.update", resource)])
    case _ => Requirement(true, [])
  }

  function ExecuteSteps(request: Request, page: Page, actions: seq<string>): seq<Step<Question>> {
    if actions == [] then []
    else
      [MergeAction(page.id, actions[0],
        if request.granular
          then Some(Permission("admin-app.action.execute", request.names.action(page.id, actions[0]))) else None,
        None)]
      + ExecuteSteps(request, page, actions[1..])
  }

  function DomainStep(page: Page, action: string, permission: string, resource: string): Step<Question> {
    MergeAction(page.id, action, None, Some(Permission(permission, resource)))
  }

  function ComposedSteps(request: Request, page: Page, effects: seq<ComposedAction>): seq<Step<Question>> {
    if effects == [] then []
    else
      var permission := BuiltInPermission(effects[0].id);
      (if permission.None? || effects[0].collection.None? then []
       else [DomainStep(page, effects[0].id, permission.value, request.names.collection(effects[0].collection.value))])
      + ComposedSteps(request, page, effects[1..])
  }

  function DomainSteps(page: Page, actions: seq<string>, resource: string): seq<Step<Question>> {
    if actions == [] then []
    else
      var permission := BuiltInPermission(actions[0]);
      (if permission.None? then [] else [DomainStep(page, actions[0], permission.value, resource)])
      + DomainSteps(page, actions[1..], resource)
  }

  function FieldSteps(collection: string, resource: string, fields: seq<FieldInfo>): seq<Step<Question>> {
    if fields == [] then []
    else
      [SetField(FieldCheck(collection, fields[0].id,
        FieldAccess("content.read", resource, fields[0].name, false),
        FieldAccess("content.create", resource, fields[0].name, true),
        FieldAccess("content.update", resource, fields[0].name, true)))]
      + FieldSteps(collection, resource, fields[1..])
  }

  /** The collection with an id; of several, the last one counts. */
  function FindCollection(collections: seq<CollectionInfo>, id: string): Option<CollectionInfo> {
    if collections == [] then None
    else
      var last := collections[|collections| - 1];
      if last.id == id then Some(last) else FindCollection(collections[..|collections| - 1], id)
  }

  function ExtraSteps(request: Request, page: Page): seq<Step<Question>> {
    var resource := request.names.collection(page.collection);
    var collection := FindCollection(request.collections, page.collection);
    if page.kind.DocumentDetail? && page.kind.revisions then
      [DomainStep(page, "core.action.revision.read", "content.revision.read", resource),
       DomainStep(page, "core.action.revision.restore", "content.revision.restore", resource)]
    else if page.kind.CollectionList? && collection.Some? && collection.value.hierarchy then
      [DomainStep(page, "core.action.hierarchy.move", "content.update", resource)]
    else if (page.kind.DocumentForm? || page.kind.Singleton?) && collection.Some? &&
      (exists f :: f in collection.value.fields && f.media) then
      [DomainStep(page, "core.action.media.read", "media.read", request.names.media),
       DomainStep(page, "core.action.media.upload", "media.upload", request.names.media)]
    else []
  }

  function AllFieldSteps(request: Request, page: Page): seq<Step<Question>> {
    var collection := FindCollection(request.collections, page.collection);
    if collection.None? then []
    else FieldSteps(page.collection, request.names.collection(page.collection), collection.value.fields)
  }

  /** The steps of a page with a collection: the actions it lists, what its kind adds, its fields. */
  function CollectionSteps(request: Request, page: Page): seq<Step<Question>> {
    DomainSteps(page, PageActions(page), request.names.collection(page.collection))
    + ExtraSteps(request, page) + AllFieldSteps(request, page)
  }

  function GateSteps(request: Request, page: Page): seq<Step<Question>> {
    if request.granular then
      [SetGate(page.id, Gate(Permission("admin-app.page.read", request.names.page(page.id)),
                             Permission("admin-app.page.unmask", request.names.page(page.id))))]
    else []
  }

  function LaterSteps(request: Request, page: Page): seq<Step<Question>> {
    (if page.kind.Composed? then ComposedSteps(request, page, page.kind.effects) else [])
    + (if HasCollection(page.kind) then CollectionSteps(request, page) else [])
  }

  function PageStep(request: Request, page: Page): Step<Question> {
    SetPage(page.id, PageRequirement(page, request.names.collection(page.collection)))
  }

  function PageSteps(request: Request, page: Page): seq<Step<Question>> {
    GateSteps(request, page) + ExecuteSteps(request, page, PageActions(page)) + [PageStep(request, page)]
    + LaterSteps(request, page)
  }

  function ReferenceSteps(request: Request, references: seq<(string, string)>): seq<Step<Question>> {
    if references == [] then []
    else
      var (action, resource) := references[0];
      [SetPermission(request.names.permissionKey(action, resource), Permission(action, resource))]
      + ReferenceSteps(request, references[1..])
  }

  function AllPageSteps(request: Request, pages: seq<Page>): seq<Step<Question>> {
    if pages == [] then [] else PageSteps(request, pages[0]) + AllPageSteps(request, pages[1..])
  }

  function Steps(request: Request): seq<Step<Question>> {
    ReferenceSteps(request, request.references) + AllPageSteps(request, request.pages)
  }

  function AppQuestion(request: Request): Question {
    Permission("admin-app.access", request.names.app)
  }

  /** The reference: every page, action, permission and field question put to one policy. */
  function DirectProfile(request: Request, answer: Question -> bool): Profile {
    ProfileOf(AppQuestion(request), RememberAll(EmptyPlan(), Steps(request)), request.collections, answer)
  }

  // ---------------------------------------------------------------- the policy over time

  /** One revision of the policy answers every question in one way. */
  datatype Policy = Policy(revision: nat, available: bool, answer: Question -> bool)

  datatype Check = Check(id: nat, question: Question)

  datatype Batch = Answered(revision: nat, decisions: map<nat, bool>) | Unavailable

  /** A batch answer decides exactly the ids it was asked, each the way one policy answers. */
  ghost predicate AnsweredBy(checks: seq<Check>, decisions: map<nat, bool>, policy: Policy) {
    (forall id | id in decisions :: exists i :: 0 <= i < |checks| && checks[i].id == id) &&
    (forall i | 0 <= i < |checks| ::
      checks[i].id in decisions && decisions[checks[i].id] == policy.answer(checks[i].question))
  }

  ghost predicate DistinctCheckIds(checks: seq<Check>) {
    forall i, j | 0 <= i < j < |checks| :: checks[i].id != checks[j].id
  }

  /** The policy service: its n-th call meets the n-th policy of an arbitrary timeline. */
  class Authorization {
    var calls: nat
    const timeline: nat -> Policy

    constructor (timeline: nat -> Policy)
      ensures this.timeline == timeline && calls == 0
    {
      this.timeline := timeline;
      calls := 0;
    }

    method CurrentRevision() returns (revision: nat)
      modifies this
      ensures calls == old(calls) + 1 && revision == timeline(old(calls)).revision
    {
      revision := timeline(calls).revision;
      calls := calls + 1;
    }

    method EvaluateBatch(checks: seq<Check>) returns (batch: Batch)
      requires 1 <= |checks| <= 100
      requires DistinctCheckIds(checks)
      modifies this
      ensures calls == old(calls) + 1
      ensures batch.Unavailable? <==> !timeline(old(calls)).available
      ensures batch.Answered? ==> batch.revision == timeline(old(calls)).revision
      ensures batch.Answered? ==> AnsweredBy(checks, batch.decisions, timeline(old(calls)))
    {
      var policy := timeline(calls);
      calls := calls + 1;
      if !policy.available {
        return Unavailable;
      }
      var decisions: map<nat, bool> := map[];
      for i := 0 to |checks|
        invariant AnsweredBy(checks[..i], decisions, policy)
      {
        var earlier := decisions;
        decisions := decisions[checks[i].id := policy.answer(checks[i].question)];
        ghost var asked := checks[..i + 1];
        assert asked[i] == checks[i] && forall k | 0 <= k < i :: asked[k] == checks[..i][k];
        assert forall id | id in earlier :: exists k :: 0 <= k < i && checks[..i][k].id == id;
      }
      assert checks[..|checks|] == checks;
      return Answered(policy.revision, decisions);
    }
  }

  ghost predicate SameAnswers(p: Policy, q: Policy) {
    forall question :: p.answer(question) == q.answer(question)
  }

  /** A revision number names one policy. */
  ghost predicate Consistent(timeline: nat -> Policy) {
    forall i, j | timeline(i).revision == timeline(j).revision :: SameAnswers(timeline(i), timeline(j))
  }

  ghost predicate SteadyBetween(timeline: nat -> Policy, from: nat, to: nat) {
    forall t: nat | from <= t < to :: timeline(t).revision == timeline(from).revision
  }

  ghost predicate RefusedBefore(timeline: nat -> Policy, from: nat, to: nat) {
    exists t: nat :: from <= t < to && !timeline(t).available
  }

  /** The policy changed, and changed again after some moment in between. */
  ghost predicate ChangedTwice(timeline: nat -> Policy, from: nat, to: nat) {
    exists m: nat :: from <= m <= to && !SteadyBetween(timeline, from, m) && !SteadyBetween(timeline, m, to)
  }

  // ---------------------------------------------------------------- evaluation

  const CHUNK := 100

  /** Chunk number c: the items from c * 100 on, a hundred of them or all that are left. */
  ghost predicate IsChunk(items: seq<Check>, chunk: seq<Check>, c: nat) {
    1 <= |chunk| <= CHUNK && c * CHUNK + |chunk| <= |items| &&
    (|chunk| == CHUNK || |items| == c * CHUNK + |chunk|) && chunk == items[c * CHUNK..c * CHUNK + |chunk|]
  }

  method ChunkChecks(items: seq<Check>) returns (chunks: seq<seq<Check>>)
    ensures forall c | 0 <= c < |chunks| :: IsChunk(items, chunks[c], c)
    ensures |items| <= |chunks| * CHUNK
  {
    chunks := [];
    var index := 0;
    while index < |items|
      invariant index == |chunks| * CHUNK
      invariant forall c | 0 <= c < |chunks| :: IsChunk(items, chunks[c], c)
      decreases |items| - index
    {
      var end := if index + CHUNK <= |items| then index + CHUNK else |items|;
      var chunk := items[index..end];
      assert IsChunk(items, chunk, |chunks|);
      chunks := chunks + [chunk];
      index := index + CHUNK;
    }
  }

  datatype Evaluation = Stable(revision: nat, decisions: map<nat, bool>) | Stale | Failed

  function Checks(items: seq<Question>): seq<Check> {
    seq(|items|, i requires 0 <= i < |items| => Check(i, items[i]))
  }

  /** Ids below a bound are decided the way the policy of one moment answers. */
  ghost predicate DecidedBelow(items: seq<Question>, n: int, decisions: map<nat, bool>, policy: Policy) {
    forall id: nat | id < |items| && id < n :: id in decisions && decisions[id] == policy.answer(items[id])
  }

  /** One attempt: revision, all chunks, revision again; good if they all agree. */
  method Attempt(authorization: Authorization, items: seq<Question>) returns (r: Evaluation)
    requires Consistent(authorization.timeline)
    modifies authorization
    ensures old(authorization.calls) <= authorization.calls
    ensures r.Stable? ==> authorization.timeline(old(authorization.calls)).revision == r.revision
    ensures r.Stable? ==> DecidedBelow(items, |items|, r.decisions, authorization.timeline(old(authorization.calls)))
    ensures r.Stable? ==> old(authorization.calls) < authorization.calls
    ensures r.Stable? ==> SteadyBetween(authorization.timeline, old(authorization.calls), authorization.calls)
    ensures r.Stale? ==> !SteadyBetween(authorization.timeline, old(authorization.calls), authorization.calls)
    ensures r.Failed? ==> RefusedBefore(authorization.timeline, old(authorization.calls), authorization.calls)
  {
    ghost var start := authorization.calls;
    var before := authorization.CurrentRevision();
    var chunks := ChunkChecks(Checks(items));
    var decisions: map<nat, bool> := map[];
    var steady := true;
    for c := 0 to |chunks|
      invariant authorization.calls == start + 1 + c
      invariant Asked(authorization.timeline, items, start, c, decisions, steady)
    {
      assert IsChunk(Checks(items), chunks[c], c);
      ChunkIsBatch(items, chunks[c], c);
      var batch := authorization.EvaluateBatch(chunks[c]);
      if batch.Unavailable? {
        assert !authorization.timeline(start + 1 + c).available;
        return Failed;
      }
      AskedOneMore(authorization.timeline, items, chunks[c], c, decisions, batch.decisions, start, steady);
      steady := steady && batch.revision == before;
      decisions := decisions + batch.decisions;
    }
    var after := authorization.CurrentRevision();
    AskedAll(authorization.timeline, items, start, |chunks|, decisions, steady);
    return if before == after && steady then Stable(before, decisions) else Stale;
  }

  /** After c chunks: whether the revision was the same throughout, and what is decided if it was. */
  ghost predicate Asked(
    timeline: nat -> Policy, items: seq<Question>, start: nat, c: nat, decisions: map<nat, bool>, steady: bool)
  {
    (steady <==> SteadyBetween(timeline, start, start + 1 + c)) &&
    (steady ==> DecidedBelow(items, c * CHUNK, decisions, timeline(start)))
  }

  lemma AskedOneMore(timeline: nat -> Policy, items: seq<Question>, chunk: seq<Check>, c: nat, earlier: map<nat, bool>,
                     answers: map<nat, bool>, start: nat, steady: bool)
    requires Consistent(timeline) && Asked(timeline, items, start, c, earlier, steady)
    requires IsChunk(Checks(items), chunk, c) && AnsweredBy(chunk, answers, timeline(start + 1 + c))
    ensures Asked(timeline, items, start, c + 1, earlier + answers,
                  steady && timeline(start + 1 + c).revision == timeline(start).revision)
  {
    SteadyOneMore(timeline, start, start + 1 + c);
    ChunkStep(timeline, items, chunk, c, earlier, answers, start, steady);
  }

  lemma AskedAll(timeline: nat -> Policy, items: seq<Question>, start: nat, c: nat, decisions: map<nat, bool>,
                 steady: bool)
    requires Asked(timeline, items, start, c, decisions, steady) && |items| <= c * CHUNK
    ensures SteadyBetween(timeline, start, start + 2 + c) <==>
      steady && timeline(start + 1 + c).revision == timeline(start).revision
    ensures steady ==> DecidedBelow(items, |items|, decisions, timeline(start))
  {
    SteadyOneMore(timeline, start, start + 1 + c);
    if steady {
      AllDecided(items, c * CHUNK, decisions, timeline(start));
    }
  }

  lemma SteadyOneMore(timeline: nat -> Policy, from: nat, to: nat)
    requires from <= to
    ensures SteadyBetween(timeline, from, to + 1) <==>
            SteadyBetween(timeline, from, to) && timeline(to).revision == timeline(from).revision
  {
  }

  lemma ChunkStep(timeline: nat -> Policy, items: seq<Question>, chunk: seq<Check>, c: nat, earlier: map<nat, bool>,
                  answers: map<nat, bool>, start: nat, steady: bool)
    requires Consistent(timeline)
    requires IsChunk(Checks(items), chunk, c) && AnsweredBy(chunk, answers, timeline(start + 1 + c))
    requires steady ==> DecidedBelow(items, c * CHUNK, earlier, timeline(start))
    ensures steady && timeline(start + 1 + c).revision == timeline(start).revision ==>
            DecidedBelow(items, (c + 1) * CHUNK, earlier + answers, timeline(start))
  {
    if steady && timeline(start + 1 + c).revision == timeline(start).revision {
      assert SameAnswers(timeline(start + 1 + c), timeline(start));
      forall id: nat | id < |items| && id < (c + 1) * CHUNK
        ensures id in earlier + answers && (earlier + answers)[id] == timeline(start).answer(items[id])
      {
        if id < c * CHUNK {
          NotInLaterChunk(items, chunk, c, answers, timeline(start + 1 + c), id);
        } else {
          InChunk(items, chunk, c, answers, timeline(start + 1 + c), id);
        }
      }
    }
  }

  lemma ChunkIsBatch(items: seq<Question>, chunk: seq<Check>, c: nat)
    requires IsChunk(Checks(items), chunk, c)
    ensures DistinctCheckIds(chunk)
  {
    forall i | 0 <= i < |chunk| ensures chunk[i].id == c * CHUNK + i {
      assert chunk[i] == Checks(items)[c * CHUNK + i];
    }
  }

  lemma AllDecided(items: seq<Question>, n: nat, decisions: map<nat, bool>, policy: Policy)
    requires DecidedBelow(items, n, decisions, policy) && |items| <= n
    ensures DecidedBelow(items, |items|, decisions, policy)
  {
  }

  lemma InChunk(items: seq<Question>, chunk: seq<Check>, c: nat, answers: map<nat, bool>, now: Policy, id: nat)
    requires IsChunk(Checks(items), chunk, c) && AnsweredBy(chunk, answers, now)
    requires c * CHUNK <= id < (c + 1) * CHUNK && id < |items|
    ensures id in answers && answers[id] == now.answer(items[id])
  {
    assert chunk[id - c * CHUNK] == Check(id, items[id]);
  }

  lemma NotInLaterChunk(items: seq<Question>, chunk: seq<Check>, c: nat, answers: map<nat, bool>, now: Policy, id: nat)
    requires IsChunk(Checks(items), chunk, c) && AnsweredBy(chunk, answers, now)
    requires id < c * CHUNK
    ensures id !in answers
  {
  }

  /** Two attempts. A stable answer comes from one policy; staleness is reported only if the
      policy changed during both attempts. */
  method EvaluateStable(authorization: Authorization, items: seq<Question>) returns (r: Evaluation)
    requires Consistent(authorization.timeline)
    modifies authorization
    ensures old(authorization.calls) <= authorization.calls
    ensures r.Stable? ==>
      EvaluatedAt(authorization.timeline, old(authorization.calls), authorization.calls, items, r.revision, r.decisions)
    ensures r.Stale? ==> ChangedTwice(authorization.timeline, old(authorization.calls), authorization.calls)
    ensures r.Failed? ==> RefusedBefore(authorization.timeline, old(authorization.calls), authorization.calls)
  {
    ghost var start := authorization.calls;
    r := Attempt(authorization, items);
    if r.Stale? {
      ghost var middle := authorization.calls;
      r := Attempt(authorization, items);
      if r.Stable? {
        assert DecidedBelow(items, |items|, r.decisions, authorization.timeline(middle));
      }
    } else if r.Stable? {
      assert DecidedBelow(items, |items|, r.decisions, authorization.timeline(start));
    }
  }

  /** At some moment of an interval the policy had the revision and answers as decided. */
  ghost predicate EvaluatedAt(timeline: nat -> Policy, from: nat, to: nat, items: seq<Question>, revision: nat,
                              decisions: map<nat, bool>) {
    exists t: nat ::
      from <= t < to && timeline(t).revision == revision && DecidedBelow(items, |items|, decisions, timeline(t))
  }

  // ---------------------------------------------------------------- the builder

  ghost predicate NulFreeOption(q: Option<Question>) {
    q.Some? ==> NulFreeQuestion(q.value)
  }

  ghost predicate AllNulFree(qs: seq<Question>) {
    forall i | 0 <= i < |qs| :: NulFreeQuestion(qs[i])
  }

  ghost predicate NulFreeStep(s: Step<Question>) {
    match s
    case SetPermission(_, c) => NulFreeQuestion(c)
    case SetGate(_, g) => NulFreeQuestion(g.read) && NulFreeQuestion(g.unmask)
    case SetPage(_, r) => AllNulFree(r.checks)
    case MergeAction(_, _, e, d) => NulFreeOption(e) && NulFreeOption(d)
    case SetField(f) => NulFreeQuestion(f.read) && NulFreeQuestion(f.create) && NulFreeQuestion(f.update)
  }

  lemma OneMoreStandsFor(items: seq<Question>, more: seq<Question>, ids: seq<nat>, qs: seq<Question>, id: nat,
                         q: Question)
    requires items <= more && StandsForAll(items, ids, qs) && StandsFor(more, id, q)
    ensures StandsForAll(more, ids + [id], qs + [q])
  {
    forall i | 0 <= i < |ids| ensures StandsFor(more, ids[i], qs[i]) {
      assert StandsFor(items, ids[i], qs[i]);
    }
  }

  lemma StillStandsFor(items: seq<Question>, more: seq<Question>, id: nat, q: Question)
    requires items <= more && StandsFor(items, id, q)
    ensures StandsFor(more, id, q)
  {
  }

  /** Collects the checks of all pages under deduplicated ids. */
  class ProfileBuilder {
    const catalog: CheckCatalog
    var plan: Plan<nat>

    constructor ()
      ensures plan == EmptyPlan() && fresh(catalog) && catalog.Valid() && catalog.items == []
    {
      catalog := new CheckCatalog();
      plan := EmptyPlan();
    }

    method AddOption(q: Option<Question>) returns (id: Option<nat>)
      requires catalog.Valid() && NulFreeOption(q)
      modifies catalog
      ensures catalog.Valid() && old(catalog.items) <= catalog.items && StandsForOption(catalog.items, id, q)
    {
      if q.None? {
        return None;
      }
      var n := catalog.Add(q.value);
      return Some(n);
    }

    method AddNext(ids: seq<nat>, ghost qs: seq<Question>, q: Question) returns (more: seq<nat>)
      requires catalog.Valid() && NulFreeQuestion(q) && StandsForAll(catalog.items, ids, qs)
      modifies catalog
      ensures catalog.Valid() && old(catalog.items) <= catalog.items && StandsForAll(catalog.items, more, qs + [q])
    {
      ghost var known := catalog.items;
      var id := AddOne(q);
      OneMoreStandsFor(known, catalog.items, ids, qs, id, q);
      more := ids + [id];
    }

    method AddAll(qs: seq<Question>) returns (ids: seq<nat>)
      requires catalog.Valid() && AllNulFree(qs)
      modifies catalog
      ensures catalog.Valid() && old(catalog.items) <= catalog.items && StandsForAll(catalog.items, ids, qs)
    {
      ids := [];
      ghost var start := catalog.items;
      for i := 0 to |qs|
        invariant catalog.Valid() && start <= catalog.items
        invariant StandsForAll(catalog.items, ids, qs[..i])
      {
        ids := AddNext(ids, qs[..i], qs[i]);
        assert qs[..i + 1] == qs[..i] + [qs[i]];
      }
      assert qs[..|qs|] == qs;
    }

    method AddOne(q: Question) returns (id: nat)
      requires catalog.Valid() && NulFreeQuestion(q)
      modifies catalog
      ensures catalog.Valid() && old(catalog.items) <= catalog.items && StandsFor(catalog.items, id, q)
    {
      id := catalog.Add(q);
    }

    method AddGate(gate: Gate<Question>) returns (ids: Gate<nat>)
      requires catalog.Valid() && NulFreeQuestion(gate.read) && NulFreeQuestion(gate.unmask)
      modifies catalog
      ensures catalog.Valid() && old(catalog.items) <= catalog.items && GateStandsFor(catalog.items, ids, gate)
    {
      var read := AddOne(gate.read);
      ghost var known := catalog.items;
      var unmask := AddOne(gate.unmask);
      StillStandsFor(known, catalog.items, read, gate.read);
      ids := Gate(read, unmask);
    }

    method AddField(f: FieldCheck<Question>) returns (ids: FieldCheck<nat>)
      requires catalog.Valid() && NulFreeQuestion(f.read) && NulFreeQuestion(f.create) && NulFreeQuestion(f.update)
      modifies catalog
      ensures catalog.Valid() && old(catalog.items) <= catalog.items && FieldStandsFor(catalog.items, ids, f)
    {
      var gate := AddGate(Gate(f.read, f.create));
      ghost var known := catalog.items;
      var update := AddOne(f.update);
      StillStandsFor(known, catalog.items, gate.read, f.read);
      StillStandsFor(known, catalog.items, gate.unmask, f.create);
      ids := FieldCheck(f.collection, f.field, gate.read, gate.unmask, update);
    }

    method AddOptions(execute: Option<Question>, domain: Option<Question>) returns (e: Option<nat>, d: Option<nat>)
      requires catalog.Valid() && NulFreeOption(execute) && NulFreeOption(domain)
      modifies catalog
      ensures catalog.Valid() && old(catalog.items) <= catalog.items
      ensures StandsForOption(catalog.items, e, execute) && StandsForOption(catalog.items, d, domain)
    {
      e := AddOption(execute);
      ghost var known := catalog.items;
      d := AddOption(domain);
      if e.Some? {
        StillStandsFor(known, catalog.items, e.value, execute.value);
      }
    }

    method Register(step: Step<Question>) returns (registered: Step<nat>)
      requires catalog.Valid() && NulFreeStep(step)
      modifies catalog
      ensures catalog.Valid() && old(catalog.items) <= catalog.items && StepStandsFor(catalog.items, registered, step)
    {
      match step
      case SetPermission(key, check) =>
        var id := AddOne(check);
        registered := SetPermission(key, id);
      case SetGate(page, gate) =>
        var ids := AddGate(gate);
        registered := SetGate(page, ids);
      case SetPage(page, requirement) =>
        var ids := AddAll(requirement.checks);
        registered := SetPage(page, Requirement(requirement.all, ids));
      case MergeAction(page, action, execute, domain) =>
        var e, d := AddOptions(execute, domain);
        registered := MergeAction(page, action, e, d);
      case SetField(f) =>
        var ids := AddField(f);
        registered := SetField(ids);
    }

    method RememberSteps(steps: seq<Step<Question>>, ghost direct: Plan<Question>)
      requires catalog.Valid() && PlanStandsFor(catalog.items, plan, direct)
      requires forall s | s in steps :: NulFreeStep(s)
      modifies this, catalog
      ensures catalog.Valid() && old(catalog.items) <= catalog.items
      ensures PlanStandsFor(catalog.items, plan, RememberAll(direct, steps))
    {
      ghost var now := direct;
      for i := 0 to |steps|
        invariant catalog.Valid() && old(catalog.items) <= catalog.items
        invariant PlanStandsFor(catalog.items, plan, now)
        invariant RememberAll(now, steps[i..]) == RememberAll(direct, steps)
      {
        var step := steps[i];
        assert steps[i..][0] == step && steps[i..][1..] == steps[i + 1..];
        if step.SetField? && KnowsField(plan, step.field.collection, step.field.field) {
          assert KnowsField(now, step.field.collection, step.field.field) by {
            var k :| 0 <= k < |plan.fields| && plan.fields[k].collection == step.field.collection &&
              plan.fields[k].field == step.field.field;
            assert FieldStandsFor(catalog.items, plan.fields[k], now.fields[k]);
          }
        } else {
          ghost var known := catalog.items;
          var registered := Register(step);
          LaterItemsKeepMeaning(known, catalog.items, plan, now);
          RememberKeepsMeaning(catalog.items, plan, now, registered, step);
          plan := Remember(plan, registered);
        }
        now := Remember(now, step);
      }
    }
  }

  datatype Outcome = Built(profile: Profile, revision: nat) | ProfileStale | ProfileFailed

  /** At some moment of an interval the policy had this revision, and answering every question of
      the request directly gives this profile. */
  ghost predicate ProfileAt(timeline: nat -> Policy, from: nat, to: nat, request: Request, revision: nat,
                            profile: Profile) {
    exists t: nat ::
      from <= t < to && timeline(t).revision == revision && profile == DirectProfile(request, timeline(t).answer)
  }

  predicate Decided(decisions: map<nat, bool>, id: nat) {
    id in decisions && decisions[id]
  }

  function Answer(request: Request, app: nat, plan: Plan<nat>, decisions: map<nat, bool>): Profile {
    ProfileOf(app, plan, request.collections, (id: nat) => Decided(decisions, id))
  }

  lemma AnswerIsDirect(request: Request, items: seq<Question>, app: nat, plan: Plan<nat>, decisions: map<nat, bool>,
                       policy: Policy)
    requires StandsFor(items, app, AppQuestion(request))
    requires PlanStandsFor(items, plan, RememberAll(EmptyPlan(), Steps(request)))
    requires DecidedBelow(items, |items|, decisions, policy)
    ensures Answer(request, app, plan, decisions) == DirectProfile(request, policy.answer)
  {
    var decide := (id: nat) => Decided(decisions, id);
    assert Decides(items, decide, policy.answer);
    SameProfile(items, app, AppQuestion(request), plan, RememberAll(EmptyPlan(), Steps(request)),
                request.collections, decide, policy.answer);
  }

  lemma EvaluatedProfile(timeline: nat -> Policy, from: nat, to: nat, request: Request, items: seq<Question>, app: nat,
                         plan: Plan<nat>, revision: nat, decisions: map<nat, bool>)
    requires EvaluatedAt(timeline, from, to, items, revision, decisions)
    requires StandsFor(items, app, AppQuestion(request))
    requires PlanStandsFor(items, plan, RememberAll(EmptyPlan(), Steps(request)))
    ensures ProfileAt(timeline, from, to, request, revision, Answer(request, app, plan, decisions))
  {
    var t: nat :| from <= t < to && timeline(t).revision == revision &&
      DecidedBelow(items, |items|, decisions, timeline(t));
    AnswerIsDirect(request, items, app, plan, decisions, timeline(t));
  }

  method Collect(request: Request) returns (app: nat, plan: Plan<nat>, items: seq<Question>)
    requires NulFreeQuestion(AppQuestion(request)) && forall s | s in Steps(request) :: NulFreeStep(s)
    ensures StandsFor(items, app, AppQuestion(request))
    ensures PlanStandsFor(items, plan, RememberAll(EmptyPlan(), Steps(request)))
    ensures forall i, j | 0 <= i < j < |items| :: items[i] != items[j]
  {
    var builder := new ProfileBuilder();
    app := builder.AddOne(AppQuestion(request));
    ghost var known := builder.catalog.items;
    builder.RememberSteps(Steps(request), EmptyPlan());
    plan, items := builder.plan, builder.catalog.items;
    StillStandsFor(known, items, app, AppQuestion(request));
  }

  /** The profile that comes back with a revision is the profile of that one policy, whatever the
      policy did between the calls; a stale answer means that it changed twice. */
  method BuildAccessProfile(authorization: Authorization, request: Request) returns (r: Outcome)
    requires Consistent(authorization.timeline)
    requires NulFreeQuestion(AppQuestion(request)) && forall s | s in Steps(request) :: NulFreeStep(s)
    modifies authorization
    ensures r.Built? ==>
      ProfileAt(authorization.timeline, old(authorization.calls), authorization.calls, request, r.revision, r.profile)
    ensures r.ProfileStale? ==> ChangedTwice(authorization.timeline, old(authorization.calls), authorization.calls)
    ensures r.ProfileFailed? ==> RefusedBefore(authorization.timeline, old(authorization.calls), authorization.calls)
  {
    var app, plan, items := Collect(request);
    var evaluated := EvaluateStable(authorization, items);
    match evaluated
    case Stale => return ProfileStale;
    case Failed => return ProfileFailed;
    case Stable(revision, decisions) =>
      EvaluatedProfile(authorization.timeline, old(authorization.calls), authorization.calls, request, items, app,
        plan, revision, decisions);
      return Built(Answer(request, app, plan, decisions), revision);
  }
}
