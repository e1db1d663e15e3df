/** What the access profile says about a page, in terms of single answers of the policy and without
    the plan that was used to compute it. */
module AccessPages {
  import opened Wrappers
  import opened AccessProfile
  import opened AccessEvaluation

  // ---------------------------------------------------------------- the reference

  predicate May(answer: Question -> bool, action: string, resource: string) {
    answer(Permission(action, resource))
  }

  /** What the content of a page asks for. */
  predicate ContentOpen(page: Page, resource: string, answer: Question -> bool) {
    match page.kind
    case CollectionList => May(answer, "content.list", resource)
    case DocumentDetail(_) => May(answer, "content.read", resource)
    case Singleton => May(answer, "content.read", resource) || May(answer, "content.update", resource)
    case DocumentForm(CreateMode) => May(answer, "content.create", resource)
    case DocumentForm(EditMode) => May(answer, "content.update", resource)
    case DocumentForm(CreateOrEdit) =>
      May(answer, "content.create", resource) || May(answer, "content.update", resource)
    case Dashboard => true
    case PluginPage => true
    case Composed(_) => true
  }

  predicate PageOpen(request: Request, page: Page, answer: Question -> bool) {
    (request.granular ==> May(answer, "admin-app.page.read", request.names.page(page.id))) &&
    ContentOpen(page, request.names.collection(page.collection), answer)
  }

  // ---------------------------------------------------------------- steps that leave a page alone

  predicate IsDetail(s: Step<Question>) {
    s.MergeAction? || s.SetField?
  }

  ghost predicate Details(steps: seq<Step<Question>>) {
    forall i | 0 <= i < |steps| :: IsDetail(steps[i])
  }

  ghost predicate LeavesPage(steps: seq<Step<Question>>, id: string) {
    forall i | 0 <= i < |steps| ::
      !(steps[i].SetPage? && steps[i].page == id) && !(steps[i].SetGate? && steps[i].page == id)
  }

  lemma {:induction false} RememberConcat(plan: Plan<Question>, a: seq<Step<Question>>, b: seq<Step<Question>>)
    ensures RememberAll(plan, a + b) == RememberAll(RememberAll(plan, a), b)
    decreases |a|
  {
    if a == [] {
      assert a + b == b;
    } else {
      RememberConcat(Remember(plan, a[0]), a[1..], b);
      assert (a + b)[0] == a[0] && (a + b)[1..] == a[1..] + b;
    }
  }

  /** Nothing is changed about a page and its gate. */
  ghost predicate SamePageEntry(p: Plan<Question>, q: Plan<Question>, id: string) {
    (id in p.pages <==> id in q.pages) && (id in p.pages ==> p.pages[id] == q.pages[id]) &&
    (id in p.gates <==> id in q.gates) && (id in p.gates ==> p.gates[id] == q.gates[id])
  }

  lemma {:induction false} LeftAlone(plan: Plan<Question>, steps: seq<Step<Question>>, id: string)
    requires LeavesPage(steps, id)
    ensures SamePageEntry(plan, RememberAll(plan, steps), id)
    decreases |steps|
  {
    if steps != [] {
      LeftAlone(Remember(plan, steps[0]), steps[1..], id);
    }
  }

  lemma {:induction false} ExecuteStepsAreDetails(request: Request, page: Page, actions: seq<string>)
    ensures Details(ExecuteSteps(request, page, actions))
  {
    if actions != [] {
      ExecuteStepsAreDetails(request, page, actions[1..]);
    }
  }

  lemma {:induction false} ComposedStepsAreDetails(request: Request, page: Page, effects: seq<ComposedAction>)
    ensures Details(ComposedSteps(request, page, effects))
  {
    if effects != [] {
      ComposedStepsAreDetails(request, page, effects[1..]);
    }
  }

  lemma {:induction false} DomainStepsAreDetails(page: Page, actions: seq<string>, resource: string)
    ensures Details(DomainSteps(page, actions, resource))
  {
    if actions != [] {
      DomainStepsAreDetails(page, actions[1..], resource);
    }
  }

  lemma {:induction false} FieldStepsAreDetails(collection: string, resource: string, fields: seq<FieldInfo>)
    ensures Details(FieldSteps(collection, resource, fields))
  {
    if fields != [] {
      FieldStepsAreDetails(collection, resource, fields[1..]);
    }
  }

  lemma CollectionStepsAreDetails(request: Request, page: Page)
    ensures Details(CollectionSteps(request, page))
  {
    var resource := request.names.collection(page.collection);
    var collection := FindCollection(request.collections, page.collection);
    DomainStepsAreDetails(page, PageActions(page), resource);
    if collection.Some? {
      FieldStepsAreDetails(page.collection, resource, collection.value.fields);
    }
  }

  // ---------------------------------------------------------------- the steps of a page

  lemma LaterStepsAreDetails(request: Request, page: Page)
    ensures Details(LaterSteps(request, page))
  {
    if page.kind.Composed? {
      ComposedStepsAreDetails(request, page, page.kind.effects);
    } else if HasCollection(page.kind) {
      CollectionStepsAreDetails(request, page);
    }
  }

  /** After the steps of a page its requirement and its gate are known. */
  ghost predicate PageKnown(plan: Plan<Question>, request: Request, page: Page) {
    page.id in plan.pages && plan.pages[page.id] == PageRequirement(page, request.names.collection(page.collection)) &&
    (request.granular ==>
      page.id in plan.gates &&
      plan.gates[page.id] == Gate(Permission("admin-app.page.read", request.names.page(page.id)),
                                  Permission("admin-app.page.unmask", request.names.page(page.id))))
  }

  lemma PageStepsMakeKnown(plan: Plan<Question>, request: Request, page: Page)
    ensures PageKnown(RememberAll(plan, PageSteps(request, page)), request, page)
  {
    var gate, execute, step, later :=
      GateSteps(request, page), ExecuteSteps(request, page, PageActions(page)), PageStep(request, page),
      LaterSteps(request, page);
    LaterStepsAreDetails(request, page);
    ExecuteStepsAreDetails(request, page, PageActions(page));
    RememberConcat(plan, gate + execute + [step], later);
    RememberConcat(plan, gate + execute, [step]);
    RememberConcat(plan, gate, execute);
    var gated := RememberAll(plan, gate);
    var executed := RememberAll(gated, execute);
    assert gate != [] ==> gate[1..] == [];
    LeftAlone(gated, execute, page.id);
    assert [step][1..] == [] && RememberAll(executed, [step]) == Remember(executed, step);
    LeftAlone(Remember(executed, step), later, page.id);
  }

  lemma PageStepsLeaveOthers(request: Request, page: Page, id: string)
    requires page.id != id
    ensures LeavesPage(PageSteps(request, page), id)
  {
    var gate, execute, step, later :=
      GateSteps(request, page), ExecuteSteps(request, page, PageActions(page)), PageStep(request, page),
      LaterSteps(request, page);
    LaterStepsAreDetails(request, page);
    ExecuteStepsAreDetails(request, page, PageActions(page));
    LeavesConcat(gate, execute, id);
    LeavesConcat(gate + execute, [step], id);
    LeavesConcat(gate + execute + [step], later, id);
  }

  lemma LeavesConcat(a: seq<Step<Question>>, b: seq<Step<Question>>, id: string)
    requires LeavesPage(a, id) && LeavesPage(b, id)
    ensures LeavesPage(a + b, id)
  {
  }

  lemma {:induction false} OtherPagesLeave(request: Request, pages: seq<Page>, id: string)
    requires forall i | 0 <= i < |pages| :: pages[i].id != id
    ensures LeavesPage(AllPageSteps(request, pages), id)
    decreases |pages|
  {
    if pages != [] {
      PageStepsLeaveOthers(request, pages[0], id);
      OtherPagesLeave(request, pages[1..], id);
      LeavesConcat(PageSteps(request, pages[0]), AllPageSteps(request, pages[1..]), id);
    }
  }

  lemma {:induction false} PagesMakeKnown(plan: Plan<Question>, request: Request, pages: seq<Page>, i: nat)
    requires i < |pages| && forall j | 0 <= j < |pages| && j != i :: pages[j].id != pages[i].id
    ensures PageKnown(RememberAll(plan, AllPageSteps(request, pages)), request, pages[i])
    decreases |pages|
  {
    var first, rest := PageSteps(request, pages[0]), AllPageSteps(request, pages[1..]);
    RememberConcat(plan, first, rest);
    var after := RememberAll(plan, first);
    if i == 0 {
      PageStepsMakeKnown(plan, request, pages[0]);
      OtherPagesLeave(request, pages[1..], pages[0].id);
      LeftAlone(after, rest, pages[0].id);
    } else {
      PagesMakeKnown(after, request, pages[1..], i - 1);
    }
  }

  // ---------------------------------------------------------------- no gates without granularity

  ghost predicate WithoutGates(steps: seq<Step<Question>>) {
    forall i | 0 <= i < |steps| :: !steps[i].SetGate?
  }

  lemma {:induction false} NoGateAppears(plan: Plan<Question>, steps: seq<Step<Question>>)
    requires WithoutGates(steps)
    ensures RememberAll(plan, steps).gates == plan.gates
    decreases |steps|
  {
    if steps != [] {
      NoGateAppears(Remember(plan, steps[0]), steps[1..]);
    }
  }

  lemma {:induction false} ReferencesHaveNoGates(request: Request, references: seq<(string, string)>)
    ensures WithoutGates(ReferenceSteps(request, references))
  {
    if references != [] {
      ReferencesHaveNoGates(request, references[1..]);
    }
  }

  lemma {:induction false} PagesHaveNoGates(request: Request, pages: seq<Page>)
    requires !request.granular
    ensures WithoutGates(AllPageSteps(request, pages))
    decreases |pages|
  {
    if pages != [] {
      PageHasNoGates(request, pages[0]);
      PagesHaveNoGates(request, pages[1..]);
    }
  }

  lemma PageHasNoGates(request: Request, page: Page)
    requires !request.granular
    ensures WithoutGates(PageSteps(request, page))
  {
    LaterStepsAreDetails(request, page);
    ExecuteStepsAreDetails(request, page, PageActions(page));
  }

  /** The profile opens a page exactly if its gate and what its content asks for are granted, and
      shows it unmasked exactly if the gate for that is granted as well. */
  lemma PageAnswer(request: Request, answer: Question -> bool, i: nat)
    requires i < |request.pages|
    requires forall j | 0 <= j < |request.pages| && j != i :: request.pages[j].id != request.pages[i].id
    ensures
      var (page, profile) := (request.pages[i], DirectProfile(request, answer));
      page.id in profile.pages && profile.pages[page.id] == PageOpen(request, page, answer) &&
      page.id in profile.unmasked &&
      profile.unmasked[page.id] ==
        (PageOpen(request, page, answer) &&
          (request.granular ==> May(answer, "admin-app.page.unmask", request.names.page(page.id))))
  {
    var references, pages := ReferenceSteps(request, request.references), AllPageSteps(request, request.pages);
    RememberConcat(EmptyPlan(), references, pages);
    var after := RememberAll(EmptyPlan(), references);
    PagesMakeKnown(after, request, request.pages, i);
    if !request.granular {
      ReferencesHaveNoGates(request, request.references);
      NoGateAppears(EmptyPlan(), references);
      PagesHaveNoGates(request, request.pages);
      NoGateAppears(after, pages);
    }
    RequirementMeaning(request.pages[i], request.names.collection(request.pages[i].collection), answer);
  }

  lemma RequirementMeaning(page: Page, resource: string, answer: Question -> bool)
    ensures Holds(PageRequirement(page, resource), answer) <==> ContentOpen(page, resource, answer)
  {
    var r := PageRequirement(page, resource);
    if |r.checks| == 2 {
      assert r.checks[0] == Permission(r.checks[0].action, resource) &&
        r.checks[1] == Permission("content.update", resource);
    } else if |r.checks| == 1 {
      assert r.checks[0] == Permission(r.checks[0].action, resource);
    }
  }

  // ---------------------------------------------------------------- named permissions

  ghost predicate LeavesPermission(steps: seq<Step<Question>>, key: string) {
    forall i | 0 <= i < |steps| :: !(steps[i].SetPermission? && steps[i].key == key)
  }

  lemma {:induction false} PermissionStays(plan: Plan<Question>, steps: seq<Step<Question>>, key: string)
    requires LeavesPermission(steps, key) && key in plan.permissions
    ensures key in RememberAll(plan, steps).permissions &&
      RememberAll(plan, steps).permissions[key] == plan.permissions[key]
    decreases |steps|
  {
    if steps != [] {
      PermissionStays(Remember(plan, steps[0]), steps[1..], key);
    }
  }

  lemma {:induction false} PagesLeavePermissions(request: Request, pages: seq<Page>, key: string)
    ensures LeavesPermission(AllPageSteps(request, pages), key)
    decreases |pages|
  {
    if pages != [] {
      PageLeavesPermissions(request, pages[0], key);
      PagesLeavePermissions(request, pages[1..], key);
    }
  }

  lemma PageLeavesPermissions(request: Request, page: Page, key: string)
    ensures LeavesPermission(PageSteps(request, page), key)
  {
    LaterStepsAreDetails(request, page);
    ExecuteStepsAreDetails(request, page, PageActions(page));
  }

  function KeyAt(request: Request, i: nat): string
    requires i < |request.references|
  {
    request.names.permissionKey(request.references[i].0, request.references[i].1)
  }

  lemma {:induction false} ReferenceIsRemembered(plan: Plan<Question>, request: Request,
                                                 references: seq<(string, string)>, i: nat)
    requires i < |references|
    requires forall j | i < j < |references| ::
      request.names.permissionKey(references[j].0, references[j].1) !=
        request.names.permissionKey(references[i].0, references[i].1)
    ensures
      var (key, after) := (request.names.permissionKey(references[i].0, references[i].1),
        RememberAll(plan, ReferenceSteps(request, references)));
      key in after.permissions && after.permissions[key] == Permission(references[i].0, references[i].1)
    decreases |references|
  {
    var (action, resource) := references[0];
    var step := SetPermission(request.names.permissionKey(action, resource), Permission(action, resource));
    var rest := ReferenceSteps(request, references[1..]);
    assert ReferenceSteps(request, references) == [step] + rest && ([step] + rest)[1..] == rest;
    if i == 0 {
      LaterReferencesDiffer(request, references[1..], step.key);
      PermissionStays(Remember(plan, step), rest, step.key);
    } else {
      ReferenceIsRemembered(Remember(plan, step), request, references[1..], i - 1);
    }
  }

  lemma {:induction false} LaterReferencesDiffer(request: Request, references: seq<(string, string)>, key: string)
    requires forall j | 0 <= j < |references| :: request.names.permissionKey(references[j].0, references[j].1) != key
    ensures LeavesPermission(ReferenceSteps(request, references), key)
    decreases |references|
  {
    if references != [] {
      LaterReferencesDiffer(request, references[1..], key);
    }
  }

  /** A permission the manifest names is answered under its key; of several with one key, the last. */
  lemma PermissionAnswer(request: Request, answer: Question -> bool, i: nat)
    requires i < |request.references| && forall j | i < j < |request.references| ::
      KeyAt(request, j) != KeyAt(request, i)
    ensures
      var (reference, permissions) := (request.references[i], DirectProfile(request, answer).permissions);
      KeyAt(request, i) in permissions && permissions[KeyAt(request, i)] == May(answer, reference.0, reference.1)
  {
    var references, pages := ReferenceSteps(request, request.references), AllPageSteps(request, request.pages);
    RememberConcat(EmptyPlan(), references, pages);
    forall j | i < j < |request.references|
      ensures request.names.permissionKey(request.references[j].0, request.references[j].1) != KeyAt(request, i)
    {
      assert KeyAt(request, j) != KeyAt(request, i);
    }
    ReferenceIsRemembered(EmptyPlan(), request, request.references, i);
    PagesLeavePermissions(request, request.pages, KeyAt(request, i));
    PermissionStays(RememberAll(EmptyPlan(), references), pages, KeyAt(request, i));
  }
}
