/** What else the access profile says: whether the app is open, and that it answers nothing it was
    not asked. */
module AccessKeys {
  import opened Wrappers
  import opened AccessProfile
  import opened AccessEvaluation
  import opened AccessPages
  import opened AccessActions

  /** The app is open exactly if the policy grants access to it. */
  lemma AppAnswer(request: Request, answer: Question -> bool)
    ensures DirectProfile(request, answer).app == answer(Permission("admin-app.access", request.names.app))
  {
  }

  // ---------------------------------------------------------------- which kinds of page have content

  /** A page has a collection exactly if without any permission its content is closed. */
  lemma HasCollectionMeans(page: Page, resource: string)
    ensures HasCollection(page.kind) <==> !ContentOpen(page, resource, (q: Question) => false)
  {
  }

  const VERBS: set<string> := {"create", "update", "delete", "archive", "restore", "publish", "unpublish", "export"}

  /** A built-in action needs the content permission of the same name; an export only reads. */
  lemma BuiltInPermissionMeans(verb: string)
    ensures verb in VERBS ==>
      BuiltInPermission("core.action." + verb) == Some("content." + (if verb == "export" then "read" else verb))
  {
    if verb in VERBS {
      assert "core.action." + "create" == "core.action.create" && "content." + "create" == "content.create";
      assert "core.action." + "update" == "core.action.update" && "content." + "update" == "content.update";
      assert "core.action." + "delete" == "core.action.delete" && "content." + "delete" == "content.delete";
      assert "core.action." + "archive" == "core.action.archive" && "content." + "archive" == "content.archive";
      assert "core.action." + "restore" == "core.action.restore" && "content." + "restore" == "content.restore";
      assert "core.action." + "publish" == "core.action.publish" && "content." + "publish" == "content.publish";
      assert "core.action." + "unpublish" == "core.action.unpublish" && "content." + "unpublish" == "content.unpublish";
      assert "core.action." + "export" == "core.action.export" && "content." + "read" == "content.read";
    }
  }

  lemma OnlyBuiltInActions(action: string)
    ensures BuiltInPermission(action).Some? ==> exists verb :: verb in VERBS && action == "core.action." + verb
  {
    assert "core.action." + "create" == "core.action.create" && "create" in VERBS;
    assert "core.action." + "update" == "core.action.update" && "update" in VERBS;
    assert "core.action." + "delete" == "core.action.delete" && "delete" in VERBS;
    assert "core.action." + "archive" == "core.action.archive" && "archive" in VERBS;
    assert "core.action." + "restore" == "core.action.restore" && "restore" in VERBS;
    assert "core.action." + "publish" == "core.action.publish" && "publish" in VERBS;
    assert "core.action." + "unpublish" == "core.action.unpublish" && "unpublish" in VERBS;
    assert "core.action." + "export" == "core.action.export" && "export" in VERBS;
  }

  // ---------------------------------------------------------------- keys of the profile

  ghost predicate SetsPage(steps: seq<Step<Question>>, id: string) {
    exists i :: 0 <= i < |steps| && steps[i].SetPage? && steps[i].page == id
  }

  ghost predicate SetsPermission(steps: seq<Step<Question>>, key: string) {
    exists i :: 0 <= i < |steps| && steps[i].SetPermission? && steps[i].key == key
  }

  lemma FirstSetsPage(step: Step<Question>, rest: seq<Step<Question>>, id: string)
    ensures SetsPage([step] + rest, id) <==> (step.SetPage? && step.page == id) || SetsPage(rest, id)
  {
    var all := [step] + rest;
    assert all[0] == step && forall i | 0 < i < |all| :: all[i] == rest[i - 1];
    assert forall i | 0 <= i < |rest| :: rest[i] == all[i + 1];
  }

  lemma FirstSetsPermission(step: Step<Question>, rest: seq<Step<Question>>, key: string)
    ensures SetsPermission([step] + rest, key) <==>
      (step.SetPermission? && step.key == key) || SetsPermission(rest, key)
  {
    var all := [step] + rest;
    assert all[0] == step && forall i | 0 < i < |all| :: all[i] == rest[i - 1];
    assert forall i | 0 <= i < |rest| :: rest[i] == all[i + 1];
  }

  lemma {:induction false} PlanKeys(plan: Plan<Question>, steps: seq<Step<Question>>, key: string)
    ensures key in RememberAll(plan, steps).pages <==> key in plan.pages || SetsPage(steps, key)
    ensures key in RememberAll(plan, steps).permissions <==> key in plan.permissions || SetsPermission(steps, key)
    decreases |steps|
  {
    if steps != [] {
      PlanKeys(Remember(plan, steps[0]), steps[1..], key);
      assert steps == [steps[0]] + steps[1..];
      FirstSetsPage(steps[0], steps[1..], key);
      FirstSetsPermission(steps[0], steps[1..], key);
    }
  }

  lemma SetsPageConcat(a: seq<Step<Question>>, b: seq<Step<Question>>, id: string)
    ensures SetsPage(a + b, id) <==> SetsPage(a, id) || SetsPage(b, id)
  {
    assert forall i | 0 <= i < |a| :: (a + b)[i] == a[i];
    assert forall i | 0 <= i < |b| :: (a + b)[|a| + i] == b[i];
  }

  lemma SetsPermissionConcat(a: seq<Step<Question>>, b: seq<Step<Question>>, key: string)
    ensures SetsPermission(a + b, key) <==> SetsPermission(a, key) || SetsPermission(b, key)
  {
    assert forall i | 0 <= i < |a| :: (a + b)[i] == a[i];
    assert forall i | 0 <= i < |b| :: (a + b)[|a| + i] == b[i];
  }

  ghost predicate IsPage(pages: seq<Page>, id: string) {
    exists i :: 0 <= i < |pages| && pages[i].id == id
  }

  lemma PageSetsItself(request: Request, page: Page, id: string)
    ensures SetsPage(PageSteps(request, page), id) <==> id == page.id
  {
    var gate, execute, later :=
      GateSteps(request, page), ExecuteSteps(request, page, PageActions(page)), LaterSteps(request, page);
    LaterStepsAreDetails(request, page);
    ExecuteStepsAreDetails(request, page, PageActions(page));
    SetsPageConcat(gate + execute + [PageStep(request, page)], later, id);
    SetsPageConcat(gate + execute, [PageStep(request, page)], id);
    SetsPageConcat(gate, execute, id);
    assert [PageStep(request, page)][0].SetPage?;
  }

  lemma {:induction false} PagesSetThemselves(request: Request, pages: seq<Page>, id: string)
    ensures SetsPage(AllPageSteps(request, pages), id) <==> IsPage(pages, id)
  {
    if pages != [] {
      PageSetsItself(request, pages[0], id);
      PagesSetThemselves(request, pages[1..], id);
      SetsPageConcat(PageSteps(request, pages[0]), AllPageSteps(request, pages[1..]), id);
      assert forall i | 0 <= i < |pages[1..]| :: pages[1..][i] == pages[i + 1];
      assert forall i | 0 < i < |pages| :: pages[i] == pages[1..][i - 1];
    }
  }

  ghost predicate IsReference(request: Request, references: seq<(string, string)>, key: string) {
    exists i :: 0 <= i < |references| && request.names.permissionKey(references[i].0, references[i].1) == key
  }

  lemma {:induction false} ReferencesSetTheirKeys(request: Request, references: seq<(string, string)>, key: string)
    ensures SetsPermission(ReferenceSteps(request, references), key) <==> IsReference(request, references, key)
    ensures !SetsPage(ReferenceSteps(request, references), key)
  {
    if references != [] {
      var (action, resource) := references[0];
      var step := SetPermission(request.names.permissionKey(action, resource), Permission(action, resource));
      ReferencesSetTheirKeys(request, references[1..], key);
      FirstSetsPermission(step, ReferenceSteps(request, references[1..]), key);
      FirstSetsPage(step, ReferenceSteps(request, references[1..]), key);
      assert forall i | 0 <= i < |references[1..]| :: references[1..][i] == references[i + 1];
      assert forall i | 0 < i < |references| :: references[i] == references[1..][i - 1];
    }
  }

  /** Pages are answered exactly if the manifest has them, permissions exactly if it names them. */
  lemma NoOtherPagesOrPermissions(request: Request, answer: Question -> bool, key: string)
    ensures var profile := DirectProfile(request, answer);
      (key in profile.pages <==> IsPage(request.pages, key)) &&
      (key in profile.unmasked <==> IsPage(request.pages, key)) &&
      (key in profile.permissions <==> IsReference(request, request.references, key))
  {
    var references, pages := ReferenceSteps(request, request.references), AllPageSteps(request, request.pages);
    PlanKeys(EmptyPlan(), Steps(request), key);
    SetsPageConcat(references, pages, key);
    SetsPermissionConcat(references, pages, key);
    ReferencesSetTheirKeys(request, request.references, key);
    PagesSetThemselves(request, request.pages, key);
    PagesLeavePermissions(request, request.pages, key);
  }

  // ---------------------------------------------------------------- keys of actions and collections

  lemma {:induction false} MergedSomewhere(e: Option<ActionCheck<Question>>, steps: seq<Step<Question>>, key: string)
    requires e.None? && MergeAll(e, steps, key).Some?
    ensures SomeMerges(steps, key)
    decreases |steps|
  {
    if !Merges(steps[0], key) {
      MergedSomewhere(e, steps[1..], key);
      var i :| 0 <= i < |steps[1..]| && Merges(steps[1..][i], key);
      assert Merges(steps[i + 1], key);
    }
  }

  ghost predicate SomeMerges(steps: seq<Step<Question>>, key: string) {
    exists i :: 0 <= i < |steps| && Merges(steps[i], key)
  }

  lemma EitherMerges(a: seq<Step<Question>>, b: seq<Step<Question>>, key: string)
    requires SomeMerges(a + b, key)
    ensures SomeMerges(a, key) || SomeMerges(b, key)
  {
    var i :| 0 <= i < |a + b| && Merges((a + b)[i], key);
    if i < |a| {
      assert Merges(a[i], key);
    } else {
      assert Merges(b[i - |a|], key);
    }
  }

  /** The action steps are for actions that the page offers. */
  ghost predicate Offers(request: Request, steps: seq<Step<Question>>, page: Page) {
    forall i | 0 <= i < |steps| && steps[i].MergeAction? ::
      steps[i].page == page.id && Offered(request, page, steps[i].action)
  }

  lemma OffersBoth(request: Request, a: seq<Step<Question>>, b: seq<Step<Question>>, page: Page)
    requires Offers(request, a, page) && Offers(request, b, page)
    ensures Offers(request, a + b, page)
  {
  }

  lemma {:induction false} ExecuteOffers(request: Request, page: Page, actions: seq<string>)
    requires forall a | a in actions :: a in PageActions(page)
    ensures Offers(request, ExecuteSteps(request, page, actions), page)
  {
    if actions != [] {
      ExecuteOffers(request, page, actions[1..]);
    }
  }

  lemma {:induction false} ComposedOffers(request: Request, page: Page, effects: seq<ComposedAction>)
    requires forall e | e in effects :: e.id in PageActions(page)
    ensures Offers(request, ComposedSteps(request, page, effects), page)
  {
    if effects != [] {
      ComposedOffers(request, page, effects[1..]);
    }
  }

  lemma {:induction false} DomainOffers(request: Request, page: Page, actions: seq<string>, resource: string)
    requires forall a | a in actions :: a in PageActions(page)
    ensures Offers(request, DomainSteps(page, actions, resource), page)
  {
    if actions != [] {
      DomainOffers(request, page, actions[1..], resource);
    }
  }

  lemma {:induction false} FieldsOfferNothing(request: Request, page: Page, collection: string, resource: string,
                                              fields: seq<FieldInfo>)
    ensures Offers(request, FieldSteps(collection, resource, fields), page)
  {
    if fields != [] {
      FieldsOfferNothing(request, page, collection, resource, fields[1..]);
    }
  }

  lemma CollectionOffers(request: Request, page: Page)
    requires HasCollection(page.kind)
    ensures Offers(request, CollectionSteps(request, page), page)
  {
    var resource := request.names.collection(page.collection);
    var domain := DomainSteps(page, PageActions(page), resource);
    DomainOffers(request, page, PageActions(page), resource);
    var collection := FindCollection(request.collections, page.collection);
    if collection.Some? {
      FieldsOfferNothing(request, page, page.collection, resource, collection.value.fields);
    }
    ExtraOffers(request, page);
    OffersBoth(request, domain, ExtraSteps(request, page), page);
    OffersBoth(request, domain + ExtraSteps(request, page), AllFieldSteps(request, page), page);
  }

  lemma ExtraOffers(request: Request, page: Page)
    requires HasCollection(page.kind)
    ensures Offers(request, ExtraSteps(request, page), page)
  {
  }

  lemma PageOffers(request: Request, page: Page)
    ensures Offers(request, PageSteps(request, page), page)
  {
    ExecuteOffers(request, page, PageActions(page));
    var first := GateSteps(request, page) + ExecuteSteps(request, page, PageActions(page));
    OffersBoth(request, GateSteps(request, page), ExecuteSteps(request, page, PageActions(page)), page);
    OffersBoth(request, first, [PageStep(request, page)], page);
    LaterOffer(request, page);
    OffersBoth(request, first + [PageStep(request, page)], LaterSteps(request, page), page);
  }

  lemma LaterOffer(request: Request, page: Page)
    ensures Offers(request, LaterSteps(request, page), page)
  {
    if page.kind.Composed? {
      ComposedOffers(request, page, page.kind.effects);
    }
    if HasCollection(page.kind) {
      CollectionOffers(request, page);
    }
  }

  ghost predicate OffersAs(request: Request, page: Page, key: string) {
    exists action :: Offered(request, page, action) && key == KeyOf(page.id, action)
  }

  ghost predicate OfferedBy(request: Request, pages: seq<Page>, key: string) {
    exists k :: 0 <= k < |pages| && OffersAs(request, pages[k], key)
  }

  lemma MergingIsOffered(request: Request, steps: seq<Step<Question>>, page: Page, key: string)
    requires Offers(request, steps, page) && SomeMerges(steps, key)
    ensures OffersAs(request, page, key)
  {
    var i :| 0 <= i < |steps| && Merges(steps[i], key);
    assert Offered(request, page, steps[i].action);
  }

  lemma OfferedByLater(request: Request, pages: seq<Page>, key: string)
    requires pages != [] && OfferedBy(request, pages[1..], key)
    ensures OfferedBy(request, pages, key)
  {
    var k :| 0 <= k < |pages[1..]| && OffersAs(request, pages[1..][k], key);
    assert OffersAs(request, pages[k + 1], key);
  }

  lemma {:induction false} StepsAreOffered(request: Request, pages: seq<Page>, key: string)
    requires SomeMerges(AllPageSteps(request, pages), key)
    ensures OfferedBy(request, pages, key)
    decreases |pages|
  {
    EitherMerges(PageSteps(request, pages[0]), AllPageSteps(request, pages[1..]), key);
    if SomeMerges(PageSteps(request, pages[0]), key) {
      PageOffers(request, pages[0]);
      MergingIsOffered(request, PageSteps(request, pages[0]), pages[0], key);
    } else {
      StepsAreOffered(request, pages[1..], key);
      OfferedByLater(request, pages, key);
    }
  }

  /** Actions are answered only under keys of actions that some page of the manifest offers. */
  lemma NoOtherActions(request: Request, answer: Question -> bool, key: string)
    requires key in DirectProfile(request, answer).actions
    ensures OfferedBy(request, request.pages, key)
  {
    var references, pages := ReferenceSteps(request, request.references), AllPageSteps(request, request.pages);
    EntryIsMerged(EmptyPlan(), Steps(request), key);
    MergeConcat(None, references, pages, key);
    ReferencesMergeNothing(request, request.references, key);
    MergesNothing(None, references, key);
    MergedSomewhere(None, pages, key);
    StepsAreOffered(request, request.pages, key);
  }

  lemma {:induction false} ProfiledCollections(collections: seq<CollectionInfo>, plan: Plan<Question>, write: bool,
                                               answer: Question -> bool, id: string)
    ensures id in FieldProfile(collections, plan, write, answer) <==>
      exists i :: 0 <= i < |collections| && collections[i].id == id
    decreases |collections|
  {
    if collections != [] {
      var front := collections[..|collections| - 1];
      ProfiledCollections(front, plan, write, answer, id);
      assert forall i | 0 <= i < |front| :: front[i] == collections[i];
      assert forall i | 0 <= i < |collections| - 1 :: collections[i] == front[i];
    }
  }

  /** Fields are listed for exactly the collections of the request. */
  lemma NoOtherCollections(request: Request, answer: Question -> bool, id: string)
    ensures var profile := DirectProfile(request, answer);
      (id in profile.readable <==> exists i :: 0 <= i < |request.collections| && request.collections[i].id == id) &&
      (id in profile.writable <==> exists i :: 0 <= i < |request.collections| && request.collections[i].id == id)
  {
    var plan := RememberAll(EmptyPlan(), Steps(request));
    ProfiledCollections(request.collections, plan, false, answer, id);
    ProfiledCollections(request.collections, plan, true, answer, id);
  }
}
