/** What the access profile says about the actions of a page, in terms of single answers. */
module AccessActions {
  import opened Wrappers
  import opened AccessProfile
  import opened AccessEvaluation
  import opened AccessPages

  // ---------------------------------------------------------------- actions: the reference

  /** The permission that an action needs because of what the page shows, whether or not the page
      lists the action. */
  function ExtraPermission(request: Request, page: Page, action: string): Option<Question> {
    var resource := request.names.collection(page.collection);
    var collection := FindCollection(request.collections, page.collection);
    var revisions := page.kind.DocumentDetail? && page.kind.revisions;
    var moves := page.kind.CollectionList? && collection.Some? && collection.value.hierarchy;
    var media := (page.kind.DocumentForm? || page.kind.Singleton?) && collection.Some? &&
                 exists f :: f in collection.value.fields && f.media;
    if !HasCollection(page.kind) then None
    else if revisions && action == "core.action.revision.read" then Some(Permission("content.revision.read", resource))
    else if revisions && action == "core.action.revision.restore" then
      Some(Permission("content.revision.restore", resource))
    else if moves && action == "core.action.hierarchy.move" then Some(Permission("content.update", resource))
    else if media && action == "core.action.media.read" then Some(Permission("media.read", request.names.media))
    else if media && action == "core.action.media.upload" then Some(Permission("media.upload", request.names.media))
    else None
  }

  /** The permission that the last effect of a composed page for an action needs. */
  function ComposedPermission(request: Request, effects: seq<ComposedAction>, action: string): Option<Question> {
    if effects == [] then None
    else
      var later := ComposedPermission(request, effects[1..], action);
      var first := effects[0];
      if later.Some? then later
      else if first.id == action && BuiltInPermission(action).Some? && first.collection.Some? then
        Some(Permission(BuiltInPermission(action).value, request.names.collection(first.collection.value)))
      else None
  }

  /** The permission on content that an action of a page needs. */
  function DomainPermission(request: Request, page: Page, action: string): Option<Question> {
    if page.kind.Composed? then ComposedPermission(request, page.kind.effects, action)
    else if ExtraPermission(request, page, action).Some? then ExtraPermission(request, page, action)
    else if HasCollection(page.kind) && action in page.actions && BuiltInPermission(action).Some? then
      Some(Permission(BuiltInPermission(action).value, request.names.collection(page.collection)))
    else None
  }

  /** An action is offered if the page lists it or shows something that comes with it. */
  predicate Offered(request: Request, page: Page, action: string) {
    action in PageActions(page) || ExtraPermission(request, page, action).Some?
  }

  predicate ActionOpen(request: Request, page: Page, action: string, answer: Question -> bool) {
    PageOpen(request, page, answer) &&
    (request.granular && action in PageActions(page) ==>
      May(answer, "admin-app.action.execute", request.names.action(page.id, action))) &&
    (DomainPermission(request, page, action).Some? ==> answer(DomainPermission(request, page, action).value))
  }

  // ---------------------------------------------------------------- actions: what is merged under a key

  function KeyOf(page: string, action: string): string {
    page + ":" + action
  }

  predicate Merges(s: Step<Question>, key: string) {
    s.MergeAction? && KeyOf(s.page, s.action) == key
  }

  function MergeOne(e: Option<ActionCheck<Question>>, s: Step<Question>, key: string): Option<ActionCheck<Question>> {
    if !Merges(s, key) then e
    else if e.None? then Some(ActionCheck(s.page, s.execute, s.domain))
    else Some(ActionCheck(e.value.page, Either(s.execute, e.value.gate), Either(s.domain, e.value.domain)))
  }

  function MergeAll(e: Option<ActionCheck<Question>>, steps: seq<Step<Question>>,
                    key: string): Option<ActionCheck<Question>>
    decreases |steps|
  {
    if steps == [] then e else MergeAll(MergeOne(e, steps[0], key), steps[1..], key)
  }

  function EntryAt(plan: Plan<Question>, key: string): Option<ActionCheck<Question>> {
    if key in plan.actions then Some(plan.actions[key]) else None
  }

  lemma {:induction false} EntryIsMerged(plan: Plan<Question>, steps: seq<Step<Question>>, key: string)
    ensures EntryAt(RememberAll(plan, steps), key) == MergeAll(EntryAt(plan, key), steps, key)
    decreases |steps|
  {
    if steps != [] {
      EntryIsMerged(Remember(plan, steps[0]), steps[1..], key);
      assert EntryAt(Remember(plan, steps[0]), key) == MergeOne(EntryAt(plan, key), steps[0], key);
    }
  }

  lemma {:induction false} MergeConcat(e: Option<ActionCheck<Question>>, a: seq<Step<Question>>,
                                       b: seq<Step<Question>>, key: string)
    ensures MergeAll(e, a + b, key) == MergeAll(MergeAll(e, a, key), b, key)
    decreases |a|
  {
    if a == [] {
      assert a + b == b;
    } else {
      MergeConcat(MergeOne(e, a[0], key), a[1..], b, key);
      assert (a + b)[0] == a[0] && (a + b)[1..] == a[1..] + b;
    }
  }

  ghost predicate NoneMerge(steps: seq<Step<Question>>, key: string) {
    forall i | 0 <= i < |steps| :: !Merges(steps[i], key)
  }

  lemma {:induction false} MergesNothing(e: Option<ActionCheck<Question>>, steps: seq<Step<Question>>, key: string)
    requires NoneMerge(steps, key)
    ensures MergeAll(e, steps, key) == e
    decreases |steps|
  {
    if steps != [] {
      MergesNothing(e, steps[1..], key);
    }
  }

  /** Page ids hold no colon, so a key tells its page. */
  predicate ColonFree(id: string) {
    ':' !in id
  }

  lemma KeyTellsPage(p: string, a: string, q: string, b: string)
    requires ColonFree(p) && ColonFree(q) && KeyOf(p, a) == KeyOf(q, b)
    ensures p == q && a == b
  {
    var s, t := KeyOf(p, a), KeyOf(q, b);
    assert s[|p|] == ':' && t[|q|] == ':';
    assert forall i | 0 <= i < |p| :: s[i] == p[i] && p[i] in p;
    assert forall i | 0 <= i < |q| :: t[i] == q[i] && q[i] in q;
    assert |p| == |q|;
    assert s[..|p|] == p && t[..|q|] == q;
    assert s[|p| + 1..] == a && t[|q| + 1..] == b;
  }

  /** All merges among these steps are for the given page. */
  ghost predicate OnlyFor(steps: seq<Step<Question>>, page: string) {
    forall i | 0 <= i < |steps| :: steps[i].MergeAction? ==> steps[i].page == page
  }

  lemma OtherPageMergesNothing(steps: seq<Step<Question>>, page: string, id: string, action: string)
    requires OnlyFor(steps, page) && page != id && ColonFree(page) && ColonFree(id)
    ensures NoneMerge(steps, KeyOf(id, action))
  {
    forall i | 0 <= i < |steps| ensures !Merges(steps[i], KeyOf(id, action)) {
      if Merges(steps[i], KeyOf(id, action)) {
        KeyTellsPage(page, steps[i].action, id, action);
      }
    }
  }

  ghost predicate AllMerge(steps: seq<Step<Question>>) {
    forall i | 0 <= i < |steps| :: steps[i].MergeAction?
  }

  lemma {:induction false} ExecuteOnlyFor(request: Request, page: Page, actions: seq<string>)
    ensures OnlyFor(ExecuteSteps(request, page, actions), page.id) && AllMerge(ExecuteSteps(request, page, actions))
  {
    if actions != [] {
      ExecuteOnlyFor(request, page, actions[1..]);
    }
  }

  lemma {:induction false} ComposedOnlyFor(request: Request, page: Page, effects: seq<ComposedAction>)
    ensures OnlyFor(ComposedSteps(request, page, effects), page.id) && AllMerge(ComposedSteps(request, page, effects))
  {
    if effects != [] {
      ComposedOnlyFor(request, page, effects[1..]);
    }
  }

  lemma {:induction false} DomainOnlyFor(page: Page, actions: seq<string>, resource: string)
    ensures OnlyFor(DomainSteps(page, actions, resource), page.id) && AllMerge(DomainSteps(page, actions, resource))
  {
    if actions != [] {
      DomainOnlyFor(page, actions[1..], resource);
    }
  }

  lemma {:induction false} FieldsMergeNothing(collection: string, resource: string, fields: seq<FieldInfo>, key: string)
    ensures NoneMerge(FieldSteps(collection, resource, fields), key)
  {
    if fields != [] {
      FieldsMergeNothing(collection, resource, fields[1..], key);
    }
  }

  // ---------------------------------------------------------------- actions of one page

  function ExecuteQuestion(request: Request, page: Page, action: string): Option<Question> {
    if !request.granular then None
    else Some(Permission("admin-app.action.execute", request.names.action(page.id, action)))
  }

  /** Every listed action is entered, under its execute gate. */
  lemma {:induction false} ExecuteMerges(request: Request, page: Page, actions: seq<string>, action: string,
                                         e: Option<ActionCheck<Question>>)
    requires ColonFree(page.id)
    requires e.None? || e == Some(ActionCheck(page.id, ExecuteQuestion(request, page, action), None))
    ensures MergeAll(e, ExecuteSteps(request, page, actions), KeyOf(page.id, action)) ==
            if action in actions then Some(ActionCheck(page.id, ExecuteQuestion(request, page, action), None)) else e
    decreases |actions|
  {
    if actions != [] {
      var step := MergeAction(page.id, actions[0], ExecuteQuestion(request, page, actions[0]), None);
      var rest := ExecuteSteps(request, page, actions[1..]);
      assert ExecuteSteps(request, page, actions) == [step] + rest;
      assert ([step] + rest)[1..] == rest;
      if KeyOf(page.id, actions[0]) == KeyOf(page.id, action) {
        KeyTellsPage(page.id, actions[0], page.id, action);
      }
      ExecuteMerges(request, page, actions[1..], action, MergeOne(e, step, KeyOf(page.id, action)));
    }
  }

  /** Listed built-in actions get the permission on the content of the collection. */
  lemma {:induction false} DomainMerges(page: Page, actions: seq<string>, resource: string, action: string,
                                        c: ActionCheck<Question>)
    requires ColonFree(page.id)
    requires c.domain.None? ||
      (BuiltInPermission(action).Some? && c.domain == Some(Permission(BuiltInPermission(action).value, resource)))
    ensures MergeAll(Some(c), DomainSteps(page, actions, resource), KeyOf(page.id, action)) ==
            Some(if action in actions && BuiltInPermission(action).Some?
                 then c.(domain := Some(Permission(BuiltInPermission(action).value, resource))) else c)
    decreases |actions|
  {
    if actions != [] {
      var rest := DomainSteps(page, actions[1..], resource);
      var permission := BuiltInPermission(actions[0]);
      if permission.None? {
        assert DomainSteps(page, actions, resource) == rest;
        DomainMerges(page, actions[1..], resource, action, c);
      } else {
        var step := DomainStep(page, actions[0], permission.value, resource);
        assert DomainSteps(page, actions, resource) == [step] + rest;
        assert ([step] + rest)[1..] == rest;
        if KeyOf(page.id, actions[0]) == KeyOf(page.id, action) {
          KeyTellsPage(page.id, actions[0], page.id, action);
        }
        DomainMerges(page, actions[1..], resource, action, MergeOne(Some(c), step, KeyOf(page.id, action)).value);
      }
    }
  }

  lemma {:induction false} DomainMergesNothing(page: Page, actions: seq<string>, resource: string, action: string)
    requires ColonFree(page.id) && action !in actions
    ensures NoneMerge(DomainSteps(page, actions, resource), KeyOf(page.id, action))
    decreases |actions|
  {
    if actions != [] {
      DomainMergesNothing(page, actions[1..], resource, action);
      if KeyOf(page.id, actions[0]) == KeyOf(page.id, action) {
        KeyTellsPage(page.id, actions[0], page.id, action);
      }
    }
  }

  /** What a merge of a domain permission does to an entry. */
  function WithDomain(e: Option<ActionCheck<Question>>, page: string,
                      domain: Option<Question>): Option<ActionCheck<Question>> {
    if domain.None? then e
    else if e.None? then Some(ActionCheck(page, None, domain))
    else Some(e.value.(domain := domain))
  }

  lemma {:induction false} ComposedMerges(request: Request, page: Page, effects: seq<ComposedAction>, action: string,
                                          e: Option<ActionCheck<Question>>)
    requires ColonFree(page.id)
    ensures MergeAll(e, ComposedSteps(request, page, effects), KeyOf(page.id, action)) ==
            WithDomain(e, page.id, ComposedPermission(request, effects, action))
    decreases |effects|
  {
    if effects != [] {
      var rest := ComposedSteps(request, page, effects[1..]);
      var first, permission := effects[0], BuiltInPermission(effects[0].id);
      if permission.None? || first.collection.None? {
        assert ComposedSteps(request, page, effects) == rest;
        ComposedMerges(request, page, effects[1..], action, e);
      } else {
        var step := DomainStep(page, first.id, permission.value, request.names.collection(first.collection.value));
        assert ComposedSteps(request, page, effects) == [step] + rest;
        assert ([step] + rest)[1..] == rest;
        if KeyOf(page.id, first.id) == KeyOf(page.id, action) {
          KeyTellsPage(page.id, first.id, page.id, action);
        }
        ComposedMerges(request, page, effects[1..], action, MergeOne(e, step, KeyOf(page.id, action)));
      }
    }
  }

  lemma TwoMerge(e: Option<ActionCheck<Question>>, s: Step<Question>, t: Step<Question>, key: string)
    ensures MergeAll(e, [s, t], key) == MergeOne(MergeOne(e, s, key), t, key)
  {
    assert [s, t][1..] == [t] && [t][1..] == [];
    assert MergeAll(MergeOne(e, s, key), [t], key) == MergeOne(MergeOne(e, s, key), t, key);
  }

  lemma DomainStepMerges(e: Option<ActionCheck<Question>>, page: Page, s: Step<Question>, action: string)
    requires ColonFree(page.id) && s.MergeAction? && s.page == page.id && s.execute.None? && s.domain.Some?
    ensures MergeOne(e, s, KeyOf(page.id, action)) ==
      WithDomain(e, page.id, if s.action == action then s.domain else None)
  {
    if KeyOf(page.id, s.action) == KeyOf(page.id, action) {
      KeyTellsPage(page.id, s.action, page.id, action);
    }
  }

  lemma ExtraMerges(request: Request, page: Page, action: string, e: Option<ActionCheck<Question>>)
    requires ColonFree(page.id) && HasCollection(page.kind)
    ensures MergeAll(e, ExtraSteps(request, page), KeyOf(page.id, action)) ==
            WithDomain(e, page.id, ExtraPermission(request, page, action))
  {
    var steps, key := ExtraSteps(request, page), KeyOf(page.id, action);
    if |steps| == 2 {
      assert |steps[0].action| != |steps[1].action|;
      assert steps == [steps[0], steps[1]];
      TwoMerge(e, steps[0], steps[1], key);
      DomainStepMerges(e, page, steps[0], action);
      DomainStepMerges(MergeOne(e, steps[0], key), page, steps[1], action);
    } else if |steps| == 1 {
      assert steps[1..] == [];
      DomainStepMerges(e, page, steps[0], action);
    }
  }

  /** The entry a page makes for an action. */
  function EntryOf(request: Request, page: Page, action: string): Option<ActionCheck<Question>> {
    if !Offered(request, page, action) then None
    else Some(ActionCheck(page.id, if action in PageActions(page) then ExecuteQuestion(request, page, action) else None,
                          DomainPermission(request, page, action)))
  }

  lemma {:induction false} ComposedListsItsActions(request: Request, effects: seq<ComposedAction>, action: string)
    ensures ComposedPermission(request, effects, action).Some? ==> action in ComposedIds(effects)
  {
    if effects != [] {
      ComposedListsItsActions(request, effects[1..], action);
    }
  }

  lemma CollectionMerges(request: Request, page: Page, action: string, e: Option<ActionCheck<Question>>)
    requires ColonFree(page.id) && HasCollection(page.kind)
    requires e ==
      if action in page.actions then Some(ActionCheck(page.id, ExecuteQuestion(request, page, action), None)) else None
    ensures MergeAll(e, CollectionSteps(request, page), KeyOf(page.id, action)) == EntryOf(request, page, action)
  {
    var key, resource := KeyOf(page.id, action), request.names.collection(page.collection);
    var domain := DomainSteps(page, page.actions, resource);
    FieldsChangeNothing(request, page, key, e);
    if action in page.actions {
      DomainMerges(page, page.actions, resource, action, e.value);
    } else {
      DomainMergesNothing(page, page.actions, resource, action);
      MergesNothing(e, domain, key);
    }
    ExtraMerges(request, page, action, MergeAll(e, domain, key));
  }

  lemma FieldsChangeNothing(request: Request, page: Page, key: string, e: Option<ActionCheck<Question>>)
    ensures MergeAll(e, CollectionSteps(request, page), key) ==
      MergeAll(MergeAll(e, DomainSteps(page, PageActions(page), request.names.collection(page.collection)), key),
               ExtraSteps(request, page), key)
  {
    var resource := request.names.collection(page.collection);
    var domain, extra, fields :=
      DomainSteps(page, PageActions(page), resource), ExtraSteps(request, page), AllFieldSteps(request, page);
    MergeConcat(e, domain + extra, fields, key);
    MergeConcat(e, domain, extra, key);
    var collection := FindCollection(request.collections, page.collection);
    if collection.Some? {
      FieldsMergeNothing(page.collection, resource, collection.value.fields, key);
    }
    MergesNothing(MergeAll(e, domain + extra, key), fields, key);
  }

  lemma PageMerges(request: Request, page: Page, action: string)
    requires ColonFree(page.id)
    ensures MergeAll(None, PageSteps(request, page), KeyOf(page.id, action)) == EntryOf(request, page, action)
  {
    var key := KeyOf(page.id, action);
    var gate, execute, step, later :=
      GateSteps(request, page), ExecuteSteps(request, page, PageActions(page)), PageStep(request, page),
      LaterSteps(request, page);
    LaterStepsAreDetails(request, page);
    MergeConcat(None, gate + execute + [step], later, key);
    MergeConcat(None, gate + execute, [step], key);
    MergeConcat(None, gate, execute, key);
    MergesNothing(None, gate, key);
    ExecuteMerges(request, page, PageActions(page), action, None);
    var e := MergeAll(None, gate + execute, key);
    MergesNothing(e, [step], key);
    if page.kind.Composed? {
      assert later == ComposedSteps(request, page, page.kind.effects);
      ComposedMerges(request, page, page.kind.effects, action, e);
      ComposedListsItsActions(request, page.kind.effects, action);
    } else if HasCollection(page.kind) {
      assert later == CollectionSteps(request, page);
      CollectionMerges(request, page, action, e);
    } else {
      MergesNothing(e, later, key);
    }
  }

  // ---------------------------------------------------------------- actions of the whole profile

  lemma PageStepsOnlyFor(request: Request, page: Page)
    ensures OnlyFor(PageSteps(request, page), page.id)
  {
    LaterStepsAreDetails(request, page);
    ExecuteOnlyFor(request, page, PageActions(page));
    if page.kind.Composed? {
      ComposedOnlyFor(request, page, page.kind.effects);
    } else if HasCollection(page.kind) {
      CollectionOnlyFor(request, page);
    }
  }

  lemma CollectionOnlyFor(request: Request, page: Page)
    ensures OnlyFor(CollectionSteps(request, page), page.id)
  {
    var resource := request.names.collection(page.collection);
    var domain := DomainSteps(page, PageActions(page), resource);
    DomainOnlyFor(page, PageActions(page), resource);
    FieldPartOnlyFor(request, page);
    OnlyForConcat(domain, ExtraSteps(request, page), page.id);
    OnlyForConcat(domain + ExtraSteps(request, page), AllFieldSteps(request, page), page.id);
  }

  lemma OnlyForConcat(a: seq<Step<Question>>, b: seq<Step<Question>>, page: string)
    requires OnlyFor(a, page) && OnlyFor(b, page)
    ensures OnlyFor(a + b, page)
  {
  }

  lemma FieldPartOnlyFor(request: Request, page: Page)
    ensures OnlyFor(AllFieldSteps(request, page), page.id)
  {
    var collection := FindCollection(request.collections, page.collection);
    if collection.Some? {
      FieldsHaveNoMerge(page.collection, request.names.collection(page.collection), collection.value.fields);
    }
  }

  lemma {:induction false} FieldsHaveNoMerge(collection: string, resource: string, fields: seq<FieldInfo>)
    ensures forall i | 0 <= i < |FieldSteps(collection, resource, fields)| ::
              FieldSteps(collection, resource, fields)[i].SetField? &&
              FieldSteps(collection, resource, fields)[i].field.collection == collection
  {
    if fields != [] {
      FieldsHaveNoMerge(collection, resource, fields[1..]);
    }
  }

  lemma {:induction false} OtherPagesMergeNothing(request: Request, pages: seq<Page>, id: string, action: string)
    requires ColonFree(id) && forall i | 0 <= i < |pages| :: pages[i].id != id && ColonFree(pages[i].id)
    ensures NoneMerge(AllPageSteps(request, pages), KeyOf(id, action))
    decreases |pages|
  {
    if pages != [] {
      PageStepsOnlyFor(request, pages[0]);
      OtherPageMergesNothing(PageSteps(request, pages[0]), pages[0].id, id, action);
      OtherPagesMergeNothing(request, pages[1..], id, action);
    }
  }

  lemma {:induction false} PagesMerge(request: Request, pages: seq<Page>, i: nat, action: string)
    requires i < |pages| && forall j | 0 <= j < |pages| :: ColonFree(pages[j].id)
    requires forall j | 0 <= j < |pages| && j != i :: pages[j].id != pages[i].id
    ensures MergeAll(None, AllPageSteps(request, pages), KeyOf(pages[i].id, action)) ==
      EntryOf(request, pages[i], action)
    decreases |pages|
  {
    if i == 0 {
      FirstPageMerges(request, pages, action);
    } else {
      var later := pages[1..];
      assert later[i - 1] == pages[i] && forall j | 0 <= j < |later| :: later[j] == pages[j + 1];
      EarlierPageIsPassed(request, pages, pages[i].id, action);
      PagesMerge(request, later, i - 1, action);
    }
  }

  lemma FirstPageMerges(request: Request, pages: seq<Page>, action: string)
    requires pages != [] && forall j | 0 <= j < |pages| :: ColonFree(pages[j].id)
    requires forall j | 0 < j < |pages| :: pages[j].id != pages[0].id
    ensures MergeAll(None, AllPageSteps(request, pages), KeyOf(pages[0].id, action)) ==
      EntryOf(request, pages[0], action)
  {
    var first, rest, key := PageSteps(request, pages[0]), AllPageSteps(request, pages[1..]), KeyOf(pages[0].id, action);
    MergeConcat(None, first, rest, key);
    PageMerges(request, pages[0], action);
    LaterPagesMergeNothing(request, pages, action);
    MergesNothing(MergeAll(None, first, key), rest, key);
  }

  lemma EarlierPageIsPassed(request: Request, pages: seq<Page>, id: string, action: string)
    requires pages != [] && ColonFree(pages[0].id) && ColonFree(id) && pages[0].id != id
    ensures var key := KeyOf(id, action);
      MergeAll(None, AllPageSteps(request, pages), key) == MergeAll(None, AllPageSteps(request, pages[1..]), key)
  {
    var first, rest, key := PageSteps(request, pages[0]), AllPageSteps(request, pages[1..]), KeyOf(id, action);
    MergeConcat(None, first, rest, key);
    EarlierPageMergesNothing(request, pages[0], id, action);
    MergesNothing(None, first, key);
  }

  lemma LaterPagesMergeNothing(request: Request, pages: seq<Page>, action: string)
    requires pages != [] && forall j | 0 <= j < |pages| :: ColonFree(pages[j].id)
    requires forall j | 0 < j < |pages| :: pages[j].id != pages[0].id
    ensures NoneMerge(AllPageSteps(request, pages[1..]), KeyOf(pages[0].id, action))
  {
    OtherPagesMergeNothing(request, pages[1..], pages[0].id, action);
  }

  lemma EarlierPageMergesNothing(request: Request, page: Page, id: string, action: string)
    requires ColonFree(page.id) && ColonFree(id) && page.id != id
    ensures NoneMerge(PageSteps(request, page), KeyOf(id, action))
  {
    PageStepsOnlyFor(request, page);
    OtherPageMergesNothing(PageSteps(request, page), page.id, id, action);
  }

  lemma {:induction false} ReferencesMergeNothing(request: Request, references: seq<(string, string)>, key: string)
    ensures NoneMerge(ReferenceSteps(request, references), key)
  {
    if references != [] {
      ReferencesMergeNothing(request, references[1..], key);
    }
  }

  lemma EntryInPlan(request: Request, i: nat, action: string)
    requires i < |request.pages| && forall j | 0 <= j < |request.pages| :: ColonFree(request.pages[j].id)
    requires forall j | 0 <= j < |request.pages| && j != i :: request.pages[j].id != request.pages[i].id
    ensures EntryAt(RememberAll(EmptyPlan(), Steps(request)), KeyOf(request.pages[i].id, action)) ==
            EntryOf(request, request.pages[i], action)
  {
    var key := KeyOf(request.pages[i].id, action);
    var references, pages := ReferenceSteps(request, request.references), AllPageSteps(request, request.pages);
    EntryIsMerged(EmptyPlan(), Steps(request), key);
    MergeConcat(None, references, pages, key);
    ReferencesMergeNothing(request, request.references, key);
    MergesNothing(None, references, key);
    PagesMerge(request, request.pages, i, action);
  }

  /** The profile has an entry for an action of a page exactly if the page offers it, and allows it
      exactly if the page is open, its execute gate is granted and so is the permission on content. */
  lemma ActionAnswer(request: Request, answer: Question -> bool, i: nat, action: string)
    requires i < |request.pages| && forall j | 0 <= j < |request.pages| :: ColonFree(request.pages[j].id)
    requires forall j | 0 <= j < |request.pages| && j != i :: request.pages[j].id != request.pages[i].id
    ensures
      var (page, actions) := (request.pages[i], DirectProfile(request, answer).actions);
      var key := page.id + ":" + action;
      (key in actions <==> Offered(request, page, action)) &&
      (key in actions ==> actions[key] == ActionOpen(request, page, action, answer))
  {
    EntryInPlan(request, i, action);
    PageAnswer(request, answer, i);
  }
}
