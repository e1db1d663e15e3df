/** What the access profile says about the fields of a collection, in terms of single answers. */
module AccessFields {
  import opened Wrappers
  import opened Sequences
  import opened AccessProfile
  import opened AccessEvaluation
  import opened AccessPages
  import opened AccessActions

  // ---------------------------------------------------------------- fields

  /** The fields of a collection the policy lets a reader see, or a writer change. */
  function OpenFields(fields: seq<FieldInfo>, resource: string, write: bool, answer: Question -> bool): seq<string> {
    if fields == [] then []
    else
      var f := fields[0];
      (if write then
         (if answer(FieldAccess("content.create", resource, f.name, true)) ||
           answer(FieldAccess("content.update", resource, f.name, true))
          then [f.id] else [])
       else (if answer(FieldAccess("content.read", resource, f.name, false)) then [f.id] else []))
      + OpenFields(fields[1..], resource, write, answer)
  }

  predicate Shows(page: Page, collection: string) {
    HasCollection(page.kind) && page.collection == collection
  }

  ghost predicate DistinctFields(fields: seq<FieldInfo>) {
    fields != [] ==> (forall i | 1 <= i < |fields| :: fields[i].id != fields[0].id) && DistinctFields(fields[1..])
  }

  function Checked(collection: string, resource: string, f: FieldInfo): FieldCheck<Question> {
    FieldCheck(collection, f.id, FieldAccess("content.read", resource, f.name, false),
               FieldAccess("content.create", resource, f.name, true),
               FieldAccess("content.update", resource, f.name, true))
  }

  function AllChecked(collection: string, resource: string, fields: seq<FieldInfo>): seq<FieldCheck<Question>> {
    if fields == [] then []
    else [Checked(collection, resource, fields[0])] + AllChecked(collection, resource, fields[1..])
  }

  /** The checks of one collection among those remembered. */
  function ChecksOf(checks: seq<FieldCheck<Question>>, collection: string): seq<FieldCheck<Question>> {
    if checks == [] then []
    else
      var last := checks[|checks| - 1];
      ChecksOf(checks[..|checks| - 1], collection) + (if last.collection == collection then [last] else [])
  }

  lemma {:induction false} KnownMeansListed(checks: seq<FieldCheck<Question>>, collection: string, field: string)
    ensures (exists i :: 0 <= i < |checks| && checks[i].collection == collection && checks[i].field == field) <==>
            exists i :: 0 <= i < |ChecksOf(checks, collection)| && ChecksOf(checks, collection)[i].field == field
    decreases |checks|
  {
    if checks != [] {
      var front, last := checks[..|checks| - 1], checks[|checks| - 1];
      KnownMeansListed(front, collection, field);
      var listed, earlier := ChecksOf(checks, collection), ChecksOf(front, collection);
      if i :| 0 <= i < |checks| && checks[i].collection == collection && checks[i].field == field {
        if i < |front| {
          assert front[i] == checks[i];
          var k :| 0 <= k < |earlier| && earlier[k].field == field;
          assert listed[k] == earlier[k];
        } else {
          assert listed[|earlier|] == last;
        }
      }
      if k :| 0 <= k < |listed| && listed[k].field == field {
        if k < |earlier| {
          assert earlier[k] == listed[k];
          var i :| 0 <= i < |front| && front[i].collection == collection && front[i].field == field;
          assert checks[i] == front[i];
        } else {
          assert checks[|front|] == last;
        }
      }
    }
  }

  /** A field check is remembered unless its field is known. */
  lemma RememberField(plan: Plan<Question>, c: FieldCheck<Question>, collection: string)
    ensures ChecksOf(Remember(plan, SetField(c)).fields, collection) ==
            if c.collection != collection ||
              (exists i ::
                0 <= i < |ChecksOf(plan.fields, collection)| && ChecksOf(plan.fields, collection)[i].field == c.field)
            then ChecksOf(plan.fields, collection) else ChecksOf(plan.fields, collection) + [c]
  {
    KnownMeansListed(plan.fields, c.collection, c.field);
    assert (plan.fields + [c])[..|plan.fields|] == plan.fields;
  }

  predicate Lists(checks: seq<FieldCheck<Question>>, field: string) {
    exists i :: 0 <= i < |checks| && checks[i].field == field
  }

  lemma ListsOneMore(checks: seq<FieldCheck<Question>>, c: FieldCheck<Question>, field: string)
    ensures Lists(checks + [c], field) <==> Lists(checks, field) || c.field == field
  {
    var more := checks + [c];
    if Lists(checks, field) {
      var k :| 0 <= k < |checks| && checks[k].field == field;
      assert more[k] == checks[k];
    }
    assert more[|checks|] == c;
    if Lists(more, field) && c.field != field {
      var k :| 0 <= k < |more| && more[k].field == field;
      assert more[k] == checks[k];
    }
  }

  /** The first page that shows a collection has all its fields remembered, in order. */
  lemma {:induction false} FieldsAreAdded(plan: Plan<Question>, collection: string, resource: string,
                                          fields: seq<FieldInfo>)
    requires DistinctFields(fields)
    requires forall i | 0 <= i < |fields| :: !Lists(ChecksOf(plan.fields, collection), fields[i].id)
    ensures ChecksOf(RememberAll(plan, FieldSteps(collection, resource, fields)).fields, collection) ==
            ChecksOf(plan.fields, collection) + AllChecked(collection, resource, fields)
    decreases |fields|
  {
    var before := ChecksOf(plan.fields, collection);
    if fields == [] {
      assert before + [] == before;
    } else {
      var c := Checked(collection, resource, fields[0]);
      var next := Remember(plan, SetField(c));
      RememberField(plan, c, collection);
      assert !Lists(before, fields[0].id);
      assert ChecksOf(next.fields, collection) == before + [c];
      forall i | 0 <= i < |fields[1..]| ensures !Lists(before + [c], fields[1..][i].id) {
        assert fields[1..][i] == fields[i + 1];
        ListsOneMore(before, c, fields[i + 1].id);
      }
      FieldsAreAdded(next, collection, resource, fields[1..]);
      var rest := FieldSteps(collection, resource, fields[1..]);
      assert FieldSteps(collection, resource, fields) == [SetField(c)] + rest && ([SetField(c)] + rest)[1..] == rest;
      Associative(before, [c], AllChecked(collection, resource, fields[1..]));
    }
  }

  /** Later pages change nothing about the fields of a collection. */
  lemma {:induction false} KnownFieldsStay(plan: Plan<Question>, steps: seq<Step<Question>>, collection: string)
    requires forall i | 0 <= i < |steps| :: steps[i].SetField? ==>
      steps[i].field.collection != collection || Lists(ChecksOf(plan.fields, collection), steps[i].field.field)
    ensures ChecksOf(RememberAll(plan, steps).fields, collection) == ChecksOf(plan.fields, collection)
    decreases |steps|
  {
    if steps != [] {
      var next := Remember(plan, steps[0]);
      if steps[0].SetField? {
        RememberField(plan, steps[0].field, collection);
      }
      KnownFieldsStay(next, steps[1..], collection);
    }
  }

  ghost predicate WithoutFields(steps: seq<Step<Question>>) {
    forall i | 0 <= i < |steps| :: !steps[i].SetField?
  }

  /** The steps of a page between its requirement and its fields. */
  function MiddleSteps(request: Request, page: Page): seq<Step<Question>> {
    if page.kind.Composed? then ComposedSteps(request, page, page.kind.effects)
    else if HasCollection(page.kind) then
      DomainSteps(page, PageActions(page), request.names.collection(page.collection)) + ExtraSteps(request, page)
    else []
  }

  function FieldPart(request: Request, page: Page): seq<Step<Question>> {
    if HasCollection(page.kind) then AllFieldSteps(request, page) else []
  }

  lemma LaterStepsSplit(request: Request, page: Page)
    ensures LaterSteps(request, page) == MiddleSteps(request, page) + FieldPart(request, page)
    ensures WithoutFields(MiddleSteps(request, page))
  {
    if page.kind.Composed? {
      ComposedOnlyFor(request, page, page.kind.effects);
    } else if HasCollection(page.kind) {
      DomainOnlyFor(page, PageActions(page), request.names.collection(page.collection));
      assert LaterSteps(request, page) == CollectionSteps(request, page);
    }
  }

  function FirstSteps(request: Request, page: Page): seq<Step<Question>> {
    GateSteps(request, page) + ExecuteSteps(request, page, PageActions(page)) + [PageStep(request, page)]
  }

  lemma FirstStepsHaveNoFields(request: Request, page: Page)
    ensures WithoutFields(FirstSteps(request, page))
  {
    ExecuteOnlyFor(request, page, PageActions(page));
  }

  /** The steps of a page before those for fields. */
  function EarlierSteps(request: Request, page: Page): seq<Step<Question>> {
    FirstSteps(request, page) + MiddleSteps(request, page)
  }

  lemma PageStepsEndWithFields(request: Request, page: Page)
    ensures PageSteps(request, page) == EarlierSteps(request, page) + FieldPart(request, page)
    ensures WithoutFields(EarlierSteps(request, page))
  {
    LaterStepsSplit(request, page);
    FirstStepsHaveNoFields(request, page);
    Associative(FirstSteps(request, page), MiddleSteps(request, page), FieldPart(request, page));
  }

  lemma {:induction false} AllCheckedLists(collection: string, resource: string, fields: seq<FieldInfo>, i: nat)
    requires i < |fields|
    ensures |AllChecked(collection, resource, fields)| == |fields| &&
      AllChecked(collection, resource, fields)[i].field == fields[i].id
    decreases |fields|
  {
    if i > 0 {
      AllCheckedLists(collection, resource, fields[1..], i - 1);
    } else if |fields| > 1 {
      AllCheckedLists(collection, resource, fields[1..], 0);
    }
  }

  /** What a field step of one page is about. */
  lemma {:induction false} FieldStepAt(collection: string, resource: string, fields: seq<FieldInfo>, i: nat)
    requires i < |FieldSteps(collection, resource, fields)|
    ensures i < |fields| &&
      FieldSteps(collection, resource, fields)[i] == SetField(Checked(collection, resource, fields[i]))
    decreases |fields|
  {
    if i > 0 {
      FieldStepAt(collection, resource, fields[1..], i - 1);
    }
  }

  /** Before a page shows the collection nothing is remembered of it, and then all its fields. */
  lemma PageFields(plan: Plan<Question>, request: Request, page: Page, c: CollectionInfo)
    requires FindCollection(request.collections, c.id) == Some(c) && DistinctFields(c.fields)
    requires ChecksOf(plan.fields, c.id) in {[], AllChecked(c.id, request.names.collection(c.id), c.fields)}
    ensures ChecksOf(RememberAll(plan, PageSteps(request, page)).fields, c.id) ==
            if Shows(page, c.id) then AllChecked(c.id, request.names.collection(c.id), c.fields)
              else ChecksOf(plan.fields, c.id)
  {
    var earlier, part := EarlierSteps(request, page), FieldPart(request, page);
    var resource, all := request.names.collection(c.id), AllChecked(c.id, request.names.collection(c.id), c.fields);
    PageStepsEndWithFields(request, page);
    RememberConcat(plan, earlier, part);
    KnownFieldsStay(plan, earlier, c.id);
    var after := RememberAll(plan, earlier);
    if Shows(page, c.id) {
      assert part == FieldSteps(c.id, resource, c.fields);
      if ChecksOf(plan.fields, c.id) == [] {
        FieldsAreAdded(after, c.id, resource, c.fields);
        assert [] + all == all;
      } else {
        FieldsHaveNoMerge(c.id, resource, c.fields);
        forall i | 0 <= i < |part|
          ensures part[i].SetField? && Lists(ChecksOf(after.fields, c.id), part[i].field.field)
        {
          FieldStepAt(c.id, resource, c.fields, i);
          AllCheckedLists(c.id, resource, c.fields, i);
        }
        KnownFieldsStay(after, part, c.id);
      }
    } else {
      if part != [] {
        var shown := FindCollection(request.collections, page.collection).value;
        FieldsHaveNoMerge(page.collection, request.names.collection(page.collection), shown.fields);
      }
      KnownFieldsStay(after, part, c.id);
    }
  }

  predicate AnyShows(pages: seq<Page>, collection: string) {
    pages != [] && (Shows(pages[0], collection) || AnyShows(pages[1..], collection))
  }

  lemma {:induction false} PagesFields(plan: Plan<Question>, request: Request, pages: seq<Page>, c: CollectionInfo)
    requires FindCollection(request.collections, c.id) == Some(c) && DistinctFields(c.fields)
    requires ChecksOf(plan.fields, c.id) in {[], AllChecked(c.id, request.names.collection(c.id), c.fields)}
    ensures ChecksOf(RememberAll(plan, AllPageSteps(request, pages)).fields, c.id) ==
            if AnyShows(pages, c.id) then AllChecked(c.id, request.names.collection(c.id), c.fields)
              else ChecksOf(plan.fields, c.id)
    decreases |pages|
  {
    if pages != [] {
      RememberConcat(plan, PageSteps(request, pages[0]), AllPageSteps(request, pages[1..]));
      PageFields(plan, request, pages[0], c);
      PagesFields(RememberAll(plan, PageSteps(request, pages[0])), request, pages[1..], c);
    }
  }

  // ---------------------------------------------------------------- field lists of the profile

  lemma {:induction false} AllowedPush(checks: seq<FieldCheck<Question>>, c: FieldCheck<Question>, collection: string,
                                       write: bool, answer: Question -> bool)
    ensures AllowedFields(checks + [c], collection, write, answer) ==
            AllowedFields(checks, collection, write, answer) + AllowedFields([c], collection, write, answer)
    decreases |checks|
  {
    if checks == [] {
      assert checks + [c] == [c];
    } else {
      AllowedPush(checks[1..], c, collection, write, answer);
      assert (checks + [c])[0] == checks[0] && (checks + [c])[1..] == checks[1..] + [c];
    }
  }

  lemma {:induction false} OnlyItsChecksCount(checks: seq<FieldCheck<Question>>, collection: string, write: bool,
                                              answer: Question -> bool)
    ensures AllowedFields(checks, collection, write, answer) ==
      AllowedFields(ChecksOf(checks, collection), collection, write, answer)
    decreases |checks|
  {
    if checks != [] {
      var front, last := checks[..|checks| - 1], checks[|checks| - 1];
      OnlyItsChecksCount(front, collection, write, answer);
      assert checks == front + [last];
      AllowedPush(front, last, collection, write, answer);
      if last.collection == collection {
        AllowedPush(ChecksOf(front, collection), last, collection, write, answer);
      } else {
        assert [last][1..] == [] && AllowedFields([last], collection, write, answer) == [];
        assert ChecksOf(checks, collection) == ChecksOf(front, collection);
      }
    }
  }

  lemma {:induction false} CheckedAreOpen(collection: string, resource: string, fields: seq<FieldInfo>, write: bool,
                                          answer: Question -> bool)
    ensures AllowedFields(AllChecked(collection, resource, fields), collection, write, answer) ==
      OpenFields(fields, resource, write, answer)
    decreases |fields|
  {
    if fields != [] {
      CheckedAreOpen(collection, resource, fields[1..], write, answer);
      assert AllChecked(collection, resource, fields)[1..] == AllChecked(collection, resource, fields[1..]);
    }
  }

  ghost predicate OnlyOne(collections: seq<CollectionInfo>, i: nat)
    requires i < |collections|
  {
    forall j | 0 <= j < |collections| && j != i :: collections[j].id != collections[i].id
  }

  lemma {:induction false} FindsIt(collections: seq<CollectionInfo>, i: nat)
    requires i < |collections| && OnlyOne(collections, i)
    ensures FindCollection(collections, collections[i].id) == Some(collections[i])
    decreases |collections|
  {
    if i < |collections| - 1 {
      FindsIt(collections[..|collections| - 1], i);
    }
  }

  lemma {:induction false} ProfileAtCollection(collections: seq<CollectionInfo>, i: nat, plan: Plan<Question>,
                                               write: bool, answer: Question -> bool)
    requires i < |collections| && OnlyOne(collections, i)
    ensures
      var (c, profile) := (collections[i], FieldProfile(collections, plan, write, answer));
      c.id in profile && profile[c.id] == ListOrAll(c, AllowedFields(plan.fields, c.id, write, answer))
    decreases |collections|
  {
    if i < |collections| - 1 {
      ProfileAtCollection(collections[..|collections| - 1], i, plan, write, answer);
    }
  }

  function ListOrAll(c: CollectionInfo, fields: seq<string>): Option<seq<string>> {
    if |fields| == |c.fields| then None else Some(fields)
  }

  /** What the profile says about the fields of a collection: nothing if all of them are open, else
      the open ones in order; none is open if no page shows the collection. */
  lemma FieldAnswer(request: Request, answer: Question -> bool, i: nat, write: bool)
    requires i < |request.collections| && OnlyOne(request.collections, i) &&
      DistinctFields(request.collections[i].fields)
    ensures
      var (c, profile) := (request.collections[i], DirectProfile(request, answer));
      var listed := if write then profile.writable else profile.readable;
      c.id in listed &&
      listed[c.id] == ListOrAll(c, if AnyShows(request.pages, c.id)
                                   then OpenFields(c.fields, request.names.collection(c.id), write, answer) else [])
  {
    var c := request.collections[i];
    var references, pages := ReferenceSteps(request, request.references), AllPageSteps(request, request.pages);
    var plan := RememberAll(EmptyPlan(), Steps(request));
    FindsIt(request.collections, i);
    RememberConcat(EmptyPlan(), references, pages);
    ReferencesHaveNoFields(request, request.references);
    KnownFieldsStay(EmptyPlan(), references, c.id);
    PagesFields(RememberAll(EmptyPlan(), references), request, request.pages, c);
    OnlyItsChecksCount(plan.fields, c.id, write, answer);
    CheckedAreOpen(c.id, request.names.collection(c.id), c.fields, write, answer);
    ProfileAtCollection(request.collections, i, plan, write, answer);
  }

  lemma {:induction false} ReferencesHaveNoFields(request: Request, references: seq<(string, string)>)
    ensures WithoutFields(ReferenceSteps(request, references))
  {
    if references != [] {
      ReferencesHaveNoFields(request, references[1..]);
    }
  }
}
