/** The access profile of an admin app: many questions to the authorization policy, deduplicated,
    asked in chunks, and accepted only if one policy revision answered them all. */
module AccessProfile {
  import opened Wrappers

  datatype Question =
    | Permission(action: string, resource: string)
    | FieldAccess(action: string, resource: string, field: string, write: bool)

  // ---------------------------------------------------------------- catalog

  /** The text key under which the catalog finds an earlier check. */
  function CatalogKey(q: Question): string {
    match q
    case Permission(action, resource) => "permission" + NUL + action + NUL + resource
    case FieldAccess(action, resource, field, write) =>
      "field" + NUL + action + NUL + resource + NUL + field + NUL + (if write then "write" else "read")
  }

  const NUL: string := ['\0']

  predicate NulFree(s: string) {
    '\0' !in s
  }

  predicate NulFreeQuestion(q: Question) {
    NulFree(q.action) && NulFree(q.resource) && (q.FieldAccess? ==> NulFree(q.field))
  }

  lemma JoinIsInjective(a: string, x: string, b: string, y: string)
    requires NulFree(a) && NulFree(b) && a + NUL + x == b + NUL + y
    ensures a == b && x == y
  {
    var s, t := a + NUL + x, b + NUL + y;
    assert s[|a|] == '\0' && t[|b|] == '\0';
    assert forall i | 0 <= i < |a| :: s[i] == a[i] && a[i] in a;
    assert forall i | 0 <= i < |b| :: t[i] == b[i] && b[i] in b;
    assert |a| == |b|;
    assert s[..|a|] == a && t[..|b|] == b;
    assert s[|a| + 1..] == x && t[|b| + 1..] == y;
  }

  lemma FieldTailIsInjective(p: Question, q: Question)
    requires p.FieldAccess? && q.FieldAccess? && NulFreeQuestion(p) && NulFreeQuestion(q)
    requires FieldTail(p) == FieldTail(q)
    ensures p == q
  {
    JoinIsInjective(p.action, p.resource + NUL + (p.field + NUL + Mode(p)),
                    q.action, q.resource + NUL + (q.field + NUL + Mode(q)));
    JoinIsInjective(p.resource, p.field + NUL + Mode(p), q.resource, q.field + NUL + Mode(q));
    JoinIsInjective(p.field, Mode(p), q.field, Mode(q));
    assert |Mode(p)| == |Mode(q)|;
  }

  function Mode(q: Question): string
    requires q.FieldAccess?
  {
    if q.write then "write" else "read"
  }

  function FieldTail(q: Question): string
    requires q.FieldAccess?
  {
    q.action + NUL + (q.resource + NUL + (q.field + NUL + Mode(q)))
  }

  lemma FieldKeySplits(q: Question)
    requires q.FieldAccess?
    ensures CatalogKey(q) == "field" + NUL + FieldTail(q)
  {
    var m := q.field + NUL + Mode(q);
    assert q.resource + NUL + q.field + NUL + Mode(q) == q.resource + NUL + m;
    assert CatalogKey(q) == "field" + NUL + q.action + NUL + (q.resource + NUL + m);
  }

  lemma PermissionKeySplits(q: Question)
    requires q.Permission?
    ensures CatalogKey(q) == "permission" + NUL + (q.action + NUL + q.resource)
  {
  }

  /** Without NUL in identifiers the key stands for the question: checks are merged exactly when
      they ask the same. */
  lemma CatalogKeyIsInjective(p: Question, q: Question)
    requires NulFreeQuestion(p) && NulFreeQuestion(q)
    ensures CatalogKey(p) == CatalogKey(q) <==> p == q
  {
    if CatalogKey(p) == CatalogKey(q) {
      SameKeySameQuestion(p, q);
    }
  }

  lemma SameKeySameQuestion(p: Question, q: Question)
    requires NulFreeQuestion(p) && NulFreeQuestion(q) && CatalogKey(p) == CatalogKey(q)
    ensures p == q
  {
    assert CatalogKey(p)[0] == (if p.Permission? then 'p' else 'f');
    assert CatalogKey(q)[0] == (if q.Permission? then 'p' else 'f');
    if p.Permission? && q.Permission? {
      PermissionKeySplits(p);
      PermissionKeySplits(q);
      JoinIsInjective("permission", p.action + NUL + p.resource, "permission", q.action + NUL + q.resource);
      JoinIsInjective(p.action, p.resource, q.action, q.resource);
    } else if p.FieldAccess? && q.FieldAccess? {
      FieldKeySplits(p);
      FieldKeySplits(q);
      JoinIsInjective("field", FieldTail(p), "field", FieldTail(q));
      FieldTailIsInjective(p, q);
    }
  }

  /** The key relies on that: with NUL two different questions would share one. No manifest gets
      this far, because the patterns its actions and resource ids are validated by admit no NUL. */
  lemma NulBreaksTheCatalog()
    ensures exists p, q :: p != q && CatalogKey(p) == CatalogKey(q)
  {
    var p, q := Permission("a" + NUL + "b", "c"), Permission("a", "b" + NUL + "c");
    assert |p.action| != |q.action|;
    assert CatalogKey(p) == CatalogKey(q);
  }

  /** Checks get consecutive ids; a question that was registered before keeps its id. */
  class CheckCatalog {
    var items: seq<Question>
    var ids: map<string, nat>

    ghost predicate Valid()
      reads this
    {
      (forall q | q in items :: NulFreeQuestion(q) && CatalogKey(q) in ids) &&
      (forall key | key in ids :: ids[key] < |items| && CatalogKey(items[ids[key]]) == key) &&
      (forall i, j | 0 <= i < j < |items| :: items[i] != items[j])
    }

    constructor ()
      ensures Valid() && items == []
    {
      items, ids := [], map[];
    }

    method Add(q: Question) returns (id: nat)
      requires Valid() && NulFreeQuestion(q)
      modifies this
      ensures Valid() && id < |items| && items[id] == q
      ensures items == if q in old(items) then old(items) else old(items) + [q]
    {
      var key := CatalogKey(q);
      forall p | p in items ensures CatalogKey(p) == key <==> p == q {
        CatalogKeyIsInjective(p, q);
      }
      if key in ids {
        id := ids[key];
        assert items[id] in items;
      } else {
        id := |items|;
        ids := ids[key := id];
        items := items + [q];
      }
    }
  }

  // ---------------------------------------------------------------- plan

  datatype Requirement<Q> = Requirement(all: bool, checks: seq<Q>)
  datatype Gate<Q> = Gate(read: Q, unmask: Q)
  datatype ActionCheck<Q> = ActionCheck(page: string, gate: Option<Q>, domain: Option<Q>)
  datatype FieldCheck<Q> = FieldCheck(collection: string, field: string, read: Q, create: Q, update: Q)

  /** What is remembered while the pages are visited, in terms of checks of some kind. */
  datatype Plan<Q> = Plan(
    permissions: map<string, Q>,
    pages: map<string, Requirement<Q>>,
    gates: map<string, Gate<Q>>,
    actions: map<string, ActionCheck<Q>>,
    fields: seq<FieldCheck<Q>>)

  datatype Step<Q> =
    | SetPermission(key: string, check: Q)
    | SetGate(page: string, gate: Gate<Q>)
    | SetPage(page: string, requirement: Requirement<Q>)
    | MergeAction(page: string, action: string, execute: Option<Q>, domain: Option<Q>)
    | SetField(field: FieldCheck<Q>)

  function Either<Q>(newer: Option<Q>, older: Option<Q>): Option<Q> {
    if newer.Some? then newer else older
  }

  predicate KnowsField<Q>(plan: Plan<Q>, collection: string, field: string) {
    exists i :: 0 <= i < |plan.fields| && plan.fields[i].collection == collection && plan.fields[i].field == field
  }

  function Remember<Q>(plan: Plan<Q>, step: Step<Q>): Plan<Q> {
    match step
    case SetPermission(key, check) => plan.(permissions := plan.permissions[key := check])
    case SetGate(page, gate) => plan.(gates := plan.gates[page := gate])
    case SetPage(page, requirement) => plan.(pages := plan.pages[page := requirement])
    case MergeAction(page, action, execute, domain) =>
      var key := page + ":" + action;
      var check :=
        if key in plan.actions then
          var old0 := plan.actions[key];
          ActionCheck(old0.page, Either(execute, old0.gate), Either(domain, old0.domain))
        else ActionCheck(page, execute, domain);
      plan.(actions := plan.actions[key := check])
    case SetField(f) => if KnowsField(plan, f.collection, f.field) then plan else plan.(fields := plan.fields + [f])
  }

  function EmptyPlan<Q>(): Plan<Q> {
    Plan(map[], map[], map[], map[], [])
  }

  function RememberAll<Q>(plan: Plan<Q>, steps: seq<Step<Q>>): Plan<Q>
    decreases |steps|
  {
    if steps == [] then plan else RememberAll(Remember(plan, steps[0]), steps[1..])
  }

  // ---------------------------------------------------------------- profile

  datatype CollectionInfo = CollectionInfo(id: string, hierarchy: bool, fields: seq<FieldInfo>)
  datatype FieldInfo = FieldInfo(id: string, name: string, media: bool)

  datatype Profile = Profile(
    app: bool,
    pages: map<string, bool>,
    unmasked: map<string, bool>,
    actions: map<string, bool>,
    permissions: map<string, bool>,
    readable: map<string, Option<seq<string>>>,
    writable: map<string, Option<seq<string>>>)

  predicate Holds<Q>(r: Requirement<Q>, allowed: Q -> bool) {
    r.checks == [] ||
    (if r.all then forall i :: 0 <= i < |r.checks| ==> allowed(r.checks[i])
     else exists i :: 0 <= i < |r.checks| && allowed(r.checks[i]))
  }

  predicate PageAllowed<Q>(plan: Plan<Q>, page: string, allowed: Q -> bool) {
    page in plan.pages && (page !in plan.gates || allowed(plan.gates[page].read)) && Holds(plan.pages[page], allowed)
  }

  predicate OptionallyAllowed<Q>(check: Option<Q>, allowed: Q -> bool) {
    check.None? || allowed(check.value)
  }

  function AllowedFields<Q>(fields: seq<FieldCheck<Q>>, collection: string, write: bool,
                            allowed: Q -> bool): seq<string> {
    if fields == [] then []
    else
      var f := fields[0];
      (if f.collection == collection && (if write then allowed(f.create) || allowed(f.update) else allowed(f.read))
       then [f.field] else [])
      + AllowedFields(fields[1..], collection, write, allowed)
  }

  /** Per collection the fields, or nothing to list if every field is allowed. */
  function FieldProfile<Q>(collections: seq<CollectionInfo>, plan: Plan<Q>, write: bool,
                           allowed: Q -> bool): map<string, Option<seq<string>>> {
    if collections == [] then map[]
    else
      var last := collections[|collections| - 1];
      var fields := AllowedFields(plan.fields, last.id, write, allowed);
      FieldProfile(collections[..|collections| - 1], plan, write, allowed)
        [last.id := if |fields| == |last.fields| then None else Some(fields)]
  }

  predicate PageUnmasked<Q>(plan: Plan<Q>, page: string, allowed: Q -> bool) {
    PageAllowed(plan, page, allowed) && (page !in plan.gates || allowed(plan.gates[page].unmask))
  }

  predicate ActionAllowed<Q>(plan: Plan<Q>, check: ActionCheck<Q>, allowed: Q -> bool) {
    PageAllowed(plan, check.page, allowed) && OptionallyAllowed(check.gate, allowed) &&
      OptionallyAllowed(check.domain, allowed)
  }

  function PagesOf<Q>(plan: Plan<Q>, allowed: Q -> bool): map<string, bool> {
    map page | page in plan.pages :: PageAllowed(plan, page, allowed)
  }

  function UnmaskedOf<Q>(plan: Plan<Q>, allowed: Q -> bool): map<string, bool> {
    map page | page in plan.pages :: PageUnmasked(plan, page, allowed)
  }

  predicate ActionAllowedAt<Q>(plan: Plan<Q>, key: string, allowed: Q -> bool) {
    key in plan.actions && ActionAllowed(plan, plan.actions[key], allowed)
  }

  function ActionsOf<Q>(plan: Plan<Q>, allowed: Q -> bool): map<string, bool> {
    map key | key in plan.actions :: ActionAllowedAt(plan, key, allowed)
  }

  predicate PermissionAllowed<Q>(plan: Plan<Q>, key: string, allowed: Q -> bool) {
    key in plan.permissions && allowed(plan.permissions[key])
  }

  function PermissionsOf<Q>(plan: Plan<Q>, allowed: Q -> bool): map<string, bool> {
    map key | key in plan.permissions :: PermissionAllowed(plan, key, allowed)
  }

  function ProfileOf<Q>(app: Q, plan: Plan<Q>, collections: seq<CollectionInfo>, allowed: Q -> bool): Profile {
    Profile(
      allowed(app), PagesOf(plan, allowed), UnmaskedOf(plan, allowed), ActionsOf(plan, allowed),
      PermissionsOf(plan, allowed),
      FieldProfile(collections, plan, false, allowed),
      FieldProfile(collections, plan, true, allowed))
  }

  // ---------------------------------------------------------------- ids stand for questions

  /** A check id stands for a question of the catalog. */
  ghost predicate StandsFor(items: seq<Question>, id: nat, q: Question) {
    id < |items| && items[id] == q
  }

  ghost predicate StandsForOption(items: seq<Question>, id: Option<nat>, q: Option<Question>) {
    (id.Some? <==> q.Some?) && (id.Some? ==> StandsFor(items, id.value, q.value))
  }

  ghost predicate StandsForAll(items: seq<Question>, ids: seq<nat>, qs: seq<Question>) {
    |ids| == |qs| && forall i | 0 <= i < |ids| :: StandsFor(items, ids[i], qs[i])
  }

  ghost predicate StepStandsFor(items: seq<Question>, s: Step<nat>, t: Step<Question>) {
    match (s, t)
    case (SetPermission(k, c), SetPermission(l, d)) => k == l && StandsFor(items, c, d)
    case (SetGate(p, g), SetGate(r, h)) => p == r && GateStandsFor(items, g, h)
    case (SetPage(p, g), SetPage(r, h)) => p == r && RequirementStandsFor(items, g, h)
    case (MergeAction(p, a, e, d), MergeAction(r, b, f, g)) =>
      p == r && a == b && StandsForOption(items, e, f) && StandsForOption(items, d, g)
    case (SetField(f), SetField(g)) => FieldStandsFor(items, f, g)
    case _ => false
  }

  ghost predicate GateStandsFor(items: seq<Question>, g: Gate<nat>, h: Gate<Question>) {
    StandsFor(items, g.read, h.read) && StandsFor(items, g.unmask, h.unmask)
  }

  ghost predicate RequirementStandsFor(items: seq<Question>, g: Requirement<nat>, h: Requirement<Question>) {
    g.all == h.all && StandsForAll(items, g.checks, h.checks)
  }

  ghost predicate ActionStandsFor(items: seq<Question>, a: ActionCheck<nat>, b: ActionCheck<Question>) {
    a.page == b.page && StandsForOption(items, a.gate, b.gate) && StandsForOption(items, a.domain, b.domain)
  }

  ghost predicate FieldStandsFor(items: seq<Question>, f: FieldCheck<nat>, g: FieldCheck<Question>) {
    f.collection == g.collection && f.field == g.field &&
    StandsFor(items, f.read, g.read) && StandsFor(items, f.create, g.create) && StandsFor(items, f.update, g.update)
  }

  ghost predicate PlanStandsFor(items: seq<Question>, a: Plan<nat>, b: Plan<Question>) {
    a.permissions.Keys == b.permissions.Keys && a.pages.Keys == b.pages.Keys &&
    a.gates.Keys == b.gates.Keys && a.actions.Keys == b.actions.Keys && |a.fields| == |b.fields| &&
    (forall k | k in a.permissions :: StandsFor(items, a.permissions[k], b.permissions[k])) &&
    (forall k | k in a.pages :: RequirementStandsFor(items, a.pages[k], b.pages[k])) &&
    (forall k | k in a.gates :: GateStandsFor(items, a.gates[k], b.gates[k])) &&
    (forall k | k in a.actions :: ActionStandsFor(items, a.actions[k], b.actions[k])) &&
    (forall i | 0 <= i < |a.fields| :: FieldStandsFor(items, a.fields[i], b.fields[i]))
  }

  lemma LaterItemsKeepMeaning(items: seq<Question>, more: seq<Question>, a: Plan<nat>, b: Plan<Question>)
    requires items <= more && PlanStandsFor(items, a, b)
    ensures PlanStandsFor(more, a, b)
  {
  }

  lemma RememberKeepsMeaning(items: seq<Question>, a: Plan<nat>, b: Plan<Question>, s: Step<nat>, t: Step<Question>)
    requires PlanStandsFor(items, a, b) && StepStandsFor(items, s, t)
    ensures PlanStandsFor(items, Remember(a, s), Remember(b, t))
  {
    match s
    case MergeAction(_, _, _, _) => MergingKeepsMeaning(items, a, b, s, t);
    case SetField(_) => SettingFieldKeepsMeaning(items, a, b, s, t);
    case _ =>
  }

  lemma MergingKeepsMeaning(items: seq<Question>, a: Plan<nat>, b: Plan<Question>, s: Step<nat>, t: Step<Question>)
    requires PlanStandsFor(items, a, b) && StepStandsFor(items, s, t) && s.MergeAction?
    ensures PlanStandsFor(items, Remember(a, s), Remember(b, t))
  {
    var key := s.page + ":" + s.action;
    var after, after' := Remember(a, s), Remember(b, t);
    MergedCheckStandsFor(items, a, b, s, t);
    assert after == a.(actions := a.actions[key := after.actions[key]]);
    assert after' == b.(actions := b.actions[key := after'.actions[key]]);
  }

  lemma MergedCheckStandsFor(items: seq<Question>, a: Plan<nat>, b: Plan<Question>, s: Step<nat>, t: Step<Question>)
    requires PlanStandsFor(items, a, b) && StepStandsFor(items, s, t) && s.MergeAction?
    ensures var key := s.page + ":" + s.action;
      key in Remember(a, s).actions && key in Remember(b, t).actions &&
      ActionStandsFor(items, Remember(a, s).actions[key], Remember(b, t).actions[key])
  {
    var key := s.page + ":" + s.action;
    if key in a.actions {
      assert ActionStandsFor(items, a.actions[key], b.actions[key]);
    }
  }

  lemma SettingFieldKeepsMeaning(items: seq<Question>, a: Plan<nat>, b: Plan<Question>, s: Step<nat>, t: Step<Question>)
    requires PlanStandsFor(items, a, b) && StepStandsFor(items, s, t) && s.SetField?
    ensures PlanStandsFor(items, Remember(a, s), Remember(b, t))
  {
    assert KnowsField(a, s.field.collection, s.field.field) <==> KnowsField(b, t.field.collection, t.field.field);
  }

  /** The decision on an id is the answer to the question it stands for. */
  ghost predicate Decides(items: seq<Question>, decide: nat -> bool, answer: Question -> bool) {
    forall id: nat | id < |items| :: decide(id) == answer(items[id])
  }

  lemma {:induction false} SameFields(items: seq<Question>, a: seq<FieldCheck<nat>>, b: seq<FieldCheck<Question>>,
                                      collection: string, write: bool, decide: nat -> bool, answer: Question -> bool)
    requires Decides(items, decide, answer)
    requires |a| == |b| && forall i | 0 <= i < |a| :: FieldStandsFor(items, a[i], b[i])
    ensures AllowedFields(a, collection, write, decide) == AllowedFields(b, collection, write, answer)
  {
    if a != [] {
      assert FieldStandsFor(items, a[0], b[0]);
      SameFields(items, a[1..], b[1..], collection, write, decide, answer);
    }
  }

  lemma {:induction false} SameFieldProfile(items: seq<Question>, a: Plan<nat>, b: Plan<Question>,
                                            collections: seq<CollectionInfo>, write: bool, decide: nat -> bool,
                                            answer: Question -> bool)
    requires Decides(items, decide, answer) && PlanStandsFor(items, a, b)
    ensures FieldProfile(collections, a, write, decide) == FieldProfile(collections, b, write, answer)
  {
    if collections != [] {
      var last := collections[|collections| - 1];
      SameFields(items, a.fields, b.fields, last.id, write, decide, answer);
      SameFieldProfile(items, a, b, collections[..|collections| - 1], write, decide, answer);
    }
  }

  lemma SameRequirement(items: seq<Question>, r: Requirement<nat>, s: Requirement<Question>, decide: nat -> bool,
                        answer: Question -> bool)
    requires Decides(items, decide, answer) && RequirementStandsFor(items, r, s)
    ensures Holds(r, decide) == Holds(s, answer)
  {
    assert forall i | 0 <= i < |r.checks| :: decide(r.checks[i]) == answer(s.checks[i]);
    if r.checks != [] && !r.all {
      if i :| 0 <= i < |r.checks| && decide(r.checks[i]) {
        assert answer(s.checks[i]);
      }
      if i :| 0 <= i < |s.checks| && answer(s.checks[i]) {
        assert decide(r.checks[i]);
      }
    }
  }

  lemma SamePage(items: seq<Question>, a: Plan<nat>, b: Plan<Question>, page: string, decide: nat -> bool,
                 answer: Question -> bool)
    requires Decides(items, decide, answer) && PlanStandsFor(items, a, b)
    ensures PageAllowed(a, page, decide) == PageAllowed(b, page, answer)
  {
    if page in a.pages {
      SameRequirement(items, a.pages[page], b.pages[page], decide, answer);
      if page in a.gates {
        assert GateStandsFor(items, a.gates[page], b.gates[page]);
      }
    }
  }

  lemma SamePages(items: seq<Question>, a: Plan<nat>, b: Plan<Question>, decide: nat -> bool, answer: Question -> bool)
    requires Decides(items, decide, answer) && PlanStandsFor(items, a, b)
    ensures PagesOf(a, decide) == PagesOf(b, answer)
  {
    forall page | page in a.pages ensures PageAllowed(a, page, decide) == PageAllowed(b, page, answer) {
      SamePage(items, a, b, page, decide, answer);
    }
  }

  lemma SameUnmasked(items: seq<Question>, a: Plan<nat>, b: Plan<Question>, decide: nat -> bool,
                     answer: Question -> bool)
    requires Decides(items, decide, answer) && PlanStandsFor(items, a, b)
    ensures UnmaskedOf(a, decide) == UnmaskedOf(b, answer)
  {
    forall page | page in a.pages ensures PageUnmasked(a, page, decide) == PageUnmasked(b, page, answer) {
      SamePage(items, a, b, page, decide, answer);
      if page in a.gates {
        assert GateStandsFor(items, a.gates[page], b.gates[page]);
      }
    }
  }

  lemma SameActions(items: seq<Question>, a: Plan<nat>, b: Plan<Question>, decide: nat -> bool,
                    answer: Question -> bool)
    requires Decides(items, decide, answer) && PlanStandsFor(items, a, b)
    ensures ActionsOf(a, decide) == ActionsOf(b, answer)
  {
    forall key | key in a.actions ensures ActionAllowedAt(a, key, decide) == ActionAllowedAt(b, key, answer) {
      assert ActionStandsFor(items, a.actions[key], b.actions[key]);
      SamePage(items, a, b, a.actions[key].page, decide, answer);
    }
  }

  /** Deduplicated checks, decided through their ids, give the profile of the questions. */
  lemma SameProfile(items: seq<Question>, app: nat, appQuestion: Question, a: Plan<nat>, b: Plan<Question>,
                    collections: seq<CollectionInfo>, decide: nat -> bool, answer: Question -> bool)
    requires Decides(items, decide, answer) && PlanStandsFor(items, a, b) && StandsFor(items, app, appQuestion)
    ensures ProfileOf(app, a, collections, decide) == ProfileOf(appQuestion, b, collections, answer)
  {
    SamePages(items, a, b, decide, answer);
    SameUnmasked(items, a, b, decide, answer);
    SameActions(items, a, b, decide, answer);
    assert PermissionsOf(a, decide) == PermissionsOf(b, answer);
    SameFieldProfile(items, a, b, collections, false, decide, answer);
    SameFieldProfile(items, a, b, collections, true, decide, answer);
  }
}
