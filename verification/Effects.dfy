/** Effect chains of a composed page: guards, plans, permissions, and what a chain performs. */
module Effects {
  import opened Wrappers
  import opened Json

  // ---------------------------------------------------------------- guards

  datatype Test = Eq | Ne | Empty | NotEmpty | Gt | Lt
  datatype QueryTest = HasRows | NoRows | CountGt

  datatype Condition =
    | AllOf(conditions: seq<Condition>)
    | AnyOf(conditions: seq<Condition>)
    | OfState(stateId: string, test: Test, expected: Json)
    | OfField(fieldId: string, test: Test, expected: Json)
    | OfQuery(query: QueryTest, expected: Json)

  /** How the language turns values into text and compares them as numbers: the sign of the
      difference, zero where one of them is not a number. */
  datatype Conversions = Conversions(text: Json -> string, difference: (Json, Json) -> int)

  predicate IsEmpty(v: Json) {
    v == Undefined || v == Null || v == Str("") || v == Arr([])
  }

  predicate StrictlyEqual(a: Json, b: Json) {
    match (a, b)
    case (Num(m), Num(n)) => m != NaN && Unsigned(m) == Unsigned(n)
    case _ => a == b
  }

  function Unsigned(n: Number): Number {
    if n == NegativeZero then Finite(0.0) else n
  }

  predicate ScalarEqual(actual: Json, expected: Json, c: Conversions) {
    if expected == Undefined then IsEmpty(actual)
    else if actual.Num? || actual.Bool? then StrictlyEqual(actual, expected)
    else c.text(if actual == Undefined || actual == Null then Str("") else actual) == c.text(expected)
  }

  predicate ScalarHolds(actual: Json, test: Test, expected: Json, c: Conversions) {
    match test
    case Empty => IsEmpty(actual)
    case NotEmpty => !IsEmpty(actual)
    case Eq => ScalarEqual(actual, expected, c)
    case Ne => !ScalarEqual(actual, expected, c)
    case Gt => c.difference(actual, expected) > 0
    case Lt => c.difference(actual, expected) < 0
  }

  predicate MoreThan(count: nat, n: Number) {
    match n
    case Finite(value) => count as real > value
    case NegativeZero => count > 0
    case NaN => false
    case Infinite(positive) => !positive
  }

  predicate QueryHolds(count: nat, query: QueryTest, expected: Json) {
    match query
    case HasRows => count > 0
    case NoRows => count == 0
    case CountGt => expected.Num? && MoreThan(count, expected.n)
  }

  /** An effect guard, evaluated outside of any table row; without an earlier query a test of the
      query result is false. */
  predicate Holds(g: Condition, state: string -> Json, lastCount: Option<nat>, c: Conversions)
    decreases g
  {
    match g
    case AllOf(conditions) => forall i :: 0 <= i < |conditions| ==> Holds(conditions[i], state, lastCount, c)
    case AnyOf(conditions) => exists i :: 0 <= i < |conditions| && Holds(conditions[i], state, lastCount, c)
    case OfState(stateId, test, expected) => ScalarHolds(state(stateId), test, expected, c)
    case OfField(_, test, expected) => ScalarHolds(Undefined, test, expected, c)
    case OfQuery(query, expected) => lastCount.Some? && QueryHolds(lastCount.value, query, expected)
  }

  /** What the tests of a guard ask. Nothing is known of a query that did not run. */
  lemma QueryTestsMean(query: QueryTest, expected: Json, state: string -> Json, count: nat, limit: int,
                       c: Conversions)
    ensures !Holds(OfQuery(query, expected), state, None, c)
    ensures Holds(OfQuery(HasRows, expected), state, Some(count), c) <==> count >= 1
    ensures Holds(OfQuery(NoRows, expected), state, Some(count), c) <==> count < 1
    ensures Holds(OfQuery(CountGt, Num(Finite(limit as real))), state, Some(count), c) <==> count > limit
    ensures !expected.Num? ==> !Holds(OfQuery(CountGt, expected), state, Some(count), c)
  {
  }

  /** Eq and Ne, Empty and NotEmpty are opposites; without an expected value Eq asks for emptiness,
      which undefined, null, the empty text and the empty list have; a number or a truth value equals
      itself only, anything else is compared as text; a field is unknown outside of a table row. */
  lemma StateTestsMean(id: string, expected: Json, state: string -> Json, last: Option<nat>, c: Conversions)
    ensures Holds(OfState(id, Ne, expected), state, last, c) <==> !Holds(OfState(id, Eq, expected), state, last, c)
    ensures Holds(OfState(id, NotEmpty, expected), state, last, c) <==>
      !Holds(OfState(id, Empty, expected), state, last, c)
    ensures Holds(OfState(id, Empty, expected), state, last, c) <==>
      state(id) in {Undefined, Null, Str(""), Arr([])}
    ensures expected == Undefined ==>
      (Holds(OfState(id, Eq, expected), state, last, c) <==> Holds(OfState(id, Empty, expected), state, last, c))
    ensures state(id).Bool? && expected != Undefined ==>
      (Holds(OfState(id, Eq, expected), state, last, c) <==> state(id) == expected)
    ensures forall x: real, y: real :: state(id) == Num(Finite(x)) && expected == Num(Finite(y)) ==>
      (Holds(OfState(id, Eq, expected), state, last, c) <==> x == y)
    ensures state(id) in {Num(NegativeZero), Num(Finite(0.0))} && expected in {Num(NegativeZero), Num(Finite(0.0))} ==>
      Holds(OfState(id, Eq, expected), state, last, c)
    ensures state(id) == Num(NaN) && expected != Undefined ==> !Holds(OfState(id, Eq, expected), state, last, c)
    ensures state(id).Num? && !expected.Num? && expected != Undefined ==>
      !Holds(OfState(id, Eq, expected), state, last, c)
    ensures (state(id) == Undefined || state(id) == Null) && expected != Undefined ==>
      (Holds(OfState(id, Eq, expected), state, last, c) <==> c.text(Str("")) == c.text(expected))
    ensures (state(id).Str? || state(id).Arr? || state(id).Obj?) && expected != Undefined ==>
      (Holds(OfState(id, Eq, expected), state, last, c) <==> c.text(state(id)) == c.text(expected))
    ensures Holds(OfState(id, Gt, expected), state, last, c) <==> c.difference(state(id), expected) > 0
    ensures Holds(OfState(id, Lt, expected), state, last, c) <==> c.difference(state(id), expected) < 0
    ensures forall test :: Holds(OfField(id, test, expected), state, last, c) <==>
      Holds(OfState(id, test, expected), x => Undefined, last, c)
  {
  }

  /** A conjunction of none is true and of more is that of the first and the others; a disjunction of
      none is false and of more is that of the first or the others. */
  lemma CombinedGuardsMean(g: Condition, gs: seq<Condition>, state: string -> Json, last: Option<nat>, c: Conversions)
    ensures Holds(AllOf([]), state, last, c) && !Holds(AnyOf([]), state, last, c)
    ensures Holds(AllOf([g] + gs), state, last, c) <==> Holds(g, state, last, c) && Holds(AllOf(gs), state, last, c)
    ensures Holds(AnyOf([g] + gs), state, last, c) <==> Holds(g, state, last, c) || Holds(AnyOf(gs), state, last, c)
  {
    var all := [g] + gs;
    assert all[0] == g && forall i | 0 <= i < |gs| :: gs[i] == all[i + 1];
    assert forall i | 0 < i < |all| :: all[i] == gs[i - 1];
  }

  /** A guard that is true although no query ran is true for every result a query could have. */
  lemma {:induction false} GuardStaysTrue(g: Condition, state: string -> Json, count: nat, c: Conversions)
    requires Holds(g, state, None, c)
    ensures Holds(g, state, Some(count), c)
    decreases g
  {
    match g
    case AllOf(conditions) =>
      forall i | 0 <= i < |conditions| ensures Holds(conditions[i], state, Some(count), c) {
        GuardStaysTrue(conditions[i], state, count, c);
      }
    case AnyOf(conditions) =>
      var i :| 0 <= i < |conditions| && Holds(conditions[i], state, None, c);
      GuardStaysTrue(conditions[i], state, count, c);
    case _ =>
  }

  // ---------------------------------------------------------------- plans

  datatype EffectKind =
    | StateSet | StateReset | SourceExecute | SourceReset | AwaitQuery | FormSetField | UpdateFields | Navigate
    | ActionExecute

  datatype Effect = Effect(kind: EffectKind, args: map<string, Json>, guard: Option<Condition>)

  datatype Reason =
    | NoForm | NoField | NoCollection | NoDocument | NothingToChange | NoAction | Unsupported(action: string)

  datatype Plan =
    | SetState(stateId: string, value: Json)
    | ClearState(stateId: string)
    | RunSource(source: string)
    | ClearSource(source: string)
    | AwaitRows(source: string)
    | GoTo(page: string)
    | SetField(form: string, field: string, value: Json)
    | Delete(collection: string, document: string, confirm: Option<string>)
    | Create(collection: string, form: string)
    | Update(collection: string, document: string, form: string)
    | UpdateSome(collection: string, document: string, fields: map<string, Json>)
    | Denied(action: string)
    | Invalid(reason: Reason)
    | Noop

  /** What an effect sees: the state as last rendered, the permitted actions, the field names and the date. */
  datatype View = View(
    state: string -> Json, allowed: string -> bool, fieldName: string -> Option<string>, today: string)

  function Arg(args: map<string, Json>, key: string): Json {
    if key in args then args[key] else Undefined
  }

  function ResolveSource(source: Json, view: View): Json {
    var from := Lookup(source, "from");
    if from == Str("state") then
      (if Lookup(source, "stateId").Str? then view.state(Lookup(source, "stateId").s) else Undefined)
    else if from == Str("today") then Str(view.today)
    else if from == Str("literal") then Lookup(source, "value")
    else Undefined
  }

  /** A field by its stable id if that is known, else by its name. */
  function ResolveField(fieldId: Json, fieldName: Json, view: View): Option<string> {
    if fieldId.Str? && fieldId.s != "" && view.fieldName(fieldId.s).Some? then view.fieldName(fieldId.s)
    else if fieldName.Str? && fieldName.s != "" then Some(fieldName.s)
    else None
  }

  function SelectedDocument(args: map<string, Json>, view: View): Option<string> {
    var id := Arg(args, "documentStateId");
    if id.Str? && view.state(id.s).Str? && view.state(id.s) != Str("") then Some(view.state(id.s).s) else None
  }

  function EntryField(entry: Json, view: View): Option<string> {
    ResolveField(Lookup(entry, "fieldId"), Lookup(entry, "fieldName"), view)
  }

  /** The fields to update, by the entries from the front on. */
  function FieldsOf(entries: seq<Json>, view: View): map<string, Json> {
    if entries == [] then map[]
    else
      var last := entries[|entries| - 1];
      var earlier := FieldsOf(entries[..|entries| - 1], view);
      var name := EntryField(last, view);
      if name.None? then earlier else earlier[name.value := ResolveSource(Lookup(last, "value"), view)]
  }

  method CollectFields(entries: seq<Json>, view: View) returns (fields: map<string, Json>)
    ensures fields == FieldsOf(entries, view)
  {
    fields := map[];
    for i := 0 to |entries|
      invariant fields == FieldsOf(entries[..i], view)
    {
      assert entries[..i + 1][..i] == entries[..i];
      var name := EntryField(entries[i], view);
      if name.Some? {
        fields := fields[name.value := ResolveSource(Lookup(entries[i], "value"), view)];
      }
    }
    assert entries[..|entries|] == entries;
  }

  /** The last entry that names a field decides its new value. */
  lemma {:induction false} LastEntryDecides(entries: seq<Json>, view: View, name: string, i: nat)
    requires i < |entries| && EntryField(entries[i], view) == Some(name)
    requires forall j | i < j < |entries| :: EntryField(entries[j], view) != Some(name)
    ensures name in FieldsOf(entries, view) &&
      FieldsOf(entries, view)[name] == ResolveSource(Lookup(entries[i], "value"), view)
    decreases |entries|
  {
    var front := entries[..|entries| - 1];
    if i < |front| {
      assert forall j | 0 <= j < |front| :: front[j] == entries[j];
      LastEntryDecides(front, view, name, i);
    }
  }

  /** A field that no entry names is left alone. */
  lemma {:induction false} UnnamedFieldStays(entries: seq<Json>, view: View, name: string)
    requires forall e | e in entries :: EntryField(e, view) != Some(name)
    ensures name !in FieldsOf(entries, view)
    decreases |entries|
  {
    if entries != [] {
      UnnamedFieldStays(entries[..|entries| - 1], view, name);
    }
  }

  function PlanSetField(args: map<string, Json>, view: View): Plan {
    var form := Arg(args, "formComponentId");
    var field := ResolveField(Arg(args, "fieldId"), Arg(args, "fieldName"), view);
    if !form.Str? || form.s == "" then Invalid(NoForm)
    else if field.None? then Invalid(NoField)
    else SetField(form.s, field.value, ResolveSource(Arg(args, "value"), view))
  }

  function PlanUpdateFields(args: map<string, Json>, view: View): Plan {
    var collection := Arg(args, "collectionId");
    if !collection.Str? then Invalid(NoCollection)
    else if !view.allowed("core.action.update") then Denied("core.action.update")
    else
      var document := SelectedDocument(args, view);
      if document.None? then Invalid(NoDocument)
      else
        var raw := Arg(args, "fields");
        var fields := FieldsOf(if raw.Arr? then raw.items else [], view);
        if fields == map[] then Invalid(NothingToChange) else UpdateSome(collection.s, document.value, fields)
  }

  function PlanAction(args: map<string, Json>, view: View): Plan {
    var action, collection := Arg(args, "actionId"), Arg(args, "collectionId");
    if !action.Str? || !collection.Str? then Invalid(NoAction)
    else if !view.allowed(action.s) then Denied(action.s)
    else
      var form, document := Arg(args, "formComponentId"), SelectedDocument(args, view);
      var confirm := Arg(args, "confirm");
      match action.s
      case "core.action.delete" =>
        if document.None? then Invalid(NoDocument)
        else Delete(collection.s, document.value, if confirm.Str? then Some(confirm.s) else None)
      case "core.action.create" =>
        if !form.Str? || form.s == "" then Invalid(NoForm) else Create(collection.s, form.s)
      case "core.action.update" =>
        if !form.Str? || form.s == "" then Invalid(NoForm)
        else if document.None? then Invalid(NoDocument)
        else Update(collection.s, document.value, form.s)
      case other => Invalid(Unsupported(other))
  }

  function PlanEffect(e: Effect, view: View): Plan {
    var state, source, page := Arg(e.args, "stateId"), Arg(e.args, "dataSourceId"), Arg(e.args, "pageId");
    match e.kind
    case StateSet =>
      var value := Arg(e.args, "value");
      if state.Str? then SetState(state.s, if value == Undefined || value == Null then Str("") else value) else Noop
    case StateReset => if state.Str? then ClearState(state.s) else Noop
    case SourceExecute => if source.Str? then RunSource(source.s) else Noop
    case SourceReset => if source.Str? then ClearSource(source.s) else Noop
    case AwaitQuery => if source.Str? then AwaitRows(source.s) else Noop
    case Navigate => if page.Str? then GoTo(page.s) else Noop
    case FormSetField => PlanSetField(e.args, view)
    case UpdateFields => PlanUpdateFields(e.args, view)
    case ActionExecute => PlanAction(e.args, view)
  }

  /** The action whose permission a mutation needs. */
  function ActionOf(p: Plan): Option<string> {
    match p
    case Delete(_, _, _) => Some("core.action.delete")
    case Create(_, _) => Some("core.action.create")
    case Update(_, _, _) => Some("core.action.update")
    case UpdateSome(_, _, _) => Some("core.action.update")
    case _ => None
  }

  predicate Mutating(p: Plan) {
    ActionOf(p).Some?
  }

  /** The action an effect asks for, if it is complete enough to be judged. */
  function AskedAction(e: Effect): Option<string> {
    if !Arg(e.args, "collectionId").Str? then None
    else if e.kind == UpdateFields then Some("core.action.update")
    else if e.kind == ActionExecute && Arg(e.args, "actionId").Str? then Some(Arg(e.args, "actionId").s)
    else None
  }

  function TargetOf(p: Plan): Option<string> {
    match p
    case Delete(_, document, _) => Some(document)
    case Update(_, document, _) => Some(document)
    case UpdateSome(_, document, _) => Some(document)
    case _ => None
  }

  /** An effect is denied exactly if it asks for an action that is not permitted; a mutation is
      always the one asked for, in the collection named, and permitted; and its document is what the
      named state holds. */
  lemma MutationsArePermitted(e: Effect, view: View)
    ensures
      var p := PlanEffect(e, view);
      (forall action :: p == Denied(action) <==> AskedAction(e) == Some(action) && !view.allowed(action)) &&
      (Mutating(p) ==>
        ActionOf(p) == AskedAction(e) && view.allowed(ActionOf(p).value) &&
          Str(p.collection) == Arg(e.args, "collectionId")) &&
      (TargetOf(p).Some? ==> TargetOf(p) == SelectedDocument(e.args, view) && TargetOf(p).value != "")
  {
  }

  /** The values an effect can name: that of a state, the date, or itself. */
  lemma NamedValuesMean(id: string, v: Json, view: View)
    ensures ResolveSource(Obj([Member("from", Str("state")), Member("stateId", Str(id))]), view) == view.state(id)
    ensures ResolveSource(Obj([Member("from", Str("today"))]), view) == Str(view.today)
    ensures ResolveSource(Obj([Member("from", Str("literal")), Member("value", v)]), view) == v
    ensures !v.Obj? ==> ResolveSource(v, view) == Undefined
  {
    TwoMembers(Member("from", Str("state")), Member("stateId", Str(id)));
    TwoMembers(Member("from", Str("literal")), Member("value", v));
    var t := [Member("from", Str("today"))];
    assert t[0].key == "from" && t[0] in t;
  }

  lemma TwoMembers(m: Member, n: Member)
    requires m.key != n.key
    ensures Lookup(Obj([m, n]), m.key) == m.value && Lookup(Obj([m, n]), n.key) == n.value
  {
    var ms := [m, n];
    assert ms[0] in ms && ms[1] in ms && ms[1..][0] == n;
  }

  /** The fields an effect can name: by a known id, else by name. */
  lemma NamedFieldsMean(id: string, name: string, v: Json, view: View)
    ensures id != "" && view.fieldName(id).Some? ==> ResolveField(Str(id), Str(name), view) == view.fieldName(id)
    ensures (id == "" || view.fieldName(id).None?) ==>
      ResolveField(Str(id), Str(name), view) == if name == "" then None else Some(name)
    ensures !v.Str? ==> ResolveField(v, Str(name), view) == if name == "" then None else Some(name)
    ensures !v.Str? ==> ResolveField(v, v, view).None?
  {
  }

  /** Effects on states, sources and pages: carried out on what they name, and otherwise nothing. */
  lemma SimpleEffectsAreCarriedOut(e: Effect, view: View)
    ensures
      var p := PlanEffect(e, view);
      var state, source, page := Arg(e.args, "stateId"), Arg(e.args, "dataSourceId"), Arg(e.args, "pageId");
      (p.SetState? <==> e.kind == StateSet && state.Str?) &&
      (p.SetState? ==>
        Str(p.stateId) == state &&
        p.value == if Arg(e.args, "value") in {Undefined, Null} then Str("") else Arg(e.args, "value")) &&
      (p.ClearState? <==> e.kind == StateReset && state.Str?) && (p.ClearState? ==> Str(p.stateId) == state) &&
      (p.RunSource? <==> e.kind == SourceExecute && source.Str?) && (p.RunSource? ==> Str(p.source) == source) &&
      (p.ClearSource? <==> e.kind == SourceReset && source.Str?) && (p.ClearSource? ==> Str(p.source) == source) &&
      (p.AwaitRows? <==> e.kind == AwaitQuery && source.Str?) && (p.AwaitRows? ==> Str(p.source) == source) &&
      (p.GoTo? <==> e.kind == Navigate && page.Str?) && (p.GoTo? ==> Str(p.page) == page)
  {
  }

  /** A text argument that is not empty. */
  predicate Names(args: map<string, Json>, key: string) {
    Arg(args, key).Str? && Arg(args, key) != Str("")
  }

  /** Effects on forms and documents are carried out exactly if they are permitted and complete. */
  lemma CompleteEffectsAreCarriedOut(e: Effect, view: View)
    ensures
      var p := PlanEffect(e, view);
      var asked := AskedAction(e).Some? && view.allowed(AskedAction(e).value);
      var document := SelectedDocument(e.args, view);
      var field := ResolveField(Arg(e.args, "fieldId"), Arg(e.args, "fieldName"), view);
      var raw := Arg(e.args, "fields");
      var fields := FieldsOf(if raw.Arr? then raw.items else [], view);
      (p.SetField? <==> e.kind == FormSetField && Names(e.args, "formComponentId") && field.Some?) &&
      (p.SetField? ==>
        Str(p.form) == Arg(e.args, "formComponentId") && Some(p.field) == field &&
        p.value == ResolveSource(Arg(e.args, "value"), view)) &&
      (p.Create? <==>
        asked && e.kind == ActionExecute && AskedAction(e) == Some("core.action.create") &&
        Names(e.args, "formComponentId")) &&
      (p.Create? ==> Str(p.form) == Arg(e.args, "formComponentId")) &&
      (p.Update? <==>
        asked && e.kind == ActionExecute && AskedAction(e) == Some("core.action.update") &&
        Names(e.args, "formComponentId") && document.Some?) &&
      (p.Update? ==> Str(p.form) == Arg(e.args, "formComponentId")) &&
      (p.Delete? <==>
        asked && e.kind == ActionExecute && AskedAction(e) == Some("core.action.delete") &&
        document.Some?) &&
      (p.Delete? ==> p.confirm == if Arg(e.args, "confirm").Str? then Some(Arg(e.args, "confirm").s) else None) &&
      (p.UpdateSome? <==> asked && e.kind == UpdateFields && document.Some? && fields != map[]) &&
      (p.UpdateSome? ==> p.fields == fields)
  {
  }

  /** Why an effect that is not denied cannot be carried out. */
  lemma IncompleteEffectsAreExplained(e: Effect, view: View, reason: Reason)
    requires PlanEffect(e, view) == Invalid(reason)
    ensures e.kind == FormSetField ==>
      reason == if Names(e.args, "formComponentId") then NoField else NoForm
    ensures e.kind == UpdateFields ==>
      reason == if !Arg(e.args, "collectionId").Str? then NoCollection
                else if SelectedDocument(e.args, view).None? then NoDocument else NothingToChange
    ensures e.kind == ActionExecute ==>
      var action := AskedAction(e);
      reason ==
        if action.None? then NoAction
        else if action.value !in {"core.action.delete", "core.action.create", "core.action.update"} then
          Unsupported(action.value)
        else if action.value != "core.action.delete" && !Names(e.args, "formComponentId") then NoForm
        else NoDocument
    ensures e.kind in {FormSetField, UpdateFields, ActionExecute}
  {
  }

  /** The document selected: what the named state holds, if that is a text that is not empty. */
  lemma SelectedDocumentMeans(args: map<string, Json>, view: View, id: string)
    ensures SelectedDocument(args, view) == Some(id) <==>
      id != "" && Arg(args, "documentStateId").Str? && view.state(Arg(args, "documentStateId").s) == Str(id)
  {
  }

  // ---------------------------------------------------------------- chains

  /** Everything a chain meets while it runs: what each effect sees, how many rows each awaited
      query yields, and which mutations succeed. */
  datatype Course = Course(view: nat -> View, rowCount: nat -> nat, succeeds: nat -> bool, conversions: Conversions)

  datatype Ending = NotStarted | Finished | Stopped(at: nat)

  function PlanAt(effects: seq<Effect>, course: Course, i: nat): Plan
    requires i < |effects|
  {
    PlanEffect(effects[i], course.view(i))
  }

  predicate GuardAt(effects: seq<Effect>, course: Course, i: nat, lastCount: Option<nat>)
    requires i < |effects|
  {
    effects[i].guard.Some? ==> Holds(effects[i].guard.value, course.view(i).state, lastCount, course.conversions)
  }

  /** The count of the last awaited query that was run before position i. */
  function CountBefore(effects: seq<Effect>, course: Course, i: nat): Option<nat>
    requires i <= |effects|
  {
    if i == 0 then None
    else
      var earlier := CountBefore(effects, course, i - 1);
      if GuardAt(effects, course, i - 1, earlier) && PlanAt(effects, course, i - 1).AwaitRows?
      then Some(course.rowCount(i - 1))
      else earlier
  }

  predicate Passes(effects: seq<Effect>, course: Course, i: nat)
    requires i < |effects|
  {
    GuardAt(effects, course, i, CountBefore(effects, course, i))
  }

  ghost predicate Awaits(effects: seq<Effect>, course: Course, i: nat)
    requires i < |effects|
  {
    Passes(effects, course, i) && PlanAt(effects, course, i).AwaitRows?
  }

  /** The last position before i with a property. */
  ghost function LastBefore(holds: nat -> bool, i: nat): Option<nat> {
    if i == 0 then None
    else if holds(i - 1) then Some(i - 1)
    else LastBefore(holds, i - 1)
  }

  lemma {:induction false} LastBeforeMeaning(holds: nat -> bool, i: nat)
    ensures match LastBefore(holds, i)
            case None => forall j: nat | j < i :: !holds(j)
            case Some(last) => last < i && holds(last) && forall j: nat | last < j < i :: !holds(j)
  {
    if i > 0 {
      LastBeforeMeaning(holds, i - 1);
    }
  }

  lemma CountStep(effects: seq<Effect>, course: Course, i: nat)
    requires i < |effects|
    ensures CountBefore(effects, course, i + 1) ==
            if Awaits(effects, course, i) then Some(course.rowCount(i)) else CountBefore(effects, course, i)
  {
  }

  /** A guard sees the rows of the last awaited query whose own guard passed, and none if there is none. */
  lemma {:induction false} GuardSeesLastCount(effects: seq<Effect>, course: Course, awaits: nat -> bool, i: nat)
    requires i <= |effects| && forall j: nat | j < |effects| :: awaits(j) == Awaits(effects, course, j)
    ensures CountBefore(effects, course, i) ==
            match LastBefore(awaits, i)
            case None => None
            case Some(last) => Some(course.rowCount(last))
  {
    if i > 0 {
      GuardSeesLastCount(effects, course, awaits, i - 1);
      CountStep(effects, course, i - 1);
    }
  }

  predicate Halting(p: Plan, succeeds: bool) {
    p.Denied? || p.Invalid? || (Mutating(p) && !succeeds)
  }

  predicate Stops(effects: seq<Effect>, course: Course, i: nat)
    requires i < |effects|
  {
    Passes(effects, course, i) && Halting(PlanAt(effects, course, i), course.succeeds(i))
  }

  ghost predicate Reached(effects: seq<Effect>, course: Course, i: nat)
    requires i <= |effects|
  {
    forall j: nat | j < i :: !Stops(effects, course, j)
  }

  datatype Performed = Performed(at: nat, plan: Plan)

  ghost predicate InOrder(performed: seq<Performed>) {
    forall a, b | 0 <= a < b < |performed| :: performed[a].at < performed[b].at
  }

  /** What is performed up to position n: the plans of the effects whose guards pass, as far as the
      chain gets. */
  ghost predicate PerformedUpTo(effects: seq<Effect>, course: Course, n: nat, performed: seq<Performed>)
    requires n <= |effects|
  {
    forall x :: x in performed <==>
      x.at < n && Passes(effects, course, x.at) && Reached(effects, course, x.at) &&
        x.plan == PlanAt(effects, course, x.at)
  }

  lemma PerformOne(effects: seq<Effect>, course: Course, i: nat, performed: seq<Performed>)
    requires i < |effects| && Passes(effects, course, i) && Reached(effects, course, i)
    requires InOrder(performed) && PerformedUpTo(effects, course, i, performed)
    ensures
      var more := performed + [Performed(i, PlanAt(effects, course, i))];
      InOrder(more) && PerformedUpTo(effects, course, i + 1, more)
  {
    var more := performed + [Performed(i, PlanAt(effects, course, i))];
    forall a, b | 0 <= a < b < |more| ensures more[a].at < more[b].at {
      assert more[a] == performed[a] && performed[a] in performed;
    }
  }

  lemma SkipOne(effects: seq<Effect>, course: Course, i: nat, performed: seq<Performed>)
    requires i < |effects| && !Passes(effects, course, i) && PerformedUpTo(effects, course, i, performed)
    ensures PerformedUpTo(effects, course, i + 1, performed)
  {
  }

  lemma NothingAfterStop(effects: seq<Effect>, course: Course, i: nat, performed: seq<Performed>)
    requires i < |effects| && Stops(effects, course, i) && PerformedUpTo(effects, course, i + 1, performed)
    ensures PerformedUpTo(effects, course, |effects|, performed)
  {
    forall x: Performed | i < x.at <= |effects| ensures !Reached(effects, course, x.at) {
    }
  }

  /** The chain may go on after this: nothing was denied or incomplete, and a mutation succeeded. */
  predicate WentWell(x: Performed, course: Course) {
    match x.plan
    case Denied(_) => false
    case Invalid(_) => false
    case Delete(_, _, _) => course.succeeds(x.at)
    case Create(_, _) => course.succeeds(x.at)
    case Update(_, _, _) => course.succeeds(x.at)
    case UpdateSome(_, _, _) => course.succeeds(x.at)
    case _ => true
  }

  ghost predicate AllWentWell(performed: seq<Performed>, course: Course) {
    forall k | 0 <= k < |performed| :: WentWell(performed[k], course)
  }

  /** The first i effects were run, and none of them ended the chain. */
  ghost predicate RunSoFar(effects: seq<Effect>, course: Course, i: nat, performed: seq<Performed>)
    requires i <= |effects|
  {
    Reached(effects, course, i) && InOrder(performed) && PerformedUpTo(effects, course, i, performed) &&
    AllWentWell(performed, course)
  }

  /** The effect at a position ended the chain, as the only one that did not go well. */
  ghost predicate StoppedAt(effects: seq<Effect>, course: Course, i: nat, performed: seq<Performed>) {
    i < |effects| && Stops(effects, course, i) && Reached(effects, course, i) && InOrder(performed) &&
    PerformedUpTo(effects, course, |effects|, performed) &&
    performed != [] && performed[|performed| - 1].at == i &&
    !WentWell(performed[|performed| - 1], course) && AllWentWell(performed[..|performed| - 1], course)
  }

  lemma StopsHere(effects: seq<Effect>, course: Course, i: nat, performed: seq<Performed>)
    requires i < |effects| && Stops(effects, course, i) && RunSoFar(effects, course, i, performed)
    ensures StoppedAt(effects, course, i, performed + [Performed(i, PlanAt(effects, course, i))])
  {
    var all := performed + [Performed(i, PlanAt(effects, course, i))];
    PerformOne(effects, course, i, performed);
    NothingAfterStop(effects, course, i, all);
    assert all[..|all| - 1] == performed;
  }

  lemma GoesOn(effects: seq<Effect>, course: Course, i: nat, performed: seq<Performed>)
    requires i < |effects| && Passes(effects, course, i) && !Stops(effects, course, i)
    requires RunSoFar(effects, course, i, performed)
    ensures RunSoFar(effects, course, i + 1, performed + [Performed(i, PlanAt(effects, course, i))])
  {
    PerformOne(effects, course, i, performed);
  }

  /** Runs the effects in order and stops at the first denied, invalid or failed one, which is the
      last that is performed. A chain is not started while an action is running. */
  method RunEffects(effects: seq<Effect>, course: Course, running: bool)
    returns (performed: seq<Performed>, ending: Ending)
    ensures ending.NotStarted? <==> running
    ensures running ==> performed == []
    ensures ending.Finished? ==> RunSoFar(effects, course, |effects|, performed)
    ensures ending.Stopped? ==> StoppedAt(effects, course, ending.at, performed)
  {
    performed := [];
    if running {
      return performed, NotStarted;
    }
    var lastCount: Option<nat> := None;
    for i := 0 to |effects|
      invariant lastCount == CountBefore(effects, course, i) && RunSoFar(effects, course, i, performed)
    {
      if GuardAt(effects, course, i, lastCount) {
        var plan := PlanAt(effects, course, i);
        if Halting(plan, course.succeeds(i)) {
          StopsHere(effects, course, i, performed);
          return performed + [Performed(i, plan)], Stopped(i);
        }
        GoesOn(effects, course, i, performed);
        performed := performed + [Performed(i, plan)];
        if plan.AwaitRows? {
          lastCount := Some(course.rowCount(i));
        }
      } else {
        SkipOne(effects, course, i, performed);
      }
    }
    return performed, Finished;
  }

  /** Every mutation that is performed was permitted, and all of them succeeded but for one that
      ended the chain. */
  lemma ChainIsPermitted(effects: seq<Effect>, course: Course, performed: seq<Performed>, k: nat)
    requires InOrder(performed) && PerformedUpTo(effects, course, |effects|, performed)
    requires k < |performed| && Mutating(performed[k].plan)
    ensures course.view(performed[k].at).allowed(ActionOf(performed[k].plan).value)
    ensures course.succeeds(performed[k].at) || (k == |performed| - 1 && Stops(effects, course, performed[k].at))
  {
    var x := performed[k];
    assert x in performed;
    MutationsArePermitted(effects[x.at], course.view(x.at));
    if k < |performed| - 1 {
      assert performed[k + 1] in performed && Reached(effects, course, performed[k + 1].at);
      assert !Stops(effects, course, x.at);
    }
  }
}
