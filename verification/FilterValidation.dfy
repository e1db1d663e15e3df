/** Validation of filter expressions: one counter shared by the whole tree, and early returns. */
module FilterValidation {
  import opened Json
  import opened Diff

  datatype Issue = Issue(code: string, path: Path)

  datatype FieldReference = DataField(id: string) | SystemField(name: string)

  datatype Filter =
    | Condition(field: FieldReference, operator: string, value: Json)
    | Group(connective: string, filters: seq<Filter>)

  // ---------------------------------------------------------------- the validator as a function

  datatype Checked = Checked(issues: seq<Issue>, count: nat) {
    function Report(applies: bool, code: string, path: Path): Checked {
      if applies then this.(issues := issues + [Issue(code, path)]) else this
    }
  }

  predicate TakesNoValue(operator: string) {
    operator == "isNull" || operator == "isNotNull"
  }

  function CheckCondition(f: Filter, path: Path, s: Checked, isFieldId: string -> bool): Checked
    requires f.Condition?
  {
    var valuePath := path + [Key("value")];
    s
      .Report(f.field.DataField? && !isFieldId(f.field.id), "INVALID_FIELD_REFERENCE",
              path + [Key("field"), Key("fieldId")])
      .Report(TakesNoValue(f.operator) && f.value != Undefined, "FILTER_VALUE_FORBIDDEN", valuePath)
      .Report(!TakesNoValue(f.operator) && f.value == Undefined, "FILTER_VALUE_REQUIRED", valuePath)
      .Report(f.operator == "in" && (!f.value.Arr? || f.value.items == []), "FILTER_ARRAY_REQUIRED", valuePath)
      .Report(f.operator != "in" && f.value.Arr?, "FILTER_SCALAR_REQUIRED", valuePath)
  }

  function Check(f: Filter, path: Path, depth: nat, s: Checked, isFieldId: string -> bool): Checked
    decreases f
  {
    var t := s.(count := s.count + 1);
    if t.count > 100 then t.Report(true, "FILTER_COMPLEXITY_EXCEEDED", path)
    else if depth > 8 then t.Report(true, "FILTER_DEPTH_EXCEEDED", path)
    else match f
      case Condition(_, _, _) => CheckCondition(f, path, t, isFieldId)
      case Group(_, filters) =>
        var inner := path + [Key("filters")];
        CheckAll(filters, inner, 0, depth + 1, t.Report(filters == [], "EMPTY_FILTER_GROUP", inner), isFieldId)
  }

  /** The filters of a group from position index on. */
  function CheckAll(fs: seq<Filter>, path: Path, index: nat, depth: nat, s: Checked, isFieldId: string -> bool): Checked
    decreases fs
  {
    if fs == [] then s
    else CheckAll(fs[1..], path, index + 1, depth, Check(fs[0], path + [Index(index)], depth, s, isFieldId), isFieldId)
  }

  // ---------------------------------------------------------------- the validator as it runs

  class FilterValidator {
    var issues: seq<Issue>
    var count: nat
    const isFieldId: string -> bool

    constructor (issues: seq<Issue>, isFieldId: string -> bool)
      ensures State() == Checked(issues, 0) && this.isFieldId == isFieldId
    {
      this.issues, this.isFieldId := issues, isFieldId;
      count := 0;
    }

    function State(): Checked
      reads this
    {
      Checked(issues, count)
    }

    method Add(applies: bool, code: string, path: Path)
      modifies this
      ensures State() == old(State()).Report(applies, code, path)
    {
      if applies {
        issues := issues + [Issue(code, path)];
      }
    }

    method ValidateFilter(filter: Filter, path: Path, depth: nat)
      modifies this
      ensures State() == Check(filter, path, depth, old(State()), isFieldId)
      decreases filter
    {
      count := count + 1;
      if count > 100 {
        Add(true, "FILTER_COMPLEXITY_EXCEEDED", path);
        return;
      }
      if depth > 8 {
        Add(true, "FILTER_DEPTH_EXCEEDED", path);
        return;
      }
      if filter.Group? {
        var inner, filters := path + [Key("filters")], filter.filters;
        Add(filters == [], "EMPTY_FILTER_GROUP", inner);
        ghost var start := State();
        for i := 0 to |filters|
          invariant CheckAll(filters[i..], inner, i, depth + 1, State(), isFieldId) ==
            CheckAll(filters, inner, 0, depth + 1, start, isFieldId)
        {
          assert filters[i..][0] == filters[i] && filters[i..][1..] == filters[i + 1..];
          ValidateFilter(filters[i], inner + [Index(i)], depth + 1);
        }
        return;
      }
      ValidateCondition(filter, path);
    }

    method ValidateCondition(filter: Filter, path: Path)
      requires filter.Condition?
      modifies this
      ensures State() == CheckCondition(filter, path, old(State()), isFieldId)
    {
      var valuePath := path + [Key("value")];
      if filter.field.DataField? {
        Add(!isFieldId(filter.field.id), "INVALID_FIELD_REFERENCE", path + [Key("field"), Key("fieldId")]);
      }
      var noValue := filter.operator == "isNull" || filter.operator == "isNotNull";
      Add(noValue && filter.value != Undefined, "FILTER_VALUE_FORBIDDEN", valuePath);
      Add(!noValue && filter.value == Undefined, "FILTER_VALUE_REQUIRED", valuePath);
      Add(filter.operator == "in" && (!filter.value.Arr? || filter.value.items == []),
          "FILTER_ARRAY_REQUIRED", valuePath);
      Add(filter.operator != "in" && filter.value.Arr?, "FILTER_SCALAR_REQUIRED", valuePath);
    }
  }

  // ---------------------------------------------------------------- what it accepts

  function Nodes(f: Filter): nat
    decreases f
  {
    match f
    case Condition(_, _, _) => 1
    case Group(_, filters) => 1 + AllNodes(filters)
  }

  function AllNodes(fs: seq<Filter>): nat
    decreases fs
  {
    if fs == [] then 0 else Nodes(fs[0]) + AllNodes(fs[1..])
  }

  /** Every node of the filter lies at most this many levels below the one at hand. */
  ghost predicate WithinDepth(f: Filter, levels: int)
    decreases f
  {
    levels >= 0 && (f.Group? ==> forall g | g in f.filters :: WithinDepth(g, levels - 1))
  }

  /** The operator goes with the shape of the value. */
  predicate OperatorFits(operator: string, value: Json) {
    match value
    case Undefined => operator == "isNull" || operator == "isNotNull"
    case Arr(items) => operator == "in" && items != []
    case _ => operator != "isNull" && operator != "isNotNull" && operator != "in"
  }

  ghost predicate WellFormed(f: Filter, isFieldId: string -> bool)
    decreases f
  {
    match f
    case Condition(field, operator, value) =>
      (field.DataField? ==> isFieldId(field.id)) && OperatorFits(operator, value)
    case Group(_, filters) => filters != [] && forall g | g in filters :: WellFormed(g, isFieldId)
  }

  ghost predicate Acceptable(f: Filter, depth: nat, isFieldId: string -> bool) {
    WithinDepth(f, 8 - depth) && WellFormed(f, isFieldId)
  }

  lemma ConditionIssues(f: Filter, path: Path, s: Checked, isFieldId: string -> bool)
    requires f.Condition?
    ensures s.issues <= CheckCondition(f, path, s, isFieldId).issues &&
      CheckCondition(f, path, s, isFieldId).count == s.count
    ensures CheckCondition(f, path, s, isFieldId).issues == s.issues <==> WellFormed(f, isFieldId)
  {
  }

  lemma {:induction false} CheckMeaning(f: Filter, path: Path, depth: nat, s: Checked, isFieldId: string -> bool)
    ensures
      var t := Check(f, path, depth, s, isFieldId);
      s.issues <= t.issues &&
      (t.issues == s.issues <==> s.count + Nodes(f) <= 100 && Acceptable(f, depth, isFieldId)) &&
      (t.issues == s.issues ==> t.count == s.count + Nodes(f))
    decreases f
  {
    var t := s.(count := s.count + 1);
    if t.count <= 100 && depth <= 8 {
      if f.Condition? {
        ConditionIssues(f, path, t, isFieldId);
      } else {
        var inner := path + [Key("filters")];
        CheckAllMeaning(
          f.filters, inner, 0, depth + 1, t.Report(f.filters == [], "EMPTY_FILTER_GROUP", inner), isFieldId);
      }
    }
  }

  lemma {:induction false} CheckAllMeaning(fs: seq<Filter>, path: Path, index: nat, depth: nat, s: Checked,
                                           isFieldId: string -> bool)
    ensures
      var t := CheckAll(fs, path, index, depth, s, isFieldId);
      s.issues <= t.issues &&
      (t.issues == s.issues <==>
        (fs == [] || s.count + AllNodes(fs) <= 100) && forall f | f in fs :: Acceptable(f, depth, isFieldId)) &&
      (t.issues == s.issues ==> t.count == s.count + AllNodes(fs))
    decreases fs
  {
    if fs != [] {
      var mid := Check(fs[0], path + [Index(index)], depth, s, isFieldId);
      CheckMeaning(fs[0], path + [Index(index)], depth, s, isFieldId);
      CheckAllMeaning(fs[1..], path, index + 1, depth, mid, isFieldId);
      assert forall f | f in fs :: f == fs[0] || f in fs[1..];
    }
  }

  /** No issue exactly if there are at most a hundred nodes, at most eight levels below the top, no
      empty group, and every condition names a field properly and fits its operator. */
  lemma FilterIsValidExactlyWhen(f: Filter, path: Path, isFieldId: string -> bool)
    ensures Check(f, path, 0, Checked([], 0), isFieldId).issues == [] <==>
            Nodes(f) <= 100 && WithinDepth(f, 8) && WellFormed(f, isFieldId)
  {
    CheckMeaning(f, path, 0, Checked([], 0), isFieldId);
  }
}
