/** What the validation of a filter reports: the faults of its nodes, each under its code and at its
    path, and nothing else. */
module FilterReports {
  import opened Json
  import opened Diff
  import opened FilterValidation

  ghost predicate ValueFault(operator: string, value: Json, code: string) {
    var unary := operator in {"isNull", "isNotNull"};
    (code == "FILTER_VALUE_FORBIDDEN" && unary && value != Undefined) ||
    (code == "FILTER_VALUE_REQUIRED" && !unary && value == Undefined) ||
    (code == "FILTER_ARRAY_REQUIRED" && operator == "in" && !(value.Arr? && value.items != [])) ||
    (code == "FILTER_SCALAR_REQUIRED" && operator != "in" && value.Arr?)
  }

  /** What is wrong at a path below a filter that lies so many levels down. */
  ghost predicate Fault(f: Filter, at: Path, code: string, depth: nat, isFieldId: string -> bool)
    decreases f
  {
    if depth > 8 then at == [] && code == "FILTER_DEPTH_EXCEEDED"
    else
      match f
      case Condition(field, operator, value) =>
        (at == [Key("field"), Key("fieldId")] && code == "INVALID_FIELD_REFERENCE" &&
          field.DataField? && !isFieldId(field.id)) ||
        (at == [Key("value")] && ValueFault(operator, value, code))
      case Group(_, filters) =>
        (at == [Key("filters")] && code == "EMPTY_FILTER_GROUP" && filters == []) ||
        (at != [] && at[0] == Key("filters") && FaultIn(filters, at[1..], code, depth + 1, isFieldId))
  }

  ghost predicate FaultIn(fs: seq<Filter>, at: Path, code: string, depth: nat, isFieldId: string -> bool)
    decreases fs
  {
    at != [] && at[0].Index? && at[0].index < |fs| && Fault(fs[at[0].index], at[1..], code, depth, isFieldId)
  }

  /** An issue is there exactly if it was before or is a fault below the path. */
  ghost predicate Reported(x: Issue, before: seq<Issue>, after: seq<Issue>, fault: bool) {
    x in after <==> x in before || fault
  }

  lemma {:induction false} CountIsBounded(f: Filter, path: Path, depth: nat, s: Checked, isFieldId: string -> bool)
    ensures Check(f, path, depth, s, isFieldId).count <= s.count + Nodes(f)
    decreases f
  {
    if f.Group? {
      var t := s.(count := s.count + 1);
      var inner := path + [Key("filters")];
      CountsAreBounded(f.filters, inner, 0, depth + 1, t.Report(f.filters == [], "EMPTY_FILTER_GROUP", inner),
        isFieldId);
    }
  }

  lemma {:induction false} CountsAreBounded(fs: seq<Filter>, path: Path, index: nat, depth: nat, s: Checked,
                                            isFieldId: string -> bool)
    ensures CheckAll(fs, path, index, depth, s, isFieldId).count <= s.count + AllNodes(fs)
    decreases fs
  {
    if fs != [] {
      CountIsBounded(fs[0], path + [Index(index)], depth, s, isFieldId);
      CountsAreBounded(fs[1..], path, index + 1, depth, Check(fs[0], path + [Index(index)], depth, s, isFieldId),
        isFieldId);
    }
  }

  lemma ConditionReports(f: Filter, path: Path, s: Checked, isFieldId: string -> bool, x: Issue, depth: nat)
    requires f.Condition? && depth <= 8
    ensures Reported(x, s.issues, CheckCondition(f, path, s, isFieldId).issues,
      path <= x.path && Fault(f, x.path[|path|..], x.code, depth, isFieldId))
  {
    ExtendsBy(path, [Key("field"), Key("fieldId")], x.path);
    ExtendsBy(path, [Key("value")], x.path);
  }

  lemma ExtendsBy(path: Path, rest: Path, full: Path)
    ensures full == path + rest <==> path <= full && full[|path|..] == rest
  {
  }

  /** Within the limit of a hundred nodes the issues added are exactly the faults. */
  lemma {:induction false} ReportsExactlyTheFaults(f: Filter, path: Path, depth: nat, s: Checked,
                                                   isFieldId: string -> bool, x: Issue)
    requires s.count + Nodes(f) <= 100
    ensures Reported(x, s.issues, Check(f, path, depth, s, isFieldId).issues,
      path <= x.path && Fault(f, x.path[|path|..], x.code, depth, isFieldId))
    decreases f
  {
    ExtendsBy(path, [], x.path);
    assert path + [] == path;
    if depth <= 8 {
      var t := s.(count := s.count + 1);
      match f
      case Condition(_, _, _) => ConditionReports(f, path, t, isFieldId, x, depth);
      case Group(_, filters) =>
        var inner := path + [Key("filters")];
        ExtendsBy(path, [Key("filters")], x.path);
        ReportsInExactly(filters, inner, 0, depth + 1, t.Report(filters == [], "EMPTY_FILTER_GROUP", inner), isFieldId,
          x);
        Below(path, Key("filters"), x.path);
        Below(inner, Key("filters"), x.path);
    }
  }

  lemma Below(path: Path, step: Step, full: Path)
    ensures path + [step] <= full <==> path < full && full[|path|] == step
    ensures path < full ==> full[|path|..][0] == full[|path|] && full[|path|..][1..] == full[|path| + 1..]
  {
  }

  lemma {:induction false} ReportsInExactly(fs: seq<Filter>, path: Path, index: nat, depth: nat, s: Checked,
                                            isFieldId: string -> bool, x: Issue)
    requires s.count + AllNodes(fs) <= 100
    ensures Reported(x, s.issues, CheckAll(fs, path, index, depth, s, isFieldId).issues,
      path < x.path && x.path[|path|].Index? && index <= x.path[|path|].index < index + |fs| &&
      Fault(fs[x.path[|path|].index - index], x.path[|path| + 1..], x.code, depth, isFieldId))
    decreases fs
  {
    if fs != [] {
      var mid := Check(fs[0], path + [Index(index)], depth, s, isFieldId);
      CountIsBounded(fs[0], path + [Index(index)], depth, s, isFieldId);
      ReportsExactlyTheFaults(fs[0], path + [Index(index)], depth, s, isFieldId, x);
      ReportsInExactly(fs[1..], path, index + 1, depth, mid, isFieldId, x);
      Below(path, Index(index), x.path);
    }
  }

  /** Whatever is reported beyond the limit, it lies below the path of the filter. */
  lemma {:induction false} ReportsStayInside(f: Filter, path: Path, depth: nat, s: Checked, isFieldId: string -> bool,
                                             x: Issue)
    requires x in Check(f, path, depth, s, isFieldId).issues && x !in s.issues
    ensures path <= x.path
    decreases f
  {
    if f.Group? && s.count + 1 <= 100 && depth <= 8 {
      var inner := path + [Key("filters")];
      var t := s.(count := s.count + 1).Report(f.filters == [], "EMPTY_FILTER_GROUP", inner);
      if x !in t.issues {
        AllReportsStayInside(f.filters, inner, 0, depth + 1, t, isFieldId, x);
      }
    }
  }

  lemma {:induction false} AllReportsStayInside(fs: seq<Filter>, path: Path, index: nat, depth: nat, s: Checked,
                                                isFieldId: string -> bool, x: Issue)
    requires x in CheckAll(fs, path, index, depth, s, isFieldId).issues && x !in s.issues
    ensures path <= x.path
    decreases fs
  {
    if fs != [] {
      var mid := Check(fs[0], path + [Index(index)], depth, s, isFieldId);
      if x in mid.issues {
        ReportsStayInside(fs[0], path + [Index(index)], depth, s, isFieldId, x);
      } else {
        AllReportsStayInside(fs[1..], path, index + 1, depth, mid, isFieldId, x);
      }
    }
  }

  /** Beyond the limit that is reported. */
  lemma {:induction false} ComplexityIsReported(f: Filter, path: Path, depth: nat, s: Checked,
                                                isFieldId: string -> bool)
    requires Check(f, path, depth, s, isFieldId).count > 100 && s.count <= 100
    ensures exists x :: x in Check(f, path, depth, s, isFieldId).issues && x.code == "FILTER_COMPLEXITY_EXCEEDED"
    decreases f
  {
    if s.count + 1 > 100 {
      assert Issue("FILTER_COMPLEXITY_EXCEEDED", path) in Check(f, path, depth, s, isFieldId).issues;
    } else {
      var inner := path + [Key("filters")];
      var t := s.(count := s.count + 1).Report(f.filters == [], "EMPTY_FILTER_GROUP", inner);
      ComplexityIsReportedIn(f.filters, inner, 0, depth + 1, t, isFieldId);
    }
  }

  lemma {:induction false} ComplexityIsReportedIn(fs: seq<Filter>, path: Path, index: nat, depth: nat, s: Checked,
                                                  isFieldId: string -> bool)
    requires CheckAll(fs, path, index, depth, s, isFieldId).count > 100 && s.count <= 100
    ensures exists x ::
      x in CheckAll(fs, path, index, depth, s, isFieldId).issues && x.code == "FILTER_COMPLEXITY_EXCEEDED"
    decreases fs
  {
    var mid := Check(fs[0], path + [Index(index)], depth, s, isFieldId);
    if mid.count > 100 {
      ComplexityIsReported(fs[0], path + [Index(index)], depth, s, isFieldId);
      CheckAllMeaning(fs[1..], path, index + 1, depth, mid, isFieldId);
    } else {
      ComplexityIsReportedIn(fs[1..], path, index + 1, depth, mid, isFieldId);
    }
  }
}
