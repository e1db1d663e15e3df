/** What the validation of a form layout reports besides double ids and placements: the faults of its
    nodes, each under its code and at its path, and nothing else. */
module LayoutReports {
  import opened Wrappers
  import opened Diff
  import opened FilterValidation
  import opened FilterReports
  import L = LayoutValidation

  ghost predicate FieldFault(node: L.Node, at: Path, code: string, rules: L.Rules)
    requires node.Field?
  {
    (at == [Key("fieldId")] && code == "INVALID_FIELD_REFERENCE" && !rules.isFieldId(node.fieldId)) ||
    (at == [Key("widgetId")] && code == "UNKNOWN_EXTENSION_REFERENCE" &&
      node.widgetId.Some? && !rules.isWidget(node.widgetId.value)) ||
    (at != [] && at[0] == Key("when") && node.condition.Some? &&
      Fault(node.condition.value, at[1..], code, 0, rules.isFieldId))
  }

  ghost predicate IdFault(id: string, at: Path, code: string, rules: L.Rules) {
    at == [Key("id")] && code == "INVALID_PORTABLE_ID" && !rules.isPortableId(id)
  }

  ghost predicate NodeFault(node: L.Node, at: Path, code: string, depth: nat, rules: L.Rules)
    decreases node
  {
    IdFault(node.id, at, code, rules) ||
    match node
    case Field(_, _, _, _) => FieldFault(node, at, code, rules)
    case Tabs(_, tabs) =>
      (at == [Key("tabs")] && code == "TAB_REQUIRED" && tabs == []) ||
      (|at| > 1 && at[0] == Key("tabs") && at[1].Index? && at[1].index < |tabs| &&
        TabFault(tabs[at[1].index], at[2..], code, depth, rules))
    case Container(_, children) =>
      at != [] && at[0] == Key("children") && ChildrenFault(children, at[1..], code, depth + 1, rules)
  }

  ghost predicate TabFault(tab: L.Tab, at: Path, code: string, depth: nat, rules: L.Rules)
    decreases tab
  {
    IdFault(tab.id, at, code, rules) ||
    (at != [] && at[0] == Key("children") && ChildrenFault(tab.children, at[1..], code, depth + 1, rules))
  }

  ghost predicate ChildrenFault(nodes: seq<L.Node>, at: Path, code: string, depth: nat, rules: L.Rules)
    decreases nodes, 1
  {
    (at == [] && code == "LAYOUT_NODE_REQUIRED" && nodes == []) || ListFault(nodes, at, code, depth, rules)
  }

  ghost predicate ListFault(nodes: seq<L.Node>, at: Path, code: string, depth: nat, rules: L.Rules)
    decreases nodes, 0
  {
    if depth > 8 then at == [] && code == "LAYOUT_DEPTH_EXCEEDED"
    else at != [] && at[0].Index? && at[0].index < |nodes| && NodeFault(nodes[at[0].index], at[1..], code, depth, rules)
  }

  /** No condition has more nodes than the validation of filters looks at. */
  ghost predicate SmallConditions(node: L.Node)
    decreases node
  {
    match node
    case Field(_, _, _, condition) => condition.Some? ==> Nodes(condition.value) <= 100
    case Tabs(_, tabs) => forall i | 0 <= i < |tabs| :: AllSmall(tabs[i].children)
    case Container(_, children) => AllSmall(children)
  }

  ghost predicate AllSmall(nodes: seq<L.Node>)
    decreases nodes
  {
    forall i | 0 <= i < |nodes| :: SmallConditions(nodes[i])
  }

  ghost predicate Double(code: string) {
    code in {"DUPLICATE_LAYOUT_ID", "DUPLICATE_FIELD_PLACEMENT"}
  }

  lemma IdReports(id: string, path: Path, s: L.Visited, rules: L.Rules, x: Issue)
    requires !Double(x.code)
    ensures Reported(x, s.issues, L.EnterId(id, path, s, rules).issues,
      path <= x.path && IdFault(id, x.path[|path|..], x.code, rules))
  {
    ExtendsBy(path, [Key("id")], x.path);
  }

  lemma FieldReports(node: L.Node, path: Path, s: L.Visited, rules: L.Rules, x: Issue)
    requires node.Field? && SmallConditions(node) && !Double(x.code)
    ensures Reported(x, s.issues, L.EnterField(node, path, s, rules).issues,
      path <= x.path && FieldFault(node, x.path[|path|..], x.code, rules))
  {
    ExtendsBy(path, [Key("fieldId")], x.path);
    ExtendsBy(path, [Key("widgetId")], x.path);
    if node.condition.Some? {
      var placed := L.EnterField(node.(condition := None), path, s, rules);
      ReportsExactlyTheFaults(node.condition.value, L.Inside(path, "when"), 0, Checked(placed.issues, 0),
        rules.isFieldId, x);
      Below(path, Key("when"), x.path);
    }
  }

  lemma {:induction false} UniqueTabsReport(tabs: seq<L.Tab>, path: Path, index: nat, seen: set<string>, s: L.Visited,
                                            x: Issue)
    requires !Double(x.code)
    ensures x in L.UniqueTabs(tabs, path, index, seen, s).issues <==> x in s.issues
    decreases |tabs|
  {
    if tabs != [] {
      UniqueTabsReport(tabs[1..], path, index + 1, seen + {tabs[0].id},
        s.Report(tabs[0].id in seen, "DUPLICATE_LAYOUT_ID", path + [Index(index)]), x);
    }
  }

  /** The issues added are exactly the faults, but for ids and fields that occur twice. */
  lemma {:induction false} NodeReports(node: L.Node, path: Path, depth: nat, s: L.Visited, rules: L.Rules, x: Issue)
    requires SmallConditions(node) && !Double(x.code)
    ensures Reported(x, s.issues, L.VisitNode(node, path, depth, s, rules).issues,
      path <= x.path && NodeFault(node, x.path[|path|..], x.code, depth, rules))
    decreases node
  {
    var entered := L.EnterId(node.id, path, s, rules);
    IdReports(node.id, path, s, rules, x);
    match node
    case Field(_, _, _, _) => FieldReports(node, path, entered, rules, x);
    case Tabs(_, tabs) =>
      TabsReport(tabs, L.Inside(path, "tabs"), depth, entered, rules, x);
      Below(path, Key("tabs"), x.path);
      ExtendsBy(path, [Key("tabs")], x.path);
      Below(L.Inside(path, "tabs"), Key("tabs"), x.path);
    case Container(_, children) =>
      ChildrenReport(children, L.Inside(path, "children"), depth + 1, entered, rules, x);
      Below(path, Key("children"), x.path);
  }

  lemma {:induction false} TabsReport(tabs: seq<L.Tab>, path: Path, depth: nat, s: L.Visited, rules: L.Rules, x: Issue)
    requires !Double(x.code) && forall i | 0 <= i < |tabs| :: AllSmall(tabs[i].children)
    ensures
      var unique := L.UniqueTabs(tabs, path, 0, {}, s.Report(tabs == [], "TAB_REQUIRED", path));
      Reported(x, s.issues, L.VisitTabs(tabs, path, 0, depth, unique, rules).issues,
        (x.path == path && x.code == "TAB_REQUIRED" && tabs == []) ||
        (path < x.path && x.path[|path|].Index? && x.path[|path|].index < |tabs| &&
          TabFault(tabs[x.path[|path|].index], x.path[|path| + 1..], x.code, depth, rules)))
    decreases tabs, 1
  {
    var reported := s.Report(tabs == [], "TAB_REQUIRED", path);
    UniqueTabsReport(tabs, path, 0, {}, reported, x);
    VisitTabsReport(tabs, path, 0, depth, L.UniqueTabs(tabs, path, 0, {}, reported), rules, x);
  }

  lemma {:induction false} VisitTabsReport(tabs: seq<L.Tab>, path: Path, index: nat, depth: nat, s: L.Visited,
                                           rules: L.Rules, x: Issue)
    requires !Double(x.code) && forall i | 0 <= i < |tabs| :: AllSmall(tabs[i].children)
    ensures Reported(x, s.issues, L.VisitTabs(tabs, path, index, depth, s, rules).issues,
      path < x.path && x.path[|path|].Index? && index <= x.path[|path|].index < index + |tabs| &&
      TabFault(tabs[x.path[|path|].index - index], x.path[|path| + 1..], x.code, depth, rules))
    decreases tabs, 0
  {
    if tabs != [] {
      var tabPath := path + [Index(index)];
      var inner := L.Inside(tabPath, "children");
      var entered := L.EnterId(tabs[0].id, tabPath, s, rules);
      IdReports(tabs[0].id, tabPath, s, rules, x);
      assert AllSmall(tabs[0].children);
      ChildrenReport(tabs[0].children, inner, depth + 1, entered, rules, x);
      Below(tabPath, Key("children"), x.path);
      Below(path, Index(index), x.path);
      var visited := L.VisitList(tabs[0].children, inner, depth + 1,
        entered.Report(tabs[0].children == [], "LAYOUT_NODE_REQUIRED", inner), rules);
      VisitTabsReport(tabs[1..], path, index + 1, depth, visited, rules, x);
    }
  }

  lemma {:induction false} ChildrenReport(nodes: seq<L.Node>, path: Path, depth: nat, s: L.Visited, rules: L.Rules,
                                          x: Issue)
    requires AllSmall(nodes) && !Double(x.code)
    ensures
      var reported := s.Report(nodes == [], "LAYOUT_NODE_REQUIRED", path);
      Reported(x, s.issues, L.VisitList(nodes, path, depth, reported, rules).issues,
        path <= x.path && ChildrenFault(nodes, x.path[|path|..], x.code, depth, rules))
    decreases nodes, 2
  {
    ExtendsBy(path, [], x.path);
    assert path + [] == path;
    ListReports(nodes, path, depth, s.Report(nodes == [], "LAYOUT_NODE_REQUIRED", path), rules, x);
  }

  lemma {:induction false} ListReports(nodes: seq<L.Node>, path: Path, depth: nat, s: L.Visited, rules: L.Rules,
                                       x: Issue)
    requires AllSmall(nodes) && !Double(x.code)
    ensures Reported(x, s.issues, L.VisitList(nodes, path, depth, s, rules).issues,
      path <= x.path && ListFault(nodes, x.path[|path|..], x.code, depth, rules))
    decreases nodes, 1
  {
    ExtendsBy(path, [], x.path);
    assert path + [] == path;
    if depth <= 8 {
      FromReports(nodes, path, 0, depth, s, rules, x);
      Below(path, Key("children"), x.path);
    }
  }

  lemma {:induction false} FromReports(nodes: seq<L.Node>, path: Path, index: nat, depth: nat, s: L.Visited,
                                       rules: L.Rules, x: Issue)
    requires AllSmall(nodes) && !Double(x.code)
    ensures Reported(x, s.issues, L.VisitFrom(nodes, path, index, depth, s, rules).issues,
      path < x.path && x.path[|path|].Index? && index <= x.path[|path|].index < index + |nodes| &&
      NodeFault(nodes[x.path[|path|].index - index], x.path[|path| + 1..], x.code, depth, rules))
    decreases nodes, 0
  {
    if nodes != [] {
      assert SmallConditions(nodes[0]) && AllSmall(nodes[1..]);
      NodeReports(nodes[0], path + [Index(index)], depth, s, rules, x);
      FromReports(nodes[1..], path, index + 1, depth, L.VisitNode(nodes[0], path + [Index(index)], depth, s, rules),
        rules, x);
      Below(path, Index(index), x.path);
    }
  }

  /** What is reported on a layout: that it is empty, double ids and placements, and the faults of its
      nodes. */
  lemma LayoutReportsExactlyTheFaults(nodes: seq<L.Node>, path: Path, issues: seq<Issue>, rules: L.Rules, x: Issue)
    requires AllSmall(nodes) && !Double(x.code)
    ensures Reported(x, issues, L.CheckLayout(nodes, path, issues, rules).issues,
      path <= x.path && ChildrenFault(nodes, x.path[|path|..], x.code, 0, rules))
  {
    ChildrenReport(nodes, path, 0, L.Visited(issues, {}, {}), rules, x);
  }
}
