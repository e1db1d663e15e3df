/** Validation of form layouts: ids and field placements are registered while the tree is visited. */
module LayoutValidation {
  import opened Wrappers
  import opened Sequences
  import opened Uniqueness
  import opened Diff
  import opened FilterValidation

  datatype Node =
    | Field(id: string, fieldId: string, widgetId: Option<string>, condition: Option<Filter>)
    | Tabs(id: string, tabs: seq<Tab>)
    | Container(id: string, children: seq<Node>)

  datatype Tab = Tab(id: string, children: seq<Node>)

  /** The tests on single identifiers, which are not part of this model. */
  datatype Rules = Rules(isPortableId: string -> bool, isFieldId: string -> bool, isWidget: string -> bool)

  const MAXIMUM_DEPTH := 8

  // ---------------------------------------------------------------- the validator as a function

  datatype Visited = Visited(issues: seq<Issue>, ids: set<string>, fields: set<string>) {
    function Report(applies: bool, code: string, path: Path): Visited {
      if applies then this.(issues := issues + [Issue(code, path)]) else this
    }

    function RegisterId(id: string, path: Path): Visited {
      Report(id in ids, "DUPLICATE_LAYOUT_ID", path).(ids := ids + {id})
    }

    function RegisterField(fieldId: string, path: Path): Visited {
      Report(fieldId in fields, "DUPLICATE_FIELD_PLACEMENT", path).(fields := fields + {fieldId})
    }
  }

  function Inside(path: Path, key: string): Path {
    path + [Key(key)]
  }

  /** A node or tab id: its form, then its uniqueness. */
  function EnterId(id: string, path: Path, s: Visited, rules: Rules): Visited {
    s.Report(!rules.isPortableId(id), "INVALID_PORTABLE_ID", Inside(path, "id")).RegisterId(id, Inside(path, "id"))
  }

  function EnterField(node: Node, path: Path, s: Visited, rules: Rules): Visited
    requires node.Field?
  {
    var placed := s
      .Report(!rules.isFieldId(node.fieldId), "INVALID_FIELD_REFERENCE", Inside(path, "fieldId"))
      .RegisterField(node.fieldId, Inside(path, "fieldId"))
      .Report(node.widgetId.Some? && !rules.isWidget(node.widgetId.value), "UNKNOWN_EXTENSION_REFERENCE",
              Inside(path, "widgetId"));
    if node.condition.None? then placed
    else
      placed.(issues :=
        Check(node.condition.value, Inside(path, "when"), 0, Checked(placed.issues, 0), rules.isFieldId).issues)
  }

  /** Tab ids are compared among themselves first, in a register of their own. */
  function UniqueTabs(tabs: seq<Tab>, path: Path, index: nat, seen: set<string>, s: Visited): Visited {
    if tabs == [] then s
    else
      UniqueTabs(tabs[1..], path, index + 1, seen + {tabs[0].id},
                 s.Report(tabs[0].id in seen, "DUPLICATE_LAYOUT_ID", path + [Index(index)]))
  }

  function VisitNode(node: Node, path: Path, depth: nat, s: Visited, rules: Rules): Visited
    decreases node
  {
    var entered := EnterId(node.id, path, s, rules);
    match node
    case Field(_, _, _, _) => EnterField(node, path, entered, rules)
    case Tabs(_, tabs) =>
      var inner := Inside(path, "tabs");
      var reported := entered.Report(tabs == [], "TAB_REQUIRED", inner);
      VisitTabs(tabs, inner, 0, depth, UniqueTabs(tabs, inner, 0, {}, reported), rules)
    case Container(_, children) =>
      var inner := Inside(path, "children");
      VisitList(children, inner, depth + 1, entered.Report(children == [], "LAYOUT_NODE_REQUIRED", inner), rules)
  }

  function VisitTabs(tabs: seq<Tab>, path: Path, index: nat, depth: nat, s: Visited, rules: Rules): Visited
    decreases tabs
  {
    if tabs == [] then s
    else
      var tabPath := path + [Index(index)];
      var inner := Inside(tabPath, "children");
      var entered :=
        EnterId(tabs[0].id, tabPath, s, rules).Report(tabs[0].children == [], "LAYOUT_NODE_REQUIRED", inner);
      VisitTabs(tabs[1..], path, index + 1, depth, VisitList(tabs[0].children, inner, depth + 1, entered, rules), rules)
  }

  function VisitList(nodes: seq<Node>, path: Path, depth: nat, s: Visited, rules: Rules): Visited
    decreases nodes, 1
  {
    if depth > MAXIMUM_DEPTH then s.Report(true, "LAYOUT_DEPTH_EXCEEDED", path)
    else VisitFrom(nodes, path, 0, depth, s, rules)
  }

  /** The nodes of a list from position index on. */
  function VisitFrom(nodes: seq<Node>, path: Path, index: nat, depth: nat, s: Visited, rules: Rules): Visited
    decreases nodes, 0
  {
    if nodes == [] then s
    else
      VisitFrom(nodes[1..], path, index + 1, depth, VisitNode(nodes[0], path + [Index(index)], depth, s, rules), rules)
  }

  function CheckLayout(nodes: seq<Node>, path: Path, issues: seq<Issue>, rules: Rules): Visited {
    VisitList(nodes, path, 0, Visited(issues, {}, {}).Report(nodes == [], "LAYOUT_NODE_REQUIRED", path), rules)
  }

  // ---------------------------------------------------------------- the validator as it runs

  class LayoutValidator {
    var issues: seq<Issue>
    var ids: set<string>
    var fields: set<string>
    const rules: Rules

    constructor (issues: seq<Issue>, rules: Rules)
      ensures State() == Visited(issues, {}, {}) && this.rules == rules
    {
      this.issues, this.rules := issues, rules;
      ids, fields := {}, {};
    }

    function State(): Visited
      reads this
    {
      Visited(issues, ids, fields)
    }

    method Add(applies: bool, code: string, path: Path)
      modifies this
      ensures State() == old(State()).Report(applies, code, path)
    {
      if applies {
        issues := issues + [Issue(code, path)];
      }
    }

    method ValidateId(id: string, path: Path)
      modifies this
      ensures State() == EnterId(id, path, old(State()), rules)
    {
      Add(!rules.isPortableId(id), "INVALID_PORTABLE_ID", Inside(path, "id"));
      Add(id in ids, "DUPLICATE_LAYOUT_ID", Inside(path, "id"));
      ids := ids + {id};
    }

    method ValidateField(node: Node, path: Path)
      requires node.Field?
      modifies this
      ensures State() == EnterField(node, path, old(State()), rules)
    {
      Add(!rules.isFieldId(node.fieldId), "INVALID_FIELD_REFERENCE", Inside(path, "fieldId"));
      Add(node.fieldId in fields, "DUPLICATE_FIELD_PLACEMENT", Inside(path, "fieldId"));
      fields := fields + {node.fieldId};
      if node.widgetId.Some? {
        Add(!rules.isWidget(node.widgetId.value), "UNKNOWN_EXTENSION_REFERENCE", Inside(path, "widgetId"));
      }
      if node.condition.Some? {
        var filters := new FilterValidator(issues, rules.isFieldId);
        filters.ValidateFilter(node.condition.value, Inside(path, "when"), 0);
        issues := filters.issues;
      }
    }

    method ValidateUniqueTabs(tabs: seq<Tab>, path: Path)
      modifies this
      ensures State() == UniqueTabs(tabs, path, 0, {}, old(State()))
    {
      var seen: set<string> := {};
      ghost var start := State();
      for i := 0 to |tabs|
        invariant UniqueTabs(tabs[i..], path, i, seen, State()) == UniqueTabs(tabs, path, 0, {}, start)
      {
        assert tabs[i..][0] == tabs[i] && tabs[i..][1..] == tabs[i + 1..];
        Add(tabs[i].id in seen, "DUPLICATE_LAYOUT_ID", path + [Index(i)]);
        seen := seen + {tabs[i].id};
      }
    }

    method VisitTabsOf(tabs: seq<Tab>, path: Path, depth: nat)
      modifies this
      ensures State() == VisitTabs(tabs, path, 0, depth, old(State()), rules)
      decreases tabs
    {
      ghost var start := State();
      for i := 0 to |tabs|
        invariant VisitTabs(tabs[i..], path, i, depth, State(), rules) == VisitTabs(tabs, path, 0, depth, start, rules)
      {
        assert tabs[i..][0] == tabs[i] && tabs[i..][1..] == tabs[i + 1..];
        var tabPath := path + [Index(i)];
        var inner := Inside(tabPath, "children");
        ValidateId(tabs[i].id, tabPath);
        Add(tabs[i].children == [], "LAYOUT_NODE_REQUIRED", inner);
        Visit(tabs[i].children, inner, depth + 1);
      }
    }

    method VisitOne(node: Node, path: Path, depth: nat)
      modifies this
      ensures State() == VisitNode(node, path, depth, old(State()), rules)
      decreases node
    {
      ValidateId(node.id, path);
      match node
      case Field(_, _, _, _) =>
        ValidateField(node, path);
      case Tabs(_, tabs) =>
        Add(tabs == [], "TAB_REQUIRED", Inside(path, "tabs"));
        ValidateUniqueTabs(tabs, Inside(path, "tabs"));
        VisitTabsOf(tabs, Inside(path, "tabs"), depth);
      case Container(_, children) =>
        Add(children == [], "LAYOUT_NODE_REQUIRED", Inside(path, "children"));
        Visit(children, Inside(path, "children"), depth + 1);
    }

    method Visit(items: seq<Node>, path: Path, depth: nat)
      modifies this
      ensures State() == VisitList(items, path, depth, old(State()), rules)
      decreases items
    {
      if depth > MAXIMUM_DEPTH {
        Add(true, "LAYOUT_DEPTH_EXCEEDED", path);
        return;
      }
      ghost var start := State();
      for i := 0 to |items|
        invariant VisitFrom(items[i..], path, i, depth, State(), rules) ==
          VisitFrom(items, path, 0, depth, start, rules)
      {
        assert items[i..][0] == items[i] && items[i..][1..] == items[i + 1..];
        VisitOne(items[i], path + [Index(i)], depth);
      }
    }
  }

  // ---------------------------------------------------------------- what it accepts

  /** The ids of all nodes and tabs, and the fields placed, in the order of the visit. */
  function Ids(node: Node): seq<string>
    decreases node
  {
    match node
    case Field(id, _, _, _) => [id]
    case Tabs(id, tabs) => [id] + TabIds(tabs)
    case Container(id, children) => [id] + AllIds(children)
  }

  function AllIds(nodes: seq<Node>): seq<string>
    decreases nodes
  {
    if nodes == [] then [] else Ids(nodes[0]) + AllIds(nodes[1..])
  }

  function TabIds(tabs: seq<Tab>): seq<string>
    decreases tabs
  {
    if tabs == [] then [] else [tabs[0].id] + AllIds(tabs[0].children) + TabIds(tabs[1..])
  }

  function Placed(node: Node): seq<string>
    decreases node
  {
    match node
    case Field(_, fieldId, _, _) => [fieldId]
    case Tabs(_, tabs) => TabPlaced(tabs)
    case Container(_, children) => AllPlaced(children)
  }

  function AllPlaced(nodes: seq<Node>): seq<string>
    decreases nodes
  {
    if nodes == [] then [] else Placed(nodes[0]) + AllPlaced(nodes[1..])
  }

  function TabPlaced(tabs: seq<Tab>): seq<string>
    decreases tabs
  {
    if tabs == [] then [] else AllPlaced(tabs[0].children) + TabPlaced(tabs[1..])
  }

  /** What is asked of each node and tab by itself: proper identifiers, a valid condition, and
      something inside every container, no list of nodes being more than the given levels down. */
  ghost predicate Proper(node: Node, levels: int, rules: Rules)
    decreases node
  {
    rules.isPortableId(node.id) &&
    match node
    case Field(_, _, _, _) => ProperField(node, rules)
    case Tabs(_, tabs) => tabs != [] && forall t | t in tabs :: ProperTab(t, levels, rules)
    case Container(_, children) => ProperChildren(children, levels, rules)
  }

  ghost predicate ProperField(node: Node, rules: Rules)
    requires node.Field?
  {
    rules.isFieldId(node.fieldId) && (node.widgetId.Some? ==> rules.isWidget(node.widgetId.value)) &&
    (node.condition.Some? ==>
      Nodes(node.condition.value) <= 100 && WithinDepth(node.condition.value, 8) &&
      WellFormed(node.condition.value, rules.isFieldId))
  }

  ghost predicate ProperTab(t: Tab, levels: int, rules: Rules)
    decreases t
  {
    rules.isPortableId(t.id) && ProperChildren(t.children, levels, rules)
  }

  ghost predicate ProperChildren(children: seq<Node>, levels: int, rules: Rules)
    decreases children
  {
    children != [] && levels > 0 && forall c | c in children :: Proper(c, levels - 1, rules)
  }

  // ---------------------------------------------------------------- what a part of the visit does

  /** A part of the visit that registers these ids and fields reports nothing exactly if all of
      them are new and the part is proper otherwise. */
  ghost predicate Registers(s: Visited, t: Visited, ids: seq<string>, fields: seq<string>, proper: bool) {
    s.issues <= t.issues &&
    (t.issues == s.issues <==> proper && AllNew(ids, s.ids) && AllNew(fields, s.fields)) &&
    (t.issues == s.issues ==> t.ids == s.ids + Elements(ids) && t.fields == s.fields + Elements(fields))
  }

  lemma InSequence(s: Visited, m: Visited, t: Visited, ids: seq<string>, moreIds: seq<string>,
                   fields: seq<string>, moreFields: seq<string>, proper: bool, moreProper: bool)
    requires Registers(s, m, ids, fields, proper) && Registers(m, t, moreIds, moreFields, moreProper)
    ensures Registers(s, t, ids + moreIds, fields + moreFields, proper && moreProper)
  {
    AllNewConcat(ids, moreIds, s.ids);
    AllNewConcat(fields, moreFields, s.fields);
    assert Elements(ids + moreIds) == Elements(ids) + Elements(moreIds);
    assert Elements(fields + moreFields) == Elements(fields) + Elements(moreFields);
  }

  lemma NothingNew(s: Visited)
    ensures Registers(s, s, [], [], true)
  {
    assert s.ids + Elements([]) == s.ids && s.fields + Elements([]) == s.fields;
  }

  lemma OnlyReports(s: Visited, applies: bool, code: string, path: Path)
    ensures Registers(s, s.Report(applies, code, path), [], [], !applies)
  {
    NothingNew(s);
  }

  lemma ReportKeepsRegisters(s: Visited, applies: bool, code: string, path: Path)
    ensures s.Report(applies, code, path).ids == s.ids && s.Report(applies, code, path).fields == s.fields
    ensures s.issues <= s.Report(applies, code, path).issues
    ensures s.Report(applies, code, path).issues == s.issues <==> !applies
  {
  }

  lemma RegisterIdRegisters(id: string, path: Path, s: Visited)
    ensures Registers(s, s.RegisterId(id, path), [id], [], true)
  {
    ReportKeepsRegisters(s, id in s.ids, "DUPLICATE_LAYOUT_ID", path);
    JustOne(id, s.ids);
    JustOne(id, s.fields);
  }

  lemma EnterIdRegisters(id: string, path: Path, s: Visited, rules: Rules)
    ensures Registers(s, EnterId(id, path, s, rules), [id], [], rules.isPortableId(id))
  {
    var reported := s.Report(!rules.isPortableId(id), "INVALID_PORTABLE_ID", Inside(path, "id"));
    OnlyReports(s, !rules.isPortableId(id), "INVALID_PORTABLE_ID", Inside(path, "id"));
    RegisterIdRegisters(id, Inside(path, "id"), reported);
    InSequence(s, reported, EnterId(id, path, s, rules), [], [id], [], [], rules.isPortableId(id), true);
    assert [] + [id] == [id];
  }

  lemma EnterFieldRegisters(node: Node, path: Path, s: Visited, rules: Rules)
    requires node.Field?
    ensures Registers(s, EnterField(node, path, s, rules), [], [node.fieldId], ProperField(node, rules))
  {
    var x := node.fieldId;
    assert [x][1..] == [] && Elements([x]) == {x} && s.ids + Elements([]) == s.ids;
    if node.condition.Some? {
      var placed := EnterField(node.(condition := None), path, s, rules);
      CheckMeaning(node.condition.value, Inside(path, "when"), 0, Checked(placed.issues, 0), rules.isFieldId);
    }
  }

  function TabNames(tabs: seq<Tab>): seq<string> {
    if tabs == [] then [] else [tabs[0].id] + TabNames(tabs[1..])
  }

  lemma {:induction false} UniqueTabsRegisters(tabs: seq<Tab>, path: Path, index: nat, seen: set<string>, s: Visited)
    ensures Registers(s, UniqueTabs(tabs, path, index, seen, s), [], [], AllNew(TabNames(tabs), seen))
    decreases |tabs|
  {
    NothingNew(s);
    if tabs != [] {
      var reported := s.Report(tabs[0].id in seen, "DUPLICATE_LAYOUT_ID", path + [Index(index)]);
      UniqueTabsRegisters(tabs[1..], path, index + 1, seen + {tabs[0].id}, reported);
      assert TabNames(tabs)[1..] == TabNames(tabs[1..]);
    }
  }

  /** The register of the tabs alone adds nothing to the register of the whole layout. */
  lemma {:induction false} TabsAreNewAnyway(tabs: seq<Tab>, seen: set<string>, fewer: set<string>)
    requires AllNew(TabIds(tabs), seen) && fewer <= seen
    ensures AllNew(TabNames(tabs), fewer)
    decreases |tabs|
  {
    if tabs != [] {
      var head := [tabs[0].id] + AllIds(tabs[0].children);
      AllNewConcat(head, TabIds(tabs[1..]), seen);
      assert head[0] in Elements(head) && AllNew(head, seen);
      TabsAreNewAnyway(tabs[1..], seen + Elements(head), fewer + {tabs[0].id});
      assert TabNames(tabs)[1..] == TabNames(tabs[1..]);
    }
  }

  lemma {:induction false} VisitNodeRegisters(node: Node, path: Path, depth: nat, s: Visited, rules: Rules)
    requires depth <= MAXIMUM_DEPTH
    ensures Registers(s, VisitNode(node, path, depth, s, rules), Ids(node), Placed(node),
                      Proper(node, MAXIMUM_DEPTH - depth, rules))
    decreases node
  {
    var entered := EnterId(node.id, path, s, rules);
    EnterIdRegisters(node.id, path, s, rules);
    match node
    case Field(_, _, _, _) =>
      EnterFieldRegisters(node, path, entered, rules);
      InSequence(s, entered, EnterField(node, path, entered, rules), [node.id], [], [], [node.fieldId],
                 rules.isPortableId(node.id), ProperField(node, rules));
      assert [node.id] + [] == [node.id] && [] + [node.fieldId] == [node.fieldId];
    case Tabs(_, tabs) =>
      TabsRegister(tabs, Inside(path, "tabs"), depth, entered, rules);
      InSequence(s, entered, VisitNode(node, path, depth, s, rules), [node.id], TabIds(tabs), [], TabPlaced(tabs),
                 rules.isPortableId(node.id),
                 tabs != [] && forall t | t in tabs :: ProperTab(t, MAXIMUM_DEPTH - depth, rules));
      assert [] + TabPlaced(tabs) == TabPlaced(tabs);
    case Container(_, children) =>
      ChildrenRegister(children, Inside(path, "children"), depth, entered, rules);
      InSequence(s, entered, VisitNode(node, path, depth, s, rules),
                 [node.id], AllIds(children), [], AllPlaced(children),
                 rules.isPortableId(node.id), ProperChildren(children, MAXIMUM_DEPTH - depth, rules));
      assert [] + AllPlaced(children) == AllPlaced(children);
  }

  /** The list inside a container: it is not empty, and its nodes are visited one level down. */
  lemma {:induction false} ChildrenRegister(children: seq<Node>, path: Path, depth: nat, s: Visited, rules: Rules)
    requires depth <= MAXIMUM_DEPTH
    ensures
      var reported := s.Report(children == [], "LAYOUT_NODE_REQUIRED", path);
      Registers(s, VisitList(children, path, depth + 1, reported, rules), AllIds(children), AllPlaced(children),
                ProperChildren(children, MAXIMUM_DEPTH - depth, rules))
    decreases children, 2
  {
    var reported := s.Report(children == [], "LAYOUT_NODE_REQUIRED", path);
    OnlyReports(s, children == [], "LAYOUT_NODE_REQUIRED", path);
    VisitListRegisters(children, path, depth + 1, reported, rules);
    InSequence(s, reported, VisitList(children, path, depth + 1, reported, rules),
               [], AllIds(children), [], AllPlaced(children), children != [], ProperList(children, depth + 1, rules));
    assert [] + AllIds(children) == AllIds(children) && [] + AllPlaced(children) == AllPlaced(children);
  }

  lemma {:induction false} TabsRegister(tabs: seq<Tab>, path: Path, depth: nat, s: Visited, rules: Rules)
    requires depth <= MAXIMUM_DEPTH
    ensures
      var unique := UniqueTabs(tabs, path, 0, {}, s.Report(tabs == [], "TAB_REQUIRED", path));
      Registers(s, VisitTabs(tabs, path, 0, depth, unique, rules), TabIds(tabs), TabPlaced(tabs),
                tabs != [] && forall t | t in tabs :: ProperTab(t, MAXIMUM_DEPTH - depth, rules))
    decreases tabs, 1
  {
    var reported := s.Report(tabs == [], "TAB_REQUIRED", path);
    var unique := UniqueTabs(tabs, path, 0, {}, reported);
    OnlyReports(s, tabs == [], "TAB_REQUIRED", path);
    UniqueTabsRegisters(tabs, path, 0, {}, reported);
    VisitTabsRegisters(tabs, path, 0, depth, unique, rules);
    if AllNew(TabIds(tabs), s.ids) {
      TabsAreNewAnyway(tabs, s.ids, {});
    }
    var end := VisitTabs(tabs, path, 0, depth, unique, rules);
    InSequence(s, reported, unique, [], [], [], [], tabs != [], AllNew(TabNames(tabs), {}));
    assert [] + TabIds(tabs) == TabIds(tabs) && [] + TabPlaced(tabs) == TabPlaced(tabs) && [] + TabIds([]) == [];
    InSequence(s, unique, end, [], TabIds(tabs), [], TabPlaced(tabs),
               tabs != [] && AllNew(TabNames(tabs), {}), ProperTabs(tabs, depth, rules));
  }

  ghost predicate ProperTabs(tabs: seq<Tab>, depth: nat, rules: Rules) {
    forall t | t in tabs :: ProperTab(t, MAXIMUM_DEPTH - depth, rules)
  }

  ghost predicate ProperList(nodes: seq<Node>, depth: nat, rules: Rules) {
    depth <= MAXIMUM_DEPTH && forall c | c in nodes :: Proper(c, MAXIMUM_DEPTH - depth, rules)
  }

  lemma ProperTabsSplit(tabs: seq<Tab>, depth: nat, rules: Rules)
    requires tabs != []
    ensures ProperTabs(tabs, depth, rules) <==>
      ProperTab(tabs[0], MAXIMUM_DEPTH - depth, rules) && ProperTabs(tabs[1..], depth, rules)
  {
    var levels := MAXIMUM_DEPTH - depth;
    assert tabs[0] in tabs && forall t | t in tabs[1..] :: t in tabs;
    if ProperTab(tabs[0], levels, rules) && ProperTabs(tabs[1..], depth, rules) {
      forall t | t in tabs ensures ProperTab(t, levels, rules) {
        assert t == tabs[0] || t in tabs[1..];
      }
    }
  }

  lemma ProperListSplit(nodes: seq<Node>, depth: nat, rules: Rules)
    requires nodes != []
    ensures ProperList(nodes, depth, rules) <==>
      depth <= MAXIMUM_DEPTH && Proper(nodes[0], MAXIMUM_DEPTH - depth, rules) && ProperList(nodes[1..], depth, rules)
  {
    var levels := MAXIMUM_DEPTH - depth;
    assert nodes[0] in nodes && forall c | c in nodes[1..] :: c in nodes;
    if Proper(nodes[0], levels, rules) && ProperList(nodes[1..], depth, rules) {
      forall c | c in nodes ensures Proper(c, levels, rules) {
        assert c == nodes[0] || c in nodes[1..];
      }
    }
  }

  lemma {:induction false} VisitTabsRegisters(tabs: seq<Tab>, path: Path, index: nat, depth: nat, s: Visited,
                                              rules: Rules)
    requires depth <= MAXIMUM_DEPTH
    ensures Registers(s, VisitTabs(tabs, path, index, depth, s, rules), TabIds(tabs), TabPlaced(tabs),
                      ProperTabs(tabs, depth, rules))
    decreases tabs, 0
  {
    NothingNew(s);
    if tabs != [] {
      var tab, tabPath := tabs[0], path + [Index(index)];
      var entered := EnterId(tab.id, tabPath, s, rules);
      EnterIdRegisters(tab.id, tabPath, s, rules);
      ChildrenRegister(tab.children, Inside(tabPath, "children"), depth, entered, rules);
      var visited := VisitList(tab.children, Inside(tabPath, "children"), depth + 1,
                               entered.Report(tab.children == [], "LAYOUT_NODE_REQUIRED", Inside(tabPath, "children")),
                               rules);
      InSequence(s, entered, visited, [tab.id], AllIds(tab.children), [], AllPlaced(tab.children),
                 rules.isPortableId(tab.id), ProperChildren(tab.children, MAXIMUM_DEPTH - depth, rules));
      assert [] + AllPlaced(tab.children) == AllPlaced(tab.children);
      VisitTabsRegisters(tabs[1..], path, index + 1, depth, visited, rules);
      InSequence(s, visited, VisitTabs(tabs[1..], path, index + 1, depth, visited, rules),
                 [tab.id] + AllIds(tab.children), TabIds(tabs[1..]), AllPlaced(tab.children), TabPlaced(tabs[1..]),
                 ProperTab(tab, MAXIMUM_DEPTH - depth, rules), ProperTabs(tabs[1..], depth, rules));
      ProperTabsSplit(tabs, depth, rules);
    }
  }

  lemma {:induction false} VisitListRegisters(nodes: seq<Node>, path: Path, depth: nat, s: Visited, rules: Rules)
    ensures Registers(s, VisitList(nodes, path, depth, s, rules), AllIds(nodes), AllPlaced(nodes),
                      ProperList(nodes, depth, rules))
    decreases nodes, 1
  {
    if depth <= MAXIMUM_DEPTH {
      VisitFromRegisters(nodes, path, 0, depth, s, rules);
    }
  }

  lemma {:induction false} VisitFromRegisters(nodes: seq<Node>, path: Path, index: nat, depth: nat, s: Visited,
                                              rules: Rules)
    requires depth <= MAXIMUM_DEPTH
    ensures Registers(s, VisitFrom(nodes, path, index, depth, s, rules), AllIds(nodes), AllPlaced(nodes),
                      ProperList(nodes, depth, rules))
    decreases nodes, 0
  {
    NothingNew(s);
    if nodes != [] {
      var mid := VisitNode(nodes[0], path + [Index(index)], depth, s, rules);
      VisitNodeRegisters(nodes[0], path + [Index(index)], depth, s, rules);
      VisitFromRegisters(nodes[1..], path, index + 1, depth, mid, rules);
      InSequence(s, mid, VisitFrom(nodes[1..], path, index + 1, depth, mid, rules), Ids(nodes[0]), AllIds(nodes[1..]),
                 Placed(nodes[0]), AllPlaced(nodes[1..]), Proper(nodes[0], MAXIMUM_DEPTH - depth, rules),
                 ProperList(nodes[1..], depth, rules));
      ProperListSplit(nodes, depth, rules);
    }
  }

  /** No issue exactly if the layout is not empty, all node and tab ids are different across the
      whole tree, no field is placed twice, and every node is proper at most eight levels down. */
  lemma LayoutIsValidExactlyWhen(nodes: seq<Node>, path: Path, issues: seq<Issue>, rules: Rules)
    ensures issues <= CheckLayout(nodes, path, issues, rules).issues
    ensures CheckLayout(nodes, path, issues, rules).issues == issues <==>
            nodes != [] && NoDuplicates(AllIds(nodes)) && NoDuplicates(AllPlaced(nodes)) &&
            forall c | c in nodes :: Proper(c, 8, rules)
  {
    var s := Visited(issues, {}, {});
    var reported := s.Report(nodes == [], "LAYOUT_NODE_REQUIRED", path);
    VisitListRegisters(nodes, path, 0, reported, rules);
    AllNewMeaning(AllIds(nodes), {});
    AllNewMeaning(AllPlaced(nodes), {});
  }

  method ValidateFormLayout(issues: seq<Issue>, nodes: seq<Node>, path: Path, rules: Rules) returns (r: seq<Issue>)
    ensures r == CheckLayout(nodes, path, issues, rules).issues && issues <= r
    ensures r == issues <==>
      nodes != [] && NoDuplicates(AllIds(nodes)) && NoDuplicates(AllPlaced(nodes)) &&
      forall c | c in nodes :: Proper(c, 8, rules)
  {
    LayoutIsValidExactlyWhen(nodes, path, issues, rules);
    var validator := new LayoutValidator(issues, rules);
    validator.Add(nodes == [], "LAYOUT_NODE_REQUIRED", path);
    validator.Visit(nodes, path, 0);
    r := validator.issues;
  }
}
