/** What the validation of the navigation reports besides double ids: the faults of its items, each
    under its code and at its path, and nothing else. */
module NavigationReports {
  import opened Wrappers
  import opened Diff
  import opened FilterValidation
  import opened FilterReports
  import N = NavigationValidation

  ghost predicate NameFault(item: N.Item, at: Path, code: string, rules: N.Rules) {
    (at == [Key("id")] && code == "INVALID_PORTABLE_ID" && !rules.isPortableId(item.id)) ||
    (at == [Key("label")] && code == "INVALID_DISPLAY_TEXT" && !rules.isName(item.caption)) ||
    (at == [Key("icon")] && code == "INVALID_DISPLAY_TEXT" && item.icon.Some? && !rules.isIcon(item.icon.value))
  }

  ghost predicate TargetFault(item: N.Item, at: Path, code: string, rules: N.Rules) {
    (at == [] && code == "EMPTY_NAVIGATION_ITEM" && item.pageId.None? &&
      (item.children == None || item.children == Some([]))) ||
    (at == [Key("pageId")] && code == "UNKNOWN_PAGE_REFERENCE" && item.pageId.Some? &&
      item.pageId.value !in rules.pageIds) ||
    (at == [Key("children")] && code == "EMPTY_NAVIGATION_CHILDREN" && item.children == Some([])) ||
    (at != [] && at[0] == Key("visibility") && item.visibility.Some? &&
      Issue(code, at[1..]) in rules.visibilityIssues(item.visibility.value))
  }

  /** What is wrong at a path below an item that lies so many levels down, inside the items under visit. */
  ghost predicate ItemFault(items: N.Items, n: nat, at: Path, code: string, active: set<nat>, depth: nat,
                            rules: N.Rules)
    requires N.Closed(items) && n in items
    decreases |at|
  {
    if n in active then at == [] && code == "NAVIGATION_CYCLE"
    else if depth > 12 then at == [] && code == "NAVIGATION_DEPTH_EXCEEDED"
    else
      NameFault(items[n], at, code, rules) || TargetFault(items[n], at, code, rules) ||
      (at != [] && at[0] == Key("children") &&
        ListFault(items, N.Children(items[n]), at[1..], code, active + {n}, depth + 1, rules))
  }

  ghost predicate ListFault(items: N.Items, ns: seq<nat>, at: Path, code: string, active: set<nat>, depth: nat,
                            rules: N.Rules)
    requires N.Closed(items) && N.ChildrenIn(items, ns)
    decreases |at|
  {
    at != [] && at[0].Index? && at[0].index < |ns| &&
    ItemFault(items, ns[at[0].index], at[1..], code, active, depth, rules)
  }

  ghost predicate Double(code: string) {
    code == "DUPLICATE_NAVIGATION_ID"
  }

  lemma NameReports(item: N.Item, path: Path, s: N.Visited, rules: N.Rules, x: Issue)
    requires !Double(x.code)
    ensures Reported(x, s.issues, N.EnterName(item, path, s, rules).issues,
      path <= x.path && NameFault(item, x.path[|path|..], x.code, rules))
  {
    ExtendsBy(path, [Key("id")], x.path);
    ExtendsBy(path, [Key("label")], x.path);
    ExtendsBy(path, [Key("icon")], x.path);
  }

  lemma PlacedHolds(issues: seq<Issue>, path: Path, x: Issue)
    ensures x in N.Placed(issues, path) <==> path <= x.path && Issue(x.code, x.path[|path|..]) in issues
  {
    var placed := N.Placed(issues, path);
    if x in placed {
      var i :| 0 <= i < |placed| && placed[i] == x;
      ExtendsBy(path, issues[i].path, x.path);
      assert issues[i] == Issue(x.code, x.path[|path|..]);
    }
    if path <= x.path && Issue(x.code, x.path[|path|..]) in issues {
      var i :| 0 <= i < |issues| && issues[i] == Issue(x.code, x.path[|path|..]);
      ExtendsBy(path, issues[i].path, x.path);
      assert placed[i] == x;
    }
  }

  lemma TargetReports(item: N.Item, path: Path, s: N.Visited, rules: N.Rules, x: Issue)
    ensures Reported(x, s.issues, N.EnterTarget(item, path, s, rules).issues,
      path <= x.path && TargetFault(item, x.path[|path|..], x.code, rules))
  {
    ExtendsBy(path, [], x.path);
    assert path + [] == path;
    ExtendsBy(path, [Key("pageId")], x.path);
    ExtendsBy(path, [Key("children")], x.path);
    Below(path, Key("visibility"), x.path);
    if item.visibility.Some? {
      PlacedHolds(rules.visibilityIssues(item.visibility.value), path + [Key("visibility")], x);
    }
  }

  lemma OneItemReports(item: N.Item, path: Path, s: N.Visited, rules: N.Rules, x: Issue)
    requires !Double(x.code)
    ensures Reported(x, s.issues, N.EnterItem(item, path, s, rules).issues,
      path <= x.path &&
      (NameFault(item, x.path[|path|..], x.code, rules) || TargetFault(item, x.path[|path|..], x.code, rules)))
  {
    NameReports(item, path, s, rules, x);
    TargetReports(item, path, N.EnterName(item, path, s, rules), rules, x);
  }

  /** What an item adds by itself and what its children add come to the faults of the item. */
  lemma Together(items: N.Items, n: nat, path: Path, active: set<nat>, depth: nat, rules: N.Rules, x: Issue,
                 before: seq<Issue>, between: seq<Issue>, after: seq<Issue>)
    requires N.Closed(items) && n in items && n !in active && depth <= 12
    requires Reported(x, before, between,
      path <= x.path &&
      (NameFault(items[n], x.path[|path|..], x.code, rules) || TargetFault(items[n], x.path[|path|..], x.code, rules)))
    requires Reported(x, between, after,
      path + [Key("children")] <= x.path &&
      ListFault(items, N.Children(items[n]), x.path[|path + [Key("children")]|..], x.code, active + {n}, depth + 1,
        rules))
    ensures Reported(x, before, after,
      path <= x.path && ItemFault(items, n, x.path[|path|..], x.code, active, depth, rules))
  {
    Below(path, Key("children"), x.path);
  }

  /** The issues added are exactly the faults, but for ids that occur twice. */
  lemma {:induction false} ItemReports(items: N.Items, n: nat, path: Path, active: set<nat>, depth: nat, s: N.Visited,
                                       rules: N.Rules, x: Issue)
    requires N.Closed(items) && n in items && depth <= 13 && !Double(x.code)
    ensures Reported(x, s.issues, N.VisitItem(items, n, path, active, depth, s, rules).issues,
      path <= x.path && ItemFault(items, n, x.path[|path|..], x.code, active, depth, rules))
    decreases 13 - depth, 0, 0
  {
    ExtendsBy(path, [], x.path);
    assert path + [] == path;
    if n !in active && depth <= 12 {
      var item := items[n];
      OneItemReports(item, path, s, rules, x);
      var entered := N.EnterItem(item, path, s, rules);
      var inner := path + [Key("children")];
      AllReports(items, N.Children(item), inner, active + {n}, depth + 1, entered, rules, x);
      Together(items, n, path, active, depth, rules, x, s.issues, entered.issues,
        N.VisitItem(items, n, path, active, depth, s, rules).issues);
    }
  }

  lemma {:induction false} AllReports(items: N.Items, ns: seq<nat>, path: Path, active: set<nat>, depth: nat,
                                      s: N.Visited, rules: N.Rules, x: Issue)
    requires N.Closed(items) && N.ChildrenIn(items, ns) && depth <= 13 && !Double(x.code)
    ensures Reported(x, s.issues, N.VisitAll(items, ns, path, 0, active, depth, s, rules).issues,
      path <= x.path && ListFault(items, ns, x.path[|path|..], x.code, active, depth, rules))
    decreases 13 - depth, 2, 0
  {
    ListReports(items, ns, path, 0, active, depth, s, rules, x);
    Below(path, Key("children"), x.path);
  }

  lemma {:induction false} ListReports(items: N.Items, ns: seq<nat>, path: Path, index: nat, active: set<nat>,
                                       depth: nat, s: N.Visited, rules: N.Rules, x: Issue)
    requires N.Closed(items) && N.ChildrenIn(items, ns) && depth <= 13 && !Double(x.code)
    ensures Reported(x, s.issues, N.VisitAll(items, ns, path, index, active, depth, s, rules).issues,
      path < x.path && x.path[|path|].Index? && index <= x.path[|path|].index < index + |ns| &&
      ItemFault(items, ns[x.path[|path|].index - index], x.path[|path| + 1..], x.code, active, depth, rules))
    decreases 13 - depth, 1, |ns|
  {
    if ns != [] {
      assert ns[0] in ns && forall c | c in ns[1..] :: c in ns;
      ItemReports(items, ns[0], path + [Index(index)], active, depth, s, rules, x);
      ListReports(items, ns[1..], path, index + 1, active, depth,
        N.VisitItem(items, ns[0], path + [Index(index)], active, depth, s, rules), rules, x);
      Below(path, Index(index), x.path);
    }
  }

  /** What is reported on the navigation: that it is empty, double ids, and the faults of its items. */
  lemma NavigationReportsExactlyTheFaults(items: N.Items, roots: seq<nat>, issues: seq<Issue>, rules: N.Rules, x: Issue)
    requires N.Closed(items) && N.ChildrenIn(items, roots) && !Double(x.code)
    ensures Reported(x, issues, N.CheckNavigation(items, roots, issues, rules),
      (x == Issue("NAVIGATION_REQUIRED", [Key("navigation")]) && roots == []) ||
      (x.path != [] && x.path[0] == Key("navigation") && ListFault(items, roots, x.path[1..], x.code, {}, 0, rules)))
  {
    AllReports(items, roots, [Key("navigation")], {}, 0, N.Visited(issues, {}), rules, x);
    Below([], Key("navigation"), x.path);
  }
}
