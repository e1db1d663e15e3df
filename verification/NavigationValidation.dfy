/** Validation of the navigation: the items of all levels share a register of ids, nesting is limited,
    and an item that is met again inside itself is reported instead of being visited. */
module NavigationValidation {
  import opened Wrappers
  import opened Sequences
  import opened Uniqueness
  import opened Diff
  import opened FilterValidation

  /** Items are objects; children refer to them, so an item may be shared or contain itself. */
  datatype Item = Item(
    id: string, caption: string, icon: Option<string>, pageId: Option<string>, children: Option<seq<nat>>,
    visibility: Option<Visibility>)

  datatype Visibility = Visibility(
    allPermissions: seq<(string, string)>, anyPermissions: seq<(string, string)>, documentStatuses: seq<string>)

  type Items = map<nat, Item>

  /** The pages there are, and the tests on single values, which are not part of this model. The
      issues of a condition on visibility are relative to its path. */
  datatype Rules = Rules(
    pageIds: set<string>, isPortableId: string -> bool, isName: string -> bool, isIcon: string -> bool,
    visibilityIssues: Visibility -> seq<Issue>)

  const MAXIMUM_NESTING := 12

  function Children(item: Item): seq<nat> {
    if item.children.Some? then item.children.value else []
  }

  ghost predicate Closed(items: Items) {
    forall n | n in items :: ChildrenIn(items, Children(items[n]))
  }

  ghost predicate ChildrenIn(items: Items, ns: seq<nat>) {
    forall c | c in ns :: c in items
  }

  // ---------------------------------------------------------------- the validator as a function

  datatype Visited = Visited(issues: seq<Issue>, ids: set<string>) {
    function Report(applies: bool, code: string, path: Path): Visited {
      if applies then this.(issues := issues + [Issue(code, path)]) else this
    }

    function Append(more: seq<Issue>): Visited {
      this.(issues := issues + more)
    }

    function RegisterId(id: string, path: Path): Visited {
      Report(id in ids, "DUPLICATE_NAVIGATION_ID", path).(ids := ids + {id})
    }
  }

  function Placed(issues: seq<Issue>, path: Path): seq<Issue> {
    seq(|issues|, i requires 0 <= i < |issues| => Issue(issues[i].code, path + issues[i].path))
  }

  /** The item by itself: what it is called, then where it leads. */
  function EnterItem(item: Item, path: Path, s: Visited, rules: Rules): Visited {
    EnterTarget(item, path, EnterName(item, path, s, rules), rules)
  }

  function EnterName(item: Item, path: Path, s: Visited, rules: Rules): Visited {
    s.Report(!rules.isPortableId(item.id), "INVALID_PORTABLE_ID", path + [Key("id")])
      .RegisterId(item.id, path + [Key("id")])
      .Report(!rules.isName(item.caption), "INVALID_DISPLAY_TEXT", path + [Key("label")])
      .Report(item.icon.Some? && !rules.isIcon(item.icon.value), "INVALID_DISPLAY_TEXT", path + [Key("icon")])
  }

  function EnterTarget(item: Item, path: Path, s: Visited, rules: Rules): Visited {
    s.Report(item.pageId.None? && Children(item) == [], "EMPTY_NAVIGATION_ITEM", path)
      .Report(UnknownPage(item, rules), "UNKNOWN_PAGE_REFERENCE", path + [Key("pageId")])
      .Report(item.children == Some([]), "EMPTY_NAVIGATION_CHILDREN", path + [Key("children")])
      .Append(VisibilityIssues(item, path + [Key("visibility")], rules))
  }

  predicate UnknownPage(item: Item, rules: Rules) {
    item.pageId.Some? && item.pageId.value !in rules.pageIds
  }

  function VisibilityIssues(item: Item, path: Path, rules: Rules): seq<Issue> {
    if item.visibility.None? then [] else Placed(rules.visibilityIssues(item.visibility.value), path)
  }

  function VisitItem(items: Items, n: nat, path: Path, active: set<nat>, depth: nat, s: Visited, rules: Rules): Visited
    requires Closed(items) && n in items && depth <= MAXIMUM_NESTING + 1
    decreases MAXIMUM_NESTING + 1 - depth, 0
  {
    if n in active then s.Report(true, "NAVIGATION_CYCLE", path)
    else if depth > MAXIMUM_NESTING then s.Report(true, "NAVIGATION_DEPTH_EXCEEDED", path)
    else
      VisitAll(items, Children(items[n]), path + [Key("children")], 0, active + {n}, depth + 1,
               EnterItem(items[n], path, s, rules), rules)
  }

  /** The items of a list from position index on. */
  function VisitAll(items: Items, ns: seq<nat>, path: Path, index: nat, active: set<nat>, depth: nat, s: Visited,
                    rules: Rules): Visited
    requires Closed(items) && ChildrenIn(items, ns) && depth <= MAXIMUM_NESTING + 1
    decreases MAXIMUM_NESTING + 1 - depth, 1 + |ns|
  {
    if ns == [] then s
    else
      assert ns[0] in ns;
      VisitAll(items, ns[1..], path, index + 1, active, depth,
               VisitItem(items, ns[0], path + [Index(index)], active, depth, s, rules), rules)
  }

  function CheckNavigation(items: Items, roots: seq<nat>, issues: seq<Issue>, rules: Rules): seq<Issue>
    requires Closed(items) && ChildrenIn(items, roots)
  {
    VisitAll(items, roots, [Key("navigation")], 0, {}, 0, Visited(issues, {}), rules)
      .Report(roots == [], "NAVIGATION_REQUIRED", [Key("navigation")]).issues
  }

  // ---------------------------------------------------------------- the validator as it runs

  class NavigationValidator {
    var issues: seq<Issue>
    var ids: set<string>
    var active: set<nat>
    const items: Items
    const rules: Rules

    constructor (items: Items, issues: seq<Issue>, rules: Rules)
      ensures State() == Visited(issues, {}) && active == {} && this.items == items && this.rules == rules
    {
      this.items, this.issues, this.rules := items, issues, rules;
      ids, active := {}, {};
    }

    function State(): Visited
      reads this
    {
      Visited(issues, ids)
    }

    method Add(applies: bool, code: string, path: Path)
      modifies `issues
      ensures State() == old(State()).Report(applies, code, path)
    {
      if applies {
        issues := issues + [Issue(code, path)];
      }
    }

    method ValidateName(item: Item, path: Path)
      modifies `issues, `ids
      ensures State() == EnterName(item, path, old(State()), rules)
    {
      Add(!rules.isPortableId(item.id), "INVALID_PORTABLE_ID", path + [Key("id")]);
      Add(item.id in ids, "DUPLICATE_NAVIGATION_ID", path + [Key("id")]);
      ids := ids + {item.id};
      Add(!rules.isName(item.caption), "INVALID_DISPLAY_TEXT", path + [Key("label")]);
      if item.icon.Some? {
        Add(!rules.isIcon(item.icon.value), "INVALID_DISPLAY_TEXT", path + [Key("icon")]);
      }
    }

    method ValidateTarget(item: Item, path: Path)
      modifies `issues
      ensures State() == EnterTarget(item, path, old(State()), rules)
    {
      Add(item.pageId.None? && Children(item) == [], "EMPTY_NAVIGATION_ITEM", path);
      if item.pageId.Some? {
        Add(item.pageId.value !in rules.pageIds, "UNKNOWN_PAGE_REFERENCE", path + [Key("pageId")]);
      }
      if item.children.Some? {
        Add(item.children.value == [], "EMPTY_NAVIGATION_CHILDREN", path + [Key("children")]);
      }
      issues := issues + VisibilityIssues(item, path + [Key("visibility")], rules);
    }

    /** Items under visit are remembered; a return leaves that as it was. */
    method ValidateNavigation(n: nat, path: Path, depth: nat)
      requires Closed(items) && n in items && depth <= MAXIMUM_NESTING + 1
      modifies this
      ensures State() == VisitItem(items, n, path, old(active), depth, old(State()), rules) && active == old(active)
      decreases MAXIMUM_NESTING + 1 - depth, 0
    {
      if n in active {
        Add(true, "NAVIGATION_CYCLE", path);
        return;
      }
      if depth > MAXIMUM_NESTING {
        Add(true, "NAVIGATION_DEPTH_EXCEEDED", path);
        return;
      }
      active := active + {n};
      ValidateName(items[n], path);
      ValidateTarget(items[n], path);
      ValidateChildren(Children(items[n]), path + [Key("children")], depth + 1);
      active := active - {n};
    }

    method ValidateChildren(ns: seq<nat>, path: Path, depth: nat)
      requires Closed(items) && ChildrenIn(items, ns) && depth <= MAXIMUM_NESTING + 1
      modifies this
      ensures State() == VisitAll(items, ns, path, 0, old(active), depth, old(State()), rules) && active == old(active)
      decreases MAXIMUM_NESTING + 1 - depth, 1
    {
      ghost var start := State();
      for i := 0 to |ns|
        invariant active == old(active)
        invariant VisitAll(items, ns[i..], path, i, active, depth, State(), rules) ==
          VisitAll(items, ns, path, 0, active, depth, start, rules)
      {
        assert ns[i..][0] == ns[i] && ns[i..][1..] == ns[i + 1..];
        ValidateNavigation(ns[i], path + [Index(i)], depth);
      }
    }
  }

  // ---------------------------------------------------------------- what it accepts

  /** Nothing is wrong with the item itself. */
  predicate ProperItem(item: Item, rules: Rules) {
    ProperName(item, rules) && ProperTarget(item, rules)
  }

  predicate ProperName(item: Item, rules: Rules) {
    rules.isPortableId(item.id) && rules.isName(item.caption) && (item.icon.Some? ==> rules.isIcon(item.icon.value))
  }

  predicate ProperTarget(item: Item, rules: Rules) {
    (item.pageId.None? ==> item.children.Some?) && (item.pageId.Some? ==> item.pageId.value in rules.pageIds) &&
    item.children != Some([]) && (item.visibility.Some? ==> rules.visibilityIssues(item.visibility.value) == [])
  }

  /** The item and all below it are proper, and no chain of children is longer than the levels. */
  ghost predicate Proper(items: Items, n: nat, levels: int, rules: Rules)
    requires Closed(items) && n in items
    decreases levels
  {
    levels >= 0 && ProperItem(items[n], rules) &&
    forall c | c in Children(items[n]) :: Proper(items, c, levels - 1, rules)
  }

  /** The same, and no item is met inside itself or is one of those under visit. */
  ghost predicate Sound(items: Items, n: nat, levels: int, active: set<nat>, rules: Rules)
    requires Closed(items) && n in items
    decreases levels, 0
  {
    n !in active && levels >= 0 && ProperItem(items[n], rules) &&
    AllSound(items, Children(items[n]), levels - 1, active + {n}, rules)
  }

  ghost predicate AllSound(items: Items, ns: seq<nat>, levels: int, active: set<nat>, rules: Rules)
    requires Closed(items) && ChildrenIn(items, ns)
    decreases levels, 1
  {
    forall c | c in ns :: Sound(items, c, levels, active, rules)
  }

  /** The ids in the order of the visit, as far down as the levels reach; a shared item counts at
      each of its places. */
  function Ids(items: Items, n: nat, levels: int): seq<string>
    requires Closed(items) && n in items
    decreases levels, 0
  {
    if levels < 0 then [] else [items[n].id] + AllIds(items, Children(items[n]), levels - 1)
  }

  function AllIds(items: Items, ns: seq<nat>, levels: int): seq<string>
    requires Closed(items) && ChildrenIn(items, ns)
    decreases levels, 1 + |ns|
  {
    if ns == [] then []
    else
      assert ns[0] in ns;
      Ids(items, ns[0], levels) + AllIds(items, ns[1..], levels)
  }

  /** A part of the visit that registers these ids reports nothing exactly if all of them are new
      and the part is proper otherwise. */
  ghost predicate Enters(s: Visited, t: Visited, ids: seq<string>, proper: bool) {
    s.issues <= t.issues && (t.issues == s.issues <==> proper && AllNew(ids, s.ids)) &&
    (t.issues == s.issues ==> t.ids == s.ids + Elements(ids))
  }

  lemma InSequence(s: Visited, m: Visited, t: Visited, ids: seq<string>, moreIds: seq<string>, proper: bool,
                   moreProper: bool)
    requires Enters(s, m, ids, proper) && Enters(m, t, moreIds, moreProper)
    ensures Enters(s, t, ids + moreIds, proper && moreProper)
  {
    AllNewConcat(ids, moreIds, s.ids);
    assert Elements(ids + moreIds) == Elements(ids) + Elements(moreIds);
  }

  lemma NothingNew(s: Visited)
    ensures Enters(s, s, [], true)
  {
    assert s.ids + Elements([]) == s.ids;
  }

  lemma EnterNameEnters(item: Item, path: Path, s: Visited, rules: Rules)
    ensures Enters(s, EnterName(item, path, s, rules), [item.id], ProperName(item, rules))
  {
    JustOne(item.id, s.ids);
  }

  lemma EnterTargetEnters(item: Item, path: Path, s: Visited, rules: Rules)
    ensures Enters(s, EnterTarget(item, path, s, rules), [], ProperTarget(item, rules))
  {
    NothingNew(s);
    var found := VisibilityIssues(item, path + [Key("visibility")], rules);
    assert found == [] <==> (item.visibility.Some? ==> rules.visibilityIssues(item.visibility.value) == []);
  }

  /** What the reports on one item come to. */
  lemma EnterItemEnters(item: Item, path: Path, s: Visited, rules: Rules)
    ensures Enters(s, EnterItem(item, path, s, rules), [item.id], ProperItem(item, rules))
  {
    var named := EnterName(item, path, s, rules);
    EnterNameEnters(item, path, s, rules);
    EnterTargetEnters(item, path, named, rules);
    InSequence(s, named, EnterItem(item, path, s, rules), [item.id], [], ProperName(item, rules),
               ProperTarget(item, rules));
    assert [item.id] + [] == [item.id];
  }

  lemma {:induction false} VisitItemEnters(items: Items, n: nat, path: Path, active: set<nat>, depth: nat, s: Visited,
                                           rules: Rules)
    requires Closed(items) && n in items && depth <= MAXIMUM_NESTING + 1
    ensures Enters(s, VisitItem(items, n, path, active, depth, s, rules), Ids(items, n, MAXIMUM_NESTING - depth),
                   Sound(items, n, MAXIMUM_NESTING - depth, active, rules))
    decreases MAXIMUM_NESTING + 1 - depth, 0
  {
    if n !in active && depth <= MAXIMUM_NESTING {
      var levels, children := MAXIMUM_NESTING - depth, Children(items[n]);
      var entered := EnterItem(items[n], path, s, rules);
      EnterItemEnters(items[n], path, s, rules);
      VisitAllEnters(items, children, path + [Key("children")], 0, active + {n}, depth + 1, entered, rules);
      InSequence(s, entered, VisitItem(items, n, path, active, depth, s, rules), [items[n].id],
                 AllIds(items, children, levels - 1), ProperItem(items[n], rules),
                 AllSound(items, children, levels - 1, active + {n}, rules));
    }
  }

  lemma {:induction false} VisitAllEnters(items: Items, ns: seq<nat>, path: Path, index: nat, active: set<nat>,
                                          depth: nat, s: Visited, rules: Rules)
    requires Closed(items) && ChildrenIn(items, ns) && depth <= MAXIMUM_NESTING + 1
    ensures Enters(s, VisitAll(items, ns, path, index, active, depth, s, rules),
                   AllIds(items, ns, MAXIMUM_NESTING - depth),
                   AllSound(items, ns, MAXIMUM_NESTING - depth, active, rules))
    decreases MAXIMUM_NESTING + 1 - depth, 1 + |ns|
  {
    NothingNew(s);
    if ns != [] {
      var levels := MAXIMUM_NESTING - depth;
      assert ns[0] in ns && forall c | c in ns[1..] :: c in ns;
      var m := VisitItem(items, ns[0], path + [Index(index)], active, depth, s, rules);
      VisitItemEnters(items, ns[0], path + [Index(index)], active, depth, s, rules);
      VisitAllEnters(items, ns[1..], path, index + 1, active, depth, m, rules);
      InSequence(s, m, VisitAll(items, ns[1..], path, index + 1, active, depth, m, rules), Ids(items, ns[0], levels),
                 AllIds(items, ns[1..], levels), Sound(items, ns[0], levels, active, rules),
                 AllSound(items, ns[1..], levels, active, rules));
      AllSoundSplit(items, ns, levels, active, rules);
    }
  }

  lemma AllSoundSplit(items: Items, ns: seq<nat>, levels: int, active: set<nat>, rules: Rules)
    requires Closed(items) && ChildrenIn(items, ns) && ns != [] && ns[0] in items && ChildrenIn(items, ns[1..])
    ensures AllSound(items, ns, levels, active, rules) <==>
      Sound(items, ns[0], levels, active, rules) && AllSound(items, ns[1..], levels, active, rules)
  {
    assert forall c :: c in ns <==> c == ns[0] || c in ns[1..];
  }

  // ---------------------------------------------------------------- the guard against cycles

  ghost predicate Below(items: Items, a: nat, b: nat, steps: nat)
    requires Closed(items)
    decreases steps
  {
    a in items &&
    if steps == 0 then a == b else exists c :: c in Children(items[a]) && Below(items, c, b, steps - 1)
  }

  lemma {:induction false} BelowIsProper(items: Items, a: nat, b: nat, steps: nat, levels: int, rules: Rules)
    requires Closed(items) && a in items && b in items && Below(items, a, b, steps) && Proper(items, a, levels, rules)
    ensures Proper(items, b, levels - steps, rules)
    decreases steps
  {
    if steps > 0 {
      var c := FirstStep(items, a, b, steps);
      ChildIsProper(items, a, c, levels, rules);
      BelowIsProper(items, c, b, steps - 1, levels - 1, rules);
    }
  }

  lemma FirstStep(items: Items, a: nat, b: nat, steps: nat) returns (c: nat)
    requires Closed(items) && Below(items, a, b, steps) && steps > 0
    ensures c in Children(items[a]) && c in items && Below(items, c, b, steps - 1)
  {
    c :| c in Children(items[a]) && Below(items, c, b, steps - 1);
  }

  lemma ChildIsProper(items: Items, n: nat, c: nat, levels: int, rules: Rules)
    requires Closed(items) && n in items && c in items && c in Children(items[n]) && Proper(items, n, levels, rules)
    ensures Proper(items, c, levels - 1, rules)
  {
  }

  /** Within a limit of levels no item is inside itself. */
  lemma {:induction false} ProperHasNoCycle(items: Items, n: nat, steps: nat, levels: int, rules: Rules)
    requires Closed(items) && n in items && Proper(items, n, levels, rules) && steps > 0
    ensures !Below(items, n, n, steps)
    decreases levels
  {
    if Below(items, n, n, steps) {
      BelowIsProper(items, n, n, steps, levels, rules);
      ProperHasNoCycle(items, n, steps, levels - steps, rules);
    }
  }

  ghost predicate Avoids(items: Items, n: nat, active: set<nat>)
    requires Closed(items)
  {
    forall x, k: nat | Below(items, n, x, k) :: x !in active
  }

  /** The guard finds nothing that the limit of nesting would not find: it decides which of the two
      is reported, never whether one is. */
  lemma {:induction false} SoundExactlyWhen(items: Items, n: nat, levels: int, active: set<nat>, rules: Rules)
    requires Closed(items) && n in items
    ensures Sound(items, n, levels, active, rules) <==> Proper(items, n, levels, rules) && Avoids(items, n, active)
    decreases levels
  {
    if levels >= 0 && ProperItem(items[n], rules) {
      forall c | c in Children(items[n])
        ensures Sound(items, c, levels - 1, active + {n}, rules) <==>
          Proper(items, c, levels - 1, rules) && Avoids(items, c, active + {n})
      {
        SoundExactlyWhen(items, c, levels - 1, active + {n}, rules);
      }
      if Sound(items, n, levels, active, rules) {
        assert AllSound(items, Children(items[n]), levels - 1, active + {n}, rules);
        forall c | c in Children(items[n]) ensures Avoids(items, c, active + {n}) {
          assert Sound(items, c, levels - 1, active + {n}, rules);
        }
        SoundAvoids(items, n, active);
      }
      if Proper(items, n, levels, rules) && Avoids(items, n, active) {
        ProperChildrenAvoid(items, n, levels, active, rules);
      }
    }
  }

  lemma SoundAvoids(items: Items, n: nat, active: set<nat>)
    requires Closed(items) && n in items && n !in active
    requires forall c | c in Children(items[n]) :: Avoids(items, c, active + {n})
    ensures Avoids(items, n, active)
  {
    forall x, k: nat | Below(items, n, x, k) ensures x !in active {
      if k > 0 {
        var c :| c in Children(items[n]) && Below(items, c, x, k - 1);
        assert x !in active + {n};
      }
    }
  }

  lemma ProperChildrenAvoid(items: Items, n: nat, levels: int, active: set<nat>, rules: Rules)
    requires Closed(items) && n in items && Proper(items, n, levels, rules) && Avoids(items, n, active)
    ensures n !in active && forall c | c in Children(items[n]) :: Avoids(items, c, active + {n})
  {
    assert Below(items, n, n, 0);
    forall c, x, k: nat | c in Children(items[n]) && Below(items, c, x, k) ensures x !in active + {n} {
      assert Below(items, n, x, k + 1);
      ProperHasNoCycle(items, n, k + 1, levels, rules);
    }
  }

  /** No issue exactly if there is an item, every item is proper, no chain of children is longer than
      the limit (so none is cyclic), and the ids at all places differ. */
  lemma NavigationIsValidExactlyWhen(items: Items, roots: seq<nat>, issues: seq<Issue>, rules: Rules)
    requires Closed(items) && ChildrenIn(items, roots)
    ensures issues <= CheckNavigation(items, roots, issues, rules)
    ensures CheckNavigation(items, roots, issues, rules) == issues <==>
      roots != [] && (forall n | n in roots :: Proper(items, n, 12, rules)) &&
      NoDuplicates(AllIds(items, roots, 12))
  {
    VisitAllEnters(items, roots, [Key("navigation")], 0, {}, 0, Visited(issues, {}), rules);
    AllNewMeaning(AllIds(items, roots, MAXIMUM_NESTING), {});
    forall n | n in roots
      ensures Sound(items, n, MAXIMUM_NESTING, {}, rules) <==> Proper(items, n, MAXIMUM_NESTING, rules)
    {
      SoundExactlyWhen(items, n, MAXIMUM_NESTING, {}, rules);
    }
  }

  /** An item inside itself, anywhere below a root, never passes. */
  lemma CycleIsReported(items: Items, roots: seq<nat>, issues: seq<Issue>, rules: Rules, root: nat, n: nat, steps: nat,
                        around: nat)
    requires Closed(items) && ChildrenIn(items, roots) && root in roots && n in items
    requires Below(items, root, n, steps) && around > 0 && Below(items, n, n, around)
    ensures CheckNavigation(items, roots, issues, rules) != issues
  {
    NavigationIsValidExactlyWhen(items, roots, issues, rules);
    if Proper(items, root, MAXIMUM_NESTING, rules) {
      BelowIsProper(items, root, n, steps, MAXIMUM_NESTING, rules);
      ProperHasNoCycle(items, n, around, MAXIMUM_NESTING - steps, rules);
    }
  }

  method ValidateAllNavigation(items: Items, roots: seq<nat>, issues: seq<Issue>, rules: Rules)
    returns (r: seq<Issue>)
    requires Closed(items) && ChildrenIn(items, roots)
    ensures r == CheckNavigation(items, roots, issues, rules) && issues <= r
    ensures r == issues <==>
      roots != [] && (forall n | n in roots :: Proper(items, n, 12, rules)) &&
      NoDuplicates(AllIds(items, roots, 12))
  {
    NavigationIsValidExactlyWhen(items, roots, issues, rules);
    var validator := new NavigationValidator(items, issues, rules);
    validator.ValidateChildren(roots, [Key("navigation")], 0);
    validator.Add(roots == [], "NAVIGATION_REQUIRED", [Key("navigation")]);
    r := validator.issues;
  }
}
