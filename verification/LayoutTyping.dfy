/** Form layouts and detail layouts: the grammar accepts what they are written as, and nothing else. */
module LayoutTyping {
  import opened Wrappers
  import opened Json
  import opened Decode
  import opened DecodeProofs
  import opened ManifestGrammar
  import opened TypedValues
  import T = ManifestTypes

  lemma FieldWidthIsTyped(g: Grammar)
    requires Direct(g)
    ensures Typed(g, Strings(["full", "half", "third"]), T.WriteFieldWidth)
  {
    var shape := Strings(["full", "half", "third"]);
    forall m | Normal(m) && Accepts(g, shape, m) ensures Writes(T.WriteFieldWidth, m) {
      if m.v.s == "full" {
        Witness(T.WriteFieldWidth, T.Full, m);
      } else if m.v.s == "half" {
        Witness(T.WriteFieldWidth, T.Half, m);
      } else {
        Witness(T.WriteFieldWidth, T.Third, m);
      }
    }
  }

  lemma MaybeFieldWidthFits(g: Grammar, key: string, x: Option<T.FieldWidth>)
    requires Direct(g)
    ensures Fits(g, Field(key, false, Strings(["full", "half", "third"])), (key, T.Maybe(x, T.WriteFieldWidth)))
  {
    FieldWidthIsTyped(g);
    MaybeFits(g, key, Strings(["full", "half", "third"]), T.WriteFieldWidth, x);
  }

  lemma MaybeFieldWidthAt(g: Grammar, fields: seq<Field>, m: Meaning, i: nat, key: string)
    returns (x: Option<T.FieldWidth>)
    requires Direct(g) && Given(g, fields, m) && i < |fields|
    requires fields[i] == Field(key, false, Strings(["full", "half", "third"]))
    ensures Filled((key, T.Maybe(x, T.WriteFieldWidth)), m)
  {
    FieldWidthIsTyped(g);
    x := MaybeAt(g, fields, m, i, key, Strings(["full", "half", "third"]), T.WriteFieldWidth);
  }

  lemma SectionColumnsIsTyped(g: Grammar)
    requires Direct(g)
    ensures Typed(g, Numbers([1, 2, 3]), T.WriteSectionColumns)
  {
    var shape := Numbers([1, 2, 3]);
    forall m | Normal(m) && Accepts(g, shape, m) ensures Writes(T.WriteSectionColumns, m) {
      var n: T.SectionColumns := m.v.n.value.Floor;
      Witness(T.WriteSectionColumns, n, m);
    }
  }

  lemma MaybeSectionColumnsFits(g: Grammar, key: string, x: Option<T.SectionColumns>)
    requires Direct(g)
    ensures Fits(g, Field(key, false, Numbers([1, 2, 3])), (key, T.Maybe(x, T.WriteSectionColumns)))
  {
    SectionColumnsIsTyped(g);
    MaybeFits(g, key, Numbers([1, 2, 3]), T.WriteSectionColumns, x);
  }

  lemma MaybeSectionColumnsAt(g: Grammar, fields: seq<Field>, m: Meaning, i: nat, key: string)
    returns (x: Option<T.SectionColumns>)
    requires Direct(g) && Given(g, fields, m) && i < |fields| && fields[i] == Field(key, false, Numbers([1, 2, 3]))
    ensures Filled((key, T.Maybe(x, T.WriteSectionColumns)), m)
  {
    SectionColumnsIsTyped(g);
    x := MaybeAt(g, fields, m, i, key, Numbers([1, 2, 3]), T.WriteSectionColumns);
  }

  lemma FormNodesAreEach(xs: seq<T.FormNode>)
    ensures T.WriteEach(xs, T.WriteFormNode) == Arr(T.WriteFormNodes(xs))
  {
    assert T.WriteEach(xs, T.WriteFormNode).items == T.WriteFormNodes(xs);
  }

  lemma TabsAreEach(xs: seq<T.Tab>)
    ensures T.WriteEach(xs, T.WriteTab) == Arr(T.WriteTabs(xs))
  {
    assert T.WriteEach(xs, T.WriteTab).items == T.WriteTabs(xs);
  }

  lemma FormNodeTagsDiffer()
    ensures DistinctTags(FormNodeShape().variants)
  {
  }

  lemma FormNodeVariantOf(g: Grammar, m: Meaning) returns (found: Variant)
    requires Direct(g) && Normal(m) && Accepts(g, FormNodeShape(), m)
    ensures found == FieldNode() || found == SectionNode() || found == TabsNode() || found == CollapseNode()
    ensures Given(g, found.fields, m) && Covered(found.fields, m)
  {
    found := FoundVariant(g, FormNodeShape(), m);
  }

  lemma FieldNodeNamed(x: T.FormNode)
    requires x.FieldNode?
    ensures Named(FieldNode().fields, T.FieldNodeMembers(x))
  {
  }

  lemma FieldNodeFirstFit(g: Grammar, x: T.FormNode)
    requires Direct(g) && x.FieldNode?
    ensures FitFrom(g, FieldNode().fields, T.FieldNodeMembers(x), 0, 5)
  {
    TextFits(g, "id", x.id);
    TextFits(g, "fieldId", x.fieldId);
    MaybeTextFits(g, "label", x.caption);
    MaybeTextFits(g, "description", x.description);
  }

  lemma FieldNodeLastFit(g: Grammar, x: T.FormNode)
    requires Direct(g) && x.FieldNode? && AllAccepted(g, Ref(Rule.Filter), T.WriteFilter)
    ensures FitFrom(g, FieldNode().fields, T.FieldNodeMembers(x), 5, 10)
  {
    MaybeFieldWidthFits(g, "width", x.width);
    MaybeFlagFits(g, "hidden", x.hidden);
    MaybeFlagFits(g, "readOnly", x.readOnly);
    MaybeTextFits(g, "widgetId", x.widgetId);
    MaybeFits(g, "when", Ref(Rule.Filter), T.WriteFilter, x.condition);
  }

  lemma FieldNodeFits(g: Grammar, x: T.FormNode)
    requires Direct(g) && x.FieldNode? && AllAccepted(g, Ref(Rule.Filter), T.WriteFilter)
    ensures AllFit(g, FieldNode().fields, T.FieldNodeMembers(x))
  {
    FieldNodeNamed(x);
    FieldNodeFirstFit(g, x);
    FieldNodeLastFit(g, x);
    FitTogether(g, FieldNode().fields, T.FieldNodeMembers(x), 5, 10);
  }

  lemma FieldNodeFirstValues(g: Grammar, m: Meaning)
    returns (id: string, fieldId: string, caption: Option<string>, description: Option<string>)
    requires Direct(g) && Given(g, FieldNode().fields, m)
    ensures Filled(("id", Some(T.WriteText(id))), m)
    ensures Filled(("type", Some(Str("field"))), m)
    ensures Filled(("fieldId", Some(T.WriteText(fieldId))), m)
    ensures Filled(("label", T.Maybe(caption, T.WriteText)), m)
    ensures Filled(("description", T.Maybe(description, T.WriteText)), m)
  {
    var fields := FieldNode().fields;
    id := TextAt(g, fields, m, 0, "id");
    LiteralAt(g, fields, m, 1, "type", "field");
    fieldId := TextAt(g, fields, m, 2, "fieldId");
    caption := MaybeTextAt(g, fields, m, 3, "label");
    description := MaybeTextAt(g, fields, m, 4, "description");
  }

  lemma FieldNodeLastValues(g: Grammar, m: Meaning)
    returns (width: Option<T.FieldWidth>, hidden: Option<bool>, readOnly: Option<bool>, widgetId: Option<string>,
      condition: Option<T.Filter>)
    requires Direct(g) && Given(g, FieldNode().fields, m) && AllWritten(g, Ref(Rule.Filter), T.WriteFilter)
    ensures Filled(("width", T.Maybe(width, T.WriteFieldWidth)), m)
    ensures Filled(("hidden", T.Maybe(hidden, T.WriteFlag)), m)
    ensures Filled(("readOnly", T.Maybe(readOnly, T.WriteFlag)), m)
    ensures Filled(("widgetId", T.Maybe(widgetId, T.WriteText)), m)
    ensures Filled(("when", T.Maybe(condition, T.WriteFilter)), m)
  {
    var fields := FieldNode().fields;
    width := MaybeFieldWidthAt(g, fields, m, 5, "width");
    hidden := MaybeFlagAt(g, fields, m, 6, "hidden");
    readOnly := MaybeFlagAt(g, fields, m, 7, "readOnly");
    widgetId := MaybeTextAt(g, fields, m, 8, "widgetId");
    condition := MaybeAt(g, fields, m, 9, "when", Ref(Rule.Filter), T.WriteFilter);
  }

  lemma FieldNodeFilled(x: T.FormNode, m: Meaning)
    requires m.Table? && x.FieldNode?
    requires Filled(("id", Some(T.WriteText(x.id))), m)
    requires Filled(("type", Some(Str("field"))), m)
    requires Filled(("fieldId", Some(T.WriteText(x.fieldId))), m)
    requires Filled(("label", T.Maybe(x.caption, T.WriteText)), m)
    requires Filled(("description", T.Maybe(x.description, T.WriteText)), m)
    requires Filled(("width", T.Maybe(x.width, T.WriteFieldWidth)), m)
    requires Filled(("hidden", T.Maybe(x.hidden, T.WriteFlag)), m)
    requires Filled(("readOnly", T.Maybe(x.readOnly, T.WriteFlag)), m)
    requires Filled(("widgetId", T.Maybe(x.widgetId, T.WriteText)), m)
    requires Filled(("when", T.Maybe(x.condition, T.WriteFilter)), m)
    ensures AllFilled(T.FieldNodeMembers(x), m)
  {
  }

  lemma FieldNodeValue(g: Grammar, m: Meaning) returns (x: T.FormNode)
    requires Direct(g) && Given(g, FieldNode().fields, m) && AllWritten(g, Ref(Rule.Filter), T.WriteFilter)
    ensures x.FieldNode? && AllFilled(T.FieldNodeMembers(x), m)
  {
    var id, fieldId, caption, description := FieldNodeFirstValues(g, m);
    var width, hidden, readOnly, widgetId, condition := FieldNodeLastValues(g, m);
    x := T.FieldNode(id, fieldId, caption, description, width, hidden, readOnly, widgetId, condition);
    FieldNodeFilled(x, m);
  }

  lemma FieldNodeAdmitted(g: Grammar, x: T.FormNode)
    requires Direct(g) && x.FieldNode? && AllAccepted(g, Ref(Rule.Filter), T.WriteFilter)
    ensures Admits(g, FormNodeShape(), T.WriteFormNode(x))
  {
    FieldNodeFits(g, x);
    FormNodeTagsDiffer();
    VariantIsAccepted(g, FormNodeShape(), 0, 1, T.FormNodeMembers(x));
  }

  lemma FieldNodeIsRead(x: T.FormNode, m: Meaning)
    requires x.FieldNode? && AllFilled(T.FieldNodeMembers(x), m) && Covered(FieldNode().fields, m)
    ensures Writes(T.WriteFormNode, m)
  {
    FieldNodeNamed(x);
    assert T.FormNodeMembers(x) == T.FieldNodeMembers(x);
    FilledIsWritten(FieldNode().fields, T.FormNodeMembers(x), m);
    Witness(T.WriteFormNode, x, m);
  }

  lemma FieldNodeBuilt(g: Grammar, m: Meaning)
    requires Direct(g) && Given(g, FieldNode().fields, m) && Covered(FieldNode().fields, m)
    requires AllWritten(g, Ref(Rule.Filter), T.WriteFilter)
    ensures Writes(T.WriteFormNode, m)
  {
    var x := FieldNodeValue(g, m);
    FieldNodeIsRead(x, m);
  }

  lemma SectionNamed(x: T.FormNode)
    requires x.Section?
    ensures Named(SectionNode().fields, T.SectionMembers(x))
  {
  }

  lemma SectionFirstFit(g: Grammar, x: T.FormNode)
    requires Direct(g) && x.Section?
    ensures FitFrom(g, SectionNode().fields, T.SectionMembers(x), 0, 3)
  {
    TextFits(g, "id", x.id);
    MaybeTextFits(g, "title", x.title);
  }

  lemma SectionLastFit(g: Grammar, x: T.FormNode)
    requires Direct(g) && x.Section? && EachAdmitted(g, Ref(Rule.FormNode), T.WriteFormNodes(x.children))
    ensures FitFrom(g, SectionNode().fields, T.SectionMembers(x), 3, 6)
  {
    MaybeTextFits(g, "description", x.description);
    MaybeSectionColumnsFits(g, "columns", x.columns);
    ItemsFit(g, "children", true, Ref(Rule.FormNode), T.WriteFormNodes(x.children));
  }

  lemma SectionFits(g: Grammar, x: T.FormNode)
    requires Direct(g) && x.Section? && EachAdmitted(g, Ref(Rule.FormNode), T.WriteFormNodes(x.children))
    ensures AllFit(g, SectionNode().fields, T.SectionMembers(x))
  {
    SectionNamed(x);
    SectionFirstFit(g, x);
    SectionLastFit(g, x);
    FitTogether(g, SectionNode().fields, T.SectionMembers(x), 3, 6);
  }

  lemma SectionFirstValues(g: Grammar, m: Meaning) returns (id: string, title: Option<string>)
    requires Direct(g) && Given(g, SectionNode().fields, m)
    ensures Filled(("id", Some(T.WriteText(id))), m)
    ensures Filled(("type", Some(Str("section"))), m)
    ensures Filled(("title", T.Maybe(title, T.WriteText)), m)
  {
    var fields := SectionNode().fields;
    id := TextAt(g, fields, m, 0, "id");
    LiteralAt(g, fields, m, 1, "type", "section");
    title := MaybeTextAt(g, fields, m, 2, "title");
  }

  lemma SectionLastValues(g: Grammar, m: Meaning)
    returns (description: Option<string>, columns: Option<T.SectionColumns>, children: seq<T.FormNode>)
    requires Direct(g) && Given(g, SectionNode().fields, m)
    requires WrittenBelow(g, Ref(Rule.FormNode), T.WriteFormNode, m)
    ensures Filled(("description", T.Maybe(description, T.WriteText)), m)
    ensures Filled(("columns", T.Maybe(columns, T.WriteSectionColumns)), m)
    ensures Filled(("children", Some(Arr(T.WriteFormNodes(children)))), m)
  {
    var fields := SectionNode().fields;
    description := MaybeTextAt(g, fields, m, 3, "description");
    columns := MaybeSectionColumnsAt(g, fields, m, 4, "columns");
    children := EachBelow(g, fields, m, 5, "children", Ref(Rule.FormNode), T.WriteFormNode);
    FormNodesAreEach(children);
  }

  lemma SectionFilled(x: T.FormNode, m: Meaning)
    requires m.Table? && x.Section?
    requires Filled(("id", Some(T.WriteText(x.id))), m)
    requires Filled(("type", Some(Str("section"))), m)
    requires Filled(("title", T.Maybe(x.title, T.WriteText)), m)
    requires Filled(("description", T.Maybe(x.description, T.WriteText)), m)
    requires Filled(("columns", T.Maybe(x.columns, T.WriteSectionColumns)), m)
    requires Filled(("children", Some(Arr(T.WriteFormNodes(x.children)))), m)
    ensures AllFilled(T.SectionMembers(x), m)
  {
  }

  lemma SectionValue(g: Grammar, m: Meaning) returns (x: T.FormNode)
    requires Direct(g) && Given(g, SectionNode().fields, m)
    requires WrittenBelow(g, Ref(Rule.FormNode), T.WriteFormNode, m)
    ensures x.Section? && AllFilled(T.SectionMembers(x), m)
  {
    var id, title := SectionFirstValues(g, m);
    var description, columns, children := SectionLastValues(g, m);
    x := T.Section(id, title, description, columns, children);
    SectionFilled(x, m);
  }

  lemma SectionAdmitted(g: Grammar, x: T.FormNode)
    requires Direct(g) && x.Section? && EachAdmitted(g, Ref(Rule.FormNode), T.WriteFormNodes(x.children))
    ensures Admits(g, FormNodeShape(), T.WriteFormNode(x))
  {
    SectionFits(g, x);
    FormNodeTagsDiffer();
    VariantIsAccepted(g, FormNodeShape(), 1, 1, T.FormNodeMembers(x));
  }

  lemma SectionIsRead(x: T.FormNode, m: Meaning)
    requires x.Section? && AllFilled(T.SectionMembers(x), m) && Covered(SectionNode().fields, m)
    ensures Writes(T.WriteFormNode, m)
  {
    SectionNamed(x);
    assert T.FormNodeMembers(x) == T.SectionMembers(x);
    FilledIsWritten(SectionNode().fields, T.FormNodeMembers(x), m);
    Witness(T.WriteFormNode, x, m);
  }

  lemma SectionBuilt(g: Grammar, m: Meaning)
    requires Direct(g) && Given(g, SectionNode().fields, m) && Covered(SectionNode().fields, m)
    requires WrittenBelow(g, Ref(Rule.FormNode), T.WriteFormNode, m)
    ensures Writes(T.WriteFormNode, m)
  {
    var x := SectionValue(g, m);
    SectionIsRead(x, m);
  }

  lemma TabsNodeNamed(x: T.FormNode)
    requires x.TabsNode?
    ensures Named(TabsNode().fields, T.TabsNodeMembers(x))
  {
  }

  lemma TabsNodeFits(g: Grammar, x: T.FormNode)
    requires Direct(g) && x.TabsNode? && EachAdmitted(g, Ref(Rule.Tab), T.WriteTabs(x.tabs))
    ensures AllFit(g, TabsNode().fields, T.TabsNodeMembers(x))
  {
    TextFits(g, "id", x.id);
    ItemsFit(g, "tabs", true, Ref(Rule.Tab), T.WriteTabs(x.tabs));
  }

  lemma TabsNodeValue(g: Grammar, m: Meaning) returns (x: T.FormNode)
    requires Direct(g) && Given(g, TabsNode().fields, m) && WrittenBelow(g, Ref(Rule.Tab), T.WriteTab, m)
    ensures x.TabsNode? && AllFilled(T.TabsNodeMembers(x), m)
  {
    var fields := TabsNode().fields;
    var id := TextAt(g, fields, m, 0, "id");
    LiteralAt(g, fields, m, 1, "type", "tabs");
    var tabs := EachBelow(g, fields, m, 2, "tabs", Ref(Rule.Tab), T.WriteTab);
    TabsAreEach(tabs);
    x := T.TabsNode(id, tabs);
  }

  lemma TabsNodeAdmitted(g: Grammar, x: T.FormNode)
    requires Direct(g) && x.TabsNode? && EachAdmitted(g, Ref(Rule.Tab), T.WriteTabs(x.tabs))
    ensures Admits(g, FormNodeShape(), T.WriteFormNode(x))
  {
    TabsNodeFits(g, x);
    FormNodeTagsDiffer();
    VariantIsAccepted(g, FormNodeShape(), 2, 1, T.FormNodeMembers(x));
  }

  lemma TabsNodeIsRead(x: T.FormNode, m: Meaning)
    requires x.TabsNode? && AllFilled(T.TabsNodeMembers(x), m) && Covered(TabsNode().fields, m)
    ensures Writes(T.WriteFormNode, m)
  {
    TabsNodeNamed(x);
    assert T.FormNodeMembers(x) == T.TabsNodeMembers(x);
    FilledIsWritten(TabsNode().fields, T.FormNodeMembers(x), m);
    Witness(T.WriteFormNode, x, m);
  }

  lemma TabsNodeBuilt(g: Grammar, m: Meaning)
    requires Direct(g) && Given(g, TabsNode().fields, m) && Covered(TabsNode().fields, m)
    requires WrittenBelow(g, Ref(Rule.Tab), T.WriteTab, m)
    ensures Writes(T.WriteFormNode, m)
  {
    var x := TabsNodeValue(g, m);
    TabsNodeIsRead(x, m);
  }

  lemma CollapseNamed(x: T.FormNode)
    requires x.Collapse?
    ensures Named(CollapseNode().fields, T.CollapseMembers(x))
  {
  }

  lemma CollapseFits(g: Grammar, x: T.FormNode)
    requires Direct(g) && x.Collapse? && EachAdmitted(g, Ref(Rule.FormNode), T.WriteFormNodes(x.children))
    ensures AllFit(g, CollapseNode().fields, T.CollapseMembers(x))
  {
    TextFits(g, "id", x.id);
    TextFits(g, "title", x.heading);
    MaybeFlagFits(g, "initiallyOpen", x.initiallyOpen);
    ItemsFit(g, "children", true, Ref(Rule.FormNode), T.WriteFormNodes(x.children));
  }

  lemma CollapseValue(g: Grammar, m: Meaning) returns (x: T.FormNode)
    requires Direct(g) && Given(g, CollapseNode().fields, m)
    requires WrittenBelow(g, Ref(Rule.FormNode), T.WriteFormNode, m)
    ensures x.Collapse? && AllFilled(T.CollapseMembers(x), m)
  {
    var fields := CollapseNode().fields;
    var id := TextAt(g, fields, m, 0, "id");
    LiteralAt(g, fields, m, 1, "type", "collapse");
    var heading := TextAt(g, fields, m, 2, "title");
    var initiallyOpen := MaybeFlagAt(g, fields, m, 3, "initiallyOpen");
    var children := EachBelow(g, fields, m, 4, "children", Ref(Rule.FormNode), T.WriteFormNode);
    FormNodesAreEach(children);
    x := T.Collapse(id, heading, initiallyOpen, children);
  }

  lemma CollapseAdmitted(g: Grammar, x: T.FormNode)
    requires Direct(g) && x.Collapse? && EachAdmitted(g, Ref(Rule.FormNode), T.WriteFormNodes(x.children))
    ensures Admits(g, FormNodeShape(), T.WriteFormNode(x))
  {
    CollapseFits(g, x);
    FormNodeTagsDiffer();
    VariantIsAccepted(g, FormNodeShape(), 3, 1, T.FormNodeMembers(x));
  }

  lemma CollapseIsRead(x: T.FormNode, m: Meaning)
    requires x.Collapse? && AllFilled(T.CollapseMembers(x), m) && Covered(CollapseNode().fields, m)
    ensures Writes(T.WriteFormNode, m)
  {
    CollapseNamed(x);
    assert T.FormNodeMembers(x) == T.CollapseMembers(x);
    FilledIsWritten(CollapseNode().fields, T.FormNodeMembers(x), m);
    Witness(T.WriteFormNode, x, m);
  }

  lemma CollapseBuilt(g: Grammar, m: Meaning)
    requires Direct(g) && Given(g, CollapseNode().fields, m) && Covered(CollapseNode().fields, m)
    requires WrittenBelow(g, Ref(Rule.FormNode), T.WriteFormNode, m)
    ensures Writes(T.WriteFormNode, m)
  {
    var x := CollapseValue(g, m);
    CollapseIsRead(x, m);
  }

  lemma FormNodeBuilt(g: Grammar, m: Meaning)
    requires Direct(g) && Normal(m) && Accepts(g, FormNodeShape(), m)
    requires WrittenBelow(g, Ref(Rule.FormNode), T.WriteFormNode, m)
    requires WrittenBelow(g, Ref(Rule.Tab), T.WriteTab, m) && AllWritten(g, Ref(Rule.Filter), T.WriteFilter)
    ensures Writes(T.WriteFormNode, m)
  {
    var found := FormNodeVariantOf(g, m);
    if found == FieldNode() {
      FieldNodeBuilt(g, m);
    } else if found == SectionNode() {
      SectionBuilt(g, m);
    } else if found == TabsNode() {
      TabsNodeBuilt(g, m);
    } else {
      CollapseBuilt(g, m);
    }
  }

  lemma TabNamed(x: T.Tab)
    ensures Named(TabShape().fields, T.TabMembers(x))
  {
  }

  lemma TabFits(g: Grammar, x: T.Tab)
    requires Direct(g) && EachAdmitted(g, Ref(Rule.FormNode), T.WriteFormNodes(x.children))
    ensures AllFit(g, TabShape().fields, T.TabMembers(x))
  {
    TextFits(g, "id", x.id);
    TextFits(g, "label", x.caption);
    ItemsFit(g, "children", true, Ref(Rule.FormNode), T.WriteFormNodes(x.children));
  }

  lemma TabValue(g: Grammar, m: Meaning) returns (x: T.Tab)
    requires Direct(g) && Given(g, TabShape().fields, m) && WrittenBelow(g, Ref(Rule.FormNode), T.WriteFormNode, m)
    ensures AllFilled(T.TabMembers(x), m)
  {
    var fields := TabShape().fields;
    var id := TextAt(g, fields, m, 0, "id");
    var caption := TextAt(g, fields, m, 1, "label");
    var children := EachBelow(g, fields, m, 2, "children", Ref(Rule.FormNode), T.WriteFormNode);
    FormNodesAreEach(children);
    x := T.Tab(id, caption, children);
  }

  lemma TabAdmitted(g: Grammar, x: T.Tab)
    requires Direct(g) && EachAdmitted(g, Ref(Rule.FormNode), T.WriteFormNodes(x.children))
    ensures Admits(g, TabShape(), T.WriteTab(x))
  {
    TabFits(g, x);
    RecordIsAccepted(g, TabShape(), T.TabMembers(x));
  }

  lemma TabBuilt(g: Grammar, m: Meaning)
    requires Direct(g) && Normal(m) && Accepts(g, TabShape(), m)
    requires WrittenBelow(g, Ref(Rule.FormNode), T.WriteFormNode, m)
    ensures Writes(T.WriteTab, m)
  {
    var x := TabValue(g, m);
    TabNamed(x);
    FilledIsWritten(TabShape().fields, T.TabMembers(x), m);
    Witness(T.WriteTab, x, m);
  }

  /** The nodes and tabs right inside a node are admitted. */
  ghost predicate PartsAdmitted(g: Grammar, x: T.FormNode)
    requires Direct(g)
  {
    match x
    case FieldNode(_, _, _, _, _, _, _, _, _) => true
    case Section(_, _, _, _, children) => EachAdmitted(g, Ref(Rule.FormNode), T.WriteFormNodes(children))
    case TabsNode(_, tabs) => EachAdmitted(g, Ref(Rule.Tab), T.WriteTabs(tabs))
    case Collapse(_, _, _, children) => EachAdmitted(g, Ref(Rule.FormNode), T.WriteFormNodes(children))
  }

  lemma FormNodeAdmitted(g: Grammar, x: T.FormNode)
    requires Direct(g) && AllAccepted(g, Ref(Rule.Filter), T.WriteFilter) && PartsAdmitted(g, x)
    ensures Admits(g, FormNodeShape(), T.WriteFormNode(x))
  {
    match x
    case FieldNode(_, _, _, _, _, _, _, _, _) => FieldNodeAdmitted(g, x);
    case Section(_, _, _, _, _) => SectionAdmitted(g, x);
    case TabsNode(_, _) => TabsNodeAdmitted(g, x);
    case Collapse(_, _, _, _) => CollapseAdmitted(g, x);
  }

  lemma {:induction false} FormNodeAccepted(g: Grammar, x: T.FormNode)
    requires Direct(g) && g(Rule.FormNode) == FormNodeShape() && g(Rule.Tab) == TabShape()
    requires AllAccepted(g, Ref(Rule.Filter), T.WriteFilter)
    ensures Admits(g, Ref(Rule.FormNode), T.WriteFormNode(x))
    decreases x
  {
    if x.Section? || x.Collapse? {
      FormNodesAccepted(g, x.children);
    } else if x.TabsNode? {
      TabsAccepted(g, x.tabs);
    }
    FormNodeAdmitted(g, x);
    RuleAccepts(g, Rule.FormNode, MeaningOf(T.WriteFormNode(x)));
  }

  lemma {:induction false} FormNodesAccepted(g: Grammar, xs: seq<T.FormNode>)
    requires Direct(g) && g(Rule.FormNode) == FormNodeShape() && g(Rule.Tab) == TabShape()
    requires AllAccepted(g, Ref(Rule.Filter), T.WriteFilter)
    ensures EachAdmitted(g, Ref(Rule.FormNode), T.WriteFormNodes(xs))
    decreases xs
  {
    forall i | 0 <= i < |xs| ensures Admits(g, Ref(Rule.FormNode), T.WriteFormNode(xs[i])) {
      FormNodeAccepted(g, xs[i]);
    }
  }

  lemma {:induction false} TabsAccepted(g: Grammar, xs: seq<T.Tab>)
    requires Direct(g) && g(Rule.FormNode) == FormNodeShape() && g(Rule.Tab) == TabShape()
    requires AllAccepted(g, Ref(Rule.Filter), T.WriteFilter)
    ensures EachAdmitted(g, Ref(Rule.Tab), T.WriteTabs(xs))
    decreases xs
  {
    forall i | 0 <= i < |xs| ensures Admits(g, Ref(Rule.Tab), T.WriteTab(xs[i])) {
      TabAccepted(g, xs[i]);
    }
  }

  lemma {:induction false} TabAccepted(g: Grammar, x: T.Tab)
    requires Direct(g) && g(Rule.FormNode) == FormNodeShape() && g(Rule.Tab) == TabShape()
    requires AllAccepted(g, Ref(Rule.Filter), T.WriteFilter)
    ensures Admits(g, Ref(Rule.Tab), T.WriteTab(x))
    decreases x
  {
    FormNodesAccepted(g, x.children);
    TabAdmitted(g, x);
  }

  lemma {:induction false} FormNodesBelow(g: Grammar, m: Meaning)
    requires Direct(g) && g(Rule.FormNode) == FormNodeShape() && g(Rule.Tab) == TabShape()
    requires AllWritten(g, Ref(Rule.Filter), T.WriteFilter) && m.Table?
    ensures WrittenBelow(g, Ref(Rule.FormNode), T.WriteFormNode, m)
    decreases m, 0
  {
    forall k, x | k in m.fields && m.fields[k].List? && x in m.fields[k].items && Normal(x) &&
      Accepts(g, Ref(Rule.FormNode), x) ensures Writes(T.WriteFormNode, x)
    {
      FormNodeWritten(g, x);
    }
  }

  lemma {:induction false} TabsBelow(g: Grammar, m: Meaning)
    requires Direct(g) && g(Rule.FormNode) == FormNodeShape() && g(Rule.Tab) == TabShape()
    requires AllWritten(g, Ref(Rule.Filter), T.WriteFilter) && m.Table?
    ensures WrittenBelow(g, Ref(Rule.Tab), T.WriteTab, m)
    decreases m, 0
  {
    forall k, x | k in m.fields && m.fields[k].List? && x in m.fields[k].items && Normal(x) &&
      Accepts(g, Ref(Rule.Tab), x) ensures Writes(T.WriteTab, x)
    {
      TabWritten(g, x);
    }
  }

  lemma {:induction false} FormNodeWritten(g: Grammar, m: Meaning)
    requires Direct(g) && g(Rule.FormNode) == FormNodeShape() && g(Rule.Tab) == TabShape()
    requires AllWritten(g, Ref(Rule.Filter), T.WriteFilter) && Normal(m) && Accepts(g, Ref(Rule.FormNode), m)
    ensures Writes(T.WriteFormNode, m)
    decreases m, 1
  {
    FormNodesBelow(g, m);
    TabsBelow(g, m);
    FormNodeBuilt(g, m);
  }

  lemma {:induction false} TabWritten(g: Grammar, m: Meaning)
    requires Direct(g) && g(Rule.FormNode) == FormNodeShape() && g(Rule.Tab) == TabShape()
    requires AllWritten(g, Ref(Rule.Filter), T.WriteFilter) && Normal(m) && Accepts(g, Ref(Rule.Tab), m)
    ensures Writes(T.WriteTab, m)
    decreases m, 1
  {
    FormNodesBelow(g, m);
    TabBuilt(g, m);
  }

  lemma FormNodeIsTyped(g: Grammar)
    requires Direct(g) && g(Rule.FormNode) == FormNodeShape() && g(Rule.Tab) == TabShape()
    requires Typed(g, Ref(Rule.Filter), T.WriteFilter)
    ensures Typed(g, Ref(Rule.FormNode), T.WriteFormNode)
  {
    forall x: T.FormNode ensures Admits(g, Ref(Rule.FormNode), T.WriteFormNode(x)) {
      FormNodeAccepted(g, x);
    }
    forall m | Normal(m) && Accepts(g, Ref(Rule.FormNode), m) ensures Writes(T.WriteFormNode, m) {
      FormNodeWritten(g, m);
    }
  }

  lemma TabIsTyped(g: Grammar)
    requires Direct(g) && g(Rule.FormNode) == FormNodeShape() && g(Rule.Tab) == TabShape()
    requires Typed(g, Ref(Rule.Filter), T.WriteFilter)
    ensures Typed(g, Ref(Rule.Tab), T.WriteTab)
  {
    forall x: T.Tab ensures Admits(g, Ref(Rule.Tab), T.WriteTab(x)) {
      TabAccepted(g, x);
    }
    forall m | Normal(m) && Accepts(g, Ref(Rule.Tab), m) ensures Writes(T.WriteTab, m) {
      TabWritten(g, m);
    }
  }

  lemma FormLayoutFits(g: Grammar, x: T.FormLayout)
    requires Direct(g) && AllAccepted(g, Ref(Rule.FormNode), T.WriteFormNode)
    ensures AllFit(g, FormLayoutShape().fields, T.FormLayoutMembers(x))
  {
    EachFits(g, "nodes", Ref(Rule.FormNode), T.WriteFormNode, x.nodes);
  }

  lemma FormLayoutValue(g: Grammar, m: Meaning) returns (x: T.FormLayout)
    requires Direct(g) && Given(g, FormLayoutShape().fields, m)
    requires AllWritten(g, Ref(Rule.FormNode), T.WriteFormNode)
    ensures AllFilled(T.FormLayoutMembers(x), m)
  {
    var fields := FormLayoutShape().fields;
    var nodes := EachAt(g, fields, m, 0, "nodes", Ref(Rule.FormNode), T.WriteFormNode);
    x := T.FormLayout(nodes);
  }

  lemma FormLayoutIsTyped(g: Grammar)
    requires Direct(g) && g(Rule.FormLayout) == FormLayoutShape() && Typed(g, Ref(Rule.FormNode), T.WriteFormNode)
    ensures Typed(g, Ref(Rule.FormLayout), T.WriteFormLayout)
  {
    forall x: T.FormLayout ensures AllFit(g, FormLayoutShape().fields, T.FormLayoutMembers(x)) {
      FormLayoutFits(g, x);
    }
    forall m | Given(g, FormLayoutShape().fields, m) ensures Fills(T.FormLayoutMembers, m) {
      var x := FormLayoutValue(g, m);
      Filling(T.FormLayoutMembers, x, m);
    }
    RecordIsTyped(g, Rule.FormLayout, T.FormLayoutMembers, T.WriteFormLayout);
  }

  lemma PanelTagsDiffer()
    ensures DistinctTags(PanelShape().variants)
  {
  }

  lemma PanelVariantOf(g: Grammar, m: Meaning) returns (found: Variant)
    requires Direct(g) && Normal(m) && Accepts(g, PanelShape(), m)
    ensures found == SummaryPanel() || found == FieldGroupPanel() || found == RelationPanel() ||
      found == RevisionsPanel() || found == AuditPanel() || found == ExtensionPanel()
    ensures Given(g, found.fields, m) && Covered(found.fields, m)
  {
    found := FoundVariant(g, PanelShape(), m);
  }

  lemma SummaryNamed(x: T.Panel)
    requires x.Summary?
    ensures Named(SummaryPanel().fields, T.SummaryMembers(x))
  {
  }

  lemma SummaryFits(g: Grammar, x: T.Panel)
    requires Direct(g) && x.Summary?
    ensures AllFit(g, SummaryPanel().fields, T.SummaryMembers(x))
  {
    TextFits(g, "id", x.id);
    EachTextFits(g, "fieldIds", x.fieldIds);
  }

  lemma SummaryValue(g: Grammar, m: Meaning) returns (x: T.Panel)
    requires Direct(g) && Given(g, SummaryPanel().fields, m)
    ensures x.Summary? && AllFilled(T.SummaryMembers(x), m)
  {
    var fields := SummaryPanel().fields;
    var id := TextAt(g, fields, m, 0, "id");
    LiteralAt(g, fields, m, 1, "type", "summary");
    var fieldIds := EachTextAt(g, fields, m, 2, "fieldIds");
    x := T.Summary(id, fieldIds);
  }

  lemma SummaryAdmitted(g: Grammar, x: T.Panel)
    requires Direct(g) && x.Summary?
    ensures Admits(g, PanelShape(), T.WritePanel(x))
  {
    SummaryFits(g, x);
    PanelTagsDiffer();
    VariantIsAccepted(g, PanelShape(), 0, 1, T.PanelMembers(x));
  }

  lemma SummaryIsRead(x: T.Panel, m: Meaning)
    requires x.Summary? && AllFilled(T.SummaryMembers(x), m) && Covered(SummaryPanel().fields, m)
    ensures Writes(T.WritePanel, m)
  {
    SummaryNamed(x);
    assert T.PanelMembers(x) == T.SummaryMembers(x);
    FilledIsWritten(SummaryPanel().fields, T.PanelMembers(x), m);
    Witness(T.WritePanel, x, m);
  }

  lemma SummaryBuilt(g: Grammar, m: Meaning)
    requires Direct(g) && Given(g, SummaryPanel().fields, m) && Covered(SummaryPanel().fields, m)
    ensures Writes(T.WritePanel, m)
  {
    var x := SummaryValue(g, m);
    SummaryIsRead(x, m);
  }

  lemma FieldGroupNamed(x: T.Panel)
    requires x.FieldGroup?
    ensures Named(FieldGroupPanel().fields, T.FieldGroupMembers(x))
  {
  }

  lemma FieldGroupFits(g: Grammar, x: T.Panel)
    requires Direct(g) && x.FieldGroup?
    ensures AllFit(g, FieldGroupPanel().fields, T.FieldGroupMembers(x))
  {
    TextFits(g, "id", x.id);
    MaybeTextFits(g, "title", x.title);
    EachTextFits(g, "fieldIds", x.fieldIds);
  }

  lemma FieldGroupValue(g: Grammar, m: Meaning) returns (x: T.Panel)
    requires Direct(g) && Given(g, FieldGroupPanel().fields, m)
    ensures x.FieldGroup? && AllFilled(T.FieldGroupMembers(x), m)
  {
    var fields := FieldGroupPanel().fields;
    var id := TextAt(g, fields, m, 0, "id");
    LiteralAt(g, fields, m, 1, "type", "field-group");
    var title := MaybeTextAt(g, fields, m, 2, "title");
    var fieldIds := EachTextAt(g, fields, m, 3, "fieldIds");
    x := T.FieldGroup(id, title, fieldIds);
  }

  lemma FieldGroupAdmitted(g: Grammar, x: T.Panel)
    requires Direct(g) && x.FieldGroup?
    ensures Admits(g, PanelShape(), T.WritePanel(x))
  {
    FieldGroupFits(g, x);
    PanelTagsDiffer();
    VariantIsAccepted(g, PanelShape(), 1, 1, T.PanelMembers(x));
  }

  lemma FieldGroupIsRead(x: T.Panel, m: Meaning)
    requires x.FieldGroup? && AllFilled(T.FieldGroupMembers(x), m) && Covered(FieldGroupPanel().fields, m)
    ensures Writes(T.WritePanel, m)
  {
    FieldGroupNamed(x);
    assert T.PanelMembers(x) == T.FieldGroupMembers(x);
    FilledIsWritten(FieldGroupPanel().fields, T.PanelMembers(x), m);
    Witness(T.WritePanel, x, m);
  }

  lemma FieldGroupBuilt(g: Grammar, m: Meaning)
    requires Direct(g) && Given(g, FieldGroupPanel().fields, m) && Covered(FieldGroupPanel().fields, m)
    ensures Writes(T.WritePanel, m)
  {
    var x := FieldGroupValue(g, m);
    FieldGroupIsRead(x, m);
  }

  lemma RelationNamed(x: T.Panel)
    requires x.Relation?
    ensures Named(RelationPanel().fields, T.RelationMembers(x))
  {
  }

  lemma RelationFits(g: Grammar, x: T.Panel)
    requires Direct(g) && x.Relation?
    ensures AllFit(g, RelationPanel().fields, T.RelationMembers(x))
  {
    TextFits(g, "id", x.id);
    TextFits(g, "relationId", x.relationId);
    MaybeTextFits(g, "title", x.title);
  }

  lemma RelationValue(g: Grammar, m: Meaning) returns (x: T.Panel)
    requires Direct(g) && Given(g, RelationPanel().fields, m)
    ensures x.Relation? && AllFilled(T.RelationMembers(x), m)
  {
    var fields := RelationPanel().fields;
    var id := TextAt(g, fields, m, 0, "id");
    LiteralAt(g, fields, m, 1, "type", "relation");
    var relationId := TextAt(g, fields, m, 2, "relationId");
    var title := MaybeTextAt(g, fields, m, 3, "title");
    x := T.Relation(id, relationId, title);
  }

  lemma RelationAdmitted(g: Grammar, x: T.Panel)
    requires Direct(g) && x.Relation?
    ensures Admits(g, PanelShape(), T.WritePanel(x))
  {
    RelationFits(g, x);
    PanelTagsDiffer();
    VariantIsAccepted(g, PanelShape(), 2, 1, T.PanelMembers(x));
  }

  lemma RelationIsRead(x: T.Panel, m: Meaning)
    requires x.Relation? && AllFilled(T.RelationMembers(x), m) && Covered(RelationPanel().fields, m)
    ensures Writes(T.WritePanel, m)
  {
    RelationNamed(x);
    assert T.PanelMembers(x) == T.RelationMembers(x);
    FilledIsWritten(RelationPanel().fields, T.PanelMembers(x), m);
    Witness(T.WritePanel, x, m);
  }

  lemma RelationBuilt(g: Grammar, m: Meaning)
    requires Direct(g) && Given(g, RelationPanel().fields, m) && Covered(RelationPanel().fields, m)
    ensures Writes(T.WritePanel, m)
  {
    var x := RelationValue(g, m);
    RelationIsRead(x, m);
  }

  lemma RevisionsNamed(x: T.Panel)
    requires x.Revisions?
    ensures Named(RevisionsPanel().fields, T.RevisionsMembers(x))
  {
  }

  lemma RevisionsFits(g: Grammar, x: T.Panel)
    requires Direct(g) && x.Revisions?
    ensures AllFit(g, RevisionsPanel().fields, T.RevisionsMembers(x))
  {
    TextFits(g, "id", x.id);
  }

  lemma RevisionsValue(g: Grammar, m: Meaning) returns (x: T.Panel)
    requires Direct(g) && Given(g, RevisionsPanel().fields, m)
    ensures x.Revisions? && AllFilled(T.RevisionsMembers(x), m)
  {
    var fields := RevisionsPanel().fields;
    var id := TextAt(g, fields, m, 0, "id");
    LiteralAt(g, fields, m, 1, "type", "revisions");
    x := T.Revisions(id);
  }

  lemma RevisionsAdmitted(g: Grammar, x: T.Panel)
    requires Direct(g) && x.Revisions?
    ensures Admits(g, PanelShape(), T.WritePanel(x))
  {
    RevisionsFits(g, x);
    PanelTagsDiffer();
    VariantIsAccepted(g, PanelShape(), 3, 1, T.PanelMembers(x));
  }

  lemma RevisionsIsRead(x: T.Panel, m: Meaning)
    requires x.Revisions? && AllFilled(T.RevisionsMembers(x), m) && Covered(RevisionsPanel().fields, m)
    ensures Writes(T.WritePanel, m)
  {
    RevisionsNamed(x);
    assert T.PanelMembers(x) == T.RevisionsMembers(x);
    FilledIsWritten(RevisionsPanel().fields, T.PanelMembers(x), m);
    Witness(T.WritePanel, x, m);
  }

  lemma RevisionsBuilt(g: Grammar, m: Meaning)
    requires Direct(g) && Given(g, RevisionsPanel().fields, m) && Covered(RevisionsPanel().fields, m)
    ensures Writes(T.WritePanel, m)
  {
    var x := RevisionsValue(g, m);
    RevisionsIsRead(x, m);
  }

  lemma AuditNamed(x: T.Panel)
    requires x.Audit?
    ensures Named(AuditPanel().fields, T.AuditMembers(x))
  {
  }

  lemma AuditFits(g: Grammar, x: T.Panel)
    requires Direct(g) && x.Audit?
    ensures AllFit(g, AuditPanel().fields, T.AuditMembers(x))
  {
    TextFits(g, "id", x.id);
  }

  lemma AuditValue(g: Grammar, m: Meaning) returns (x: T.Panel)
    requires Direct(g) && Given(g, AuditPanel().fields, m)
    ensures x.Audit? && AllFilled(T.AuditMembers(x), m)
  {
    var fields := AuditPanel().fields;
    var id := TextAt(g, fields, m, 0, "id");
    LiteralAt(g, fields, m, 1, "type", "audit");
    x := T.Audit(id);
  }

  lemma AuditAdmitted(g: Grammar, x: T.Panel)
    requires Direct(g) && x.Audit?
    ensures Admits(g, PanelShape(), T.WritePanel(x))
  {
    AuditFits(g, x);
    PanelTagsDiffer();
    VariantIsAccepted(g, PanelShape(), 4, 1, T.PanelMembers(x));
  }

  lemma AuditIsRead(x: T.Panel, m: Meaning)
    requires x.Audit? && AllFilled(T.AuditMembers(x), m) && Covered(AuditPanel().fields, m)
    ensures Writes(T.WritePanel, m)
  {
    AuditNamed(x);
    assert T.PanelMembers(x) == T.AuditMembers(x);
    FilledIsWritten(AuditPanel().fields, T.PanelMembers(x), m);
    Witness(T.WritePanel, x, m);
  }

  lemma AuditBuilt(g: Grammar, m: Meaning)
    requires Direct(g) && Given(g, AuditPanel().fields, m) && Covered(AuditPanel().fields, m)
    ensures Writes(T.WritePanel, m)
  {
    var x := AuditValue(g, m);
    AuditIsRead(x, m);
  }

  lemma ExtensionNamed(x: T.Panel)
    requires x.Extension?
    ensures Named(ExtensionPanel().fields, T.ExtensionMembers(x))
  {
  }

  lemma ExtensionFits(g: Grammar, x: T.Panel)
    requires Direct(g) && x.Extension?
    ensures AllFit(g, ExtensionPanel().fields, T.ExtensionMembers(x))
  {
    TextFits(g, "id", x.id);
    TextFits(g, "extensionId", x.extensionId);
  }

  lemma ExtensionValue(g: Grammar, m: Meaning) returns (x: T.Panel)
    requires Direct(g) && Given(g, ExtensionPanel().fields, m)
    ensures x.Extension? && AllFilled(T.ExtensionMembers(x), m)
  {
    var fields := ExtensionPanel().fields;
    var id := TextAt(g, fields, m, 0, "id");
    LiteralAt(g, fields, m, 1, "type", "plugin");
    var extensionId := TextAt(g, fields, m, 2, "extensionId");
    x := T.Extension(id, extensionId);
  }

  lemma ExtensionAdmitted(g: Grammar, x: T.Panel)
    requires Direct(g) && x.Extension?
    ensures Admits(g, PanelShape(), T.WritePanel(x))
  {
    ExtensionFits(g, x);
    PanelTagsDiffer();
    VariantIsAccepted(g, PanelShape(), 5, 1, T.PanelMembers(x));
  }

  lemma ExtensionIsRead(x: T.Panel, m: Meaning)
    requires x.Extension? && AllFilled(T.ExtensionMembers(x), m) && Covered(ExtensionPanel().fields, m)
    ensures Writes(T.WritePanel, m)
  {
    ExtensionNamed(x);
    assert T.PanelMembers(x) == T.ExtensionMembers(x);
    FilledIsWritten(ExtensionPanel().fields, T.PanelMembers(x), m);
    Witness(T.WritePanel, x, m);
  }

  lemma ExtensionBuilt(g: Grammar, m: Meaning)
    requires Direct(g) && Given(g, ExtensionPanel().fields, m) && Covered(ExtensionPanel().fields, m)
    ensures Writes(T.WritePanel, m)
  {
    var x := ExtensionValue(g, m);
    ExtensionIsRead(x, m);
  }

  lemma PanelAdmitted(g: Grammar, x: T.Panel)
    requires Direct(g)
    ensures Admits(g, PanelShape(), T.WritePanel(x))
  {
    match x
    case Summary(_, _) => SummaryAdmitted(g, x);
    case FieldGroup(_, _, _) => FieldGroupAdmitted(g, x);
    case Relation(_, _, _) => RelationAdmitted(g, x);
    case Revisions(_) => RevisionsAdmitted(g, x);
    case Audit(_) => AuditAdmitted(g, x);
    case Extension(_, _) => ExtensionAdmitted(g, x);
  }

  lemma PanelBuilt(g: Grammar, m: Meaning)
    requires Direct(g) && Normal(m) && Accepts(g, PanelShape(), m)
    ensures Writes(T.WritePanel, m)
  {
    var found := PanelVariantOf(g, m);
    if found == SummaryPanel() {
      SummaryBuilt(g, m);
    } else if found == FieldGroupPanel() {
      FieldGroupBuilt(g, m);
    } else if found == RelationPanel() {
      RelationBuilt(g, m);
    } else if found == RevisionsPanel() {
      RevisionsBuilt(g, m);
    } else if found == AuditPanel() {
      AuditBuilt(g, m);
    } else {
      ExtensionBuilt(g, m);
    }
  }

  lemma PanelIsTyped(g: Grammar)
    requires Direct(g) && g(Rule.Panel) == PanelShape()
    ensures Typed(g, Ref(Rule.Panel), T.WritePanel)
  {
    forall x: T.Panel ensures Admits(g, PanelShape(), T.WritePanel(x)) {
      PanelAdmitted(g, x);
    }
    forall m | Normal(m) && Accepts(g, PanelShape(), m) ensures Writes(T.WritePanel, m) {
      PanelBuilt(g, m);
    }
    RuleIsTyped(g, Rule.Panel, T.WritePanel);
  }

  lemma DetailLayoutFits(g: Grammar, x: T.DetailLayout)
    requires Direct(g) && AllAccepted(g, Ref(Rule.Panel), T.WritePanel)
    ensures AllFit(g, DetailLayoutShape().fields, T.DetailLayoutMembers(x))
  {
    EachFits(g, "panels", Ref(Rule.Panel), T.WritePanel, x.panels);
  }

  lemma DetailLayoutValue(g: Grammar, m: Meaning) returns (x: T.DetailLayout)
    requires Direct(g) && Given(g, DetailLayoutShape().fields, m) && AllWritten(g, Ref(Rule.Panel), T.WritePanel)
    ensures AllFilled(T.DetailLayoutMembers(x), m)
  {
    var fields := DetailLayoutShape().fields;
    var panels := EachAt(g, fields, m, 0, "panels", Ref(Rule.Panel), T.WritePanel);
    x := T.DetailLayout(panels);
  }

  lemma DetailLayoutIsTyped(g: Grammar)
    requires Direct(g) && g(Rule.DetailLayout) == DetailLayoutShape() && Typed(g, Ref(Rule.Panel), T.WritePanel)
    ensures Typed(g, Ref(Rule.DetailLayout), T.WriteDetailLayout)
  {
    forall x: T.DetailLayout ensures AllFit(g, DetailLayoutShape().fields, T.DetailLayoutMembers(x)) {
      DetailLayoutFits(g, x);
    }
    forall m | Given(g, DetailLayoutShape().fields, m) ensures Fills(T.DetailLayoutMembers, m) {
      var x := DetailLayoutValue(g, m);
      Filling(T.DetailLayoutMembers, x, m);
    }
    RecordIsTyped(g, Rule.DetailLayout, T.DetailLayoutMembers, T.WriteDetailLayout);
  }
}
