/** The decoder reads exactly the typed manifests: what is decoded is what some typed manifest is
    written as, and every typed manifest is decoded from what it is written as. */
module ManifestTyping {
  import opened Json
  import opened Diff
  import opened Decode
  import opened DecodeProofs
  import opened ManifestGrammar
  import opened ManifestDecoding
  import opened TypedValues
  import FieldTyping
  import FrameTyping
  import LayoutTyping
  import PageTyping
  import ObjectGraph
  import T = ManifestTypes

  // ---------------------------------------------------------------- the rules together

  function RuleShape(rule: Rule): Shape {
    match rule
    case Manifest => ManifestShape()
    case Audience => AudienceShape()
    case Navigation => NavigationShape()
    case Visibility => VisibilityShape()
    case Permission => PermissionShape()
    case Action => ActionShape()
    case Confirmation => ConfirmationShape()
    case Page => PageShape()
    case Column => ColumnShape()
    case AvailableFilter => AvailableFilterShape()
    case FieldReference => FieldReferenceShape()
    case Filter => FilterShape()
    case FilterOperator => FilterOperatorShape()
    case Sort => SortShape()
    case Query => QueryShape()
    case PageLink => PageLinkShape()
    case FormLayout => FormLayoutShape()
    case FormNode => FormNodeShape()
    case Tab => TabShape()
    case DetailLayout => DetailLayoutShape()
    case Panel => PanelShape()
    case Widget => WidgetShape()
  }

  /** The grammar reads every rule with its shape. */
  ghost predicate Follows(g: Grammar) {
    forall rule :: g(rule) == RuleShape(rule)
  }

  ghost predicate FieldsTyped(g: Grammar)
    requires Direct(g)
  {
    Typed(g, Ref(Rule.FieldReference), T.WriteFieldReference) && Typed(g, Ref(Rule.Filter), T.WriteFilter) &&
    Typed(g, Ref(Rule.Sort), T.WriteSort) && Typed(g, Ref(Rule.PageLink), T.WritePageLink) &&
    Typed(g, Ref(Rule.Column), T.WriteColumn) && Typed(g, Ref(Rule.AvailableFilter), T.WriteAvailableFilter) &&
    Typed(g, Ref(Rule.Query), T.WriteQuery)
  }

  lemma OperandsAreTyped(g: Grammar)
    requires Direct(g) && Follows(g)
    ensures Typed(g, Ref(Rule.FieldReference), T.WriteFieldReference)
    ensures Typed(g, Ref(Rule.FilterOperator), T.WriteFilterOperator)
  {
    assert g(Rule.FieldReference) == RuleShape(Rule.FieldReference);
    assert g(Rule.FilterOperator) == RuleShape(Rule.FilterOperator);
    FieldTyping.FieldReferenceIsTyped(g);
    FieldTyping.FilterOperatorIsTyped(g);
  }

  lemma FiltersAreTyped(g: Grammar)
    requires Direct(g) && Follows(g) && Typed(g, Ref(Rule.FieldReference), T.WriteFieldReference)
    requires Typed(g, Ref(Rule.FilterOperator), T.WriteFilterOperator)
    ensures Typed(g, Ref(Rule.Filter), T.WriteFilter)
  {
    assert g(Rule.Filter) == RuleShape(Rule.Filter);
    FieldTyping.FilterIsTyped(g);
  }

  lemma ColumnsAreTyped(g: Grammar)
    requires Direct(g) && Follows(g) && Typed(g, Ref(Rule.FieldReference), T.WriteFieldReference)
    requires Typed(g, Ref(Rule.FilterOperator), T.WriteFilterOperator)
    ensures Typed(g, Ref(Rule.Column), T.WriteColumn) && Typed(g, Ref(Rule.AvailableFilter), T.WriteAvailableFilter)
  {
    assert g(Rule.Column) == RuleShape(Rule.Column);
    assert g(Rule.AvailableFilter) == RuleShape(Rule.AvailableFilter);
    FieldTyping.ColumnIsTyped(g);
    FieldTyping.AvailableFilterIsTyped(g);
  }

  lemma SortsAreTyped(g: Grammar)
    requires Direct(g) && Follows(g) && Typed(g, Ref(Rule.FieldReference), T.WriteFieldReference)
    ensures Typed(g, Ref(Rule.Sort), T.WriteSort)
  {
    assert g(Rule.Sort) == RuleShape(Rule.Sort);
    FieldTyping.SortIsTyped(g);
  }

  lemma LinksAreTyped(g: Grammar)
    requires Direct(g) && Follows(g)
    ensures Typed(g, Ref(Rule.PageLink), T.WritePageLink)
  {
    assert g(Rule.PageLink) == RuleShape(Rule.PageLink);
    FieldTyping.PageLinkIsTyped(g);
  }

  lemma QueriesAreTyped(g: Grammar)
    requires Direct(g) && Follows(g) && Typed(g, Ref(Rule.Filter), T.WriteFilter)
    requires Typed(g, Ref(Rule.Sort), T.WriteSort)
    ensures Typed(g, Ref(Rule.Query), T.WriteQuery)
  {
    assert g(Rule.Query) == RuleShape(Rule.Query);
    FieldTyping.QueryIsTyped(g);
  }

  lemma FieldsAreTyped(g: Grammar)
    requires Direct(g) && Follows(g)
    ensures FieldsTyped(g)
  {
    OperandsAreTyped(g);
    FiltersAreTyped(g);
    ColumnsAreTyped(g);
    SortsAreTyped(g);
    LinksAreTyped(g);
    QueriesAreTyped(g);
  }

  lemma NodeRules(g: Grammar)
    requires Follows(g)
    ensures g(Rule.FormNode) == FormNodeShape() && g(Rule.Tab) == TabShape()
  {
    assert g(Rule.FormNode) == RuleShape(Rule.FormNode);
    assert g(Rule.Tab) == RuleShape(Rule.Tab);
  }

  lemma NodesAreTyped(g: Grammar)
    requires Direct(g) && Follows(g) && Typed(g, Ref(Rule.Filter), T.WriteFilter)
    ensures Typed(g, Ref(Rule.FormNode), T.WriteFormNode)
  {
    NodeRules(g);
    LayoutTyping.FormNodeIsTyped(g);
  }

  lemma FormsAreTyped(g: Grammar)
    requires Direct(g) && Follows(g) && Typed(g, Ref(Rule.FormNode), T.WriteFormNode)
    ensures Typed(g, Ref(Rule.FormLayout), T.WriteFormLayout)
  {
    assert g(Rule.FormLayout) == RuleShape(Rule.FormLayout);
    LayoutTyping.FormLayoutIsTyped(g);
  }

  lemma PanelsAreTyped(g: Grammar)
    requires Direct(g) && Follows(g)
    ensures Typed(g, Ref(Rule.Panel), T.WritePanel)
  {
    assert g(Rule.Panel) == RuleShape(Rule.Panel);
    LayoutTyping.PanelIsTyped(g);
  }

  lemma DetailsAreTyped(g: Grammar)
    requires Direct(g) && Follows(g) && Typed(g, Ref(Rule.Panel), T.WritePanel)
    ensures Typed(g, Ref(Rule.DetailLayout), T.WriteDetailLayout)
  {
    assert g(Rule.DetailLayout) == RuleShape(Rule.DetailLayout);
    LayoutTyping.DetailLayoutIsTyped(g);
  }

  lemma VisibilityIsTyped(g: Grammar)
    requires Direct(g) && Follows(g)
    ensures Typed(g, Ref(Rule.Visibility), T.WriteVisibility)
  {
    assert g(Rule.Permission) == RuleShape(Rule.Permission);
    assert g(Rule.Visibility) == RuleShape(Rule.Visibility);
    FrameTyping.PermissionIsTyped(g);
    FrameTyping.VisibilityIsTyped(g);
  }

  lemma ActionsAreTyped(g: Grammar)
    requires Direct(g) && Follows(g) && Typed(g, Ref(Rule.Visibility), T.WriteVisibility)
    ensures Typed(g, Ref(Rule.Action), T.WriteAction)
  {
    assert g(Rule.Confirmation) == RuleShape(Rule.Confirmation);
    assert g(Rule.Action) == RuleShape(Rule.Action);
    FrameTyping.ConfirmationIsTyped(g);
    FrameTyping.ActionIsTyped(g);
  }

  lemma WidgetsAreTyped(g: Grammar)
    requires Direct(g) && Follows(g) && Typed(g, Ref(Rule.Query), T.WriteQuery)
    requires Typed(g, Ref(Rule.Action), T.WriteAction) && Typed(g, Ref(Rule.Visibility), T.WriteVisibility)
    ensures Typed(g, Ref(Rule.Widget), T.WriteWidget)
  {
    assert g(Rule.Widget) == RuleShape(Rule.Widget);
    PageTyping.WidgetIsTyped(g);
  }

  lemma PagesAreTyped(g: Grammar)
    requires Direct(g) && Follows(g) && FieldsTyped(g) && Typed(g, Ref(Rule.FormLayout), T.WriteFormLayout)
    requires Typed(g, Ref(Rule.DetailLayout), T.WriteDetailLayout) && Typed(g, Ref(Rule.Action), T.WriteAction)
    requires Typed(g, Ref(Rule.Widget), T.WriteWidget)
    ensures Typed(g, Ref(Rule.Page), T.WritePage)
  {
    assert g(Rule.Page) == RuleShape(Rule.Page);
    PageTyping.PageIsTyped(g);
  }

  lemma FramesAreTyped(g: Grammar)
    requires Direct(g) && Follows(g) && Typed(g, Ref(Rule.Visibility), T.WriteVisibility)
    ensures Typed(g, Ref(Rule.Audience), T.WriteAudience) && Typed(g, Ref(Rule.Navigation), T.WriteNavigationItem)
  {
    assert g(Rule.Audience) == RuleShape(Rule.Audience);
    assert g(Rule.Navigation) == RuleShape(Rule.Navigation);
    FrameTyping.AudienceIsTyped(g);
    FrameTyping.NavigationItemIsTyped(g);
  }

  lemma WholesAreTyped(g: Grammar)
    requires Direct(g) && Follows(g) && Typed(g, Ref(Rule.Audience), T.WriteAudience)
    requires Typed(g, Ref(Rule.Navigation), T.WriteNavigationItem) && Typed(g, Ref(Rule.Page), T.WritePage)
    ensures Typed(g, Ref(Rule.Manifest), T.WriteAppManifest)
  {
    assert g(Rule.Manifest) == RuleShape(Rule.Manifest);
    FrameTyping.AppManifestIsTyped(g);
  }

  lemma GrammarIsTyped(g: Grammar)
    requires Direct(g) && Follows(g)
    ensures Typed(g, Ref(Rule.Manifest), T.WriteAppManifest)
  {
    FieldsAreTyped(g);
    NodesAreTyped(g);
    FormsAreTyped(g);
    PanelsAreTyped(g);
    DetailsAreTyped(g);
    VisibilityIsTyped(g);
    ActionsAreTyped(g);
    WidgetsAreTyped(g);
    PagesAreTyped(g);
    FramesAreTyped(g);
    WholesAreTyped(g);
  }

  lemma RuleHolds(rule: Rule)
    ensures ShapeOf(rule) == RuleShape(rule)
  {
  }

  // ---------------------------------------------------------------- the manifest

  lemma ManifestIsTyped()
    ensures Typed(ShapeOf, Ref(Rule.Manifest), T.WriteAppManifest)
  {
    forall rule ensures ShapeOf(rule) == RuleShape(rule) {
      RuleHolds(rule);
    }
    GrammarIsTyped(ShapeOf);
  }

  /** A value has the meaning of a manifest exactly when some typed manifest is written with it. */
  lemma ManifestsAreTheTyped(v: Json)
    requires Clean(v)
    ensures IsManifest(MeaningOf(v)) <==> Writes(T.WriteAppManifest, MeaningOf(v))
  {
    ManifestIsTyped();
    CleanIsNormal(v);
    if Writes(T.WriteAppManifest, MeaningOf(v)) {
      var t := Pick(T.WriteAppManifest, MeaningOf(v));
      assert Admits(ShapeOf, Ref(Rule.Manifest), T.WriteAppManifest(t));
    }
  }

  /** Every typed manifest that is valid is decoded from what it is written as. */
  lemma WrittenIsDecoded(t: T.AppManifest, valid: Meaning -> bool)
    ensures var v := T.WriteAppManifest(t);
      DecodeManifest(v, valid) == if valid(MeaningOf(v)) then Decoded(Canonical(v)) else Invalid
  {
    var v := T.WriteAppManifest(t);
    ManifestIsTyped();
    assert Admits(ShapeOf, Ref(Rule.Manifest), v);
    DecodesToCanonicalForm(v, valid);
  }

  /** What is decoded is the canonical form of what a typed manifest is written as. */
  lemma DecodedIsWritten(input: Json, valid: Meaning -> bool) returns (t: T.AppManifest)
    requires Clean(input) && DecodeManifest(input, valid).Decoded?
    ensures DecodeManifest(input, valid).value == Canonical(T.WriteAppManifest(t))
    ensures Clean(T.WriteAppManifest(t)) && MeaningOf(T.WriteAppManifest(t)) == MeaningOf(input)
  {
    DecodesToCanonicalForm(input, valid);
    ManifestsAreTheTyped(input);
    t := Pick(T.WriteAppManifest, MeaningOf(input));
    CanonicalIdentifiesMeaning(input, T.WriteAppManifest(t));
  }

  /** The graph is decoded into what a typed manifest is written as. */
  ghost predicate DecodedAs(r: Decoding, m: Meaning, t: T.AppManifest) {
    MeaningOf(T.WriteAppManifest(t)) == m && r == Decoded(Canonical(T.WriteAppManifest(t)))
  }

  /** Of all object graphs exactly those are decoded that stand for a valid typed manifest. */
  lemma DecodesExactlyTheTyped(heap: ObjectGraph.Heap, input: ObjectGraph.Value, valid: Meaning -> bool)
    requires WellNamed(heap) && ObjectGraph.Sound(heap, input)
    ensures var r, m := DecodeAdminAppManifest(heap, input, valid), MeaningOf(Tree(heap, input));
      if !Writes(T.WriteAppManifest, m) then r.Undecodable?
      else if !valid(m) then r == Invalid
      else exists t :: DecodedAs(r, m, t)
  {
    var tree := Tree(heap, input);
    TreeIsDecoded(heap, input, valid);
    DecodesToCanonicalForm(tree, valid);
    ManifestsAreTheTyped(tree);
    if IsManifest(MeaningOf(tree)) && valid(MeaningOf(tree)) {
      var t := DecodedIsWritten(tree, valid);
      assert DecodedAs(DecodeAdminAppManifest(heap, input, valid), MeaningOf(tree), t);
    }
  }
}
