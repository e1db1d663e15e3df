/** The shapes of the manifest: for each decoder the members it lets through, written as in its
    own list, and the members it builds. */
module ManifestGrammar {
  import opened Decode

  // ---------------------------------------------------------------- the shapes

  function Req(key: string, shape: Shape): Field {
    Field(key, true, shape)
  }

  function Opt(key: string, shape: Shape): Field {
    Field(key, false, shape)
  }

  /** The member a union is told apart by. */
  function Tag(key: string, tag: string): Field {
    Req(key, Strings([tag]))
  }

  function ManifestShape(): Shape {
    Record(
      ["format", "formatVersion", "id", "name", "key", "description", "icon", "audience", "navigation", "pages",
       "startPageId"],
      [Req("format", Strings(["xecms.admin-app"])), Req("formatVersion", Numbers([1])), Req("id", Text),
       Req("name", Text), Req("key", Text), Opt("description", Text), Opt("icon", Text), Req("audience", Ref(Audience)),
       Req("navigation", ListOf(Ref(Navigation))), Req("pages", ListOf(Ref(Page))), Req("startPageId", Text)])
  }

  function SystemAudience(): Variant {
    Variant("system", ["type"], [Tag("type", "system")])
  }

  function RealmAudience(): Variant {
    Variant("content-realm", ["type", "realmId"], [Tag("type", "content-realm"), Req("realmId", Text)])
  }

  function AudienceShape(): Shape {
    Union("type", [], [SystemAudience(), RealmAudience()], InvalidLiteral)
  }

  function NavigationShape(): Shape {
    Record(
      ["id", "label", "icon", "pageId", "children", "visibility"],
      [Req("id", Text), Req("label", Text), Opt("icon", Text), Opt("pageId", Text),
       Opt("children", ListOf(Ref(Navigation))), Opt("visibility", Ref(Visibility))])
  }

  function VisibilityShape(): Shape {
    Record(
      ["allPermissions", "anyPermissions", "documentStatuses"],
      [Opt("allPermissions", ListOf(Ref(Permission))), Opt("anyPermissions", ListOf(Ref(Permission))),
       Opt("documentStatuses", ListOf(Text))])
  }

  function PermissionShape(): Shape {
    Record(["action", "resourceId"], [Req("action", Text), Req("resourceId", Text)])
  }

  function CollectionListPage(): Variant {
    Variant("collection-list",
      ["id", "type", "collectionId", "title", "state", "columns", "fixedFilter", "availableFilters", "defaultSort",
       "rowActions", "bulkActions", "rowClick"],
      [Req("id", Text), Tag("type", "collection-list"), Req("collectionId", Text), Opt("title", Text),
       Opt("state", Strings(["active", "deleted"])), Req("columns", ListOf(Ref(Column))),
       Opt("fixedFilter", Ref(Filter)), Opt("availableFilters", ListOf(Ref(AvailableFilter))),
       Opt("defaultSort", ListOf(Ref(Sort))), Opt("rowActions", ListOf(Ref(Action))),
       Opt("bulkActions", ListOf(Ref(Action))), Opt("rowClick", Ref(PageLink))])
  }

  function DocumentFormPage(): Variant {
    Variant("document-form",
      ["id", "type", "collectionId", "mode", "layout", "actions"],
      [Req("id", Text), Tag("type", "document-form"), Req("collectionId", Text),
       Req("mode", Strings(["create", "edit", "create-or-edit"])), Req("layout", Ref(FormLayout)),
       Opt("actions", ListOf(Ref(Action)))])
  }

  function DocumentDetailPage(): Variant {
    Variant("document-detail",
      ["id", "type", "collectionId", "title", "layout", "actions"],
      [Req("id", Text), Tag("type", "document-detail"), Req("collectionId", Text), Opt("title", Text),
       Req("layout", Ref(DetailLayout)), Opt("actions", ListOf(Ref(Action)))])
  }

  function SingletonPage(): Variant {
    Variant("singleton",
      ["id", "type", "collectionId", "title", "layout", "actions"],
      [Req("id", Text), Tag("type", "singleton"), Req("collectionId", Text), Opt("title", Text),
       Req("layout", Ref(FormLayout)), Opt("actions", ListOf(Ref(Action)))])
  }

  function DashboardPage(): Variant {
    Variant("dashboard",
      ["id", "type", "title", "widgets"],
      [Req("id", Text), Tag("type", "dashboard"), Opt("title", Text), Req("widgets", ListOf(Ref(Widget)))])
  }

  function PluginPage(): Variant {
    Variant("plugin-page",
      ["id", "type", "title", "extensionId"],
      [Req("id", Text), Tag("type", "plugin-page"), Opt("title", Text), Req("extensionId", Text)])
  }

  function PageShape(): Shape {
    Union("type", [],
      [CollectionListPage(), DocumentFormPage(), DocumentDetailPage(), SingletonPage(), DashboardPage(), PluginPage()],
      UnknownPageType)
  }

  function ColumnShape(): Shape {
    Record(
      ["id", "field", "label", "width", "rendererId"],
      [Req("id", Text), Req("field", Ref(FieldReference)), Opt("label", Text), Opt("width", Integer),
       Opt("rendererId", Text)])
  }

  function AvailableFilterShape(): Shape {
    Record(
      ["id", "label", "field", "operators"],
      [Req("id", Text), Req("label", Text), Req("field", Ref(FieldReference)),
       Opt("operators", ListOf(Ref(FilterOperator)))])
  }

  function DataField(): Variant {
    Variant("data", ["kind", "fieldId"], [Tag("kind", "data"), Req("fieldId", Text)])
  }

  function SystemField(): Variant {
    Variant("system", ["kind", "field"],
      [Tag("kind", "system"), Req("field", Strings(["id", "createdAt", "updatedAt", "version"]))])
  }

  function FieldReferenceShape(): Shape {
    Union("kind", [], [DataField(), SystemField()], InvalidLiteral)
  }

  function FilterGroup(): Variant {
    Variant("group",
      ["type", "operator", "filters"],
      [Tag("type", "group"), Req("operator", Strings(["and", "or"])), Req("filters", ListOf(Ref(Filter)))])
  }

  function FilterCondition(): Variant {
    Variant("condition",
      ["type", "field", "operator", "value"],
      [Tag("type", "condition"), Req("field", Ref(FieldReference)), Req("operator", Ref(FilterOperator)),
       Opt("value", ScalarOrList)])
  }

  function FilterShape(): Shape {
    Union("type", [], [FilterGroup(), FilterCondition()], InvalidLiteral)
  }

  function SortShape(): Shape {
    Record(["field", "direction"], [Req("field", Ref(FieldReference)), Req("direction", Strings(["asc", "desc"]))])
  }

  function ActionShape(): Shape {
    Record(
      ["id", "label", "visibility", "confirmation"],
      [Req("id", Text), Opt("label", Text), Opt("visibility", Ref(Visibility)), Opt("confirmation", Ref(Confirmation))])
  }

  function ConfirmationShape(): Shape {
    Record(["title", "message", "danger"], [Req("title", Text), Req("message", Text), Opt("danger", Flag)])
  }

  function PageLinkShape(): Shape {
    Record(["pageId", "documentIdFrom"], [Req("pageId", Text), Opt("documentIdFrom", Strings(["row"]))])
  }

  function FormLayoutShape(): Shape {
    Record(["nodes"], [Req("nodes", ListOf(Ref(FormNode)))])
  }

  function FieldNode(): Variant {
    Variant("field",
      ["id", "type", "fieldId", "label", "description", "width", "hidden", "readOnly", "widgetId", "when"],
      [Req("id", Text), Tag("type", "field"), Req("fieldId", Text), Opt("label", Text), Opt("description", Text),
       Opt("width", Strings(["full", "half", "third"])), Opt("hidden", Flag), Opt("readOnly", Flag),
       Opt("widgetId", Text), Opt("when", Ref(Filter))])
  }

  function SectionNode(): Variant {
    Variant("section",
      ["id", "type", "title", "description", "columns", "children"],
      [Req("id", Text), Tag("type", "section"), Opt("title", Text), Opt("description", Text),
       Opt("columns", Numbers([1, 2, 3])), Req("children", ListOf(Ref(FormNode)))])
  }

  function TabsNode(): Variant {
    Variant("tabs", ["id", "type", "tabs"], [Req("id", Text), Tag("type", "tabs"), Req("tabs", ListOf(Ref(Tab)))])
  }

  function CollapseNode(): Variant {
    Variant("collapse",
      ["id", "type", "title", "initiallyOpen", "children"],
      [Req("id", Text), Tag("type", "collapse"), Req("title", Text), Opt("initiallyOpen", Flag),
       Req("children", ListOf(Ref(FormNode)))])
  }

  function FormNodeShape(): Shape {
    Union("type", [], [FieldNode(), SectionNode(), TabsNode(), CollapseNode()], UnknownLayoutType)
  }

  function TabShape(): Shape {
    Record(
      ["id", "label", "children"],
      [Req("id", Text), Req("label", Text), Req("children", ListOf(Ref(FormNode)))])
  }

  function DetailLayoutShape(): Shape {
    Record(["panels"], [Req("panels", ListOf(Ref(Panel)))])
  }

  function SummaryPanel(): Variant {
    Variant("summary", ["id", "type", "fieldIds"],
      [Req("id", Text), Tag("type", "summary"), Req("fieldIds", ListOf(Text))])
  }

  function FieldGroupPanel(): Variant {
    Variant("field-group",
      ["id", "type", "title", "fieldIds"],
      [Req("id", Text), Tag("type", "field-group"), Opt("title", Text), Req("fieldIds", ListOf(Text))])
  }

  function RelationPanel(): Variant {
    Variant("relation",
      ["id", "type", "relationId", "title"],
      [Req("id", Text), Tag("type", "relation"), Req("relationId", Text), Opt("title", Text)])
  }

  function RevisionsPanel(): Variant {
    Variant("revisions", ["id", "type"], [Req("id", Text), Tag("type", "revisions")])
  }

  function AuditPanel(): Variant {
    Variant("audit", ["id", "type"], [Req("id", Text), Tag("type", "audit")])
  }

  function ExtensionPanel(): Variant {
    Variant("plugin", ["id", "type", "extensionId"], [Req("id", Text), Tag("type", "plugin"), Req("extensionId", Text)])
  }

  function PanelShape(): Shape {
    Union("type", [Req("id", Text)],
      [SummaryPanel(), FieldGroupPanel(), RelationPanel(), RevisionsPanel(), AuditPanel(), ExtensionPanel()],
      UnknownPanelType)
  }

  function WidgetShape(): Shape {
    Record(
      ["id", "widgetId", "title", "width", "query", "action", "visibility"],
      [Req("id", Text), Req("widgetId", Text), Opt("title", Text), Opt("width", Numbers([1, 2, 3, 4, 6, 8, 12])),
       Opt("query", Ref(Query)), Opt("action", Ref(Action)), Opt("visibility", Ref(Visibility))])
  }

  function QueryShape(): Shape {
    Record(
      ["collectionId", "limit", "fields", "filter", "sort", "state"],
      [Req("collectionId", Text), Req("limit", Integer), Opt("fields", ListOf(Text)), Opt("filter", Ref(Filter)),
       Opt("sort", ListOf(Ref(Sort))), Opt("state", Strings(["active", "deleted"]))])
  }

  function FilterOperatorShape(): Shape {
    Strings([
      "eq", "ne", "lt", "lte", "gt", "gte", "contains", "startsWith", "in", "isNull", "isNotNull"])
  }

  // ---------------------------------------------------------------- agreement of the two lists

  function Keys(fields: seq<Field>): (keys: seq<string>) {
    seq(|fields|, i requires 0 <= i < |fields| => fields[i].key)
  }

  lemma SameKeysFromKeys(exact: seq<string>, fields: seq<Field>)
    requires exact == Keys(fields)
    ensures SameKeys(exact, fields)
  {
    forall k ensures k in exact <==> Knows(fields, k) {
      if k in exact {
        var i :| 0 <= i < |exact| && exact[i] == k;
        assert fields[i] in fields;
      }
      if Knows(fields, k) {
        var f :| f in fields && f.key == k;
        var i :| 0 <= i < |fields| && fields[i] == f;
        assert exact[i] == k;
      }
    }
  }

  /** Shapes that need no look inside: plain values, references, and lists of those. */
  predicate Simple(shape: Shape) {
    match shape
    case ListOf(item) => !item.ListOf? && !item.Record? && !item.Union?
    case Record(_, _) => false
    case Union(_, _, _, _) => false
    case _ => true
  }

  ghost predicate Matches(exact: seq<string>, fields: seq<Field>) {
    exact == Keys(fields) && forall i | 0 <= i < |fields| :: Simple(fields[i].shape)
  }

  lemma MatchingAgrees(exact: seq<string>, fields: seq<Field>)
    requires Matches(exact, fields)
    ensures SameKeys(exact, fields) && AgreesEach(fields)
  {
    SameKeysFromKeys(exact, fields);
    forall f | f in fields ensures Agrees(f.shape) {
      assert Simple(f.shape);
    }
  }

  lemma MatchingRecordAgrees(shape: Shape)
    requires shape.Record? && Matches(shape.exact, shape.fields)
    ensures Agrees(shape)
  {
    MatchingAgrees(shape.exact, shape.fields);
  }

  lemma MatchingUnionAgrees(shape: Shape)
    requires shape.Union? && (forall i | 0 <= i < |shape.early| :: Simple(shape.early[i].shape))
    requires forall i | 0 <= i < |shape.variants| :: Matches(shape.variants[i].exact, shape.variants[i].fields)
    ensures Agrees(shape)
  {
    MatchingAgrees(Keys(shape.early), shape.early);
    forall v | v in shape.variants ensures SameKeys(v.exact, v.fields) && AgreesEach(v.fields) {
      MatchingAgrees(v.exact, v.fields);
    }
  }

  ghost predicate MatchesVariant(v: Variant) {
    Matches(v.exact, v.fields)
  }

  lemma ListAndFormAgree()
    ensures MatchesVariant(CollectionListPage()) && MatchesVariant(DocumentFormPage())
  {
  }

  lemma DetailAndSingletonAgree()
    ensures MatchesVariant(DocumentDetailPage()) && MatchesVariant(SingletonPage())
  {
  }

  lemma DashboardAndPluginAgree()
    ensures MatchesVariant(DashboardPage()) && MatchesVariant(PluginPage())
  {
  }

  lemma PagesAgree()
    ensures Agrees(PageShape())
  {
    ListAndFormAgree();
    DetailAndSingletonAgree();
    DashboardAndPluginAgree();
    MatchingUnionAgrees(PageShape());
  }

  lemma FieldAndSectionAgree()
    ensures MatchesVariant(FieldNode()) && MatchesVariant(SectionNode())
  {
  }

  lemma FormNodesAgree()
    ensures Agrees(FormNodeShape())
  {
    FieldAndSectionAgree();
    assert MatchesVariant(TabsNode());
    assert MatchesVariant(CollapseNode());
    MatchingUnionAgrees(FormNodeShape());
  }

  lemma ListPanelsAgree()
    ensures MatchesVariant(SummaryPanel()) && MatchesVariant(FieldGroupPanel()) && MatchesVariant(RelationPanel())
  {
  }

  lemma PanelsAgree()
    ensures Agrees(PanelShape())
  {
    ListPanelsAgree();
    assert MatchesVariant(RevisionsPanel());
    assert MatchesVariant(AuditPanel());
    assert MatchesVariant(ExtensionPanel());
    MatchingUnionAgrees(PanelShape());
  }

  lemma AudienceAgrees()
    ensures Agrees(AudienceShape())
  {
    assert MatchesVariant(SystemAudience());
    assert MatchesVariant(RealmAudience());
    MatchingUnionAgrees(AudienceShape());
  }

  lemma FieldReferenceAgrees()
    ensures Agrees(FieldReferenceShape())
  {
    assert MatchesVariant(DataField());
    assert MatchesVariant(SystemField());
    MatchingUnionAgrees(FieldReferenceShape());
  }

  lemma FilterAgrees()
    ensures Agrees(FilterShape())
  {
    assert MatchesVariant(FilterGroup());
    assert MatchesVariant(FilterCondition());
    MatchingUnionAgrees(FilterShape());
  }

  lemma ManifestAgrees()
    ensures Agrees(ManifestShape())
  {
    MatchingRecordAgrees(ManifestShape());
  }

  lemma NavigationAgrees()
    ensures Agrees(NavigationShape())
  {
    MatchingRecordAgrees(NavigationShape());
  }

  lemma VisibilityAgrees()
    ensures Agrees(VisibilityShape())
  {
    MatchingRecordAgrees(VisibilityShape());
  }

  lemma PermissionAgrees()
    ensures Agrees(PermissionShape())
  {
    MatchingRecordAgrees(PermissionShape());
  }

  lemma ColumnAgrees()
    ensures Agrees(ColumnShape())
  {
    MatchingRecordAgrees(ColumnShape());
  }

  lemma AvailableFilterAgrees()
    ensures Agrees(AvailableFilterShape())
  {
    MatchingRecordAgrees(AvailableFilterShape());
  }

  lemma SortAgrees()
    ensures Agrees(SortShape())
  {
    MatchingRecordAgrees(SortShape());
  }

  lemma ActionAgrees()
    ensures Agrees(ActionShape())
  {
    MatchingRecordAgrees(ActionShape());
  }

  lemma ConfirmationAgrees()
    ensures Agrees(ConfirmationShape())
  {
    MatchingRecordAgrees(ConfirmationShape());
  }

  lemma PageLinkAgrees()
    ensures Agrees(PageLinkShape())
  {
    MatchingRecordAgrees(PageLinkShape());
  }

  lemma FormLayoutAgrees()
    ensures Agrees(FormLayoutShape())
  {
    MatchingRecordAgrees(FormLayoutShape());
  }

  lemma TabAgrees()
    ensures Agrees(TabShape())
  {
    MatchingRecordAgrees(TabShape());
  }

  lemma DetailLayoutAgrees()
    ensures Agrees(DetailLayoutShape())
  {
    MatchingRecordAgrees(DetailLayoutShape());
  }

  lemma WidgetAgrees()
    ensures Agrees(WidgetShape())
  {
    MatchingRecordAgrees(WidgetShape());
  }

  lemma QueryAgrees()
    ensures Agrees(QueryShape())
  {
    MatchingRecordAgrees(QueryShape());
  }

  function FrameRule(rule: Rule): (shape: Shape)
    requires rule.Manifest? || rule.Audience? || rule.Navigation? || rule.Visibility? || rule.Permission? ||
      rule.Action? || rule.Confirmation?
    ensures !shape.Ref? && Agrees(shape)
  {
    match rule
    case Manifest => ManifestAgrees(); ManifestShape()
    case Audience => AudienceAgrees(); AudienceShape()
    case Navigation => NavigationAgrees(); NavigationShape()
    case Visibility => VisibilityAgrees(); VisibilityShape()
    case Permission => PermissionAgrees(); PermissionShape()
    case Action => ActionAgrees(); ActionShape()
    case Confirmation => ConfirmationAgrees(); ConfirmationShape()
  }

  function PageRule(rule: Rule): (shape: Shape)
    requires rule.Page? || rule.Column? || rule.AvailableFilter? || rule.FieldReference? || rule.Filter? ||
      rule.FilterOperator? || rule.Sort? || rule.Query? || rule.PageLink?
    ensures !shape.Ref? && Agrees(shape)
  {
    match rule
    case Page => PagesAgree(); PageShape()
    case Column => ColumnAgrees(); ColumnShape()
    case AvailableFilter => AvailableFilterAgrees(); AvailableFilterShape()
    case FieldReference => FieldReferenceAgrees(); FieldReferenceShape()
    case Filter => FilterAgrees(); FilterShape()
    case FilterOperator => FilterOperatorShape()
    case Sort => SortAgrees(); SortShape()
    case Query => QueryAgrees(); QueryShape()
    case PageLink => PageLinkAgrees(); PageLinkShape()
  }

  function LayoutRule(rule: Rule): (shape: Shape)
    requires rule.FormLayout? || rule.FormNode? || rule.Tab? || rule.DetailLayout? || rule.Panel? ||
      rule.Widget?
    ensures !shape.Ref? && Agrees(shape)
  {
    match rule
    case FormLayout => FormLayoutAgrees(); FormLayoutShape()
    case FormNode => FormNodesAgree(); FormNodeShape()
    case Tab => TabAgrees(); TabShape()
    case DetailLayout => DetailLayoutAgrees(); DetailLayoutShape()
    case Panel => PanelsAgree(); PanelShape()
    case Widget => WidgetAgrees(); WidgetShape()
  }

  /** The grammar of the manifest. Every decoder builds exactly the members it lets through. */
  function ShapeOf(rule: Rule): (shape: Shape)
    ensures !shape.Ref? && Agrees(shape)
  {
    match rule
    case Manifest | Audience | Navigation | Visibility | Permission | Action | Confirmation => FrameRule(rule)
    case Page | Column | AvailableFilter | FieldReference | Filter | FilterOperator | Sort | Query | PageLink =>
      PageRule(rule)
    case FormLayout | FormNode | Tab | DetailLayout | Panel | Widget => LayoutRule(rule)
  }

  lemma ManifestGrammarAgrees()
    ensures Agreeing(ShapeOf)
  {
  }
}
