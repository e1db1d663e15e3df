/** Manifests as typed values, and how each is written as JSON. */
module ManifestTypes {
  import opened Wrappers
  import opened Json

  // ---------------------------------------------------------------- the types

  type SafeInteger = x: int | -9007199254740991 <= x <= 9007199254740991

  datatype Direction = Ascending | Descending
  datatype DocumentState = Active | Deleted
  datatype FormMode = CreateMode | EditMode | CreateOrEdit
  datatype FieldWidth = Full | Half | Third
  datatype Connective = And | Or
  datatype SystemName = IdName | CreatedAt | UpdatedAt | VersionName
  datatype FilterOperator = Eq | Ne | Lt | Lte | Gt | Gte | Contains | StartsWith | In | IsNull | IsNotNull
  type SectionColumns = n: int | n in {1, 2, 3} witness 1
  type WidgetWidth = n: int | n in {1, 2, 3, 4, 6, 8, 12} witness 1

  datatype Scalar = NullScalar | BoolScalar(b: bool) | NumberScalar(x: real) | TextScalar(s: string)

  datatype FilterValue = One(scalar: Scalar) | Many(scalars: seq<Scalar>)

  datatype Permission = Permission(action: string, resourceId: string)

  datatype Visibility = Visibility(
    allPermissions: Option<seq<Permission>>, anyPermissions: Option<seq<Permission>>,
    documentStatuses: Option<seq<string>>)

  datatype FieldReference =
    | Data(fieldId: string)
    | System(name: SystemName)

  datatype Filter =
    | Group(connective: Connective, filters: seq<Filter>)
    | Condition(field: FieldReference, operator: FilterOperator, value: Option<FilterValue>)

  datatype Sort = Sort(field: FieldReference, direction: Direction)

  datatype Confirmation = Confirmation(title: string, message: string, danger: Option<bool>)

  datatype Action = Action(
    id: string, caption: Option<string>, visibility: Option<Visibility>, confirmation: Option<Confirmation>)

  datatype PageLink = PageLink(pageId: string, documentIdFromRow: bool)

  datatype Column = Column(
    id: string, field: FieldReference, caption: Option<string>, width: Option<SafeInteger>, rendererId: Option<string>)

  datatype AvailableFilter = AvailableFilter(
    id: string, caption: string, field: FieldReference, operators: Option<seq<FilterOperator>>)

  datatype FormNode =
    | FieldNode(
        id: string, fieldId: string, caption: Option<string>, description: Option<string>, width: Option<FieldWidth>,
        hidden: Option<bool>, readOnly: Option<bool>, widgetId: Option<string>, condition: Option<Filter>)
    | Section(
        id: string, title: Option<string>, description: Option<string>, columns: Option<SectionColumns>,
        children: seq<FormNode>)
    | TabsNode(id: string, tabs: seq<Tab>)
    | Collapse(id: string, heading: string, initiallyOpen: Option<bool>, children: seq<FormNode>)

  datatype Tab = Tab(id: string, caption: string, children: seq<FormNode>)

  datatype FormLayout = FormLayout(nodes: seq<FormNode>)

  datatype Panel =
    | Summary(id: string, fieldIds: seq<string>)
    | FieldGroup(id: string, title: Option<string>, fieldIds: seq<string>)
    | Relation(id: string, relationId: string, title: Option<string>)
    | Revisions(id: string)
    | Audit(id: string)
    | Extension(id: string, extensionId: string)

  datatype DetailLayout = DetailLayout(panels: seq<Panel>)

  datatype Query = Query(
    collectionId: string, limit: SafeInteger, fieldIds: Option<seq<string>>, filter: Option<Filter>,
    sort: Option<seq<Sort>>, state: Option<DocumentState>)

  datatype Widget = Widget(
    id: string, widgetId: string, title: Option<string>, width: Option<WidgetWidth>, query: Option<Query>,
    action: Option<Action>, visibility: Option<Visibility>)

  datatype Page =
    | CollectionList(
        id: string, collectionId: string, title: Option<string>, state: Option<DocumentState>, columns: seq<Column>,
        fixedFilter: Option<Filter>, availableFilters: Option<seq<AvailableFilter>>, defaultSort: Option<seq<Sort>>,
        rowActions: Option<seq<Action>>, bulkActions: Option<seq<Action>>, rowClick: Option<PageLink>)
    | DocumentForm(id: string, collectionId: string, mode: FormMode, form: FormLayout, actions: Option<seq<Action>>)
    | DocumentDetail(
        id: string, collectionId: string, title: Option<string>, detail: DetailLayout, actions: Option<seq<Action>>)
    | Singleton(id: string, collectionId: string, title: Option<string>, form: FormLayout, actions: Option<seq<Action>>)
    | Dashboard(id: string, title: Option<string>, widgets: seq<Widget>)
    | Plugin(id: string, title: Option<string>, extensionId: string)

  datatype Audience =
    | SystemAudience
    | ContentRealm(realmId: string)

  datatype Children = NoChildren | Children(items: seq<NavigationItem>)

  datatype NavigationItem = NavigationItem(
    id: string, caption: string, icon: Option<string>, pageId: Option<string>, children: Children,
    visibility: Option<Visibility>)

  datatype AppManifest = AppManifest(
    id: string, name: string, key: string, description: Option<string>, icon: Option<string>, audience: Audience,
    navigation: seq<NavigationItem>, pages: seq<Page>, startPageId: string)

  // ---------------------------------------------------------------- writing

  /** A member of an object, if it is there. */
  type Slot = (string, Option<Json>)

  function Members(slots: seq<Slot>): seq<Member> {
    if slots == [] then []
    else (if slots[0].1.Some? then [Member(slots[0].0, slots[0].1.value)] else []) + Members(slots[1..])
  }

  function Object(slots: seq<Slot>): Json {
    Obj(Members(slots))
  }

  function WriteText(s: string): Json {
    Str(s)
  }

  function WriteFlag(b: bool): Json {
    Bool(b)
  }

  function WriteInteger(x: SafeInteger): Json {
    Num(Finite(x as real))
  }

  function WriteEach<T>(xs: seq<T>, write: T -> Json): Json {
    Arr(seq(|xs|, i requires 0 <= i < |xs| => write(xs[i])))
  }

  function Maybe<T>(x: Option<T>, write: T -> Json): Option<Json> {
    if x.Some? then Some(write(x.value)) else None
  }

  function MaybeEach<T>(xs: Option<seq<T>>, write: T -> Json): Option<Json> {
    if xs.Some? then Some(WriteEach(xs.value, write)) else None
  }

  function WriteDirection(x: Direction): Json {
    match x
    case Ascending => Str("asc")
    case Descending => Str("desc")
  }

  function WriteDocumentState(x: DocumentState): Json {
    match x
    case Active => Str("active")
    case Deleted => Str("deleted")
  }

  function WriteFormMode(x: FormMode): Json {
    match x
    case CreateMode => Str("create")
    case EditMode => Str("edit")
    case CreateOrEdit => Str("create-or-edit")
  }

  function WriteFieldWidth(x: FieldWidth): Json {
    match x
    case Full => Str("full")
    case Half => Str("half")
    case Third => Str("third")
  }

  function WriteConnective(x: Connective): Json {
    match x
    case And => Str("and")
    case Or => Str("or")
  }

  function WriteSystemName(x: SystemName): Json {
    match x
    case IdName => Str("id")
    case CreatedAt => Str("createdAt")
    case UpdatedAt => Str("updatedAt")
    case VersionName => Str("version")
  }

  function WriteFilterOperator(x: FilterOperator): Json {
    match x
    case Eq => Str("eq")
    case Ne => Str("ne")
    case Lt => Str("lt")
    case Lte => Str("lte")
    case Gt => Str("gt")
    case Gte => Str("gte")
    case Contains => Str("contains")
    case StartsWith => Str("startsWith")
    case In => Str("in")
    case IsNull => Str("isNull")
    case IsNotNull => Str("isNotNull")
  }

  function WriteSectionColumns(n: SectionColumns): Json {
    Num(Finite(n as real))
  }

  function WriteWidgetWidth(n: WidgetWidth): Json {
    Num(Finite(n as real))
  }

  function WriteScalar(x: Scalar): Json {
    match x
    case NullScalar => Null
    case BoolScalar(b) => Bool(b)
    case NumberScalar(r) => Num(Finite(r))
    case TextScalar(s) => Str(s)
  }

  function WriteFilterValue(v: FilterValue): Json {
    match v
    case One(scalar) => WriteScalar(scalar)
    case Many(scalars) => WriteEach(scalars, WriteScalar)
  }

  function PermissionMembers(x: Permission): seq<Slot> {
    [("action", Some(WriteText(x.action))), ("resourceId", Some(WriteText(x.resourceId)))]
  }

  function WritePermission(x: Permission): Json {
    Object(PermissionMembers(x))
  }

  function VisibilityMembers(x: Visibility): seq<Slot> {
    [("allPermissions", MaybeEach(x.allPermissions, WritePermission)),
     ("anyPermissions", MaybeEach(x.anyPermissions, WritePermission)),
     ("documentStatuses", MaybeEach(x.documentStatuses, WriteText))]
  }

  function WriteVisibility(x: Visibility): Json {
    Object(VisibilityMembers(x))
  }

  function DataMembers(x: FieldReference): seq<Slot>
    requires x.Data?
  {
    [("kind", Some(Str("data"))), ("fieldId", Some(WriteText(x.fieldId)))]
  }

  function SystemMembers(x: FieldReference): seq<Slot>
    requires x.System?
  {
    [("kind", Some(Str("system"))), ("field", Some(WriteSystemName(x.name)))]
  }

  function FieldReferenceMembers(x: FieldReference): seq<Slot> {
    match x
    case Data(_) => DataMembers(x)
    case System(_) => SystemMembers(x)
  }

  function WriteFieldReference(x: FieldReference): Json {
    Object(FieldReferenceMembers(x))
  }

  function GroupMembers(x: Filter): seq<Slot>
    requires x.Group?
    decreases x, 0
  {
    [("type", Some(Str("group"))), ("operator", Some(WriteConnective(x.connective))),
     ("filters", Some(Arr(WriteFilters(x.filters))))]
  }

  function ConditionMembers(x: Filter): seq<Slot>
    requires x.Condition?
    decreases x, 0
  {
    [("type", Some(Str("condition"))), ("field", Some(WriteFieldReference(x.field))),
     ("operator", Some(WriteFilterOperator(x.operator))), ("value", Maybe(x.value, WriteFilterValue))]
  }

  function FilterMembers(x: Filter): seq<Slot>
    decreases x, 1
  {
    match x
    case Group(_, _) => GroupMembers(x)
    case Condition(_, _, _) => ConditionMembers(x)
  }

  function WriteFilter(x: Filter): Json
    decreases x, 2
  {
    Object(FilterMembers(x))
  }

  function WriteFilters(xs: seq<Filter>): seq<Json>
    decreases xs, 3
  {
    seq(|xs|, i requires 0 <= i < |xs| => WriteFilter(xs[i]))
  }

  function SortMembers(x: Sort): seq<Slot> {
    [("field", Some(WriteFieldReference(x.field))), ("direction", Some(WriteDirection(x.direction)))]
  }

  function WriteSort(x: Sort): Json {
    Object(SortMembers(x))
  }

  function ConfirmationMembers(x: Confirmation): seq<Slot> {
    [("title", Some(WriteText(x.title))), ("message", Some(WriteText(x.message))),
     ("danger", Maybe(x.danger, WriteFlag))]
  }

  function WriteConfirmation(x: Confirmation): Json {
    Object(ConfirmationMembers(x))
  }

  function ActionMembers(x: Action): seq<Slot> {
    [("id", Some(WriteText(x.id))), ("label", Maybe(x.caption, WriteText)),
     ("visibility", Maybe(x.visibility, WriteVisibility)), ("confirmation", Maybe(x.confirmation, WriteConfirmation))]
  }

  function WriteAction(x: Action): Json {
    Object(ActionMembers(x))
  }

  function PageLinkMembers(x: PageLink): seq<Slot> {
    [("pageId", Some(WriteText(x.pageId))), ("documentIdFrom", if x.documentIdFromRow then Some(Str("row")) else None)]
  }

  function WritePageLink(x: PageLink): Json {
    Object(PageLinkMembers(x))
  }

  function ColumnMembers(x: Column): seq<Slot> {
    [("id", Some(WriteText(x.id))), ("field", Some(WriteFieldReference(x.field))),
     ("label", Maybe(x.caption, WriteText)), ("width", Maybe(x.width, WriteInteger)),
     ("rendererId", Maybe(x.rendererId, WriteText))]
  }

  function WriteColumn(x: Column): Json {
    Object(ColumnMembers(x))
  }

  function AvailableFilterMembers(x: AvailableFilter): seq<Slot> {
    [("id", Some(WriteText(x.id))), ("label", Some(WriteText(x.caption))),
     ("field", Some(WriteFieldReference(x.field))), ("operators", MaybeEach(x.operators, WriteFilterOperator))]
  }

  function WriteAvailableFilter(x: AvailableFilter): Json {
    Object(AvailableFilterMembers(x))
  }

  function FieldNodeMembers(x: FormNode): seq<Slot>
    requires x.FieldNode?
    decreases x, 0
  {
    [("id", Some(WriteText(x.id))), ("type", Some(Str("field"))), ("fieldId", Some(WriteText(x.fieldId))),
     ("label", Maybe(x.caption, WriteText)), ("description", Maybe(x.description, WriteText)),
     ("width", Maybe(x.width, WriteFieldWidth)), ("hidden", Maybe(x.hidden, WriteFlag)),
     ("readOnly", Maybe(x.readOnly, WriteFlag)), ("widgetId", Maybe(x.widgetId, WriteText)),
     ("when", Maybe(x.condition, WriteFilter))]
  }

  function SectionMembers(x: FormNode): seq<Slot>
    requires x.Section?
    decreases x, 0
  {
    [("id", Some(WriteText(x.id))), ("type", Some(Str("section"))), ("title", Maybe(x.title, WriteText)),
     ("description", Maybe(x.description, WriteText)), ("columns", Maybe(x.columns, WriteSectionColumns)),
     ("children", Some(Arr(WriteFormNodes(x.children))))]
  }

  function TabsNodeMembers(x: FormNode): seq<Slot>
    requires x.TabsNode?
    decreases x, 0
  {
    [("id", Some(WriteText(x.id))), ("type", Some(Str("tabs"))), ("tabs", Some(Arr(WriteTabs(x.tabs))))]
  }

  function CollapseMembers(x: FormNode): seq<Slot>
    requires x.Collapse?
    decreases x, 0
  {
    [("id", Some(WriteText(x.id))), ("type", Some(Str("collapse"))), ("title", Some(WriteText(x.heading))),
     ("initiallyOpen", Maybe(x.initiallyOpen, WriteFlag)), ("children", Some(Arr(WriteFormNodes(x.children))))]
  }

  function FormNodeMembers(x: FormNode): seq<Slot>
    decreases x, 1
  {
    match x
    case FieldNode(_, _, _, _, _, _, _, _, _) => FieldNodeMembers(x)
    case Section(_, _, _, _, _) => SectionMembers(x)
    case TabsNode(_, _) => TabsNodeMembers(x)
    case Collapse(_, _, _, _) => CollapseMembers(x)
  }

  function WriteFormNode(x: FormNode): Json
    decreases x, 2
  {
    Object(FormNodeMembers(x))
  }

  function WriteFormNodes(xs: seq<FormNode>): seq<Json>
    decreases xs, 3
  {
    seq(|xs|, i requires 0 <= i < |xs| => WriteFormNode(xs[i]))
  }

  function TabMembers(x: Tab): seq<Slot>
    decreases x, 0
  {
    [("id", Some(WriteText(x.id))), ("label", Some(WriteText(x.caption))),
     ("children", Some(Arr(WriteFormNodes(x.children))))]
  }

  function WriteTab(x: Tab): Json
    decreases x, 1
  {
    Object(TabMembers(x))
  }

  function WriteTabs(xs: seq<Tab>): seq<Json>
    decreases xs, 3
  {
    seq(|xs|, i requires 0 <= i < |xs| => WriteTab(xs[i]))
  }

  function FormLayoutMembers(x: FormLayout): seq<Slot> {
    [("nodes", Some(WriteEach(x.nodes, WriteFormNode)))]
  }

  function WriteFormLayout(x: FormLayout): Json {
    Object(FormLayoutMembers(x))
  }

  function SummaryMembers(x: Panel): seq<Slot>
    requires x.Summary?
  {
    [("id", Some(WriteText(x.id))), ("type", Some(Str("summary"))),
     ("fieldIds", Some(WriteEach(x.fieldIds, WriteText)))]
  }

  function FieldGroupMembers(x: Panel): seq<Slot>
    requires x.FieldGroup?
  {
    [("id", Some(WriteText(x.id))), ("type", Some(Str("field-group"))), ("title", Maybe(x.title, WriteText)),
     ("fieldIds", Some(WriteEach(x.fieldIds, WriteText)))]
  }

  function RelationMembers(x: Panel): seq<Slot>
    requires x.Relation?
  {
    [("id", Some(WriteText(x.id))), ("type", Some(Str("relation"))), ("relationId", Some(WriteText(x.relationId))),
     ("title", Maybe(x.title, WriteText))]
  }

  function RevisionsMembers(x: Panel): seq<Slot>
    requires x.Revisions?
  {
    [("id", Some(WriteText(x.id))), ("type", Some(Str("revisions")))]
  }

  function AuditMembers(x: Panel): seq<Slot>
    requires x.Audit?
  {
    [("id", Some(WriteText(x.id))), ("type", Some(Str("audit")))]
  }

  function ExtensionMembers(x: Panel): seq<Slot>
    requires x.Extension?
  {
    [("id", Some(WriteText(x.id))), ("type", Some(Str("plugin"))), ("extensionId", Some(WriteText(x.extensionId)))]
  }

  function PanelMembers(x: Panel): seq<Slot> {
    match x
    case Summary(_, _) => SummaryMembers(x)
    case FieldGroup(_, _, _) => FieldGroupMembers(x)
    case Relation(_, _, _) => RelationMembers(x)
    case Revisions(_) => RevisionsMembers(x)
    case Audit(_) => AuditMembers(x)
    case Extension(_, _) => ExtensionMembers(x)
  }

  function WritePanel(x: Panel): Json {
    Object(PanelMembers(x))
  }

  function DetailLayoutMembers(x: DetailLayout): seq<Slot> {
    [("panels", Some(WriteEach(x.panels, WritePanel)))]
  }

  function WriteDetailLayout(x: DetailLayout): Json {
    Object(DetailLayoutMembers(x))
  }

  function QueryMembers(x: Query): seq<Slot> {
    [("collectionId", Some(WriteText(x.collectionId))), ("limit", Some(WriteInteger(x.limit))),
     ("fields", MaybeEach(x.fieldIds, WriteText)), ("filter", Maybe(x.filter, WriteFilter)),
     ("sort", MaybeEach(x.sort, WriteSort)), ("state", Maybe(x.state, WriteDocumentState))]
  }

  function WriteQuery(x: Query): Json {
    Object(QueryMembers(x))
  }

  function WidgetMembers(x: Widget): seq<Slot> {
    [("id", Some(WriteText(x.id))), ("widgetId", Some(WriteText(x.widgetId))), ("title", Maybe(x.title, WriteText)),
     ("width", Maybe(x.width, WriteWidgetWidth)), ("query", Maybe(x.query, WriteQuery)),
     ("action", Maybe(x.action, WriteAction)), ("visibility", Maybe(x.visibility, WriteVisibility))]
  }

  function WriteWidget(x: Widget): Json {
    Object(WidgetMembers(x))
  }

  function CollectionListMembers(x: Page): seq<Slot>
    requires x.CollectionList?
  {
    [("id", Some(WriteText(x.id))), ("type", Some(Str("collection-list"))),
     ("collectionId", Some(WriteText(x.collectionId))), ("title", Maybe(x.title, WriteText)),
     ("state", Maybe(x.state, WriteDocumentState)), ("columns", Some(WriteEach(x.columns, WriteColumn))),
     ("fixedFilter", Maybe(x.fixedFilter, WriteFilter)),
     ("availableFilters", MaybeEach(x.availableFilters, WriteAvailableFilter)),
     ("defaultSort", MaybeEach(x.defaultSort, WriteSort)), ("rowActions", MaybeEach(x.rowActions, WriteAction)),
     ("bulkActions", MaybeEach(x.bulkActions, WriteAction)), ("rowClick", Maybe(x.rowClick, WritePageLink))]
  }

  function DocumentFormMembers(x: Page): seq<Slot>
    requires x.DocumentForm?
  {
    [("id", Some(WriteText(x.id))), ("type", Some(Str("document-form"))),
     ("collectionId", Some(WriteText(x.collectionId))), ("mode", Some(WriteFormMode(x.mode))),
     ("layout", Some(WriteFormLayout(x.form))), ("actions", MaybeEach(x.actions, WriteAction))]
  }

  function DocumentDetailMembers(x: Page): seq<Slot>
    requires x.DocumentDetail?
  {
    [("id", Some(WriteText(x.id))), ("type", Some(Str("document-detail"))),
     ("collectionId", Some(WriteText(x.collectionId))), ("title", Maybe(x.title, WriteText)),
     ("layout", Some(WriteDetailLayout(x.detail))), ("actions", MaybeEach(x.actions, WriteAction))]
  }

  function SingletonMembers(x: Page): seq<Slot>
    requires x.Singleton?
  {
    [("id", Some(WriteText(x.id))), ("type", Some(Str("singleton"))), ("collectionId", Some(WriteText(x.collectionId))),
     ("title", Maybe(x.title, WriteText)), ("layout", Some(WriteFormLayout(x.form))),
     ("actions", MaybeEach(x.actions, WriteAction))]
  }

  function DashboardMembers(x: Page): seq<Slot>
    requires x.Dashboard?
  {
    [("id", Some(WriteText(x.id))), ("type", Some(Str("dashboard"))), ("title", Maybe(x.title, WriteText)),
     ("widgets", Some(WriteEach(x.widgets, WriteWidget)))]
  }

  function PluginMembers(x: Page): seq<Slot>
    requires x.Plugin?
  {
    [("id", Some(WriteText(x.id))), ("type", Some(Str("plugin-page"))), ("title", Maybe(x.title, WriteText)),
     ("extensionId", Some(WriteText(x.extensionId)))]
  }

  function PageMembers(x: Page): seq<Slot> {
    match x
    case CollectionList(_, _, _, _, _, _, _, _, _, _, _) => CollectionListMembers(x)
    case DocumentForm(_, _, _, _, _) => DocumentFormMembers(x)
    case DocumentDetail(_, _, _, _, _) => DocumentDetailMembers(x)
    case Singleton(_, _, _, _, _) => SingletonMembers(x)
    case Dashboard(_, _, _) => DashboardMembers(x)
    case Plugin(_, _, _) => PluginMembers(x)
  }

  function WritePage(x: Page): Json {
    Object(PageMembers(x))
  }

  function SystemAudienceMembers(x: Audience): seq<Slot>
    requires x.SystemAudience?
  {
    [("type", Some(Str("system")))]
  }

  function ContentRealmMembers(x: Audience): seq<Slot>
    requires x.ContentRealm?
  {
    [("type", Some(Str("content-realm"))), ("realmId", Some(WriteText(x.realmId)))]
  }

  function AudienceMembers(x: Audience): seq<Slot> {
    match x
    case SystemAudience => SystemAudienceMembers(x)
    case ContentRealm(_) => ContentRealmMembers(x)
  }

  function WriteAudience(x: Audience): Json {
    Object(AudienceMembers(x))
  }

  function WriteChildren(children: Children): Option<Json>
    decreases children, 4
  {
    match children
    case NoChildren => None
    case Children(items) => Some(Arr(WriteNavigationItems(items)))
  }

  function WriteNavigationItems(xs: seq<NavigationItem>): seq<Json>
    decreases xs, 3
  {
    seq(|xs|, i requires 0 <= i < |xs| => WriteNavigationItem(xs[i]))
  }

  function NavigationItemMembers(x: NavigationItem): seq<Slot>
    decreases x, 0
  {
    [("id", Some(WriteText(x.id))), ("label", Some(WriteText(x.caption))), ("icon", Maybe(x.icon, WriteText)),
     ("pageId", Maybe(x.pageId, WriteText)), ("children", WriteChildren(x.children)),
     ("visibility", Maybe(x.visibility, WriteVisibility))]
  }

  function WriteNavigationItem(x: NavigationItem): Json
    decreases x, 1
  {
    Object(NavigationItemMembers(x))
  }

  function AppManifestMembers(x: AppManifest): seq<Slot> {
    [("format", Some(Str("xecms.admin-app"))), ("formatVersion", Some(Num(Finite(1.0)))), ("id", Some(WriteText(x.id))),
     ("name", Some(WriteText(x.name))), ("key", Some(WriteText(x.key))),
     ("description", Maybe(x.description, WriteText)), ("icon", Maybe(x.icon, WriteText)),
     ("audience", Some(WriteAudience(x.audience))), ("navigation", Some(WriteEach(x.navigation, WriteNavigationItem))),
     ("pages", Some(WriteEach(x.pages, WritePage))), ("startPageId", Some(WriteText(x.startPageId)))]
  }

  function WriteAppManifest(x: AppManifest): Json {
    Object(AppManifestMembers(x))
  }
}
