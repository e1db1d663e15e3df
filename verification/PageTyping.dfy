/** Pages and widgets: the grammar accepts what they are written as, and nothing else. */
module PageTyping {
  import opened Wrappers
  import opened Json
  import opened Decode
  import opened DecodeProofs
  import opened ManifestGrammar
  import opened TypedValues
  import T = ManifestTypes
  import opened FieldTyping

  lemma FormModeIsTyped(g: Grammar)
    requires Direct(g)
    ensures Typed(g, Strings(["create", "edit", "create-or-edit"]), T.WriteFormMode)
  {
    var shape := Strings(["create", "edit", "create-or-edit"]);
    forall m | Normal(m) && Accepts(g, shape, m) ensures Writes(T.WriteFormMode, m) {
      if m.v.s == "create" {
        Witness(T.WriteFormMode, T.CreateMode, m);
      } else if m.v.s == "edit" {
        Witness(T.WriteFormMode, T.EditMode, m);
      } else {
        Witness(T.WriteFormMode, T.CreateOrEdit, m);
      }
    }
  }

  lemma FormModeFits(g: Grammar, key: string, x: T.FormMode)
    requires Direct(g)
    ensures Fits(g, Field(key, true, Strings(["create", "edit", "create-or-edit"])), (key, Some(T.WriteFormMode(x))))
  {
    FormModeIsTyped(g);
    ValueFits(g, key, Strings(["create", "edit", "create-or-edit"]), T.WriteFormMode, x);
  }

  lemma FormModeAt(g: Grammar, fields: seq<Field>, m: Meaning, i: nat, key: string) returns (x: T.FormMode)
    requires Direct(g) && Given(g, fields, m) && i < |fields|
    requires fields[i] == Field(key, true, Strings(["create", "edit", "create-or-edit"]))
    ensures Filled((key, Some(T.WriteFormMode(x))), m)
  {
    FormModeIsTyped(g);
    x := ValueAt(g, fields, m, i, key, Strings(["create", "edit", "create-or-edit"]), T.WriteFormMode);
  }

  lemma WidgetWidthIsTyped(g: Grammar)
    requires Direct(g)
    ensures Typed(g, Numbers([1, 2, 3, 4, 6, 8, 12]), T.WriteWidgetWidth)
  {
    var shape := Numbers([1, 2, 3, 4, 6, 8, 12]);
    forall m | Normal(m) && Accepts(g, shape, m) ensures Writes(T.WriteWidgetWidth, m) {
      var n: T.WidgetWidth := m.v.n.value.Floor;
      Witness(T.WriteWidgetWidth, n, m);
    }
  }

  lemma MaybeWidgetWidthFits(g: Grammar, key: string, x: Option<T.WidgetWidth>)
    requires Direct(g)
    ensures Fits(g, Field(key, false, Numbers([1, 2, 3, 4, 6, 8, 12])), (key, T.Maybe(x, T.WriteWidgetWidth)))
  {
    WidgetWidthIsTyped(g);
    MaybeFits(g, key, Numbers([1, 2, 3, 4, 6, 8, 12]), T.WriteWidgetWidth, x);
  }

  lemma MaybeWidgetWidthAt(g: Grammar, fields: seq<Field>, m: Meaning, i: nat, key: string)
    returns (x: Option<T.WidgetWidth>)
    requires Direct(g) && Given(g, fields, m) && i < |fields|
    requires fields[i] == Field(key, false, Numbers([1, 2, 3, 4, 6, 8, 12]))
    ensures Filled((key, T.Maybe(x, T.WriteWidgetWidth)), m)
  {
    WidgetWidthIsTyped(g);
    x := MaybeAt(g, fields, m, i, key, Numbers([1, 2, 3, 4, 6, 8, 12]), T.WriteWidgetWidth);
  }

  lemma WidgetNamed(x: T.Widget)
    ensures Named(WidgetShape().fields, T.WidgetMembers(x))
  {
  }

  lemma WidgetFirstFit(g: Grammar, x: T.Widget)
    requires Direct(g)
    ensures FitFrom(g, WidgetShape().fields, T.WidgetMembers(x), 0, 4)
  {
    TextFits(g, "id", x.id);
    TextFits(g, "widgetId", x.widgetId);
    MaybeTextFits(g, "title", x.title);
    MaybeWidgetWidthFits(g, "width", x.width);
  }

  lemma WidgetLastFit(g: Grammar, x: T.Widget)
    requires Direct(g) && AllAccepted(g, Ref(Rule.Query), T.WriteQuery)
    requires AllAccepted(g, Ref(Rule.Action), T.WriteAction)
    requires AllAccepted(g, Ref(Rule.Visibility), T.WriteVisibility)
    ensures FitFrom(g, WidgetShape().fields, T.WidgetMembers(x), 4, 7)
  {
    MaybeFits(g, "query", Ref(Rule.Query), T.WriteQuery, x.query);
    MaybeFits(g, "action", Ref(Rule.Action), T.WriteAction, x.action);
    MaybeFits(g, "visibility", Ref(Rule.Visibility), T.WriteVisibility, x.visibility);
  }

  lemma WidgetFits(g: Grammar, x: T.Widget)
    requires Direct(g) && AllAccepted(g, Ref(Rule.Query), T.WriteQuery)
    requires AllAccepted(g, Ref(Rule.Action), T.WriteAction)
    requires AllAccepted(g, Ref(Rule.Visibility), T.WriteVisibility)
    ensures AllFit(g, WidgetShape().fields, T.WidgetMembers(x))
  {
    WidgetNamed(x);
    WidgetFirstFit(g, x);
    WidgetLastFit(g, x);
    FitTogether(g, WidgetShape().fields, T.WidgetMembers(x), 4, 7);
  }

  lemma WidgetFirstValues(g: Grammar, m: Meaning)
    returns (id: string, widgetId: string, title: Option<string>, width: Option<T.WidgetWidth>)
    requires Direct(g) && Given(g, WidgetShape().fields, m)
    ensures Filled(("id", Some(T.WriteText(id))), m)
    ensures Filled(("widgetId", Some(T.WriteText(widgetId))), m)
    ensures Filled(("title", T.Maybe(title, T.WriteText)), m)
    ensures Filled(("width", T.Maybe(width, T.WriteWidgetWidth)), m)
  {
    var fields := WidgetShape().fields;
    id := TextAt(g, fields, m, 0, "id");
    widgetId := TextAt(g, fields, m, 1, "widgetId");
    title := MaybeTextAt(g, fields, m, 2, "title");
    width := MaybeWidgetWidthAt(g, fields, m, 3, "width");
  }

  lemma WidgetLastValues(g: Grammar, m: Meaning)
    returns (query: Option<T.Query>, action: Option<T.Action>, visibility: Option<T.Visibility>)
    requires Direct(g) && Given(g, WidgetShape().fields, m) && AllWritten(g, Ref(Rule.Query), T.WriteQuery)
    requires AllWritten(g, Ref(Rule.Action), T.WriteAction)
    requires AllWritten(g, Ref(Rule.Visibility), T.WriteVisibility)
    ensures Filled(("query", T.Maybe(query, T.WriteQuery)), m)
    ensures Filled(("action", T.Maybe(action, T.WriteAction)), m)
    ensures Filled(("visibility", T.Maybe(visibility, T.WriteVisibility)), m)
  {
    var fields := WidgetShape().fields;
    query := MaybeAt(g, fields, m, 4, "query", Ref(Rule.Query), T.WriteQuery);
    action := MaybeAt(g, fields, m, 5, "action", Ref(Rule.Action), T.WriteAction);
    visibility := MaybeAt(g, fields, m, 6, "visibility", Ref(Rule.Visibility), T.WriteVisibility);
  }

  lemma WidgetFilled(x: T.Widget, m: Meaning)
    requires m.Table?
    requires Filled(("id", Some(T.WriteText(x.id))), m)
    requires Filled(("widgetId", Some(T.WriteText(x.widgetId))), m)
    requires Filled(("title", T.Maybe(x.title, T.WriteText)), m)
    requires Filled(("width", T.Maybe(x.width, T.WriteWidgetWidth)), m)
    requires Filled(("query", T.Maybe(x.query, T.WriteQuery)), m)
    requires Filled(("action", T.Maybe(x.action, T.WriteAction)), m)
    requires Filled(("visibility", T.Maybe(x.visibility, T.WriteVisibility)), m)
    ensures AllFilled(T.WidgetMembers(x), m)
  {
  }

  lemma WidgetValue(g: Grammar, m: Meaning) returns (x: T.Widget)
    requires Direct(g) && Given(g, WidgetShape().fields, m) && AllWritten(g, Ref(Rule.Query), T.WriteQuery)
    requires AllWritten(g, Ref(Rule.Action), T.WriteAction)
    requires AllWritten(g, Ref(Rule.Visibility), T.WriteVisibility)
    ensures AllFilled(T.WidgetMembers(x), m)
  {
    var id, widgetId, title, width := WidgetFirstValues(g, m);
    var query, action, visibility := WidgetLastValues(g, m);
    x := T.Widget(id, widgetId, title, width, query, action, visibility);
    WidgetFilled(x, m);
  }

  lemma WidgetIsTyped(g: Grammar)
    requires Direct(g) && g(Rule.Widget) == WidgetShape() && Typed(g, Ref(Rule.Query), T.WriteQuery)
    requires Typed(g, Ref(Rule.Action), T.WriteAction) && Typed(g, Ref(Rule.Visibility), T.WriteVisibility)
    ensures Typed(g, Ref(Rule.Widget), T.WriteWidget)
  {
    forall x: T.Widget ensures AllFit(g, WidgetShape().fields, T.WidgetMembers(x)) {
      WidgetFits(g, x);
    }
    forall m | Given(g, WidgetShape().fields, m) ensures Fills(T.WidgetMembers, m) {
      var x := WidgetValue(g, m);
      Filling(T.WidgetMembers, x, m);
    }
    RecordIsTyped(g, Rule.Widget, T.WidgetMembers, T.WriteWidget);
  }

  lemma PageTagsDiffer()
    ensures DistinctTags(PageShape().variants)
  {
  }

  lemma PageVariantOf(g: Grammar, m: Meaning) returns (found: Variant)
    requires Direct(g) && Normal(m) && Accepts(g, PageShape(), m)
    ensures found == CollectionListPage() || found == DocumentFormPage() || found == DocumentDetailPage() ||
      found == SingletonPage() || found == DashboardPage() || found == PluginPage()
    ensures Given(g, found.fields, m) && Covered(found.fields, m)
  {
    found := FoundVariant(g, PageShape(), m);
  }

  lemma CollectionListNamed(x: T.Page)
    requires x.CollectionList?
    ensures Named(CollectionListPage().fields, T.CollectionListMembers(x))
  {
  }

  lemma CollectionListFirstFit(g: Grammar, x: T.Page)
    requires Direct(g) && x.CollectionList?
    ensures FitFrom(g, CollectionListPage().fields, T.CollectionListMembers(x), 0, 4)
  {
    TextFits(g, "id", x.id);
    TextFits(g, "collectionId", x.collectionId);
    MaybeTextFits(g, "title", x.title);
  }

  lemma CollectionListMiddleFit(g: Grammar, x: T.Page)
    requires Direct(g) && x.CollectionList? && AllAccepted(g, Ref(Rule.Column), T.WriteColumn)
    requires AllAccepted(g, Ref(Rule.Filter), T.WriteFilter)
    requires AllAccepted(g, Ref(Rule.AvailableFilter), T.WriteAvailableFilter)
    ensures FitFrom(g, CollectionListPage().fields, T.CollectionListMembers(x), 4, 8)
  {
    MaybeDocumentStateFits(g, "state", x.state);
    EachFits(g, "columns", Ref(Rule.Column), T.WriteColumn, x.columns);
    MaybeFits(g, "fixedFilter", Ref(Rule.Filter), T.WriteFilter, x.fixedFilter);
    MaybeEachFits(g, "availableFilters", Ref(Rule.AvailableFilter), T.WriteAvailableFilter, x.availableFilters);
  }

  lemma CollectionListLastFit(g: Grammar, x: T.Page)
    requires Direct(g) && x.CollectionList? && AllAccepted(g, Ref(Rule.Sort), T.WriteSort)
    requires AllAccepted(g, Ref(Rule.Action), T.WriteAction) && AllAccepted(g, Ref(Rule.PageLink), T.WritePageLink)
    ensures FitFrom(g, CollectionListPage().fields, T.CollectionListMembers(x), 8, 12)
  {
    MaybeEachFits(g, "defaultSort", Ref(Rule.Sort), T.WriteSort, x.defaultSort);
    MaybeEachFits(g, "rowActions", Ref(Rule.Action), T.WriteAction, x.rowActions);
    MaybeEachFits(g, "bulkActions", Ref(Rule.Action), T.WriteAction, x.bulkActions);
    MaybeFits(g, "rowClick", Ref(Rule.PageLink), T.WritePageLink, x.rowClick);
  }

  lemma CollectionListFits(g: Grammar, x: T.Page)
    requires Direct(g) && x.CollectionList? && AllAccepted(g, Ref(Rule.Column), T.WriteColumn)
    requires AllAccepted(g, Ref(Rule.Filter), T.WriteFilter)
    requires AllAccepted(g, Ref(Rule.AvailableFilter), T.WriteAvailableFilter)
    requires AllAccepted(g, Ref(Rule.Sort), T.WriteSort) && AllAccepted(g, Ref(Rule.Action), T.WriteAction)
    requires AllAccepted(g, Ref(Rule.PageLink), T.WritePageLink)
    ensures AllFit(g, CollectionListPage().fields, T.CollectionListMembers(x))
  {
    CollectionListNamed(x);
    CollectionListFirstFit(g, x);
    CollectionListMiddleFit(g, x);
    CollectionListLastFit(g, x);
    FitTogether(g, CollectionListPage().fields, T.CollectionListMembers(x), 4, 8);
  }

  lemma CollectionListFirstValues(g: Grammar, m: Meaning)
    returns (id: string, collectionId: string, title: Option<string>)
    requires Direct(g) && Given(g, CollectionListPage().fields, m)
    ensures Filled(("id", Some(T.WriteText(id))), m)
    ensures Filled(("type", Some(Str("collection-list"))), m)
    ensures Filled(("collectionId", Some(T.WriteText(collectionId))), m)
    ensures Filled(("title", T.Maybe(title, T.WriteText)), m)
  {
    var fields := CollectionListPage().fields;
    id := TextAt(g, fields, m, 0, "id");
    LiteralAt(g, fields, m, 1, "type", "collection-list");
    collectionId := TextAt(g, fields, m, 2, "collectionId");
    title := MaybeTextAt(g, fields, m, 3, "title");
  }

  lemma CollectionListMiddleValues(g: Grammar, m: Meaning)
    returns (state: Option<T.DocumentState>, columns: seq<T.Column>, fixedFilter: Option<T.Filter>,
      availableFilters: Option<seq<T.AvailableFilter>>)
    requires Direct(g) && Given(g, CollectionListPage().fields, m)
    requires AllWritten(g, Ref(Rule.Column), T.WriteColumn) && AllWritten(g, Ref(Rule.Filter), T.WriteFilter)
    requires AllWritten(g, Ref(Rule.AvailableFilter), T.WriteAvailableFilter)
    ensures Filled(("state", T.Maybe(state, T.WriteDocumentState)), m)
    ensures Filled(("columns", Some(T.WriteEach(columns, T.WriteColumn))), m)
    ensures Filled(("fixedFilter", T.Maybe(fixedFilter, T.WriteFilter)), m)
    ensures Filled(("availableFilters", T.MaybeEach(availableFilters, T.WriteAvailableFilter)), m)
  {
    var fields := CollectionListPage().fields;
    state := MaybeDocumentStateAt(g, fields, m, 4, "state");
    columns := EachAt(g, fields, m, 5, "columns", Ref(Rule.Column), T.WriteColumn);
    fixedFilter := MaybeAt(g, fields, m, 6, "fixedFilter", Ref(Rule.Filter), T.WriteFilter);
    availableFilters := MaybeEachAt(g, fields, m, 7, "availableFilters", Ref(Rule.AvailableFilter),
        T.WriteAvailableFilter);
  }

  lemma CollectionListLastValues(g: Grammar, m: Meaning)
    returns (defaultSort: Option<seq<T.Sort>>, rowActions: Option<seq<T.Action>>, bulkActions: Option<seq<T.Action>>,
      rowClick: Option<T.PageLink>)
    requires Direct(g) && Given(g, CollectionListPage().fields, m) && AllWritten(g, Ref(Rule.Sort), T.WriteSort)
    requires AllWritten(g, Ref(Rule.Action), T.WriteAction) && AllWritten(g, Ref(Rule.PageLink), T.WritePageLink)
    ensures Filled(("defaultSort", T.MaybeEach(defaultSort, T.WriteSort)), m)
    ensures Filled(("rowActions", T.MaybeEach(rowActions, T.WriteAction)), m)
    ensures Filled(("bulkActions", T.MaybeEach(bulkActions, T.WriteAction)), m)
    ensures Filled(("rowClick", T.Maybe(rowClick, T.WritePageLink)), m)
  {
    var fields := CollectionListPage().fields;
    defaultSort := MaybeEachAt(g, fields, m, 8, "defaultSort", Ref(Rule.Sort), T.WriteSort);
    rowActions := MaybeEachAt(g, fields, m, 9, "rowActions", Ref(Rule.Action), T.WriteAction);
    bulkActions := MaybeEachAt(g, fields, m, 10, "bulkActions", Ref(Rule.Action), T.WriteAction);
    rowClick := MaybeAt(g, fields, m, 11, "rowClick", Ref(Rule.PageLink), T.WritePageLink);
  }

  lemma CollectionListFilled(x: T.Page, m: Meaning)
    requires m.Table? && x.CollectionList?
    requires Filled(("id", Some(T.WriteText(x.id))), m)
    requires Filled(("type", Some(Str("collection-list"))), m)
    requires Filled(("collectionId", Some(T.WriteText(x.collectionId))), m)
    requires Filled(("title", T.Maybe(x.title, T.WriteText)), m)
    requires Filled(("state", T.Maybe(x.state, T.WriteDocumentState)), m)
    requires Filled(("columns", Some(T.WriteEach(x.columns, T.WriteColumn))), m)
    requires Filled(("fixedFilter", T.Maybe(x.fixedFilter, T.WriteFilter)), m)
    requires Filled(("availableFilters", T.MaybeEach(x.availableFilters, T.WriteAvailableFilter)), m)
    requires Filled(("defaultSort", T.MaybeEach(x.defaultSort, T.WriteSort)), m)
    requires Filled(("rowActions", T.MaybeEach(x.rowActions, T.WriteAction)), m)
    requires Filled(("bulkActions", T.MaybeEach(x.bulkActions, T.WriteAction)), m)
    requires Filled(("rowClick", T.Maybe(x.rowClick, T.WritePageLink)), m)
    ensures AllFilled(T.CollectionListMembers(x), m)
  {
  }

  lemma CollectionListValue(g: Grammar, m: Meaning) returns (x: T.Page)
    requires Direct(g) && Given(g, CollectionListPage().fields, m)
    requires AllWritten(g, Ref(Rule.Column), T.WriteColumn) && AllWritten(g, Ref(Rule.Filter), T.WriteFilter)
    requires AllWritten(g, Ref(Rule.AvailableFilter), T.WriteAvailableFilter)
    requires AllWritten(g, Ref(Rule.Sort), T.WriteSort) && AllWritten(g, Ref(Rule.Action), T.WriteAction)
    requires AllWritten(g, Ref(Rule.PageLink), T.WritePageLink)
    ensures x.CollectionList? && AllFilled(T.CollectionListMembers(x), m)
  {
    var id, collectionId, title := CollectionListFirstValues(g, m);
    var state, columns, fixedFilter, availableFilters := CollectionListMiddleValues(g, m);
    var defaultSort, rowActions, bulkActions, rowClick := CollectionListLastValues(g, m);
    x := T.CollectionList(id, collectionId, title, state, columns, fixedFilter, availableFilters, defaultSort,
      rowActions, bulkActions, rowClick);
    CollectionListFilled(x, m);
  }

  lemma CollectionListAdmitted(g: Grammar, x: T.Page)
    requires Direct(g) && x.CollectionList? && AllAccepted(g, Ref(Rule.Column), T.WriteColumn)
    requires AllAccepted(g, Ref(Rule.Filter), T.WriteFilter)
    requires AllAccepted(g, Ref(Rule.AvailableFilter), T.WriteAvailableFilter)
    requires AllAccepted(g, Ref(Rule.Sort), T.WriteSort) && AllAccepted(g, Ref(Rule.Action), T.WriteAction)
    requires AllAccepted(g, Ref(Rule.PageLink), T.WritePageLink)
    ensures Admits(g, PageShape(), T.WritePage(x))
  {
    CollectionListFits(g, x);
    PageTagsDiffer();
    VariantIsAccepted(g, PageShape(), 0, 1, T.PageMembers(x));
  }

  lemma CollectionListIsRead(x: T.Page, m: Meaning)
    requires x.CollectionList? && AllFilled(T.CollectionListMembers(x), m) && Covered(CollectionListPage().fields, m)
    ensures Writes(T.WritePage, m)
  {
    CollectionListNamed(x);
    assert T.PageMembers(x) == T.CollectionListMembers(x);
    FilledIsWritten(CollectionListPage().fields, T.PageMembers(x), m);
    Witness(T.WritePage, x, m);
  }

  lemma CollectionListBuilt(g: Grammar, m: Meaning)
    requires Direct(g) && Given(g, CollectionListPage().fields, m) && Covered(CollectionListPage().fields, m)
    requires AllWritten(g, Ref(Rule.Column), T.WriteColumn) && AllWritten(g, Ref(Rule.Filter), T.WriteFilter)
    requires AllWritten(g, Ref(Rule.AvailableFilter), T.WriteAvailableFilter)
    requires AllWritten(g, Ref(Rule.Sort), T.WriteSort) && AllWritten(g, Ref(Rule.Action), T.WriteAction)
    requires AllWritten(g, Ref(Rule.PageLink), T.WritePageLink)
    ensures Writes(T.WritePage, m)
  {
    var x := CollectionListValue(g, m);
    CollectionListIsRead(x, m);
  }

  lemma DocumentFormNamed(x: T.Page)
    requires x.DocumentForm?
    ensures Named(DocumentFormPage().fields, T.DocumentFormMembers(x))
  {
  }

  lemma DocumentFormFirstFit(g: Grammar, x: T.Page)
    requires Direct(g) && x.DocumentForm?
    ensures FitFrom(g, DocumentFormPage().fields, T.DocumentFormMembers(x), 0, 3)
  {
    TextFits(g, "id", x.id);
    TextFits(g, "collectionId", x.collectionId);
  }

  lemma DocumentFormLastFit(g: Grammar, x: T.Page)
    requires Direct(g) && x.DocumentForm? && AllAccepted(g, Ref(Rule.FormLayout), T.WriteFormLayout)
    requires AllAccepted(g, Ref(Rule.Action), T.WriteAction)
    ensures FitFrom(g, DocumentFormPage().fields, T.DocumentFormMembers(x), 3, 6)
  {
    FormModeFits(g, "mode", x.mode);
    ValueFits(g, "layout", Ref(Rule.FormLayout), T.WriteFormLayout, x.form);
    MaybeEachFits(g, "actions", Ref(Rule.Action), T.WriteAction, x.actions);
  }

  lemma DocumentFormFits(g: Grammar, x: T.Page)
    requires Direct(g) && x.DocumentForm? && AllAccepted(g, Ref(Rule.FormLayout), T.WriteFormLayout)
    requires AllAccepted(g, Ref(Rule.Action), T.WriteAction)
    ensures AllFit(g, DocumentFormPage().fields, T.DocumentFormMembers(x))
  {
    DocumentFormNamed(x);
    DocumentFormFirstFit(g, x);
    DocumentFormLastFit(g, x);
    FitTogether(g, DocumentFormPage().fields, T.DocumentFormMembers(x), 3, 6);
  }

  lemma DocumentFormFirstValues(g: Grammar, m: Meaning) returns (id: string, collectionId: string)
    requires Direct(g) && Given(g, DocumentFormPage().fields, m)
    ensures Filled(("id", Some(T.WriteText(id))), m)
    ensures Filled(("type", Some(Str("document-form"))), m)
    ensures Filled(("collectionId", Some(T.WriteText(collectionId))), m)
  {
    var fields := DocumentFormPage().fields;
    id := TextAt(g, fields, m, 0, "id");
    LiteralAt(g, fields, m, 1, "type", "document-form");
    collectionId := TextAt(g, fields, m, 2, "collectionId");
  }

  lemma DocumentFormLastValues(g: Grammar, m: Meaning)
    returns (mode: T.FormMode, form: T.FormLayout, actions: Option<seq<T.Action>>)
    requires Direct(g) && Given(g, DocumentFormPage().fields, m)
    requires AllWritten(g, Ref(Rule.FormLayout), T.WriteFormLayout)
    requires AllWritten(g, Ref(Rule.Action), T.WriteAction)
    ensures Filled(("mode", Some(T.WriteFormMode(mode))), m)
    ensures Filled(("layout", Some(T.WriteFormLayout(form))), m)
    ensures Filled(("actions", T.MaybeEach(actions, T.WriteAction)), m)
  {
    var fields := DocumentFormPage().fields;
    mode := FormModeAt(g, fields, m, 3, "mode");
    form := ValueAt(g, fields, m, 4, "layout", Ref(Rule.FormLayout), T.WriteFormLayout);
    actions := MaybeEachAt(g, fields, m, 5, "actions", Ref(Rule.Action), T.WriteAction);
  }

  lemma DocumentFormFilled(x: T.Page, m: Meaning)
    requires m.Table? && x.DocumentForm?
    requires Filled(("id", Some(T.WriteText(x.id))), m)
    requires Filled(("type", Some(Str("document-form"))), m)
    requires Filled(("collectionId", Some(T.WriteText(x.collectionId))), m)
    requires Filled(("mode", Some(T.WriteFormMode(x.mode))), m)
    requires Filled(("layout", Some(T.WriteFormLayout(x.form))), m)
    requires Filled(("actions", T.MaybeEach(x.actions, T.WriteAction)), m)
    ensures AllFilled(T.DocumentFormMembers(x), m)
  {
  }

  lemma DocumentFormValue(g: Grammar, m: Meaning) returns (x: T.Page)
    requires Direct(g) && Given(g, DocumentFormPage().fields, m)
    requires AllWritten(g, Ref(Rule.FormLayout), T.WriteFormLayout)
    requires AllWritten(g, Ref(Rule.Action), T.WriteAction)
    ensures x.DocumentForm? && AllFilled(T.DocumentFormMembers(x), m)
  {
    var id, collectionId := DocumentFormFirstValues(g, m);
    var mode, form, actions := DocumentFormLastValues(g, m);
    x := T.DocumentForm(id, collectionId, mode, form, actions);
    DocumentFormFilled(x, m);
  }

  lemma DocumentFormAdmitted(g: Grammar, x: T.Page)
    requires Direct(g) && x.DocumentForm? && AllAccepted(g, Ref(Rule.FormLayout), T.WriteFormLayout)
    requires AllAccepted(g, Ref(Rule.Action), T.WriteAction)
    ensures Admits(g, PageShape(), T.WritePage(x))
  {
    DocumentFormFits(g, x);
    PageTagsDiffer();
    VariantIsAccepted(g, PageShape(), 1, 1, T.PageMembers(x));
  }

  lemma DocumentFormIsRead(x: T.Page, m: Meaning)
    requires x.DocumentForm? && AllFilled(T.DocumentFormMembers(x), m) && Covered(DocumentFormPage().fields, m)
    ensures Writes(T.WritePage, m)
  {
    DocumentFormNamed(x);
    assert T.PageMembers(x) == T.DocumentFormMembers(x);
    FilledIsWritten(DocumentFormPage().fields, T.PageMembers(x), m);
    Witness(T.WritePage, x, m);
  }

  lemma DocumentFormBuilt(g: Grammar, m: Meaning)
    requires Direct(g) && Given(g, DocumentFormPage().fields, m) && Covered(DocumentFormPage().fields, m)
    requires AllWritten(g, Ref(Rule.FormLayout), T.WriteFormLayout)
    requires AllWritten(g, Ref(Rule.Action), T.WriteAction)
    ensures Writes(T.WritePage, m)
  {
    var x := DocumentFormValue(g, m);
    DocumentFormIsRead(x, m);
  }

  lemma DocumentDetailNamed(x: T.Page)
    requires x.DocumentDetail?
    ensures Named(DocumentDetailPage().fields, T.DocumentDetailMembers(x))
  {
  }

  lemma DocumentDetailFirstFit(g: Grammar, x: T.Page)
    requires Direct(g) && x.DocumentDetail?
    ensures FitFrom(g, DocumentDetailPage().fields, T.DocumentDetailMembers(x), 0, 3)
  {
    TextFits(g, "id", x.id);
    TextFits(g, "collectionId", x.collectionId);
  }

  lemma DocumentDetailLastFit(g: Grammar, x: T.Page)
    requires Direct(g) && x.DocumentDetail? && AllAccepted(g, Ref(Rule.DetailLayout), T.WriteDetailLayout)
    requires AllAccepted(g, Ref(Rule.Action), T.WriteAction)
    ensures FitFrom(g, DocumentDetailPage().fields, T.DocumentDetailMembers(x), 3, 6)
  {
    MaybeTextFits(g, "title", x.title);
    ValueFits(g, "layout", Ref(Rule.DetailLayout), T.WriteDetailLayout, x.detail);
    MaybeEachFits(g, "actions", Ref(Rule.Action), T.WriteAction, x.actions);
  }

  lemma DocumentDetailFits(g: Grammar, x: T.Page)
    requires Direct(g) && x.DocumentDetail? && AllAccepted(g, Ref(Rule.DetailLayout), T.WriteDetailLayout)
    requires AllAccepted(g, Ref(Rule.Action), T.WriteAction)
    ensures AllFit(g, DocumentDetailPage().fields, T.DocumentDetailMembers(x))
  {
    DocumentDetailNamed(x);
    DocumentDetailFirstFit(g, x);
    DocumentDetailLastFit(g, x);
    FitTogether(g, DocumentDetailPage().fields, T.DocumentDetailMembers(x), 3, 6);
  }

  lemma DocumentDetailFirstValues(g: Grammar, m: Meaning) returns (id: string, collectionId: string)
    requires Direct(g) && Given(g, DocumentDetailPage().fields, m)
    ensures Filled(("id", Some(T.WriteText(id))), m)
    ensures Filled(("type", Some(Str("document-detail"))), m)
    ensures Filled(("collectionId", Some(T.WriteText(collectionId))), m)
  {
    var fields := DocumentDetailPage().fields;
    id := TextAt(g, fields, m, 0, "id");
    LiteralAt(g, fields, m, 1, "type", "document-detail");
    collectionId := TextAt(g, fields, m, 2, "collectionId");
  }

  lemma DocumentDetailLastValues(g: Grammar, m: Meaning)
    returns (title: Option<string>, detail: T.DetailLayout, actions: Option<seq<T.Action>>)
    requires Direct(g) && Given(g, DocumentDetailPage().fields, m)
    requires AllWritten(g, Ref(Rule.DetailLayout), T.WriteDetailLayout)
    requires AllWritten(g, Ref(Rule.Action), T.WriteAction)
    ensures Filled(("title", T.Maybe(title, T.WriteText)), m)
    ensures Filled(("layout", Some(T.WriteDetailLayout(detail))), m)
    ensures Filled(("actions", T.MaybeEach(actions, T.WriteAction)), m)
  {
    var fields := DocumentDetailPage().fields;
    title := MaybeTextAt(g, fields, m, 3, "title");
    detail := ValueAt(g, fields, m, 4, "layout", Ref(Rule.DetailLayout), T.WriteDetailLayout);
    actions := MaybeEachAt(g, fields, m, 5, "actions", Ref(Rule.Action), T.WriteAction);
  }

  lemma DocumentDetailFilled(x: T.Page, m: Meaning)
    requires m.Table? && x.DocumentDetail?
    requires Filled(("id", Some(T.WriteText(x.id))), m)
    requires Filled(("type", Some(Str("document-detail"))), m)
    requires Filled(("collectionId", Some(T.WriteText(x.collectionId))), m)
    requires Filled(("title", T.Maybe(x.title, T.WriteText)), m)
    requires Filled(("layout", Some(T.WriteDetailLayout(x.detail))), m)
    requires Filled(("actions", T.MaybeEach(x.actions, T.WriteAction)), m)
    ensures AllFilled(T.DocumentDetailMembers(x), m)
  {
  }

  lemma DocumentDetailValue(g: Grammar, m: Meaning) returns (x: T.Page)
    requires Direct(g) && Given(g, DocumentDetailPage().fields, m)
    requires AllWritten(g, Ref(Rule.DetailLayout), T.WriteDetailLayout)
    requires AllWritten(g, Ref(Rule.Action), T.WriteAction)
    ensures x.DocumentDetail? && AllFilled(T.DocumentDetailMembers(x), m)
  {
    var id, collectionId := DocumentDetailFirstValues(g, m);
    var title, detail, actions := DocumentDetailLastValues(g, m);
    x := T.DocumentDetail(id, collectionId, title, detail, actions);
    DocumentDetailFilled(x, m);
  }

  lemma DocumentDetailAdmitted(g: Grammar, x: T.Page)
    requires Direct(g) && x.DocumentDetail? && AllAccepted(g, Ref(Rule.DetailLayout), T.WriteDetailLayout)
    requires AllAccepted(g, Ref(Rule.Action), T.WriteAction)
    ensures Admits(g, PageShape(), T.WritePage(x))
  {
    DocumentDetailFits(g, x);
    PageTagsDiffer();
    VariantIsAccepted(g, PageShape(), 2, 1, T.PageMembers(x));
  }

  lemma DocumentDetailIsRead(x: T.Page, m: Meaning)
    requires x.DocumentDetail? && AllFilled(T.DocumentDetailMembers(x), m) && Covered(DocumentDetailPage().fields, m)
    ensures Writes(T.WritePage, m)
  {
    DocumentDetailNamed(x);
    assert T.PageMembers(x) == T.DocumentDetailMembers(x);
    FilledIsWritten(DocumentDetailPage().fields, T.PageMembers(x), m);
    Witness(T.WritePage, x, m);
  }

  lemma DocumentDetailBuilt(g: Grammar, m: Meaning)
    requires Direct(g) && Given(g, DocumentDetailPage().fields, m) && Covered(DocumentDetailPage().fields, m)
    requires AllWritten(g, Ref(Rule.DetailLayout), T.WriteDetailLayout)
    requires AllWritten(g, Ref(Rule.Action), T.WriteAction)
    ensures Writes(T.WritePage, m)
  {
    var x := DocumentDetailValue(g, m);
    DocumentDetailIsRead(x, m);
  }

  lemma SingletonNamed(x: T.Page)
    requires x.Singleton?
    ensures Named(SingletonPage().fields, T.SingletonMembers(x))
  {
  }

  lemma SingletonFirstFit(g: Grammar, x: T.Page)
    requires Direct(g) && x.Singleton?
    ensures FitFrom(g, SingletonPage().fields, T.SingletonMembers(x), 0, 3)
  {
    TextFits(g, "id", x.id);
    TextFits(g, "collectionId", x.collectionId);
  }

  lemma SingletonLastFit(g: Grammar, x: T.Page)
    requires Direct(g) && x.Singleton? && AllAccepted(g, Ref(Rule.FormLayout), T.WriteFormLayout)
    requires AllAccepted(g, Ref(Rule.Action), T.WriteAction)
    ensures FitFrom(g, SingletonPage().fields, T.SingletonMembers(x), 3, 6)
  {
    MaybeTextFits(g, "title", x.title);
    ValueFits(g, "layout", Ref(Rule.FormLayout), T.WriteFormLayout, x.form);
    MaybeEachFits(g, "actions", Ref(Rule.Action), T.WriteAction, x.actions);
  }

  lemma SingletonFits(g: Grammar, x: T.Page)
    requires Direct(g) && x.Singleton? && AllAccepted(g, Ref(Rule.FormLayout), T.WriteFormLayout)
    requires AllAccepted(g, Ref(Rule.Action), T.WriteAction)
    ensures AllFit(g, SingletonPage().fields, T.SingletonMembers(x))
  {
    SingletonNamed(x);
    SingletonFirstFit(g, x);
    SingletonLastFit(g, x);
    FitTogether(g, SingletonPage().fields, T.SingletonMembers(x), 3, 6);
  }

  lemma SingletonFirstValues(g: Grammar, m: Meaning) returns (id: string, collectionId: string)
    requires Direct(g) && Given(g, SingletonPage().fields, m)
    ensures Filled(("id", Some(T.WriteText(id))), m)
    ensures Filled(("type", Some(Str("singleton"))), m)
    ensures Filled(("collectionId", Some(T.WriteText(collectionId))), m)
  {
    var fields := SingletonPage().fields;
    id := TextAt(g, fields, m, 0, "id");
    LiteralAt(g, fields, m, 1, "type", "singleton");
    collectionId := TextAt(g, fields, m, 2, "collectionId");
  }

  lemma SingletonLastValues(g: Grammar, m: Meaning)
    returns (title: Option<string>, form: T.FormLayout, actions: Option<seq<T.Action>>)
    requires Direct(g) && Given(g, SingletonPage().fields, m)
    requires AllWritten(g, Ref(Rule.FormLayout), T.WriteFormLayout)
    requires AllWritten(g, Ref(Rule.Action), T.WriteAction)
    ensures Filled(("title", T.Maybe(title, T.WriteText)), m)
    ensures Filled(("layout", Some(T.WriteFormLayout(form))), m)
    ensures Filled(("actions", T.MaybeEach(actions, T.WriteAction)), m)
  {
    var fields := SingletonPage().fields;
    title := MaybeTextAt(g, fields, m, 3, "title");
    form := ValueAt(g, fields, m, 4, "layout", Ref(Rule.FormLayout), T.WriteFormLayout);
    actions := MaybeEachAt(g, fields, m, 5, "actions", Ref(Rule.Action), T.WriteAction);
  }

  lemma SingletonFilled(x: T.Page, m: Meaning)
    requires m.Table? && x.Singleton?
    requires Filled(("id", Some(T.WriteText(x.id))), m)
    requires Filled(("type", Some(Str("singleton"))), m)
    requires Filled(("collectionId", Some(T.WriteText(x.collectionId))), m)
    requires Filled(("title", T.Maybe(x.title, T.WriteText)), m)
    requires Filled(("layout", Some(T.WriteFormLayout(x.form))), m)
    requires Filled(("actions", T.MaybeEach(x.actions, T.WriteAction)), m)
    ensures AllFilled(T.SingletonMembers(x), m)
  {
  }

  lemma SingletonValue(g: Grammar, m: Meaning) returns (x: T.Page)
    requires Direct(g) && Given(g, SingletonPage().fields, m)
    requires AllWritten(g, Ref(Rule.FormLayout), T.WriteFormLayout)
    requires AllWritten(g, Ref(Rule.Action), T.WriteAction)
    ensures x.Singleton? && AllFilled(T.SingletonMembers(x), m)
  {
    var id, collectionId := SingletonFirstValues(g, m);
    var title, form, actions := SingletonLastValues(g, m);
    x := T.Singleton(id, collectionId, title, form, actions);
    SingletonFilled(x, m);
  }

  lemma SingletonAdmitted(g: Grammar, x: T.Page)
    requires Direct(g) && x.Singleton? && AllAccepted(g, Ref(Rule.FormLayout), T.WriteFormLayout)
    requires AllAccepted(g, Ref(Rule.Action), T.WriteAction)
    ensures Admits(g, PageShape(), T.WritePage(x))
  {
    SingletonFits(g, x);
    PageTagsDiffer();
    VariantIsAccepted(g, PageShape(), 3, 1, T.PageMembers(x));
  }

  lemma SingletonIsRead(x: T.Page, m: Meaning)
    requires x.Singleton? && AllFilled(T.SingletonMembers(x), m) && Covered(SingletonPage().fields, m)
    ensures Writes(T.WritePage, m)
  {
    SingletonNamed(x);
    assert T.PageMembers(x) == T.SingletonMembers(x);
    FilledIsWritten(SingletonPage().fields, T.PageMembers(x), m);
    Witness(T.WritePage, x, m);
  }

  lemma SingletonBuilt(g: Grammar, m: Meaning)
    requires Direct(g) && Given(g, SingletonPage().fields, m) && Covered(SingletonPage().fields, m)
    requires AllWritten(g, Ref(Rule.FormLayout), T.WriteFormLayout)
    requires AllWritten(g, Ref(Rule.Action), T.WriteAction)
    ensures Writes(T.WritePage, m)
  {
    var x := SingletonValue(g, m);
    SingletonIsRead(x, m);
  }

  lemma DashboardNamed(x: T.Page)
    requires x.Dashboard?
    ensures Named(DashboardPage().fields, T.DashboardMembers(x))
  {
  }

  lemma DashboardFits(g: Grammar, x: T.Page)
    requires Direct(g) && x.Dashboard? && AllAccepted(g, Ref(Rule.Widget), T.WriteWidget)
    ensures AllFit(g, DashboardPage().fields, T.DashboardMembers(x))
  {
    TextFits(g, "id", x.id);
    MaybeTextFits(g, "title", x.title);
    EachFits(g, "widgets", Ref(Rule.Widget), T.WriteWidget, x.widgets);
  }

  lemma DashboardValue(g: Grammar, m: Meaning) returns (x: T.Page)
    requires Direct(g) && Given(g, DashboardPage().fields, m) && AllWritten(g, Ref(Rule.Widget), T.WriteWidget)
    ensures x.Dashboard? && AllFilled(T.DashboardMembers(x), m)
  {
    var fields := DashboardPage().fields;
    var id := TextAt(g, fields, m, 0, "id");
    LiteralAt(g, fields, m, 1, "type", "dashboard");
    var title := MaybeTextAt(g, fields, m, 2, "title");
    var widgets := EachAt(g, fields, m, 3, "widgets", Ref(Rule.Widget), T.WriteWidget);
    x := T.Dashboard(id, title, widgets);
  }

  lemma DashboardAdmitted(g: Grammar, x: T.Page)
    requires Direct(g) && x.Dashboard? && AllAccepted(g, Ref(Rule.Widget), T.WriteWidget)
    ensures Admits(g, PageShape(), T.WritePage(x))
  {
    DashboardFits(g, x);
    PageTagsDiffer();
    VariantIsAccepted(g, PageShape(), 4, 1, T.PageMembers(x));
  }

  lemma DashboardIsRead(x: T.Page, m: Meaning)
    requires x.Dashboard? && AllFilled(T.DashboardMembers(x), m) && Covered(DashboardPage().fields, m)
    ensures Writes(T.WritePage, m)
  {
    DashboardNamed(x);
    assert T.PageMembers(x) == T.DashboardMembers(x);
    FilledIsWritten(DashboardPage().fields, T.PageMembers(x), m);
    Witness(T.WritePage, x, m);
  }

  lemma DashboardBuilt(g: Grammar, m: Meaning)
    requires Direct(g) && Given(g, DashboardPage().fields, m) && Covered(DashboardPage().fields, m)
    requires AllWritten(g, Ref(Rule.Widget), T.WriteWidget)
    ensures Writes(T.WritePage, m)
  {
    var x := DashboardValue(g, m);
    DashboardIsRead(x, m);
  }

  lemma PluginNamed(x: T.Page)
    requires x.Plugin?
    ensures Named(PluginPage().fields, T.PluginMembers(x))
  {
  }

  lemma PluginFits(g: Grammar, x: T.Page)
    requires Direct(g) && x.Plugin?
    ensures AllFit(g, PluginPage().fields, T.PluginMembers(x))
  {
    TextFits(g, "id", x.id);
    MaybeTextFits(g, "title", x.title);
    TextFits(g, "extensionId", x.extensionId);
  }

  lemma PluginValue(g: Grammar, m: Meaning) returns (x: T.Page)
    requires Direct(g) && Given(g, PluginPage().fields, m)
    ensures x.Plugin? && AllFilled(T.PluginMembers(x), m)
  {
    var fields := PluginPage().fields;
    var id := TextAt(g, fields, m, 0, "id");
    LiteralAt(g, fields, m, 1, "type", "plugin-page");
    var title := MaybeTextAt(g, fields, m, 2, "title");
    var extensionId := TextAt(g, fields, m, 3, "extensionId");
    x := T.Plugin(id, title, extensionId);
  }

  lemma PluginAdmitted(g: Grammar, x: T.Page)
    requires Direct(g) && x.Plugin?
    ensures Admits(g, PageShape(), T.WritePage(x))
  {
    PluginFits(g, x);
    PageTagsDiffer();
    VariantIsAccepted(g, PageShape(), 5, 1, T.PageMembers(x));
  }

  lemma PluginIsRead(x: T.Page, m: Meaning)
    requires x.Plugin? && AllFilled(T.PluginMembers(x), m) && Covered(PluginPage().fields, m)
    ensures Writes(T.WritePage, m)
  {
    PluginNamed(x);
    assert T.PageMembers(x) == T.PluginMembers(x);
    FilledIsWritten(PluginPage().fields, T.PageMembers(x), m);
    Witness(T.WritePage, x, m);
  }

  lemma PluginBuilt(g: Grammar, m: Meaning)
    requires Direct(g) && Given(g, PluginPage().fields, m) && Covered(PluginPage().fields, m)
    ensures Writes(T.WritePage, m)
  {
    var x := PluginValue(g, m);
    PluginIsRead(x, m);
  }

  lemma PageAdmitted(g: Grammar, x: T.Page)
    requires Direct(g) && AllAccepted(g, Ref(Rule.Column), T.WriteColumn)
    requires AllAccepted(g, Ref(Rule.Filter), T.WriteFilter)
    requires AllAccepted(g, Ref(Rule.AvailableFilter), T.WriteAvailableFilter)
    requires AllAccepted(g, Ref(Rule.Sort), T.WriteSort) && AllAccepted(g, Ref(Rule.Action), T.WriteAction)
    requires AllAccepted(g, Ref(Rule.PageLink), T.WritePageLink)
    requires AllAccepted(g, Ref(Rule.FormLayout), T.WriteFormLayout)
    requires AllAccepted(g, Ref(Rule.DetailLayout), T.WriteDetailLayout)
    requires AllAccepted(g, Ref(Rule.Widget), T.WriteWidget)
    ensures Admits(g, PageShape(), T.WritePage(x))
  {
    match x
    case CollectionList(_, _, _, _, _, _, _, _, _, _, _) => CollectionListAdmitted(g, x);
    case DocumentForm(_, _, _, _, _) => DocumentFormAdmitted(g, x);
    case DocumentDetail(_, _, _, _, _) => DocumentDetailAdmitted(g, x);
    case Singleton(_, _, _, _, _) => SingletonAdmitted(g, x);
    case Dashboard(_, _, _) => DashboardAdmitted(g, x);
    case Plugin(_, _, _) => PluginAdmitted(g, x);
  }

  lemma PageBuilt(g: Grammar, m: Meaning)
    requires Direct(g) && Normal(m) && Accepts(g, PageShape(), m)
    requires AllWritten(g, Ref(Rule.Column), T.WriteColumn) && AllWritten(g, Ref(Rule.Filter), T.WriteFilter)
    requires AllWritten(g, Ref(Rule.AvailableFilter), T.WriteAvailableFilter)
    requires AllWritten(g, Ref(Rule.Sort), T.WriteSort) && AllWritten(g, Ref(Rule.Action), T.WriteAction)
    requires AllWritten(g, Ref(Rule.PageLink), T.WritePageLink)
    requires AllWritten(g, Ref(Rule.FormLayout), T.WriteFormLayout)
    requires AllWritten(g, Ref(Rule.DetailLayout), T.WriteDetailLayout)
    requires AllWritten(g, Ref(Rule.Widget), T.WriteWidget)
    ensures Writes(T.WritePage, m)
  {
    var found := PageVariantOf(g, m);
    if found == CollectionListPage() {
      CollectionListBuilt(g, m);
    } else if found == DocumentFormPage() {
      DocumentFormBuilt(g, m);
    } else if found == DocumentDetailPage() {
      DocumentDetailBuilt(g, m);
    } else if found == SingletonPage() {
      SingletonBuilt(g, m);
    } else if found == DashboardPage() {
      DashboardBuilt(g, m);
    } else {
      PluginBuilt(g, m);
    }
  }

  lemma PageIsTyped(g: Grammar)
    requires Direct(g) && g(Rule.Page) == PageShape() && Typed(g, Ref(Rule.Column), T.WriteColumn)
    requires Typed(g, Ref(Rule.Filter), T.WriteFilter)
    requires Typed(g, Ref(Rule.AvailableFilter), T.WriteAvailableFilter) && Typed(g, Ref(Rule.Sort), T.WriteSort)
    requires Typed(g, Ref(Rule.Action), T.WriteAction) && Typed(g, Ref(Rule.PageLink), T.WritePageLink)
    requires Typed(g, Ref(Rule.FormLayout), T.WriteFormLayout)
    requires Typed(g, Ref(Rule.DetailLayout), T.WriteDetailLayout) && Typed(g, Ref(Rule.Widget), T.WriteWidget)
    ensures Typed(g, Ref(Rule.Page), T.WritePage)
  {
    forall x: T.Page ensures Admits(g, PageShape(), T.WritePage(x)) {
      PageAdmitted(g, x);
    }
    forall m | Normal(m) && Accepts(g, PageShape(), m) ensures Writes(T.WritePage, m) {
      PageBuilt(g, m);
    }
    RuleIsTyped(g, Rule.Page, T.WritePage);
  }
}
