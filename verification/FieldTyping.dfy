/** Fields, filters, columns and queries: the grammar accepts what they are written as, and nothing else. */
module FieldTyping {
  import opened Wrappers
  import opened Json
  import opened Decode
  import opened DecodeProofs
  import opened ManifestGrammar
  import opened TypedValues
  import T = ManifestTypes

  lemma SystemNameIsTyped(g: Grammar)
    requires Direct(g)
    ensures Typed(g, Strings(["id", "createdAt", "updatedAt", "version"]), T.WriteSystemName)
  {
    var shape := Strings(["id", "createdAt", "updatedAt", "version"]);
    forall m | Normal(m) && Accepts(g, shape, m) ensures Writes(T.WriteSystemName, m) {
      if m.v.s == "id" {
        Witness(T.WriteSystemName, T.IdName, m);
      } else if m.v.s == "createdAt" {
        Witness(T.WriteSystemName, T.CreatedAt, m);
      } else if m.v.s == "updatedAt" {
        Witness(T.WriteSystemName, T.UpdatedAt, m);
      } else {
        Witness(T.WriteSystemName, T.VersionName, m);
      }
    }
  }

  lemma SystemNameFits(g: Grammar, key: string, x: T.SystemName)
    requires Direct(g)
    ensures Fits(g, Field(key, true, Strings(["id", "createdAt", "updatedAt", "version"])),
      (key, Some(T.WriteSystemName(x))))
  {
    SystemNameIsTyped(g);
    ValueFits(g, key, Strings(["id", "createdAt", "updatedAt", "version"]), T.WriteSystemName, x);
  }

  lemma SystemNameAt(g: Grammar, fields: seq<Field>, m: Meaning, i: nat, key: string) returns (x: T.SystemName)
    requires Direct(g) && Given(g, fields, m) && i < |fields|
    requires fields[i] == Field(key, true, Strings(["id", "createdAt", "updatedAt", "version"]))
    ensures Filled((key, Some(T.WriteSystemName(x))), m)
  {
    SystemNameIsTyped(g);
    x := ValueAt(g, fields, m, i, key, Strings(["id", "createdAt", "updatedAt", "version"]), T.WriteSystemName);
  }

  lemma FieldReferenceTagsDiffer()
    ensures DistinctTags(FieldReferenceShape().variants)
  {
  }

  lemma FieldReferenceVariantOf(g: Grammar, m: Meaning) returns (found: Variant)
    requires Direct(g) && Normal(m) && Accepts(g, FieldReferenceShape(), m)
    ensures found == DataField() || found == SystemField()
    ensures Given(g, found.fields, m) && Covered(found.fields, m)
  {
    found := FoundVariant(g, FieldReferenceShape(), m);
  }

  lemma DataNamed(x: T.FieldReference)
    requires x.Data?
    ensures Named(DataField().fields, T.DataMembers(x))
  {
  }

  lemma DataFits(g: Grammar, x: T.FieldReference)
    requires Direct(g) && x.Data?
    ensures AllFit(g, DataField().fields, T.DataMembers(x))
  {
    TextFits(g, "fieldId", x.fieldId);
  }

  lemma DataValue(g: Grammar, m: Meaning) returns (x: T.FieldReference)
    requires Direct(g) && Given(g, DataField().fields, m)
    ensures x.Data? && AllFilled(T.DataMembers(x), m)
  {
    var fields := DataField().fields;
    LiteralAt(g, fields, m, 0, "kind", "data");
    var fieldId := TextAt(g, fields, m, 1, "fieldId");
    x := T.Data(fieldId);
  }

  lemma DataAdmitted(g: Grammar, x: T.FieldReference)
    requires Direct(g) && x.Data?
    ensures Admits(g, FieldReferenceShape(), T.WriteFieldReference(x))
  {
    DataFits(g, x);
    FieldReferenceTagsDiffer();
    VariantIsAccepted(g, FieldReferenceShape(), 0, 0, T.FieldReferenceMembers(x));
  }

  lemma DataIsRead(x: T.FieldReference, m: Meaning)
    requires x.Data? && AllFilled(T.DataMembers(x), m) && Covered(DataField().fields, m)
    ensures Writes(T.WriteFieldReference, m)
  {
    DataNamed(x);
    assert T.FieldReferenceMembers(x) == T.DataMembers(x);
    FilledIsWritten(DataField().fields, T.FieldReferenceMembers(x), m);
    Witness(T.WriteFieldReference, x, m);
  }

  lemma DataBuilt(g: Grammar, m: Meaning)
    requires Direct(g) && Given(g, DataField().fields, m) && Covered(DataField().fields, m)
    ensures Writes(T.WriteFieldReference, m)
  {
    var x := DataValue(g, m);
    DataIsRead(x, m);
  }

  lemma SystemNamed(x: T.FieldReference)
    requires x.System?
    ensures Named(SystemField().fields, T.SystemMembers(x))
  {
  }

  lemma SystemFits(g: Grammar, x: T.FieldReference)
    requires Direct(g) && x.System?
    ensures AllFit(g, SystemField().fields, T.SystemMembers(x))
  {
    SystemNameFits(g, "field", x.name);
  }

  lemma SystemValue(g: Grammar, m: Meaning) returns (x: T.FieldReference)
    requires Direct(g) && Given(g, SystemField().fields, m)
    ensures x.System? && AllFilled(T.SystemMembers(x), m)
  {
    var fields := SystemField().fields;
    LiteralAt(g, fields, m, 0, "kind", "system");
    var name := SystemNameAt(g, fields, m, 1, "field");
    x := T.System(name);
  }

  lemma SystemAdmitted(g: Grammar, x: T.FieldReference)
    requires Direct(g) && x.System?
    ensures Admits(g, FieldReferenceShape(), T.WriteFieldReference(x))
  {
    SystemFits(g, x);
    FieldReferenceTagsDiffer();
    VariantIsAccepted(g, FieldReferenceShape(), 1, 0, T.FieldReferenceMembers(x));
  }

  lemma SystemIsRead(x: T.FieldReference, m: Meaning)
    requires x.System? && AllFilled(T.SystemMembers(x), m) && Covered(SystemField().fields, m)
    ensures Writes(T.WriteFieldReference, m)
  {
    SystemNamed(x);
    assert T.FieldReferenceMembers(x) == T.SystemMembers(x);
    FilledIsWritten(SystemField().fields, T.FieldReferenceMembers(x), m);
    Witness(T.WriteFieldReference, x, m);
  }

  lemma SystemBuilt(g: Grammar, m: Meaning)
    requires Direct(g) && Given(g, SystemField().fields, m) && Covered(SystemField().fields, m)
    ensures Writes(T.WriteFieldReference, m)
  {
    var x := SystemValue(g, m);
    SystemIsRead(x, m);
  }

  lemma FieldReferenceAdmitted(g: Grammar, x: T.FieldReference)
    requires Direct(g)
    ensures Admits(g, FieldReferenceShape(), T.WriteFieldReference(x))
  {
    match x
    case Data(_) => DataAdmitted(g, x);
    case System(_) => SystemAdmitted(g, x);
  }

  lemma FieldReferenceBuilt(g: Grammar, m: Meaning)
    requires Direct(g) && Normal(m) && Accepts(g, FieldReferenceShape(), m)
    ensures Writes(T.WriteFieldReference, m)
  {
    var found := FieldReferenceVariantOf(g, m);
    if found == DataField() {
      DataBuilt(g, m);
    } else {
      SystemBuilt(g, m);
    }
  }

  lemma FieldReferenceIsTyped(g: Grammar)
    requires Direct(g) && g(Rule.FieldReference) == FieldReferenceShape()
    ensures Typed(g, Ref(Rule.FieldReference), T.WriteFieldReference)
  {
    forall x: T.FieldReference ensures Admits(g, FieldReferenceShape(), T.WriteFieldReference(x)) {
      FieldReferenceAdmitted(g, x);
    }
    forall m | Normal(m) && Accepts(g, FieldReferenceShape(), m) ensures Writes(T.WriteFieldReference, m) {
      FieldReferenceBuilt(g, m);
    }
    RuleIsTyped(g, Rule.FieldReference, T.WriteFieldReference);
  }

  /** The operator of a name. */
  lemma OperatorOf(s: string) returns (op: T.FilterOperator)
    requires s in ["eq", "ne", "lt", "lte", "gt", "gte", "contains", "startsWith", "in", "isNull", "isNotNull"]
    ensures T.WriteFilterOperator(op) == Str(s)
  {
    if s == "eq" {
      op := T.Eq;
    } else if s == "ne" {
      op := T.Ne;
    } else if s == "lt" {
      op := T.Lt;
    } else if s == "lte" {
      op := T.Lte;
    } else if s == "gt" {
      op := T.Gt;
    } else if s == "gte" {
      op := T.Gte;
    } else if s == "contains" {
      op := T.Contains;
    } else if s == "startsWith" {
      op := T.StartsWith;
    } else if s == "in" {
      op := T.In;
    } else if s == "isNull" {
      op := T.IsNull;
    } else {
      op := T.IsNotNull;
    }
  }

  lemma FilterOperatorIsTyped(g: Grammar)
    requires Direct(g) && g(Rule.FilterOperator) == FilterOperatorShape()
    ensures Typed(g, Ref(Rule.FilterOperator), T.WriteFilterOperator)
  {
    forall m | Normal(m) && Accepts(g, FilterOperatorShape(), m) ensures Writes(T.WriteFilterOperator, m) {
      var op := OperatorOf(m.v.s);
      Witness(T.WriteFilterOperator, op, m);
    }
    RuleIsTyped(g, Rule.FilterOperator, T.WriteFilterOperator);
  }

  lemma ConnectiveIsTyped(g: Grammar)
    requires Direct(g)
    ensures Typed(g, Strings(["and", "or"]), T.WriteConnective)
  {
    var shape := Strings(["and", "or"]);
    forall m | Normal(m) && Accepts(g, shape, m) ensures Writes(T.WriteConnective, m) {
      if m.v.s == "and" {
        Witness(T.WriteConnective, T.And, m);
      } else {
        Witness(T.WriteConnective, T.Or, m);
      }
    }
  }

  lemma ConnectiveFits(g: Grammar, key: string, x: T.Connective)
    requires Direct(g)
    ensures Fits(g, Field(key, true, Strings(["and", "or"])), (key, Some(T.WriteConnective(x))))
  {
    ConnectiveIsTyped(g);
    ValueFits(g, key, Strings(["and", "or"]), T.WriteConnective, x);
  }

  lemma ConnectiveAt(g: Grammar, fields: seq<Field>, m: Meaning, i: nat, key: string) returns (x: T.Connective)
    requires Direct(g) && Given(g, fields, m) && i < |fields| && fields[i] == Field(key, true, Strings(["and", "or"]))
    ensures Filled((key, Some(T.WriteConnective(x))), m)
  {
    ConnectiveIsTyped(g);
    x := ValueAt(g, fields, m, i, key, Strings(["and", "or"]), T.WriteConnective);
  }

  lemma MaybeFilterValueFits(g: Grammar, key: string, x: Option<T.FilterValue>)
    requires Direct(g)
    ensures Fits(g, Field(key, false, ScalarOrList), (key, T.Maybe(x, T.WriteFilterValue)))
  {
    FilterValueIsTyped(g);
    MaybeFits(g, key, ScalarOrList, T.WriteFilterValue, x);
  }

  lemma MaybeFilterValueAt(g: Grammar, fields: seq<Field>, m: Meaning, i: nat, key: string)
    returns (x: Option<T.FilterValue>)
    requires Direct(g) && Given(g, fields, m) && i < |fields| && fields[i] == Field(key, false, ScalarOrList)
    ensures Filled((key, T.Maybe(x, T.WriteFilterValue)), m)
  {
    FilterValueIsTyped(g);
    x := MaybeAt(g, fields, m, i, key, ScalarOrList, T.WriteFilterValue);
  }

  lemma FiltersAreEach(xs: seq<T.Filter>)
    ensures T.WriteEach(xs, T.WriteFilter) == Arr(T.WriteFilters(xs))
  {
    assert T.WriteEach(xs, T.WriteFilter).items == T.WriteFilters(xs);
  }

  lemma FilterTagsDiffer()
    ensures DistinctTags(FilterShape().variants)
  {
  }

  lemma FilterVariantOf(g: Grammar, m: Meaning) returns (found: Variant)
    requires Direct(g) && Normal(m) && Accepts(g, FilterShape(), m)
    ensures found == FilterGroup() || found == FilterCondition()
    ensures Given(g, found.fields, m) && Covered(found.fields, m)
  {
    found := FoundVariant(g, FilterShape(), m);
  }

  lemma GroupNamed(x: T.Filter)
    requires x.Group?
    ensures Named(FilterGroup().fields, T.GroupMembers(x))
  {
  }

  lemma GroupFits(g: Grammar, x: T.Filter)
    requires Direct(g) && x.Group? && EachAdmitted(g, Ref(Rule.Filter), T.WriteFilters(x.filters))
    ensures AllFit(g, FilterGroup().fields, T.GroupMembers(x))
  {
    ConnectiveFits(g, "operator", x.connective);
    ItemsFit(g, "filters", true, Ref(Rule.Filter), T.WriteFilters(x.filters));
  }

  lemma GroupValue(g: Grammar, m: Meaning) returns (x: T.Filter)
    requires Direct(g) && Given(g, FilterGroup().fields, m) && WrittenBelow(g, Ref(Rule.Filter), T.WriteFilter, m)
    ensures x.Group? && AllFilled(T.GroupMembers(x), m)
  {
    var fields := FilterGroup().fields;
    LiteralAt(g, fields, m, 0, "type", "group");
    var connective := ConnectiveAt(g, fields, m, 1, "operator");
    var filters := EachBelow(g, fields, m, 2, "filters", Ref(Rule.Filter), T.WriteFilter);
    FiltersAreEach(filters);
    x := T.Group(connective, filters);
  }

  lemma GroupAdmitted(g: Grammar, x: T.Filter)
    requires Direct(g) && x.Group? && EachAdmitted(g, Ref(Rule.Filter), T.WriteFilters(x.filters))
    ensures Admits(g, FilterShape(), T.WriteFilter(x))
  {
    GroupFits(g, x);
    FilterTagsDiffer();
    VariantIsAccepted(g, FilterShape(), 0, 0, T.FilterMembers(x));
  }

  lemma GroupIsRead(x: T.Filter, m: Meaning)
    requires x.Group? && AllFilled(T.GroupMembers(x), m) && Covered(FilterGroup().fields, m)
    ensures Writes(T.WriteFilter, m)
  {
    GroupNamed(x);
    assert T.FilterMembers(x) == T.GroupMembers(x);
    FilledIsWritten(FilterGroup().fields, T.FilterMembers(x), m);
    Witness(T.WriteFilter, x, m);
  }

  lemma GroupBuilt(g: Grammar, m: Meaning)
    requires Direct(g) && Given(g, FilterGroup().fields, m) && Covered(FilterGroup().fields, m)
    requires WrittenBelow(g, Ref(Rule.Filter), T.WriteFilter, m)
    ensures Writes(T.WriteFilter, m)
  {
    var x := GroupValue(g, m);
    GroupIsRead(x, m);
  }

  lemma ConditionNamed(x: T.Filter)
    requires x.Condition?
    ensures Named(FilterCondition().fields, T.ConditionMembers(x))
  {
  }

  lemma ConditionFits(g: Grammar, x: T.Filter)
    requires Direct(g) && x.Condition? && AllAccepted(g, Ref(Rule.FieldReference), T.WriteFieldReference)
    requires AllAccepted(g, Ref(Rule.FilterOperator), T.WriteFilterOperator)
    ensures AllFit(g, FilterCondition().fields, T.ConditionMembers(x))
  {
    ValueFits(g, "field", Ref(Rule.FieldReference), T.WriteFieldReference, x.field);
    ValueFits(g, "operator", Ref(Rule.FilterOperator), T.WriteFilterOperator, x.operator);
    MaybeFilterValueFits(g, "value", x.value);
  }

  lemma ConditionValue(g: Grammar, m: Meaning) returns (x: T.Filter)
    requires Direct(g) && Given(g, FilterCondition().fields, m)
    requires AllWritten(g, Ref(Rule.FieldReference), T.WriteFieldReference)
    requires AllWritten(g, Ref(Rule.FilterOperator), T.WriteFilterOperator)
    ensures x.Condition? && AllFilled(T.ConditionMembers(x), m)
  {
    var fields := FilterCondition().fields;
    LiteralAt(g, fields, m, 0, "type", "condition");
    var field := ValueAt(g, fields, m, 1, "field", Ref(Rule.FieldReference), T.WriteFieldReference);
    var operator := ValueAt(g, fields, m, 2, "operator", Ref(Rule.FilterOperator), T.WriteFilterOperator);
    var value := MaybeFilterValueAt(g, fields, m, 3, "value");
    x := T.Condition(field, operator, value);
  }

  lemma ConditionAdmitted(g: Grammar, x: T.Filter)
    requires Direct(g) && x.Condition? && AllAccepted(g, Ref(Rule.FieldReference), T.WriteFieldReference)
    requires AllAccepted(g, Ref(Rule.FilterOperator), T.WriteFilterOperator)
    ensures Admits(g, FilterShape(), T.WriteFilter(x))
  {
    ConditionFits(g, x);
    FilterTagsDiffer();
    VariantIsAccepted(g, FilterShape(), 1, 0, T.FilterMembers(x));
  }

  lemma ConditionIsRead(x: T.Filter, m: Meaning)
    requires x.Condition? && AllFilled(T.ConditionMembers(x), m) && Covered(FilterCondition().fields, m)
    ensures Writes(T.WriteFilter, m)
  {
    ConditionNamed(x);
    assert T.FilterMembers(x) == T.ConditionMembers(x);
    FilledIsWritten(FilterCondition().fields, T.FilterMembers(x), m);
    Witness(T.WriteFilter, x, m);
  }

  lemma ConditionBuilt(g: Grammar, m: Meaning)
    requires Direct(g) && Given(g, FilterCondition().fields, m) && Covered(FilterCondition().fields, m)
    requires AllWritten(g, Ref(Rule.FieldReference), T.WriteFieldReference)
    requires AllWritten(g, Ref(Rule.FilterOperator), T.WriteFilterOperator)
    ensures Writes(T.WriteFilter, m)
  {
    var x := ConditionValue(g, m);
    ConditionIsRead(x, m);
  }

  lemma FilterBuilt(g: Grammar, m: Meaning)
    requires Direct(g) && Normal(m) && Accepts(g, FilterShape(), m)
    requires WrittenBelow(g, Ref(Rule.Filter), T.WriteFilter, m)
    requires AllWritten(g, Ref(Rule.FieldReference), T.WriteFieldReference)
    requires AllWritten(g, Ref(Rule.FilterOperator), T.WriteFilterOperator)
    ensures Writes(T.WriteFilter, m)
  {
    var found := FilterVariantOf(g, m);
    if found == FilterGroup() {
      GroupBuilt(g, m);
    } else {
      ConditionBuilt(g, m);
    }
  }

  lemma FilterAdmitted(g: Grammar, x: T.Filter)
    requires Direct(g) && AllAccepted(g, Ref(Rule.FieldReference), T.WriteFieldReference)
    requires AllAccepted(g, Ref(Rule.FilterOperator), T.WriteFilterOperator)
    requires x.Group? ==> EachAdmitted(g, Ref(Rule.Filter), T.WriteFilters(x.filters))
    ensures Admits(g, FilterShape(), T.WriteFilter(x))
  {
    if x.Group? {
      GroupAdmitted(g, x);
    } else {
      ConditionAdmitted(g, x);
    }
  }

  lemma {:induction false} FilterAccepted(g: Grammar, x: T.Filter)
    requires Direct(g) && g(Rule.Filter) == FilterShape()
    requires AllAccepted(g, Ref(Rule.FieldReference), T.WriteFieldReference)
    requires AllAccepted(g, Ref(Rule.FilterOperator), T.WriteFilterOperator)
    ensures Admits(g, Ref(Rule.Filter), T.WriteFilter(x))
    decreases x
  {
    if x.Group? {
      FiltersAccepted(g, x.filters);
    }
    FilterAdmitted(g, x);
    RuleAccepts(g, Rule.Filter, MeaningOf(T.WriteFilter(x)));
  }

  lemma {:induction false} FiltersAccepted(g: Grammar, xs: seq<T.Filter>)
    requires Direct(g) && g(Rule.Filter) == FilterShape()
    requires AllAccepted(g, Ref(Rule.FieldReference), T.WriteFieldReference)
    requires AllAccepted(g, Ref(Rule.FilterOperator), T.WriteFilterOperator)
    ensures EachAdmitted(g, Ref(Rule.Filter), T.WriteFilters(xs))
    decreases xs
  {
    forall i | 0 <= i < |xs| ensures Admits(g, Ref(Rule.Filter), T.WriteFilter(xs[i])) {
      FilterAccepted(g, xs[i]);
    }
  }

  lemma {:induction false} FilterWritten(g: Grammar, m: Meaning)
    requires Direct(g) && g(Rule.Filter) == FilterShape()
    requires AllWritten(g, Ref(Rule.FieldReference), T.WriteFieldReference)
    requires AllWritten(g, Ref(Rule.FilterOperator), T.WriteFilterOperator)
    requires Normal(m) && Accepts(g, Ref(Rule.Filter), m)
    ensures Writes(T.WriteFilter, m)
    decreases m
  {
    forall k, x | k in m.fields && m.fields[k].List? && x in m.fields[k].items && Normal(x) &&
      Accepts(g, Ref(Rule.Filter), x) ensures Writes(T.WriteFilter, x)
    {
      FilterWritten(g, x);
    }
    FilterBuilt(g, m);
  }

  lemma FilterIsTyped(g: Grammar)
    requires Direct(g) && g(Rule.Filter) == FilterShape()
    requires Typed(g, Ref(Rule.FieldReference), T.WriteFieldReference)
    requires Typed(g, Ref(Rule.FilterOperator), T.WriteFilterOperator)
    ensures Typed(g, Ref(Rule.Filter), T.WriteFilter)
  {
    forall x: T.Filter ensures Admits(g, Ref(Rule.Filter), T.WriteFilter(x)) {
      FilterAccepted(g, x);
    }
    forall m | Normal(m) && Accepts(g, Ref(Rule.Filter), m) ensures Writes(T.WriteFilter, m) {
      FilterWritten(g, m);
    }
  }

  lemma DirectionIsTyped(g: Grammar)
    requires Direct(g)
    ensures Typed(g, Strings(["asc", "desc"]), T.WriteDirection)
  {
    var shape := Strings(["asc", "desc"]);
    forall m | Normal(m) && Accepts(g, shape, m) ensures Writes(T.WriteDirection, m) {
      if m.v.s == "asc" {
        Witness(T.WriteDirection, T.Ascending, m);
      } else {
        Witness(T.WriteDirection, T.Descending, m);
      }
    }
  }

  lemma DirectionFits(g: Grammar, key: string, x: T.Direction)
    requires Direct(g)
    ensures Fits(g, Field(key, true, Strings(["asc", "desc"])), (key, Some(T.WriteDirection(x))))
  {
    DirectionIsTyped(g);
    ValueFits(g, key, Strings(["asc", "desc"]), T.WriteDirection, x);
  }

  lemma DirectionAt(g: Grammar, fields: seq<Field>, m: Meaning, i: nat, key: string) returns (x: T.Direction)
    requires Direct(g) && Given(g, fields, m) && i < |fields|
    requires fields[i] == Field(key, true, Strings(["asc", "desc"]))
    ensures Filled((key, Some(T.WriteDirection(x))), m)
  {
    DirectionIsTyped(g);
    x := ValueAt(g, fields, m, i, key, Strings(["asc", "desc"]), T.WriteDirection);
  }

  lemma SortFits(g: Grammar, x: T.Sort)
    requires Direct(g) && AllAccepted(g, Ref(Rule.FieldReference), T.WriteFieldReference)
    ensures AllFit(g, SortShape().fields, T.SortMembers(x))
  {
    ValueFits(g, "field", Ref(Rule.FieldReference), T.WriteFieldReference, x.field);
    DirectionFits(g, "direction", x.direction);
  }

  lemma SortValue(g: Grammar, m: Meaning) returns (x: T.Sort)
    requires Direct(g) && Given(g, SortShape().fields, m)
    requires AllWritten(g, Ref(Rule.FieldReference), T.WriteFieldReference)
    ensures AllFilled(T.SortMembers(x), m)
  {
    var fields := SortShape().fields;
    var field := ValueAt(g, fields, m, 0, "field", Ref(Rule.FieldReference), T.WriteFieldReference);
    var direction := DirectionAt(g, fields, m, 1, "direction");
    x := T.Sort(field, direction);
  }

  lemma SortIsTyped(g: Grammar)
    requires Direct(g) && g(Rule.Sort) == SortShape() && Typed(g, Ref(Rule.FieldReference), T.WriteFieldReference)
    ensures Typed(g, Ref(Rule.Sort), T.WriteSort)
  {
    forall x: T.Sort ensures AllFit(g, SortShape().fields, T.SortMembers(x)) {
      SortFits(g, x);
    }
    forall m | Given(g, SortShape().fields, m) ensures Fills(T.SortMembers, m) {
      var x := SortValue(g, m);
      Filling(T.SortMembers, x, m);
    }
    RecordIsTyped(g, Rule.Sort, T.SortMembers, T.WriteSort);
  }

  lemma PageLinkFits(g: Grammar, x: T.PageLink)
    requires Direct(g)
    ensures AllFit(g, PageLinkShape().fields, T.PageLinkMembers(x))
  {
    TextFits(g, "pageId", x.pageId);
  }

  lemma PageLinkValue(g: Grammar, m: Meaning) returns (x: T.PageLink)
    requires Direct(g) && Given(g, PageLinkShape().fields, m)
    ensures AllFilled(T.PageLinkMembers(x), m)
  {
    var fields := PageLinkShape().fields;
    var pageId := TextAt(g, fields, m, 0, "pageId");
    var documentIdFromRow := PresentAt(g, fields, m, 1, "documentIdFrom", "row");
    x := T.PageLink(pageId, documentIdFromRow);
  }

  lemma PageLinkIsTyped(g: Grammar)
    requires Direct(g) && g(Rule.PageLink) == PageLinkShape()
    ensures Typed(g, Ref(Rule.PageLink), T.WritePageLink)
  {
    forall x: T.PageLink ensures AllFit(g, PageLinkShape().fields, T.PageLinkMembers(x)) {
      PageLinkFits(g, x);
    }
    forall m | Given(g, PageLinkShape().fields, m) ensures Fills(T.PageLinkMembers, m) {
      var x := PageLinkValue(g, m);
      Filling(T.PageLinkMembers, x, m);
    }
    RecordIsTyped(g, Rule.PageLink, T.PageLinkMembers, T.WritePageLink);
  }

  lemma ColumnFits(g: Grammar, x: T.Column)
    requires Direct(g) && AllAccepted(g, Ref(Rule.FieldReference), T.WriteFieldReference)
    ensures AllFit(g, ColumnShape().fields, T.ColumnMembers(x))
  {
    TextFits(g, "id", x.id);
    ValueFits(g, "field", Ref(Rule.FieldReference), T.WriteFieldReference, x.field);
    MaybeTextFits(g, "label", x.caption);
    MaybeIntegerFits(g, "width", x.width);
    MaybeTextFits(g, "rendererId", x.rendererId);
  }

  lemma ColumnValue(g: Grammar, m: Meaning) returns (x: T.Column)
    requires Direct(g) && Given(g, ColumnShape().fields, m)
    requires AllWritten(g, Ref(Rule.FieldReference), T.WriteFieldReference)
    ensures AllFilled(T.ColumnMembers(x), m)
  {
    var fields := ColumnShape().fields;
    var id := TextAt(g, fields, m, 0, "id");
    var field := ValueAt(g, fields, m, 1, "field", Ref(Rule.FieldReference), T.WriteFieldReference);
    var caption := MaybeTextAt(g, fields, m, 2, "label");
    var width := MaybeIntegerAt(g, fields, m, 3, "width");
    var rendererId := MaybeTextAt(g, fields, m, 4, "rendererId");
    x := T.Column(id, field, caption, width, rendererId);
  }

  lemma ColumnIsTyped(g: Grammar)
    requires Direct(g) && g(Rule.Column) == ColumnShape()
    requires Typed(g, Ref(Rule.FieldReference), T.WriteFieldReference)
    ensures Typed(g, Ref(Rule.Column), T.WriteColumn)
  {
    forall x: T.Column ensures AllFit(g, ColumnShape().fields, T.ColumnMembers(x)) {
      ColumnFits(g, x);
    }
    forall m | Given(g, ColumnShape().fields, m) ensures Fills(T.ColumnMembers, m) {
      var x := ColumnValue(g, m);
      Filling(T.ColumnMembers, x, m);
    }
    RecordIsTyped(g, Rule.Column, T.ColumnMembers, T.WriteColumn);
  }

  lemma AvailableFilterFits(g: Grammar, x: T.AvailableFilter)
    requires Direct(g) && AllAccepted(g, Ref(Rule.FieldReference), T.WriteFieldReference)
    requires AllAccepted(g, Ref(Rule.FilterOperator), T.WriteFilterOperator)
    ensures AllFit(g, AvailableFilterShape().fields, T.AvailableFilterMembers(x))
  {
    TextFits(g, "id", x.id);
    TextFits(g, "label", x.caption);
    ValueFits(g, "field", Ref(Rule.FieldReference), T.WriteFieldReference, x.field);
    MaybeEachFits(g, "operators", Ref(Rule.FilterOperator), T.WriteFilterOperator, x.operators);
  }

  lemma AvailableFilterValue(g: Grammar, m: Meaning) returns (x: T.AvailableFilter)
    requires Direct(g) && Given(g, AvailableFilterShape().fields, m)
    requires AllWritten(g, Ref(Rule.FieldReference), T.WriteFieldReference)
    requires AllWritten(g, Ref(Rule.FilterOperator), T.WriteFilterOperator)
    ensures AllFilled(T.AvailableFilterMembers(x), m)
  {
    var fields := AvailableFilterShape().fields;
    var id := TextAt(g, fields, m, 0, "id");
    var caption := TextAt(g, fields, m, 1, "label");
    var field := ValueAt(g, fields, m, 2, "field", Ref(Rule.FieldReference), T.WriteFieldReference);
    var operators := MaybeEachAt(g, fields, m, 3, "operators", Ref(Rule.FilterOperator), T.WriteFilterOperator);
    x := T.AvailableFilter(id, caption, field, operators);
  }

  lemma AvailableFilterIsTyped(g: Grammar)
    requires Direct(g) && g(Rule.AvailableFilter) == AvailableFilterShape()
    requires Typed(g, Ref(Rule.FieldReference), T.WriteFieldReference)
    requires Typed(g, Ref(Rule.FilterOperator), T.WriteFilterOperator)
    ensures Typed(g, Ref(Rule.AvailableFilter), T.WriteAvailableFilter)
  {
    forall x: T.AvailableFilter ensures AllFit(g, AvailableFilterShape().fields, T.AvailableFilterMembers(x)) {
      AvailableFilterFits(g, x);
    }
    forall m | Given(g, AvailableFilterShape().fields, m) ensures Fills(T.AvailableFilterMembers, m) {
      var x := AvailableFilterValue(g, m);
      Filling(T.AvailableFilterMembers, x, m);
    }
    RecordIsTyped(g, Rule.AvailableFilter, T.AvailableFilterMembers, T.WriteAvailableFilter);
  }

  lemma DocumentStateIsTyped(g: Grammar)
    requires Direct(g)
    ensures Typed(g, Strings(["active", "deleted"]), T.WriteDocumentState)
  {
    var shape := Strings(["active", "deleted"]);
    forall m | Normal(m) && Accepts(g, shape, m) ensures Writes(T.WriteDocumentState, m) {
      if m.v.s == "active" {
        Witness(T.WriteDocumentState, T.Active, m);
      } else {
        Witness(T.WriteDocumentState, T.Deleted, m);
      }
    }
  }

  lemma MaybeDocumentStateFits(g: Grammar, key: string, x: Option<T.DocumentState>)
    requires Direct(g)
    ensures Fits(g, Field(key, false, Strings(["active", "deleted"])), (key, T.Maybe(x, T.WriteDocumentState)))
  {
    DocumentStateIsTyped(g);
    MaybeFits(g, key, Strings(["active", "deleted"]), T.WriteDocumentState, x);
  }

  lemma MaybeDocumentStateAt(g: Grammar, fields: seq<Field>, m: Meaning, i: nat, key: string)
    returns (x: Option<T.DocumentState>)
    requires Direct(g) && Given(g, fields, m) && i < |fields|
    requires fields[i] == Field(key, false, Strings(["active", "deleted"]))
    ensures Filled((key, T.Maybe(x, T.WriteDocumentState)), m)
  {
    DocumentStateIsTyped(g);
    x := MaybeAt(g, fields, m, i, key, Strings(["active", "deleted"]), T.WriteDocumentState);
  }

  lemma QueryNamed(x: T.Query)
    ensures Named(QueryShape().fields, T.QueryMembers(x))
  {
  }

  lemma QueryFirstFit(g: Grammar, x: T.Query)
    requires Direct(g)
    ensures FitFrom(g, QueryShape().fields, T.QueryMembers(x), 0, 3)
  {
    TextFits(g, "collectionId", x.collectionId);
    IntegerFits(g, "limit", x.limit);
    MaybeEachTextFits(g, "fields", x.fieldIds);
  }

  lemma QueryLastFit(g: Grammar, x: T.Query)
    requires Direct(g) && AllAccepted(g, Ref(Rule.Filter), T.WriteFilter)
    requires AllAccepted(g, Ref(Rule.Sort), T.WriteSort)
    ensures FitFrom(g, QueryShape().fields, T.QueryMembers(x), 3, 6)
  {
    MaybeFits(g, "filter", Ref(Rule.Filter), T.WriteFilter, x.filter);
    MaybeEachFits(g, "sort", Ref(Rule.Sort), T.WriteSort, x.sort);
    MaybeDocumentStateFits(g, "state", x.state);
  }

  lemma QueryFits(g: Grammar, x: T.Query)
    requires Direct(g) && AllAccepted(g, Ref(Rule.Filter), T.WriteFilter)
    requires AllAccepted(g, Ref(Rule.Sort), T.WriteSort)
    ensures AllFit(g, QueryShape().fields, T.QueryMembers(x))
  {
    QueryNamed(x);
    QueryFirstFit(g, x);
    QueryLastFit(g, x);
    FitTogether(g, QueryShape().fields, T.QueryMembers(x), 3, 6);
  }

  lemma QueryFirstValues(g: Grammar, m: Meaning)
    returns (collectionId: string, limit: T.SafeInteger, fieldIds: Option<seq<string>>)
    requires Direct(g) && Given(g, QueryShape().fields, m)
    ensures Filled(("collectionId", Some(T.WriteText(collectionId))), m)
    ensures Filled(("limit", Some(T.WriteInteger(limit))), m)
    ensures Filled(("fields", T.MaybeEach(fieldIds, T.WriteText)), m)
  {
    var fields := QueryShape().fields;
    collectionId := TextAt(g, fields, m, 0, "collectionId");
    limit := IntegerAt(g, fields, m, 1, "limit");
    fieldIds := MaybeEachTextAt(g, fields, m, 2, "fields");
  }

  lemma QueryLastValues(g: Grammar, m: Meaning)
    returns (filter: Option<T.Filter>, sort: Option<seq<T.Sort>>, state: Option<T.DocumentState>)
    requires Direct(g) && Given(g, QueryShape().fields, m) && AllWritten(g, Ref(Rule.Filter), T.WriteFilter)
    requires AllWritten(g, Ref(Rule.Sort), T.WriteSort)
    ensures Filled(("filter", T.Maybe(filter, T.WriteFilter)), m)
    ensures Filled(("sort", T.MaybeEach(sort, T.WriteSort)), m)
    ensures Filled(("state", T.Maybe(state, T.WriteDocumentState)), m)
  {
    var fields := QueryShape().fields;
    filter := MaybeAt(g, fields, m, 3, "filter", Ref(Rule.Filter), T.WriteFilter);
    sort := MaybeEachAt(g, fields, m, 4, "sort", Ref(Rule.Sort), T.WriteSort);
    state := MaybeDocumentStateAt(g, fields, m, 5, "state");
  }

  lemma QueryFilled(x: T.Query, m: Meaning)
    requires m.Table?
    requires Filled(("collectionId", Some(T.WriteText(x.collectionId))), m)
    requires Filled(("limit", Some(T.WriteInteger(x.limit))), m)
    requires Filled(("fields", T.MaybeEach(x.fieldIds, T.WriteText)), m)
    requires Filled(("filter", T.Maybe(x.filter, T.WriteFilter)), m)
    requires Filled(("sort", T.MaybeEach(x.sort, T.WriteSort)), m)
    requires Filled(("state", T.Maybe(x.state, T.WriteDocumentState)), m)
    ensures AllFilled(T.QueryMembers(x), m)
  {
  }

  lemma QueryValue(g: Grammar, m: Meaning) returns (x: T.Query)
    requires Direct(g) && Given(g, QueryShape().fields, m) && AllWritten(g, Ref(Rule.Filter), T.WriteFilter)
    requires AllWritten(g, Ref(Rule.Sort), T.WriteSort)
    ensures AllFilled(T.QueryMembers(x), m)
  {
    var collectionId, limit, fieldIds := QueryFirstValues(g, m);
    var filter, sort, state := QueryLastValues(g, m);
    x := T.Query(collectionId, limit, fieldIds, filter, sort, state);
    QueryFilled(x, m);
  }

  lemma QueryIsTyped(g: Grammar)
    requires Direct(g) && g(Rule.Query) == QueryShape() && Typed(g, Ref(Rule.Filter), T.WriteFilter)
    requires Typed(g, Ref(Rule.Sort), T.WriteSort)
    ensures Typed(g, Ref(Rule.Query), T.WriteQuery)
  {
    forall x: T.Query ensures AllFit(g, QueryShape().fields, T.QueryMembers(x)) {
      QueryFits(g, x);
    }
    forall m | Given(g, QueryShape().fields, m) ensures Fills(T.QueryMembers, m) {
      var x := QueryValue(g, m);
      Filling(T.QueryMembers, x, m);
    }
    RecordIsTyped(g, Rule.Query, T.QueryMembers, T.WriteQuery);
  }
}
