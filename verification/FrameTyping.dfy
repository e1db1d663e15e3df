/** Actions, the audience, the navigation and the manifest: the grammar accepts just what they are written as. */
module FrameTyping {
  import opened Wrappers
  import opened Json
  import opened Decode
  import opened DecodeProofs
  import opened ManifestGrammar
  import opened TypedValues
  import T = ManifestTypes

  lemma PermissionFits(g: Grammar, x: T.Permission)
    requires Direct(g)
    ensures AllFit(g, PermissionShape().fields, T.PermissionMembers(x))
  {
    TextFits(g, "action", x.action);
    TextFits(g, "resourceId", x.resourceId);
  }

  lemma PermissionValue(g: Grammar, m: Meaning) returns (x: T.Permission)
    requires Direct(g) && Given(g, PermissionShape().fields, m)
    ensures AllFilled(T.PermissionMembers(x), m)
  {
    var fields := PermissionShape().fields;
    var action := TextAt(g, fields, m, 0, "action");
    var resourceId := TextAt(g, fields, m, 1, "resourceId");
    x := T.Permission(action, resourceId);
  }

  lemma PermissionIsTyped(g: Grammar)
    requires Direct(g) && g(Rule.Permission) == PermissionShape()
    ensures Typed(g, Ref(Rule.Permission), T.WritePermission)
  {
    forall x: T.Permission ensures AllFit(g, PermissionShape().fields, T.PermissionMembers(x)) {
      PermissionFits(g, x);
    }
    forall m | Given(g, PermissionShape().fields, m) ensures Fills(T.PermissionMembers, m) {
      var x := PermissionValue(g, m);
      Filling(T.PermissionMembers, x, m);
    }
    RecordIsTyped(g, Rule.Permission, T.PermissionMembers, T.WritePermission);
  }

  lemma VisibilityFits(g: Grammar, x: T.Visibility)
    requires Direct(g) && AllAccepted(g, Ref(Rule.Permission), T.WritePermission)
    ensures AllFit(g, VisibilityShape().fields, T.VisibilityMembers(x))
  {
    MaybeEachFits(g, "allPermissions", Ref(Rule.Permission), T.WritePermission, x.allPermissions);
    MaybeEachFits(g, "anyPermissions", Ref(Rule.Permission), T.WritePermission, x.anyPermissions);
    MaybeEachTextFits(g, "documentStatuses", x.documentStatuses);
  }

  lemma VisibilityValue(g: Grammar, m: Meaning) returns (x: T.Visibility)
    requires Direct(g) && Given(g, VisibilityShape().fields, m)
    requires AllWritten(g, Ref(Rule.Permission), T.WritePermission)
    ensures AllFilled(T.VisibilityMembers(x), m)
  {
    var fields := VisibilityShape().fields;
    var allPermissions := MaybeEachAt(g, fields, m, 0, "allPermissions", Ref(Rule.Permission), T.WritePermission);
    var anyPermissions := MaybeEachAt(g, fields, m, 1, "anyPermissions", Ref(Rule.Permission), T.WritePermission);
    var documentStatuses := MaybeEachTextAt(g, fields, m, 2, "documentStatuses");
    x := T.Visibility(allPermissions, anyPermissions, documentStatuses);
  }

  lemma VisibilityIsTyped(g: Grammar)
    requires Direct(g) && g(Rule.Visibility) == VisibilityShape()
    requires Typed(g, Ref(Rule.Permission), T.WritePermission)
    ensures Typed(g, Ref(Rule.Visibility), T.WriteVisibility)
  {
    forall x: T.Visibility ensures AllFit(g, VisibilityShape().fields, T.VisibilityMembers(x)) {
      VisibilityFits(g, x);
    }
    forall m | Given(g, VisibilityShape().fields, m) ensures Fills(T.VisibilityMembers, m) {
      var x := VisibilityValue(g, m);
      Filling(T.VisibilityMembers, x, m);
    }
    RecordIsTyped(g, Rule.Visibility, T.VisibilityMembers, T.WriteVisibility);
  }

  lemma ConfirmationFits(g: Grammar, x: T.Confirmation)
    requires Direct(g)
    ensures AllFit(g, ConfirmationShape().fields, T.ConfirmationMembers(x))
  {
    TextFits(g, "title", x.title);
    TextFits(g, "message", x.message);
    MaybeFlagFits(g, "danger", x.danger);
  }

  lemma ConfirmationValue(g: Grammar, m: Meaning) returns (x: T.Confirmation)
    requires Direct(g) && Given(g, ConfirmationShape().fields, m)
    ensures AllFilled(T.ConfirmationMembers(x), m)
  {
    var fields := ConfirmationShape().fields;
    var title := TextAt(g, fields, m, 0, "title");
    var message := TextAt(g, fields, m, 1, "message");
    var danger := MaybeFlagAt(g, fields, m, 2, "danger");
    x := T.Confirmation(title, message, danger);
  }

  lemma ConfirmationIsTyped(g: Grammar)
    requires Direct(g) && g(Rule.Confirmation) == ConfirmationShape()
    ensures Typed(g, Ref(Rule.Confirmation), T.WriteConfirmation)
  {
    forall x: T.Confirmation ensures AllFit(g, ConfirmationShape().fields, T.ConfirmationMembers(x)) {
      ConfirmationFits(g, x);
    }
    forall m | Given(g, ConfirmationShape().fields, m) ensures Fills(T.ConfirmationMembers, m) {
      var x := ConfirmationValue(g, m);
      Filling(T.ConfirmationMembers, x, m);
    }
    RecordIsTyped(g, Rule.Confirmation, T.ConfirmationMembers, T.WriteConfirmation);
  }

  lemma ActionFits(g: Grammar, x: T.Action)
    requires Direct(g) && AllAccepted(g, Ref(Rule.Visibility), T.WriteVisibility)
    requires AllAccepted(g, Ref(Rule.Confirmation), T.WriteConfirmation)
    ensures AllFit(g, ActionShape().fields, T.ActionMembers(x))
  {
    TextFits(g, "id", x.id);
    MaybeTextFits(g, "label", x.caption);
    MaybeFits(g, "visibility", Ref(Rule.Visibility), T.WriteVisibility, x.visibility);
    MaybeFits(g, "confirmation", Ref(Rule.Confirmation), T.WriteConfirmation, x.confirmation);
  }

  lemma ActionValue(g: Grammar, m: Meaning) returns (x: T.Action)
    requires Direct(g) && Given(g, ActionShape().fields, m)
    requires AllWritten(g, Ref(Rule.Visibility), T.WriteVisibility)
    requires AllWritten(g, Ref(Rule.Confirmation), T.WriteConfirmation)
    ensures AllFilled(T.ActionMembers(x), m)
  {
    var fields := ActionShape().fields;
    var id := TextAt(g, fields, m, 0, "id");
    var caption := MaybeTextAt(g, fields, m, 1, "label");
    var visibility := MaybeAt(g, fields, m, 2, "visibility", Ref(Rule.Visibility), T.WriteVisibility);
    var confirmation := MaybeAt(g, fields, m, 3, "confirmation", Ref(Rule.Confirmation), T.WriteConfirmation);
    x := T.Action(id, caption, visibility, confirmation);
  }

  lemma ActionIsTyped(g: Grammar)
    requires Direct(g) && g(Rule.Action) == ActionShape() && Typed(g, Ref(Rule.Visibility), T.WriteVisibility)
    requires Typed(g, Ref(Rule.Confirmation), T.WriteConfirmation)
    ensures Typed(g, Ref(Rule.Action), T.WriteAction)
  {
    forall x: T.Action ensures AllFit(g, ActionShape().fields, T.ActionMembers(x)) {
      ActionFits(g, x);
    }
    forall m | Given(g, ActionShape().fields, m) ensures Fills(T.ActionMembers, m) {
      var x := ActionValue(g, m);
      Filling(T.ActionMembers, x, m);
    }
    RecordIsTyped(g, Rule.Action, T.ActionMembers, T.WriteAction);
  }

  lemma AudienceTagsDiffer()
    ensures DistinctTags(AudienceShape().variants)
  {
  }

  lemma AudienceVariantOf(g: Grammar, m: Meaning) returns (found: Variant)
    requires Direct(g) && Normal(m) && Accepts(g, AudienceShape(), m)
    ensures found == SystemAudience() || found == RealmAudience()
    ensures Given(g, found.fields, m) && Covered(found.fields, m)
  {
    found := FoundVariant(g, AudienceShape(), m);
  }

  lemma SystemAudienceNamed(x: T.Audience)
    requires x.SystemAudience?
    ensures Named(SystemAudience().fields, T.SystemAudienceMembers(x))
  {
  }

  lemma SystemAudienceFits(g: Grammar, x: T.Audience)
    requires Direct(g) && x.SystemAudience?
    ensures AllFit(g, SystemAudience().fields, T.SystemAudienceMembers(x))
  {
  }

  lemma SystemAudienceValue(g: Grammar, m: Meaning) returns (x: T.Audience)
    requires Direct(g) && Given(g, SystemAudience().fields, m)
    ensures x.SystemAudience? && AllFilled(T.SystemAudienceMembers(x), m)
  {
    var fields := SystemAudience().fields;
    LiteralAt(g, fields, m, 0, "type", "system");
    x := T.SystemAudience;
  }

  lemma SystemAudienceAdmitted(g: Grammar, x: T.Audience)
    requires Direct(g) && x.SystemAudience?
    ensures Admits(g, AudienceShape(), T.WriteAudience(x))
  {
    SystemAudienceFits(g, x);
    AudienceTagsDiffer();
    VariantIsAccepted(g, AudienceShape(), 0, 0, T.AudienceMembers(x));
  }

  lemma SystemAudienceIsRead(x: T.Audience, m: Meaning)
    requires x.SystemAudience? && AllFilled(T.SystemAudienceMembers(x), m) && Covered(SystemAudience().fields, m)
    ensures Writes(T.WriteAudience, m)
  {
    SystemAudienceNamed(x);
    assert T.AudienceMembers(x) == T.SystemAudienceMembers(x);
    FilledIsWritten(SystemAudience().fields, T.AudienceMembers(x), m);
    Witness(T.WriteAudience, x, m);
  }

  lemma SystemAudienceBuilt(g: Grammar, m: Meaning)
    requires Direct(g) && Given(g, SystemAudience().fields, m) && Covered(SystemAudience().fields, m)
    ensures Writes(T.WriteAudience, m)
  {
    var x := SystemAudienceValue(g, m);
    SystemAudienceIsRead(x, m);
  }

  lemma ContentRealmNamed(x: T.Audience)
    requires x.ContentRealm?
    ensures Named(RealmAudience().fields, T.ContentRealmMembers(x))
  {
  }

  lemma ContentRealmFits(g: Grammar, x: T.Audience)
    requires Direct(g) && x.ContentRealm?
    ensures AllFit(g, RealmAudience().fields, T.ContentRealmMembers(x))
  {
    TextFits(g, "realmId", x.realmId);
  }

  lemma ContentRealmValue(g: Grammar, m: Meaning) returns (x: T.Audience)
    requires Direct(g) && Given(g, RealmAudience().fields, m)
    ensures x.ContentRealm? && AllFilled(T.ContentRealmMembers(x), m)
  {
    var fields := RealmAudience().fields;
    LiteralAt(g, fields, m, 0, "type", "content-realm");
    var realmId := TextAt(g, fields, m, 1, "realmId");
    x := T.ContentRealm(realmId);
  }

  lemma ContentRealmAdmitted(g: Grammar, x: T.Audience)
    requires Direct(g) && x.ContentRealm?
    ensures Admits(g, AudienceShape(), T.WriteAudience(x))
  {
    ContentRealmFits(g, x);
    AudienceTagsDiffer();
    VariantIsAccepted(g, AudienceShape(), 1, 0, T.AudienceMembers(x));
  }

  lemma ContentRealmIsRead(x: T.Audience, m: Meaning)
    requires x.ContentRealm? && AllFilled(T.ContentRealmMembers(x), m) && Covered(RealmAudience().fields, m)
    ensures Writes(T.WriteAudience, m)
  {
    ContentRealmNamed(x);
    assert T.AudienceMembers(x) == T.ContentRealmMembers(x);
    FilledIsWritten(RealmAudience().fields, T.AudienceMembers(x), m);
    Witness(T.WriteAudience, x, m);
  }

  lemma ContentRealmBuilt(g: Grammar, m: Meaning)
    requires Direct(g) && Given(g, RealmAudience().fields, m) && Covered(RealmAudience().fields, m)
    ensures Writes(T.WriteAudience, m)
  {
    var x := ContentRealmValue(g, m);
    ContentRealmIsRead(x, m);
  }

  lemma AudienceAdmitted(g: Grammar, x: T.Audience)
    requires Direct(g)
    ensures Admits(g, AudienceShape(), T.WriteAudience(x))
  {
    match x
    case SystemAudience => SystemAudienceAdmitted(g, x);
    case ContentRealm(_) => ContentRealmAdmitted(g, x);
  }

  lemma AudienceBuilt(g: Grammar, m: Meaning)
    requires Direct(g) && Normal(m) && Accepts(g, AudienceShape(), m)
    ensures Writes(T.WriteAudience, m)
  {
    var found := AudienceVariantOf(g, m);
    if found == SystemAudience() {
      SystemAudienceBuilt(g, m);
    } else {
      ContentRealmBuilt(g, m);
    }
  }

  lemma AudienceIsTyped(g: Grammar)
    requires Direct(g) && g(Rule.Audience) == AudienceShape()
    ensures Typed(g, Ref(Rule.Audience), T.WriteAudience)
  {
    forall x: T.Audience ensures Admits(g, AudienceShape(), T.WriteAudience(x)) {
      AudienceAdmitted(g, x);
    }
    forall m | Normal(m) && Accepts(g, AudienceShape(), m) ensures Writes(T.WriteAudience, m) {
      AudienceBuilt(g, m);
    }
    RuleIsTyped(g, Rule.Audience, T.WriteAudience);
  }

  lemma NavigationItemsAreEach(xs: seq<T.NavigationItem>)
    ensures T.WriteEach(xs, T.WriteNavigationItem) == Arr(T.WriteNavigationItems(xs))
  {
    assert T.WriteEach(xs, T.WriteNavigationItem).items == T.WriteNavigationItems(xs);
  }

  ghost predicate ChildrenAdmitted(g: Grammar, children: T.Children)
    requires Direct(g)
  {
    children.Children? ==> EachAdmitted(g, Ref(Rule.Navigation), T.WriteNavigationItems(children.items))
  }

  lemma ChildrenFit(g: Grammar, key: string, children: T.Children)
    requires Direct(g) && ChildrenAdmitted(g, children)
    ensures Fits(g, Field(key, false, ListOf(Ref(Rule.Navigation))), (key, T.WriteChildren(children)))
  {
    if children.Children? {
      ItemsFit(g, key, false, Ref(Rule.Navigation), T.WriteNavigationItems(children.items));
    }
  }

  lemma ChildrenAt(g: Grammar, fields: seq<Field>, m: Meaning, i: nat, key: string) returns (children: T.Children)
    requires Direct(g) && Given(g, fields, m) && i < |fields|
    requires fields[i] == Field(key, false, ListOf(Ref(Rule.Navigation)))
    requires WrittenBelow(g, Ref(Rule.Navigation), T.WriteNavigationItem, m)
    ensures Filled((key, T.WriteChildren(children)), m)
  {
    var xs := MaybeEachBelow(g, fields, m, i, key, Ref(Rule.Navigation), T.WriteNavigationItem);
    if xs.Some? {
      NavigationItemsAreEach(xs.value);
      children := T.Children(xs.value);
    } else {
      children := T.NoChildren;
    }
  }

  lemma NavigationItemNamed(x: T.NavigationItem)
    ensures Named(NavigationShape().fields, T.NavigationItemMembers(x))
  {
  }

  lemma NavigationItemFirstFit(g: Grammar, x: T.NavigationItem)
    requires Direct(g)
    ensures FitFrom(g, NavigationShape().fields, T.NavigationItemMembers(x), 0, 3)
  {
    TextFits(g, "id", x.id);
    TextFits(g, "label", x.caption);
    MaybeTextFits(g, "icon", x.icon);
  }

  lemma NavigationItemLastFit(g: Grammar, x: T.NavigationItem)
    requires Direct(g) && ChildrenAdmitted(g, x.children) && AllAccepted(g, Ref(Rule.Visibility), T.WriteVisibility)
    ensures FitFrom(g, NavigationShape().fields, T.NavigationItemMembers(x), 3, 6)
  {
    MaybeTextFits(g, "pageId", x.pageId);
    ChildrenFit(g, "children", x.children);
    MaybeFits(g, "visibility", Ref(Rule.Visibility), T.WriteVisibility, x.visibility);
  }

  lemma NavigationItemFits(g: Grammar, x: T.NavigationItem)
    requires Direct(g) && ChildrenAdmitted(g, x.children) && AllAccepted(g, Ref(Rule.Visibility), T.WriteVisibility)
    ensures AllFit(g, NavigationShape().fields, T.NavigationItemMembers(x))
  {
    NavigationItemNamed(x);
    NavigationItemFirstFit(g, x);
    NavigationItemLastFit(g, x);
    FitTogether(g, NavigationShape().fields, T.NavigationItemMembers(x), 3, 6);
  }

  lemma NavigationItemFirstValues(g: Grammar, m: Meaning) returns (id: string, caption: string, icon: Option<string>)
    requires Direct(g) && Given(g, NavigationShape().fields, m)
    ensures Filled(("id", Some(T.WriteText(id))), m)
    ensures Filled(("label", Some(T.WriteText(caption))), m)
    ensures Filled(("icon", T.Maybe(icon, T.WriteText)), m)
  {
    var fields := NavigationShape().fields;
    id := TextAt(g, fields, m, 0, "id");
    caption := TextAt(g, fields, m, 1, "label");
    icon := MaybeTextAt(g, fields, m, 2, "icon");
  }

  lemma NavigationItemLastValues(g: Grammar, m: Meaning)
    returns (pageId: Option<string>, children: T.Children, visibility: Option<T.Visibility>)
    requires Direct(g) && Given(g, NavigationShape().fields, m)
    requires WrittenBelow(g, Ref(Rule.Navigation), T.WriteNavigationItem, m)
    requires AllWritten(g, Ref(Rule.Visibility), T.WriteVisibility)
    ensures Filled(("pageId", T.Maybe(pageId, T.WriteText)), m)
    ensures Filled(("children", T.WriteChildren(children)), m)
    ensures Filled(("visibility", T.Maybe(visibility, T.WriteVisibility)), m)
  {
    var fields := NavigationShape().fields;
    pageId := MaybeTextAt(g, fields, m, 3, "pageId");
    children := ChildrenAt(g, fields, m, 4, "children");
    visibility := MaybeAt(g, fields, m, 5, "visibility", Ref(Rule.Visibility), T.WriteVisibility);
  }

  lemma NavigationItemFilled(x: T.NavigationItem, m: Meaning)
    requires m.Table?
    requires Filled(("id", Some(T.WriteText(x.id))), m)
    requires Filled(("label", Some(T.WriteText(x.caption))), m)
    requires Filled(("icon", T.Maybe(x.icon, T.WriteText)), m)
    requires Filled(("pageId", T.Maybe(x.pageId, T.WriteText)), m)
    requires Filled(("children", T.WriteChildren(x.children)), m)
    requires Filled(("visibility", T.Maybe(x.visibility, T.WriteVisibility)), m)
    ensures AllFilled(T.NavigationItemMembers(x), m)
  {
  }

  lemma NavigationItemValue(g: Grammar, m: Meaning) returns (x: T.NavigationItem)
    requires Direct(g) && Given(g, NavigationShape().fields, m)
    requires WrittenBelow(g, Ref(Rule.Navigation), T.WriteNavigationItem, m)
    requires AllWritten(g, Ref(Rule.Visibility), T.WriteVisibility)
    ensures AllFilled(T.NavigationItemMembers(x), m)
  {
    var id, caption, icon := NavigationItemFirstValues(g, m);
    var pageId, children, visibility := NavigationItemLastValues(g, m);
    x := T.NavigationItem(id, caption, icon, pageId, children, visibility);
    NavigationItemFilled(x, m);
  }

  lemma NavigationItemAdmitted(g: Grammar, x: T.NavigationItem)
    requires Direct(g) && ChildrenAdmitted(g, x.children) && AllAccepted(g, Ref(Rule.Visibility), T.WriteVisibility)
    ensures Admits(g, NavigationShape(), T.WriteNavigationItem(x))
  {
    NavigationItemFits(g, x);
    RecordIsAccepted(g, NavigationShape(), T.NavigationItemMembers(x));
  }

  lemma NavigationItemBuilt(g: Grammar, m: Meaning)
    requires Direct(g) && Normal(m) && Accepts(g, NavigationShape(), m)
    requires WrittenBelow(g, Ref(Rule.Navigation), T.WriteNavigationItem, m)
    requires AllWritten(g, Ref(Rule.Visibility), T.WriteVisibility)
    ensures Writes(T.WriteNavigationItem, m)
  {
    var x := NavigationItemValue(g, m);
    NavigationItemNamed(x);
    FilledIsWritten(NavigationShape().fields, T.NavigationItemMembers(x), m);
    Witness(T.WriteNavigationItem, x, m);
  }

  lemma {:induction false} NavigationItemAccepted(g: Grammar, x: T.NavigationItem)
    requires Direct(g) && g(Rule.Navigation) == NavigationShape()
    requires AllAccepted(g, Ref(Rule.Visibility), T.WriteVisibility)
    ensures Admits(g, Ref(Rule.Navigation), T.WriteNavigationItem(x))
    decreases x
  {
    if x.children.Children? {
      var items := x.children.items;
      forall i | 0 <= i < |items| ensures Admits(g, Ref(Rule.Navigation), T.WriteNavigationItem(items[i])) {
        NavigationItemAccepted(g, items[i]);
      }
    }
    NavigationItemAdmitted(g, x);
  }

  lemma {:induction false} NavigationItemWritten(g: Grammar, m: Meaning)
    requires Direct(g) && g(Rule.Navigation) == NavigationShape()
    requires AllWritten(g, Ref(Rule.Visibility), T.WriteVisibility)
    requires Normal(m) && Accepts(g, Ref(Rule.Navigation), m)
    ensures Writes(T.WriteNavigationItem, m)
    decreases m
  {
    forall k, x | k in m.fields && m.fields[k].List? && x in m.fields[k].items && Normal(x) &&
      Accepts(g, Ref(Rule.Navigation), x) ensures Writes(T.WriteNavigationItem, x)
    {
      NavigationItemWritten(g, x);
    }
    NavigationItemBuilt(g, m);
  }

  lemma NavigationItemIsTyped(g: Grammar)
    requires Direct(g) && g(Rule.Navigation) == NavigationShape()
    requires Typed(g, Ref(Rule.Visibility), T.WriteVisibility)
    ensures Typed(g, Ref(Rule.Navigation), T.WriteNavigationItem)
  {
    forall x: T.NavigationItem ensures Admits(g, Ref(Rule.Navigation), T.WriteNavigationItem(x)) {
      NavigationItemAccepted(g, x);
    }
    forall m | Normal(m) && Accepts(g, Ref(Rule.Navigation), m) ensures Writes(T.WriteNavigationItem, m) {
      NavigationItemWritten(g, m);
    }
  }

  lemma AppManifestNamed(x: T.AppManifest)
    ensures Named(ManifestShape().fields, T.AppManifestMembers(x))
  {
  }

  lemma AppManifestFirstFit(g: Grammar, x: T.AppManifest)
    requires Direct(g)
    ensures FitFrom(g, ManifestShape().fields, T.AppManifestMembers(x), 0, 4)
  {
    TextFits(g, "id", x.id);
    TextFits(g, "name", x.name);
  }

  lemma AppManifestMiddleFit(g: Grammar, x: T.AppManifest)
    requires Direct(g) && AllAccepted(g, Ref(Rule.Audience), T.WriteAudience)
    ensures FitFrom(g, ManifestShape().fields, T.AppManifestMembers(x), 4, 8)
  {
    TextFits(g, "key", x.key);
    MaybeTextFits(g, "description", x.description);
    MaybeTextFits(g, "icon", x.icon);
    ValueFits(g, "audience", Ref(Rule.Audience), T.WriteAudience, x.audience);
  }

  lemma AppManifestLastFit(g: Grammar, x: T.AppManifest)
    requires Direct(g) && AllAccepted(g, Ref(Rule.Navigation), T.WriteNavigationItem)
    requires AllAccepted(g, Ref(Rule.Page), T.WritePage)
    ensures FitFrom(g, ManifestShape().fields, T.AppManifestMembers(x), 8, 11)
  {
    EachFits(g, "navigation", Ref(Rule.Navigation), T.WriteNavigationItem, x.navigation);
    EachFits(g, "pages", Ref(Rule.Page), T.WritePage, x.pages);
    TextFits(g, "startPageId", x.startPageId);
  }

  lemma AppManifestFits(g: Grammar, x: T.AppManifest)
    requires Direct(g) && AllAccepted(g, Ref(Rule.Audience), T.WriteAudience)
    requires AllAccepted(g, Ref(Rule.Navigation), T.WriteNavigationItem)
    requires AllAccepted(g, Ref(Rule.Page), T.WritePage)
    ensures AllFit(g, ManifestShape().fields, T.AppManifestMembers(x))
  {
    AppManifestNamed(x);
    AppManifestFirstFit(g, x);
    AppManifestMiddleFit(g, x);
    AppManifestLastFit(g, x);
    FitTogether(g, ManifestShape().fields, T.AppManifestMembers(x), 4, 8);
  }

  lemma AppManifestFirstValues(g: Grammar, m: Meaning) returns (id: string, name: string)
    requires Direct(g) && Given(g, ManifestShape().fields, m)
    ensures Filled(("format", Some(Str("xecms.admin-app"))), m)
    ensures Filled(("formatVersion", Some(Num(Finite(1.0)))), m)
    ensures Filled(("id", Some(T.WriteText(id))), m)
    ensures Filled(("name", Some(T.WriteText(name))), m)
  {
    var fields := ManifestShape().fields;
    LiteralAt(g, fields, m, 0, "format", "xecms.admin-app");
    NumberAt(g, fields, m, 1, "formatVersion", 1);
    id := TextAt(g, fields, m, 2, "id");
    name := TextAt(g, fields, m, 3, "name");
  }

  lemma AppManifestMiddleValues(g: Grammar, m: Meaning)
    returns (key: string, description: Option<string>, icon: Option<string>, audience: T.Audience)
    requires Direct(g) && Given(g, ManifestShape().fields, m) && AllWritten(g, Ref(Rule.Audience), T.WriteAudience)
    ensures Filled(("key", Some(T.WriteText(key))), m)
    ensures Filled(("description", T.Maybe(description, T.WriteText)), m)
    ensures Filled(("icon", T.Maybe(icon, T.WriteText)), m)
    ensures Filled(("audience", Some(T.WriteAudience(audience))), m)
  {
    var fields := ManifestShape().fields;
    key := TextAt(g, fields, m, 4, "key");
    description := MaybeTextAt(g, fields, m, 5, "description");
    icon := MaybeTextAt(g, fields, m, 6, "icon");
    audience := ValueAt(g, fields, m, 7, "audience", Ref(Rule.Audience), T.WriteAudience);
  }

  lemma AppManifestLastValues(g: Grammar, m: Meaning)
    returns (navigation: seq<T.NavigationItem>, pages: seq<T.Page>, startPageId: string)
    requires Direct(g) && Given(g, ManifestShape().fields, m)
    requires AllWritten(g, Ref(Rule.Navigation), T.WriteNavigationItem)
    requires AllWritten(g, Ref(Rule.Page), T.WritePage)
    ensures Filled(("navigation", Some(T.WriteEach(navigation, T.WriteNavigationItem))), m)
    ensures Filled(("pages", Some(T.WriteEach(pages, T.WritePage))), m)
    ensures Filled(("startPageId", Some(T.WriteText(startPageId))), m)
  {
    var fields := ManifestShape().fields;
    navigation := EachAt(g, fields, m, 8, "navigation", Ref(Rule.Navigation), T.WriteNavigationItem);
    pages := EachAt(g, fields, m, 9, "pages", Ref(Rule.Page), T.WritePage);
    startPageId := TextAt(g, fields, m, 10, "startPageId");
  }

  lemma AppManifestFilled(x: T.AppManifest, m: Meaning)
    requires m.Table?
    requires Filled(("format", Some(Str("xecms.admin-app"))), m)
    requires Filled(("formatVersion", Some(Num(Finite(1.0)))), m)
    requires Filled(("id", Some(T.WriteText(x.id))), m)
    requires Filled(("name", Some(T.WriteText(x.name))), m)
    requires Filled(("key", Some(T.WriteText(x.key))), m)
    requires Filled(("description", T.Maybe(x.description, T.WriteText)), m)
    requires Filled(("icon", T.Maybe(x.icon, T.WriteText)), m)
    requires Filled(("audience", Some(T.WriteAudience(x.audience))), m)
    requires Filled(("navigation", Some(T.WriteEach(x.navigation, T.WriteNavigationItem))), m)
    requires Filled(("pages", Some(T.WriteEach(x.pages, T.WritePage))), m)
    requires Filled(("startPageId", Some(T.WriteText(x.startPageId))), m)
    ensures AllFilled(T.AppManifestMembers(x), m)
  {
  }

  lemma AppManifestValue(g: Grammar, m: Meaning) returns (x: T.AppManifest)
    requires Direct(g) && Given(g, ManifestShape().fields, m)
    requires AllWritten(g, Ref(Rule.Audience), T.WriteAudience)
    requires AllWritten(g, Ref(Rule.Navigation), T.WriteNavigationItem)
    requires AllWritten(g, Ref(Rule.Page), T.WritePage)
    ensures AllFilled(T.AppManifestMembers(x), m)
  {
    var id, name := AppManifestFirstValues(g, m);
    var key, description, icon, audience := AppManifestMiddleValues(g, m);
    var navigation, pages, startPageId := AppManifestLastValues(g, m);
    x := T.AppManifest(id, name, key, description, icon, audience, navigation, pages, startPageId);
    AppManifestFilled(x, m);
  }

  lemma AppManifestIsTyped(g: Grammar)
    requires Direct(g) && g(Rule.Manifest) == ManifestShape() && Typed(g, Ref(Rule.Audience), T.WriteAudience)
    requires Typed(g, Ref(Rule.Navigation), T.WriteNavigationItem) && Typed(g, Ref(Rule.Page), T.WritePage)
    ensures Typed(g, Ref(Rule.Manifest), T.WriteAppManifest)
  {
    forall x: T.AppManifest ensures AllFit(g, ManifestShape().fields, T.AppManifestMembers(x)) {
      AppManifestFits(g, x);
    }
    forall m | Given(g, ManifestShape().fields, m) ensures Fills(T.AppManifestMembers, m) {
      var x := AppManifestValue(g, m);
      Filling(T.AppManifestMembers, x, m);
    }
    RecordIsTyped(g, Rule.Manifest, T.AppManifestMembers, T.WriteAppManifest);
  }
}
