/** What a decoder reports: the path leads from the input to a value, and the code says what is wrong
    with it. */
module DecodeFaults {
  import opened Json
  import opened Diff
  import opened Decode
  import opened ManifestGrammar

  /** The value is not of the kind the shape wants. */
  ghost predicate WrongKind(shape: Shape, v: Json) {
    match shape
    case Text => !v.Str?
    case Flag => !v.Bool?
    case Integer => !(v.Num? && IsSafeInteger(v.n))
    case Scalar => !IsScalar(v)
    case ScalarOrList => !v.Arr? && !IsScalar(v)
    case ListOf(_) => !v.Arr?
    case Record(_, _) => !v.Obj?
    case Union(_, _, _, _) => !v.Obj?
    case _ => false
  }

  ghost predicate WrongLiteral(shape: Shape, v: Json) {
    (shape.Strings? && !(v.Str? && v.s in shape.strings)) || (shape.Numbers? && !IsOneOf(v, shape.numbers))
  }

  /** The variant an object is read as. */
  ghost predicate IsVariant(shape: Shape, v: Json, variant: Variant) {
    shape.Union? && v.Obj? && variant in shape.variants && Read(v.members, shape.tag) == Str(variant.tag)
  }

  /** A field that an object of the shape is read with. */
  ghost predicate IsField(shape: Shape, v: Json, f: Field) {
    v.Obj? &&
    ((shape.Record? && f in shape.fields) || (shape.Union? && f in shape.early) ||
     exists variant :: IsVariant(shape, v, variant) && f in variant.fields)
  }

  ghost predicate LacksMember(shape: Shape, v: Json, key: string) {
    exists f :: IsField(shape, v, f) && f.key == key && f.required && !Has(v.members, key)
  }

  ghost predicate HasUnknownMember(shape: Shape, v: Json, key: string) {
    v.Obj? && Has(v.members, key) &&
    ((shape.Record? && key !in shape.exact) || exists variant :: IsVariant(shape, v, variant) && key !in variant.exact)
  }

  ghost predicate HasUnknownTag(shape: Shape, v: Json, key: string, code: Code) {
    shape.Union? && v.Obj? && key == shape.tag && code == shape.unknown &&
    forall variant | variant in shape.variants :: Read(v.members, key) != Str(variant.tag)
  }

  /** What is wrong at the end of a path into a value that should be of a shape. */
  ghost predicate Fault(g: Grammar, shape: Shape, v: Json, at: Path, code: Code)
    requires Direct(g)
    decreases v, if shape.Ref? then 1 else 0
  {
    if shape.Ref? then Fault(g, g(shape.rule), v, at, code)
    else if at == [] then
      (code == InvalidInputType && WrongKind(shape, v)) || (code == InvalidLiteral && WrongLiteral(shape, v))
    else
      match at[0]
      case Key(k) =>
        (at == [Key(k)] && code == MissingProperty && LacksMember(shape, v, k)) ||
        (at == [Key(k)] && code == UnknownProperty && HasUnknownMember(shape, v, k)) ||
        (at == [Key(k)] && HasUnknownTag(shape, v, k, code)) ||
        (v.Obj? && Has(v.members, k) &&
         exists f :: IsField(shape, v, f) && f.key == k && Fault(g, f.shape, Get(v.members, k), at[1..], code))
      case Index(i) =>
        v.Arr? && i < |v.items| &&
        ((shape.ListOf? && Fault(g, shape.item, v.items[i], at[1..], code)) ||
         (shape.ScalarOrList? && Fault(g, Scalar, v.items[i], at[1..], code)))
  }

  /** The report lies on a path that begins with the given one and ends at a fault. */
  ghost predicate Reported<T>(g: Grammar, shape: Shape, v: Json, path: Path, r: Result<T>)
    requires Direct(g) && r.Err?
  {
    path <= r.path && Fault(g, shape, v, r.path[|path|..], r.code)
  }

  /** Every report names a fault. */
  lemma {:induction false} ReportsFault(g: Grammar, shape: Shape, v: Json, path: Path)
    requires Direct(g) && DecodeShape(g, shape, v, path).Err?
    ensures Reported(g, shape, v, path, DecodeShape(g, shape, v, path))
    decreases v, if shape.Ref? then 1 else 0, shape, 1
  {
    match shape
    case ScalarOrList =>
      if v.Arr? {
        ItemsReport(g, Scalar, v.items, 0, path);
      }
    case ListOf(item) =>
      if v.Arr? {
        ItemsReport(g, item, v.items, 0, path);
      }
    case Record(exact, fields) =>
      if v.Obj? {
        ExactlyReports(g, shape, exact, fields, v, path);
      }
    case Union(_, _, _, _) =>
      if v.Obj? {
        UnionReports(g, shape, v, path);
      }
    case Ref(rule) => ReportsFault(g, g(rule), v, path);
    case _ =>
  }

  lemma {:induction false} UnionReports(g: Grammar, shape: Shape, v: Json, path: Path)
    requires Direct(g) && shape.Union? && v.Obj? && DecodeShape(g, shape, v, path).Err?
    ensures Reported(g, shape, v, path, DecodeShape(g, shape, v, path))
    decreases v, 0, shape, 0
  {
    if DecodeFields(g, shape.early, v, path).Err? {
      FieldsReport(g, shape, shape.early, v, path);
    } else {
      var found := VariantFor(shape.variants, Read(v.members, shape.tag));
      if found == [] {
        KeyFault(path, shape.tag);
      } else {
        assert IsVariant(shape, v, found[0]);
        ExactlyReports(g, shape, found[0].exact, found[0].fields, v, path);
      }
    }
  }

  lemma KeyFault(path: Path, k: string)
    ensures path <= path + [Key(k)] && (path + [Key(k)])[|path|..] == [Key(k)]
  {
  }

  lemma {:induction false} ExactlyReports(g: Grammar, shape: Shape, exact: seq<string>, fields: seq<Field>, v: Json,
                                          path: Path)
    requires Direct(g) && v.Obj? && !shape.Ref? && DecodeExactly(g, exact, fields, v, path).Err?
    requires forall f | f in fields :: IsField(shape, v, f)
    requires forall k | Has(v.members, k) && k !in exact :: HasUnknownMember(shape, v, k)
    ensures Reported(g, shape, v, path, DecodeExactly(g, exact, fields, v, path))
    decreases v, 0, fields, 2
  {
    var unknown := Unknown(v.members, exact);
    if unknown != [] {
      KeyFault(path, unknown[0]);
    } else {
      FieldsReport(g, shape, fields, v, path);
    }
  }

  lemma {:induction false} FieldsReport(g: Grammar, shape: Shape, fields: seq<Field>, v: Json, path: Path)
    requires Direct(g) && v.Obj? && !shape.Ref? && DecodeFields(g, fields, v, path).Err?
    requires forall f | f in fields :: IsField(shape, v, f)
    ensures Reported(g, shape, v, path, DecodeFields(g, fields, v, path))
    decreases v, 0, fields, 1
  {
    var f := fields[0];
    if !Has(v.members, f.key) {
      if f.required {
        KeyFault(path, f.key);
      } else {
        FieldsReport(g, shape, fields[1..], v, path);
      }
    } else {
      var first := DecodeShape(g, f.shape, Get(v.members, f.key), path + [Key(f.key)]);
      if first.Err? {
        ReportsFault(g, f.shape, Get(v.members, f.key), path + [Key(f.key)]);
        Deeper(path, Key(f.key), first.path);
      } else {
        FieldsReport(g, shape, fields[1..], v, path);
      }
    }
  }

  lemma Deeper(path: Path, step: Step, full: Path)
    requires path + [step] <= full
    ensures path <= full && full[|path|..] == [step] + full[|path| + 1..] && full[|path|..][0] == step
    ensures full[|path|..][1..] == full[|path + [step]|..]
  {
  }

  lemma {:induction false} ItemsReport(g: Grammar, shape: Shape, items: seq<Json>, i: nat, path: Path)
    requires Direct(g) && i <= |items| && DecodeItems(g, shape, items, i, path).Err?
    ensures var r := DecodeItems(g, shape, items, i, path);
      path < r.path && r.path[|path|].Index? && r.path[|path|].index < |items| &&
      Fault(g, shape, items[r.path[|path|].index], r.path[|path|..][1..], r.code)
    decreases items, 0, |items| - i, 0
  {
    var first := DecodeShape(g, shape, items[i], path + [Index(i)]);
    if first.Err? {
      ReportsFault(g, shape, items[i], path + [Index(i)]);
      Deeper(path, Index(i), first.path);
    } else {
      ItemsReport(g, shape, items, i + 1, path);
    }
  }

  // ---------------------------------------------------------------- which fault is reported

  /** Unknown members come first, and of those the first one of the object. */
  lemma UnknownMemberComesFirst(g: Grammar, shape: Shape, v: Json, path: Path, i: nat)
    requires Direct(g) && shape.Record? && v.Obj? && i < |v.members| && v.members[i].key !in shape.exact
    requires forall j | 0 <= j < i :: v.members[j].key in shape.exact
    ensures DecodeShape(g, shape, v, path) == Err(UnknownProperty, path + [Key(v.members[i].key)])
  {
    FirstUnknown(v.members, shape.exact, i);
  }

  lemma {:induction false} FirstUnknown(ms: seq<Member>, exact: seq<string>, i: nat)
    requires i < |ms| && ms[i].key !in exact && forall j | 0 <= j < i :: ms[j].key in exact
    ensures Unknown(ms, exact) == [ms[i].key]
  {
    if i > 0 {
      assert forall j | 0 <= j < |ms[1..]| :: ms[1..][j] == ms[j + 1];
      FirstUnknown(ms[1..], exact, i - 1);
    }
  }

  /** A field that is not there but has to be, or whose value is refused. */
  ghost predicate Refused(g: Grammar, f: Field, v: Json, path: Path)
    requires Direct(g) && v.Obj?
  {
    if Has(v.members, f.key) then DecodeShape(g, f.shape, Get(v.members, f.key), path + [Key(f.key)]).Err?
    else f.required
  }

  /** Of the fields the first that is refused is reported. */
  lemma {:induction false} FirstRefusedFieldIsReported(g: Grammar, fields: seq<Field>, v: Json, path: Path, i: nat)
    requires Direct(g) && v.Obj? && i < |fields| && Refused(g, fields[i], v, path)
    requires forall j | 0 <= j < i :: !Refused(g, fields[j], v, path)
    ensures var r, f := DecodeFields(g, fields, v, path), fields[i];
      r.Err? &&
      if Has(v.members, f.key) then
        var inner := DecodeShape(g, f.shape, Get(v.members, f.key), path + [Key(f.key)]);
        r.code == inner.code && r.path == inner.path
      else r.code == MissingProperty && r.path == path + [Key(f.key)]
  {
    if i > 0 {
      assert !Refused(g, fields[0], v, path);
      assert forall j | 0 <= j < |fields[1..]| :: fields[1..][j] == fields[j + 1];
      FirstRefusedFieldIsReported(g, fields[1..], v, path, i - 1);
    }
  }

  /** Of the items the first that is refused is reported. */
  lemma {:induction false} FirstRefusedItemIsReported(g: Grammar, shape: Shape, items: seq<Json>, from: nat, path: Path,
                                                      i: nat)
    requires Direct(g) && from <= i < |items| && DecodeShape(g, shape, items[i], path + [Index(i)]).Err?
    requires forall j | from <= j < i :: DecodeShape(g, shape, items[j], path + [Index(j)]).Ok?
    ensures var r := DecodeItems(g, shape, items, from, path);
      var inner := DecodeShape(g, shape, items[i], path + [Index(i)]);
      r.Err? && r.code == inner.code && r.path == inner.path
    decreases i - from
  {
    if from < i {
      FirstRefusedItemIsReported(g, shape, items, from + 1, path, i);
    }
  }

  // ---------------------------------------------------------------- tags of the manifest

  ghost predicate TaggedOtherThan(v: Json, tag: string, known: seq<string>) {
    v.Obj? && !(Read(v.members, tag).Str? && Read(v.members, tag).s in known)
  }

  /** A page of no known type is refused as that, at its type. */
  lemma PageOfUnknownType(g: Grammar, v: Json, path: Path)
    requires Direct(g)
    requires TaggedOtherThan(v, "type",
      ["collection-list", "document-form", "document-detail", "singleton", "dashboard", "plugin-page"])
    ensures DecodeShape(g, PageShape(), v, path) == Err(UnknownPageType, path + [Key("type")])
  {
  }

  lemma LayoutOfUnknownType(g: Grammar, v: Json, path: Path)
    requires Direct(g)
    requires TaggedOtherThan(v, "type", ["field", "section", "tabs", "collapse"])
    ensures DecodeShape(g, FormNodeShape(), v, path) == Err(UnknownLayoutType, path + [Key("type")])
  {
  }

  /** The id of a panel is read before its type. */
  lemma PanelOfUnknownType(g: Grammar, v: Json, path: Path)
    requires Direct(g)
    requires TaggedOtherThan(v, "type", ["summary", "field-group", "relation", "revisions", "audit", "plugin"])
    requires Has(v.members, "id") && Get(v.members, "id").Str?
    ensures DecodeShape(g, PanelShape(), v, path) == Err(UnknownPanelType, path + [Key("type")])
  {
    var early := [Req("id", Text)];
    assert early[0] == Req("id", Text) && early[1..] == [];
    assert DecodeFields(g, early, v, path).Ok?;
  }

  lemma OtherUnknownTags(g: Grammar, v: Json, path: Path)
    requires Direct(g)
    ensures TaggedOtherThan(v, "type", ["system", "content-realm"]) ==>
      DecodeShape(g, AudienceShape(), v, path) == Err(InvalidLiteral, path + [Key("type")])
    ensures TaggedOtherThan(v, "kind", ["data", "system"]) ==>
      DecodeShape(g, FieldReferenceShape(), v, path) == Err(InvalidLiteral, path + [Key("kind")])
    ensures TaggedOtherThan(v, "type", ["group", "condition"]) ==>
      DecodeShape(g, FilterShape(), v, path) == Err(InvalidLiteral, path + [Key("type")])
  {
  }
}
