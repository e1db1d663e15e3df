/** Decoding untrusted JSON. Each decoder accepts one shape; the shapes are the rules of a grammar,
    and one interpreter does what every decoder does: check the kind, refuse unknown members,
    require the mandatory ones, decode what is there and build a new value. */
module Decode {
  import opened Json
  import opened Diff

  datatype Rule =
    | Manifest | Audience | Navigation | Visibility | Permission | Page | Column | AvailableFilter
    | FieldReference | Filter | Sort | Action | Confirmation | PageLink | FormLayout | FormNode | Tab
    | DetailLayout | Panel | Widget | Query | FilterOperator

  datatype Shape =
    | Text
    | Flag
    | Integer
    | Scalar
    | ScalarOrList
    | Strings(strings: seq<string>)
    | Numbers(numbers: seq<int>)
    | ListOf(item: Shape)
    | Record(exact: seq<string>, fields: seq<Field>)
    | Union(tag: string, early: seq<Field>, variants: seq<Variant>, unknown: Code)
    | Ref(rule: Rule)

  datatype Field = Field(key: string, required: bool, shape: Shape)

  /** One case of a tagged union: its tag, the members it lets through and the members it builds.
      As in a record, a decoder writes these two lists one after the other. */
  datatype Variant = Variant(tag: string, exact: seq<string>, fields: seq<Field>)

  datatype Code =
    | InvalidInputType | MissingProperty | UnknownProperty | InvalidLiteral
    | UnknownPageType | UnknownLayoutType | UnknownPanelType

  datatype Result<+T> = Ok(value: T) | Err(code: Code, path: Path)

  const MAX_SAFE_INTEGER: real := 9007199254740991.0

  predicate IsSafeInteger(n: Number) {
    n.NegativeZero? ||
    (n.Finite? && n.value == n.value.Floor as real && -MAX_SAFE_INTEGER <= n.value <= MAX_SAFE_INTEGER)
  }

  predicate IsOneOf(v: Json, numbers: seq<int>) {
    v.Num? && ((v.n.NegativeZero? && 0 in numbers) ||
      (v.n.Finite? && v.n.value == v.n.value.Floor as real && v.n.value.Floor in numbers))
  }

  predicate IsScalar(v: Json) {
    v.Null? || v.Bool? || v.Str? || (v.Num? && (v.n.Finite? || v.n.NegativeZero?))
  }

  /** The shape of each rule, and never just another rule. */
  type Grammar = Rule -> Shape

  ghost predicate Direct(g: Grammar) {
    forall rule :: !g(rule).Ref?
  }

  ghost predicate Agreeing(g: Grammar) {
    Direct(g) && forall rule :: Agrees(g(rule))
  }

  /** The members a decoder lets through are the ones it builds. */
  ghost predicate Agrees(shape: Shape) {
    match shape
    case ListOf(item) => Agrees(item)
    case Record(exact, fields) => SameKeys(exact, fields) && forall f | f in fields :: Agrees(f.shape)
    case Union(tag, early, variants, _) =>
      (forall f | f in early :: Agrees(f.shape)) &&
      (forall v | v in variants :: SameKeys(v.exact, v.fields) && forall f | f in v.fields :: Agrees(f.shape))
    case _ => true
  }

  ghost predicate AgreesEach(fields: seq<Field>) {
    forall f | f in fields :: Agrees(f.shape)
  }

  ghost predicate SameKeys(exact: seq<string>, fields: seq<Field>) {
    forall k :: k in exact <==> Knows(fields, k)
  }

  predicate Knows(fields: seq<Field>, key: string) {
    exists f :: f in fields && f.key == key
  }

  // ---------------------------------------------------------------- the decoders

  /** The first member, in the order of the input, that is not among the allowed keys. */
  function Unknown(ms: seq<Member>, exact: seq<string>): (unknown: seq<string>)
    ensures unknown == [] <==> forall m | m in ms :: m.key in exact
    ensures unknown != [] ==> Has(ms, unknown[0]) && unknown[0] !in exact
  {
    if ms == [] then []
    else if ms[0].key !in exact then assert ms[0] in ms; [ms[0].key]
    else
      var rest := Unknown(ms[1..], exact);
      assert forall m :: m in ms <==> m == ms[0] || m in ms[1..];
      rest
  }

  function VariantFor(variants: seq<Variant>, tag: Json): (r: seq<Variant>)
    ensures r != [] ==> r[0] in variants && tag == Str(r[0].tag)
    ensures r == [] ==> forall v | v in variants :: tag != Str(v.tag)
  {
    if variants == [] then []
    else if tag == Str(variants[0].tag) then [variants[0]]
    else VariantFor(variants[1..], tag)
  }

  function DecodeShape(g: Grammar, shape: Shape, input: Json, path: Path): (r: Result<Json>)
    requires Direct(g)
    decreases input, if shape.Ref? then 1 else 0, shape
  {
    match shape
    case Text => if input.Str? then Ok(input) else Err(InvalidInputType, path)
    case Flag => if input.Bool? then Ok(input) else Err(InvalidInputType, path)
    case Integer => if input.Num? && IsSafeInteger(input.n) then Ok(input) else Err(InvalidInputType, path)
    case Scalar => if IsScalar(input) then Ok(input) else Err(InvalidInputType, path)
    case ScalarOrList =>
      if input.Arr? then
        (var items := DecodeItems(g, Scalar, input.items, 0, path);
         if items.Ok? then Ok(Arr(items.value)) else Err(items.code, items.path))
      else if IsScalar(input) then Ok(input) else Err(InvalidInputType, path)
    case Strings(values) => if input.Str? && input.s in values then Ok(input) else Err(InvalidLiteral, path)
    case Numbers(values) => if IsOneOf(input, values) then Ok(input) else Err(InvalidLiteral, path)
    case ListOf(item) =>
      if !input.Arr? then Err(InvalidInputType, path)
      else
        var items := DecodeItems(g, item, input.items, 0, path);
        if items.Ok? then Ok(Arr(items.value)) else Err(items.code, items.path)
    case Record(exact, fields) =>
      if !input.Obj? then Err(InvalidInputType, path) else DecodeExactly(g, exact, fields, input, path)
    case Union(tag, early, variants, unknown) =>
      if !input.Obj? then Err(InvalidInputType, path)
      else
        var first := DecodeFields(g, early, input, path);
        if first.Err? then Err(first.code, first.path)
        else
          var variant := VariantFor(variants, Read(input.members, tag));
          if variant == [] then Err(unknown, path + [Key(tag)])
          else DecodeExactly(g, variant[0].exact, variant[0].fields, input, path)
    case Ref(rule) => DecodeShape(g, g(rule), input, path)
  }

  /** Refuses members that are not allowed, then decodes the fields, whatever was allowed. */
  function DecodeExactly(g: Grammar, exact: seq<string>, fields: seq<Field>, input: Json, path: Path): (r: Result<Json>)
    requires Direct(g) && input.Obj?
    decreases input, 0, fields, 1
  {
    var unknown := Unknown(input.members, exact);
    if unknown != [] then Err(UnknownProperty, path + [Key(unknown[0])])
    else
      var ms := DecodeFields(g, fields, input, path);
      if ms.Ok? then Ok(Obj(ms.value)) else Err(ms.code, ms.path)
  }

  /** Building an object from parts: no key gets in twice, and the later value stands. */
  function Put(m: Member, ms: seq<Member>): seq<Member> {
    if Has(ms, m.key) then ms else [m] + ms
  }

  function DecodeFields(g: Grammar, fields: seq<Field>, input: Json, path: Path): (r: Result<seq<Member>>)
    requires Direct(g) && input.Obj?
    decreases input, 0, fields, 0
  {
    if fields == [] then Ok([])
    else
      var f := fields[0];
      if !Has(input.members, f.key) then
        (if f.required then Err(MissingProperty, path + [Key(f.key)]) else DecodeFields(g, fields[1..], input, path))
      else
        var first := DecodeShape(g, f.shape, Get(input.members, f.key), path + [Key(f.key)]);
        if first.Err? then Err(first.code, first.path)
        else
          var rest := DecodeFields(g, fields[1..], input, path);
          if rest.Ok? then Ok(Put(Member(f.key, first.value), rest.value)) else rest
  }

  function DecodeItems(g: Grammar, shape: Shape, items: seq<Json>, i: nat, path: Path): (r: Result<seq<Json>>)
    requires Direct(g)
    decreases items, 0, |items| - i, 0
  {
    if i >= |items| then Ok([])
    else
      var first := DecodeShape(g, shape, items[i], path + [Index(i)]);
      if first.Err? then Err(first.code, first.path)
      else
        var rest := DecodeItems(g, shape, items, i + 1, path);
        if rest.Ok? then Ok([first.value] + rest.value) else rest
  }
}
