/** Resolving the parameterised filter of a data source: conditions whose parameter is not filled in
    are dropped, and the rest keeps its meaning. */
module PreviewQuery {
  import opened Wrappers
  import opened Json

  datatype Operator = And | Or

  datatype Operand = Literal(value: Json) | Parameter(id: string)

  datatype Filter =
    | Condition(field: string, operator: string, operand: Option<Operand>)
    | Group(connective: Operator, filters: seq<Filter>)

  datatype Resolved =
    | Test(field: string, operator: string, value: Option<Json>)
    | Both(connective: Operator, filters: seq<Resolved>)

  datatype Result<T> = Ok(value: T) | Undeclared(parameter: string)

  /** The parameter values at hand and the parameters the data source declares. */
  datatype Inputs = Inputs(parameters: map<string, Json>, declared: set<string>)

  // ---------------------------------------------------------------- resolution

  /** An absent value, null and the empty text all mean "not filled in". */
  predicate IsFilled(inputs: Inputs, parameter: string) {
    parameter in inputs.parameters && inputs.parameters[parameter] !in {Undefined, Null, Str("")}
  }

  function ResolveValue(operand: Operand, inputs: Inputs): Result<Option<Json>> {
    match operand
    case Literal(value) => Ok(Some(value))
    case Parameter(id) =>
      if id !in inputs.declared then Undeclared(id)
      else if IsFilled(inputs, id) then Ok(Some(inputs.parameters[id]))
      else Ok(None)
  }

  function ResolveFilter(f: Filter, inputs: Inputs): Result<Option<Resolved>>
    decreases f
  {
    match f
    case Condition(field, operator, None) => Ok(Some(Test(field, operator, None)))
    case Condition(field, operator, Some(operand)) =>
      (match ResolveValue(operand, inputs)
       case Undeclared(id) => Undeclared(id)
       case Ok(None) => Ok(None)
       case Ok(value) => Ok(Some(Test(field, operator, value))))
    case Group(connective, filters) =>
      match ResolveChildren(filters, inputs)
      case Undeclared(id) => Undeclared(id)
      case Ok(children) => Ok(Collapse(connective, children))
  }

  function ResolveChildren(fs: seq<Filter>, inputs: Inputs): Result<seq<Resolved>>
    decreases fs
  {
    if fs == [] then Ok([])
    else
      match ResolveFilter(fs[0], inputs)
      case Undeclared(id) => Undeclared(id)
      case Ok(first) =>
        match ResolveChildren(fs[1..], inputs)
        case Undeclared(id) => Undeclared(id)
        case Ok(rest) => Ok((if first.None? then [] else [first.value]) + rest)
  }

  function Collapse(connective: Operator, children: seq<Resolved>): Option<Resolved> {
    if |children| == 0 then None
    else if |children| == 1 then Some(children[0])
    else Some(Both(connective, children))
  }

  /** A condition on a declared parameter is dropped exactly if there is no value for it, or nothing
      in it, and else tests for that value. */
  lemma ParameterMeans(field: string, operator: string, id: string, inputs: Inputs)
    requires id in inputs.declared
    ensures
      var r := ResolveFilter(Condition(field, operator, Some(Parameter(id))), inputs);
      if id !in inputs.parameters then r == Ok(None)
      else
        var v := inputs.parameters[id];
        r == Ok(if v == Undefined || v == Null || v == Str([]) then None else Some(Test(field, operator, Some(v))))
  {
  }

  // ---------------------------------------------------------------- meaning

  type Document = (string, string, Option<Json>) -> bool

  predicate Unit(connective: Operator) {
    connective == And
  }

  predicate Combine(connective: Operator, x: bool, y: bool) {
    if connective == And then x && y else x || y
  }

  /** Whether a document passes a resolved filter. */
  predicate Passes(r: Resolved, document: Document)
    decreases r
  {
    match r
    case Test(field, operator, value) => document(field, operator, value)
    case Both(connective, filters) => AllPass(connective, filters, document)
  }

  predicate AllPass(connective: Operator, rs: seq<Resolved>, document: Document)
    decreases rs
  {
    if rs == [] then Unit(connective)
    else Combine(connective, Passes(rs[0], document), AllPass(connective, rs[1..], document))
  }

  /** Some condition below has a value to test, or needs none. */
  predicate HasFilled(f: Filter, inputs: Inputs)
    decreases f
  {
    match f
    case Condition(_, _, operand) =>
      operand.None? || operand.value.Literal? || IsFilled(inputs, operand.value.id)
    case Group(_, filters) => AnyFilled(filters, inputs)
  }

  predicate AnyFilled(fs: seq<Filter>, inputs: Inputs)
    decreases fs
  {
    fs != [] && (HasFilled(fs[0], inputs) || AnyFilled(fs[1..], inputs))
  }

  function ValueOf(operand: Operand, inputs: Inputs): Json
    requires operand.Parameter? ==> IsFilled(inputs, operand.id)
  {
    if operand.Literal? then operand.value else inputs.parameters[operand.id]
  }

  /** The reference: whether a document passes the filter as written, its groups left as they are,
      when whatever is not filled in counts as the neutral value of the nearest group around it
      that has something filled in. */
  predicate Means(f: Filter, inputs: Inputs, neutral: bool, document: Document)
    decreases f
  {
    if !HasFilled(f, inputs) then neutral
    else
      match f
      case Condition(field, operator, operand) =>
        document(field, operator, if operand.None? then None else Some(ValueOf(operand.value, inputs)))
      case Group(connective, filters) => AllMean(connective, filters, inputs, document)
  }

  predicate AllMean(connective: Operator, fs: seq<Filter>, inputs: Inputs, document: Document)
    decreases fs
  {
    if fs == [] then Unit(connective)
    else Combine(connective, Means(fs[0], inputs, Unit(connective), document),
      AllMean(connective, fs[1..], inputs, document))
  }

  /** Resolution keeps the meaning of a filter on every document, and there is no result exactly
      when nothing is filled in. */
  lemma {:induction false} ResolvingKeepsMeaning(f: Filter, inputs: Inputs, neutral: bool, document: Document)
    requires ResolveFilter(f, inputs).Ok?
    ensures
      var r := ResolveFilter(f, inputs).value;
      (r.Some? <==> HasFilled(f, inputs)) &&
      (r.Some? ==> Passes(r.value, document) == Means(f, inputs, neutral, document))
    decreases f
  {
    if f.Group? {
      ChildrenKeepMeaning(f.connective, f.filters, inputs, document);
      var children := ResolveChildren(f.filters, inputs).value;
      if |children| == 1 {
        assert children[1..] == [];
      }
    }
  }

  lemma {:induction false} ChildrenKeepMeaning(connective: Operator, fs: seq<Filter>, inputs: Inputs,
                                               document: Document)
    requires ResolveChildren(fs, inputs).Ok?
    ensures
      var rs := ResolveChildren(fs, inputs).value;
      (rs != [] <==> AnyFilled(fs, inputs)) &&
      AllPass(connective, rs, document) == AllMean(connective, fs, inputs, document)
    decreases fs
  {
    if fs != [] {
      ResolvingKeepsMeaning(fs[0], inputs, Unit(connective), document);
      ChildrenKeepMeaning(connective, fs[1..], inputs, document);
      var first, rest := ResolveFilter(fs[0], inputs).value, ResolveChildren(fs[1..], inputs).value;
      if first.Some? {
        assert ([first.value] + rest)[1..] == rest;
      } else {
        assert ([]) + rest == rest;
      }
    }
  }

  // ---------------------------------------------------------------- shape of the result

  ghost predicate Branching(r: Resolved)
    decreases r
  {
    r.Both? ==> |r.filters| >= 2 && forall c | c in r.filters :: Branching(c)
  }

  /** The conditions of a resolved filter, in order. */
  function Tests(r: Resolved): seq<Resolved>
    decreases r
  {
    match r
    case Test(_, _, _) => [r]
    case Both(_, filters) => AllTests(filters)
  }

  function AllTests(rs: seq<Resolved>): seq<Resolved>
    decreases rs
  {
    if rs == [] then [] else Tests(rs[0]) + AllTests(rs[1..])
  }

  /** The filled-in conditions of a filter, in order, with their values. */
  function Filled(f: Filter, inputs: Inputs): seq<Resolved>
    decreases f
  {
    match f
    case Condition(field, operator, operand) =>
      if operand.None? then [Test(field, operator, None)]
      else if operand.value.Literal? || IsFilled(inputs, operand.value.id) then
        [Test(field, operator, Some(ValueOf(operand.value, inputs)))]
      else []
    case Group(_, filters) => AllFilled(filters, inputs)
  }

  function AllFilled(fs: seq<Filter>, inputs: Inputs): seq<Resolved>
    decreases fs
  {
    if fs == [] then [] else Filled(fs[0], inputs) + AllFilled(fs[1..], inputs)
  }

  /** Every group of the result has two children or more, and its conditions are exactly the
      filled-in ones, in order, with their values. */
  lemma {:induction false} ResolvingKeepsConditions(f: Filter, inputs: Inputs)
    requires ResolveFilter(f, inputs).Ok?
    ensures
      var r := ResolveFilter(f, inputs).value;
      (r.None? ==> Filled(f, inputs) == []) &&
      (r.Some? ==> Branching(r.value) && Tests(r.value) == Filled(f, inputs))
    decreases f
  {
    if f.Group? {
      ChildrenKeepConditions(f.filters, inputs);
      var children := ResolveChildren(f.filters, inputs).value;
      if |children| == 1 {
        assert children[1..] == [];
        assert Tests(children[0]) + [] == Tests(children[0]);
      }
    }
  }

  lemma {:induction false} ChildrenKeepConditions(fs: seq<Filter>, inputs: Inputs)
    requires ResolveChildren(fs, inputs).Ok?
    ensures
      var rs := ResolveChildren(fs, inputs).value;
      (forall r | r in rs :: Branching(r)) && AllTests(rs) == AllFilled(fs, inputs)
    decreases fs
  {
    if fs != [] {
      ResolvingKeepsConditions(fs[0], inputs);
      ChildrenKeepConditions(fs[1..], inputs);
      var first, rest := ResolveFilter(fs[0], inputs).value, ResolveChildren(fs[1..], inputs).value;
      if first.Some? {
        assert ([first.value] + rest)[1..] == rest;
      } else {
        assert ([]) + rest == rest;
        assert ([]) + AllFilled(fs[1..], inputs) == AllFilled(fs[1..], inputs);
      }
    }
  }

  // ---------------------------------------------------------------- undeclared parameters

  /** The parameters a filter mentions, in order. */
  function Mentioned(f: Filter): seq<string>
    decreases f
  {
    match f
    case Condition(_, _, operand) => if operand.Some? && operand.value.Parameter? then [operand.value.id] else []
    case Group(_, filters) => AllMentioned(filters)
  }

  function AllMentioned(fs: seq<Filter>): seq<string>
    decreases fs
  {
    if fs == [] then [] else Mentioned(fs[0]) + AllMentioned(fs[1..])
  }

  function FirstOutside(ids: seq<string>, declared: set<string>): (id: Option<string>)
    ensures id.None? <==> forall x | x in ids :: x in declared
  {
    if ids == [] then None
    else if ids[0] !in declared then Some(ids[0])
    else FirstOutside(ids[1..], declared)
  }

  lemma {:induction false} FirstOutsideConcat(a: seq<string>, b: seq<string>, declared: set<string>)
    ensures FirstOutside(a + b, declared) ==
            if FirstOutside(a, declared).Some? then FirstOutside(a, declared) else FirstOutside(b, declared)
  {
    if a == [] {
      assert a + b == b;
    } else {
      FirstOutsideConcat(a[1..], b, declared);
      assert (a + b)[1..] == a[1..] + b;
    }
  }

  function Failure<T>(r: Result<T>): Option<string> {
    if r.Ok? then None else Some(r.parameter)
  }

  /** Resolution fails exactly if a mentioned parameter is not declared, filled in or not, and then
      names the first such parameter. */
  lemma {:induction false} FailsAtFirstUndeclared(f: Filter, inputs: Inputs)
    ensures Failure(ResolveFilter(f, inputs)) == FirstOutside(Mentioned(f), inputs.declared)
    decreases f
  {
    if f.Group? {
      ChildrenFailAtFirstUndeclared(f.filters, inputs);
    } else if Mentioned(f) != [] {
      assert Mentioned(f)[1..] == [];
    }
  }

  lemma {:induction false} ChildrenFailAtFirstUndeclared(fs: seq<Filter>, inputs: Inputs)
    ensures Failure(ResolveChildren(fs, inputs)) == FirstOutside(AllMentioned(fs), inputs.declared)
    decreases fs
  {
    if fs != [] {
      FailsAtFirstUndeclared(fs[0], inputs);
      ChildrenFailAtFirstUndeclared(fs[1..], inputs);
      FirstOutsideConcat(Mentioned(fs[0]), AllMentioned(fs[1..]), inputs.declared);
    }
  }

  // ---------------------------------------------------------------- the request

  datatype DataSource = DataSource(
    limit: nat, fields: seq<string>, filter: Option<Filter>, sort: Option<seq<(string, bool)>>, parameters: seq<string>)

  datatype Query = Query(
    limit: nat, fields: seq<string>, filter: Option<Resolved>, sort: Option<seq<(string, bool)>>,
    cursor: Option<string>)

  function ResolveQuery(source: DataSource, parameters: map<string, Json>, cursor: Option<string>): Result<Query> {
    var declared := set id | id in source.parameters;
    var sort := if source.sort == Some([]) then None else source.sort;
    if source.filter.None? then Ok(Query(source.limit, source.fields, None, sort, cursor))
    else
      match ResolveFilter(source.filter.value, Inputs(parameters, declared))
      case Undeclared(id) => Undeclared(id)
      case Ok(filter) => Ok(Query(source.limit, source.fields, filter, sort, cursor))
  }

  /** Limit, fields, cursor and sort order go along unchanged; an empty sort order is none. */
  lemma QueryCarriesTheRest(source: DataSource, parameters: map<string, Json>, cursor: Option<string>)
    requires ResolveQuery(source, parameters, cursor).Ok?
    ensures
      var query := ResolveQuery(source, parameters, cursor).value;
      query.limit == source.limit && query.fields == source.fields && query.cursor == cursor &&
      (query.sort.Some? <==> source.sort.Some? && source.sort.value != []) &&
      (query.sort.Some? ==> query.sort == source.sort) &&
      (source.filter.None? ==> query.filter.None?)
  {
  }

  /** A query fails exactly for the first parameter its filter mentions without declaring it. */
  lemma QueryFailsAtFirstUndeclared(source: DataSource, parameters: map<string, Json>, cursor: Option<string>)
    ensures
      var r := ResolveQuery(source, parameters, cursor);
      (if r.Undeclared? then Some(r.parameter) else None) ==
      (if source.filter.None? then None
       else FirstOutside(Mentioned(source.filter.value), set id | id in source.parameters))
  {
    if source.filter.Some? {
      FailsAtFirstUndeclared(source.filter.value, Inputs(parameters, set id | id in source.parameters));
    }
  }

  predicate Admits(filter: Option<Resolved>, document: Document) {
    filter.None? || Passes(filter.value, document)
  }

  /** The request admits a document exactly as the data source means it: everything, if no
      condition is filled in. */
  lemma QueryKeepsMeaning(source: DataSource, parameters: map<string, Json>, cursor: Option<string>, document: Document)
    requires ResolveQuery(source, parameters, cursor).Ok?
    ensures
      var inputs := Inputs(parameters, set id | id in source.parameters);
      Admits(ResolveQuery(source, parameters, cursor).value.filter, document) ==
      (source.filter.Some? ==> Means(source.filter.value, inputs, true, document))
  {
    if source.filter.Some? {
      var inputs := Inputs(parameters, set id | id in source.parameters);
      ResolvingKeepsMeaning(source.filter.value, inputs, true, document);
    }
  }
}
