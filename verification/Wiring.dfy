/** The wiring of a composed page: indexes built from the list of connections, and what the runtime
    reads off them. */
module Wiring {
  import opened Wrappers
  import opened Json

  datatype NodeType = Component | StateNode | DataSource

  datatype Port = Port(nodeType: NodeType, nodeId: string, portId: string)

  datatype Connection = Connection(from: Port, to: Port)

  // ---------------------------------------------------------------- the plain scan

  /** The questions that the indexes answer. The first five have a list as their answer, the other
      three at most one node. */
  datatype Question =
    | InputOf(component: string)
    | ClickOf(component: string)
    | SelectionOf(component: string)
    | FieldOf(component: string, field: string)
    | VariantOf(component: string, variant: string)
    | ParameterOf(source: string, parameter: string)
    | RowsOf(component: string)
    | DocumentOf(component: string)

  const WRITE := "write"

  predicate Writes(c: Connection, component: string, portId: string) {
    c.from == Port(Component, component, portId) && c.to.nodeType == StateNode && c.to.portId == WRITE
  }

  /** What one connection contributes to the answer to a question. */
  function Contribution(c: Connection, q: Question): Option<string> {
    match q
    case InputOf(component) => if Writes(c, component, "value") then Some(c.to.nodeId) else None
    case ClickOf(component) =>
      if c.from == Port(Component, component, "clicked") && c.to.nodeType == DataSource && c.to.portId == "execute"
      then Some(c.to.nodeId) else None
    case SelectionOf(component) => if Writes(c, component, "selectedDocumentId") then Some(c.to.nodeId) else None
    case FieldOf(component, field) => if Writes(c, component, "selectedField:" + field) then Some(c.to.nodeId) else None
    case VariantOf(component, variant) => if Writes(c, component, "value:" + variant) then Some(c.to.nodeId) else None
    case ParameterOf(source, parameter) =>
      if c.to == Port(DataSource, source, "parameter:" + parameter) && c.from.nodeType == StateNode &&
        c.from.portId == "value"
      then Some(c.from.nodeId) else None
    case RowsOf(component) =>
      if c.to == Port(Component, component, "data") && c.from.nodeType == DataSource && c.from.portId == "rows"
      then Some(c.from.nodeId) else None
    case DocumentOf(component) =>
      if c.to == Port(Component, component, "documentId") && c.from.nodeType == StateNode && c.from.portId == "value"
      then Some(c.from.nodeId) else None
  }

  /** The connection that makes a node the answer to a question. */
  function AnsweringConnection(q: Question, node: string): Connection {
    match q
    case InputOf(c) => Connection(Port(Component, c, "value"), Port(StateNode, node, "write"))
    case ClickOf(c) => Connection(Port(Component, c, "clicked"), Port(DataSource, node, "execute"))
    case SelectionOf(c) => Connection(Port(Component, c, "selectedDocumentId"), Port(StateNode, node, "write"))
    case FieldOf(c, field) => Connection(Port(Component, c, "selectedField:" + field), Port(StateNode, node, "write"))
    case VariantOf(c, variant) => Connection(Port(Component, c, "value:" + variant), Port(StateNode, node, "write"))
    case ParameterOf(source, parameter) =>
      Connection(Port(StateNode, node, "value"), Port(DataSource, source, "parameter:" + parameter))
    case RowsOf(c) => Connection(Port(DataSource, node, "rows"), Port(Component, c, "data"))
    case DocumentOf(c) => Connection(Port(StateNode, node, "value"), Port(Component, c, "documentId"))
  }

  lemma ContributesExactlyThen(c: Connection, q: Question, node: string)
    ensures Contribution(c, q) == Some(node) <==> c == AnsweringConnection(q, node)
  {
  }

  /** All contributions in the order of the connections. */
  function ScanAll(cs: seq<Connection>, q: Question): seq<string> {
    if cs == [] then []
    else
      var last := Contribution(cs[|cs| - 1], q);
      ScanAll(cs[..|cs| - 1], q) + (if last.Some? then [last.value] else [])
  }

  /** The last contribution. */
  function ScanLast(cs: seq<Connection>, q: Question): Option<string> {
    if cs == [] then None
    else
      var last := Contribution(cs[|cs| - 1], q);
      if last.Some? then last else ScanLast(cs[..|cs| - 1], q)
  }

  // ---------------------------------------------------------------- the indexes

  type Lists = map<string, seq<string>>

  datatype Graph = Graph(
    inputs: Lists, clicks: Lists, parameters: map<string, map<string, string>>, rows: map<string, string>,
    selections: Lists, fields: map<string, Lists>, documents: map<string, string>, variants: map<string, Lists>)

  function ListAt(lists: Lists, key: string): seq<string> {
    if key in lists then lists[key] else []
  }

  function Push(lists: Lists, key: string, value: string): Lists {
    lists[key := ListAt(lists, key) + [value]]
  }

  function TableAt<V>(tables: map<string, map<string, V>>, key: string): map<string, V> {
    if key in tables then tables[key] else map[]
  }

  predicate StartsWith(s: string, prefix: string) {
    prefix <= s
  }

  function Suffix(s: string, prefix: string): string
    requires StartsWith(s, prefix)
  {
    s[|prefix|..]
  }

  /** The answer of the indexes to a question with a list. */
  function Targets(g: Graph, q: Question): seq<string> {
    match q
    case InputOf(component) => ListAt(g.inputs, component)
    case ClickOf(component) => ListAt(g.clicks, component)
    case SelectionOf(component) => ListAt(g.selections, component)
    case FieldOf(component, field) => ListAt(TableAt(g.fields, component), field)
    case VariantOf(component, variant) => ListAt(TableAt(g.variants, component), variant)
    case _ => []
  }

  /** The answer of the indexes to a question with at most one node. */
  function Source(g: Graph, q: Question): Option<string> {
    match q
    case ParameterOf(source, parameter) =>
      var bindings := TableAt(g.parameters, source);
      if parameter in bindings then Some(bindings[parameter]) else None
    case RowsOf(component) => if component in g.rows then Some(g.rows[component]) else None
    case DocumentOf(component) => if component in g.documents then Some(g.documents[component]) else None
    case _ => None
  }

  predicate IsListQuestion(q: Question) {
    !q.ParameterOf? && !q.RowsOf? && !q.DocumentOf?
  }

  /** The indexes answer every question as the plain scan does. */
  ghost predicate Answers(g: Graph, cs: seq<Connection>) {
    forall q :: if IsListQuestion(q) then Targets(g, q) == ScanAll(cs, q) else Source(g, q) == ScanLast(cs, q)
  }

  lemma ScanStep(cs: seq<Connection>, c: Connection, q: Question)
    ensures ScanAll(cs + [c], q) ==
      ScanAll(cs, q) + (if Contribution(c, q).Some? then [Contribution(c, q).value] else [])
    ensures ScanLast(cs + [c], q) == if Contribution(c, q).Some? then Contribution(c, q) else ScanLast(cs, q)
  {
    assert (cs + [c])[..|cs|] == cs;
  }

  lemma SuffixIsRest(s: string, prefix: string, rest: string)
    ensures s == prefix + rest <==> StartsWith(s, prefix) && Suffix(s, prefix) == rest
  {
    if StartsWith(s, prefix) {
      assert s == prefix + Suffix(s, prefix);
    }
  }

  ghost predicate InputsAnswer(inputs: Lists, cs: seq<Connection>) {
    forall component :: ListAt(inputs, component) == ScanAll(cs, InputOf(component))
  }

  ghost predicate ClicksAnswer(clicks: Lists, cs: seq<Connection>) {
    forall component :: ListAt(clicks, component) == ScanAll(cs, ClickOf(component))
  }

  ghost predicate SelectionsAnswer(selections: Lists, cs: seq<Connection>) {
    forall component :: ListAt(selections, component) == ScanAll(cs, SelectionOf(component))
  }

  ghost predicate FieldsAnswer(fields: map<string, Lists>, cs: seq<Connection>) {
    forall component, field :: ListAt(TableAt(fields, component), field) == ScanAll(cs, FieldOf(component, field))
  }

  ghost predicate VariantsAnswer(variants: map<string, Lists>, cs: seq<Connection>) {
    forall component, variant ::
      ListAt(TableAt(variants, component), variant) == ScanAll(cs, VariantOf(component, variant))
  }

  function ValueAt(table: map<string, string>, key: string): Option<string> {
    if key in table then Some(table[key]) else None
  }

  ghost predicate ParametersAnswer(parameters: map<string, map<string, string>>, cs: seq<Connection>) {
    forall source, parameter ::
      ValueAt(TableAt(parameters, source), parameter) == ScanLast(cs, ParameterOf(source, parameter))
  }

  ghost predicate RowsAnswer(rows: map<string, string>, cs: seq<Connection>) {
    forall component :: ValueAt(rows, component) == ScanLast(cs, RowsOf(component))
  }

  ghost predicate DocumentsAnswer(documents: map<string, string>, cs: seq<Connection>) {
    forall component :: ValueAt(documents, component) == ScanLast(cs, DocumentOf(component))
  }

  // ---------------------------------------------------------------- plain lists

  lemma PushedList(lists: Lists, key: string, value: string, k: string)
    ensures ListAt(Push(lists, key, value), k) == ListAt(lists, k) + (if k == key then [value] else [])
  {
    assert ListAt(lists, k) + [] == ListAt(lists, k);
  }

  predicate WritesFrom(c: Connection, portId: string) {
    c.from.nodeType == Component && c.from.portId == portId && c.to.nodeType == StateNode && c.to.portId == WRITE
  }

  function PushOwn(lists: Lists, c: Connection, portId: string): Lists {
    if WritesFrom(c, portId) then Push(lists, c.from.nodeId, c.to.nodeId) else lists
  }

  lemma PushOwnAt(lists: Lists, c: Connection, portId: string, component: string)
    ensures ListAt(PushOwn(lists, c, portId), component) ==
      ListAt(lists, component) + (if Writes(c, component, portId) then [c.to.nodeId] else [])
  {
    assert ListAt(lists, component) + [] == ListAt(lists, component);
  }

  method WireInput(inputs: Lists, c: Connection, ghost cs: seq<Connection>) returns (r: Lists)
    requires InputsAnswer(inputs, cs)
    ensures InputsAnswer(r, cs + [c])
  {
    r := PushOwn(inputs, c, "value");
    forall component ensures ListAt(r, component) == ScanAll(cs + [c], InputOf(component)) {
      ScanStep(cs, c, InputOf(component));
      PushOwnAt(inputs, c, "value", component);
    }
  }

  method WireSelection(selections: Lists, c: Connection, ghost cs: seq<Connection>) returns (r: Lists)
    requires SelectionsAnswer(selections, cs)
    ensures SelectionsAnswer(r, cs + [c])
  {
    r := PushOwn(selections, c, "selectedDocumentId");
    forall component ensures ListAt(r, component) == ScanAll(cs + [c], SelectionOf(component)) {
      ScanStep(cs, c, SelectionOf(component));
      PushOwnAt(selections, c, "selectedDocumentId", component);
    }
  }

  // ---------------------------------------------------------------- ports named by a prefix

  predicate WritesUnder(c: Connection, prefix: string) {
    c.from.nodeType == Component && StartsWith(c.from.portId, prefix) && c.to.nodeType == StateNode &&
      c.to.portId == WRITE
  }

  lemma WritesNamedPort(c: Connection, prefix: string, component: string, name: string)
    ensures Writes(c, component, prefix + name) <==>
      WritesUnder(c, prefix) && component == c.from.nodeId && name == Suffix(c.from.portId, prefix)
  {
    SuffixIsRest(c.from.portId, prefix, name);
  }

  /** The index of the index gets the target of the connection at the end of one list. */
  function NestedPush(tables: map<string, Lists>, c: Connection, prefix: string): map<string, Lists> {
    if WritesUnder(c, prefix)
    then tables[c.from.nodeId := Push(TableAt(tables, c.from.nodeId), Suffix(c.from.portId, prefix), c.to.nodeId)]
    else tables
  }

  lemma NestedPushAt(tables: map<string, Lists>, c: Connection, prefix: string, component: string, name: string)
    ensures ListAt(TableAt(NestedPush(tables, c, prefix), component), name) ==
      ListAt(TableAt(tables, component), name) + (if Writes(c, component, prefix + name) then [c.to.nodeId] else [])
  {
    WritesNamedPort(c, prefix, component, name);
    if WritesUnder(c, prefix) && component == c.from.nodeId {
      PushedList(TableAt(tables, component), Suffix(c.from.portId, prefix), c.to.nodeId, name);
    } else {
      assert ListAt(TableAt(tables, component), name) + [] == ListAt(TableAt(tables, component), name);
    }
  }

  method WireVariant(variants: map<string, Lists>, c: Connection, ghost cs: seq<Connection>)
    returns (r: map<string, Lists>)
    requires VariantsAnswer(variants, cs)
    ensures VariantsAnswer(r, cs + [c])
  {
    r := NestedPush(variants, c, "value:");
    forall component, variant
      ensures ListAt(TableAt(r, component), variant) == ScanAll(cs + [c], VariantOf(component, variant))
    {
      ScanStep(cs, c, VariantOf(component, variant));
      NestedPushAt(variants, c, "value:", component, variant);
    }
  }

  method WireClick(clicks: Lists, c: Connection, ghost cs: seq<Connection>) returns (r: Lists)
    requires ClicksAnswer(clicks, cs)
    ensures ClicksAnswer(r, cs + [c])
  {
    r := clicks;
    if c.from.nodeType == Component && c.from.portId == "clicked" && c.to.nodeType == DataSource &&
      c.to.portId == "execute" {
      r := Push(clicks, c.from.nodeId, c.to.nodeId);
    }
    forall component ensures ListAt(r, component) == ScanAll(cs + [c], ClickOf(component)) {
      ScanStep(cs, c, ClickOf(component));
    }
  }

  method WireParameter(parameters: map<string, map<string, string>>, c: Connection, ghost cs: seq<Connection>)
    returns (r: map<string, map<string, string>>)
    requires ParametersAnswer(parameters, cs)
    ensures ParametersAnswer(r, cs + [c])
  {
    r := parameters;
    if c.from.nodeType == StateNode && c.from.portId == "value" && c.to.nodeType == DataSource &&
      StartsWith(c.to.portId, "parameter:") {
      var bindings := TableAt(parameters, c.to.nodeId);
      r := parameters[c.to.nodeId := bindings[Suffix(c.to.portId, "parameter:") := c.from.nodeId]];
    }
    forall source, parameter
      ensures ValueAt(TableAt(r, source), parameter) == ScanLast(cs + [c], ParameterOf(source, parameter))
    {
      ScanStep(cs, c, ParameterOf(source, parameter));
      SuffixIsRest(c.to.portId, "parameter:", parameter);
    }
  }

  method WireRows(rows: map<string, string>, c: Connection, ghost cs: seq<Connection>) returns (r: map<string, string>)
    requires RowsAnswer(rows, cs)
    ensures RowsAnswer(r, cs + [c])
  {
    r := rows;
    if c.from.nodeType == DataSource && c.from.portId == "rows" && c.to.nodeType == Component && c.to.portId == "data" {
      r := rows[c.to.nodeId := c.from.nodeId];
    }
    forall component ensures ValueAt(r, component) == ScanLast(cs + [c], RowsOf(component)) {
      ScanStep(cs, c, RowsOf(component));
    }
  }

  method WireField(fields: map<string, Lists>, c: Connection, ghost cs: seq<Connection>)
    returns (r: map<string, Lists>)
    requires FieldsAnswer(fields, cs)
    ensures FieldsAnswer(r, cs + [c])
  {
    r := NestedPush(fields, c, "selectedField:");
    forall component, field
      ensures ListAt(TableAt(r, component), field) == ScanAll(cs + [c], FieldOf(component, field))
    {
      ScanStep(cs, c, FieldOf(component, field));
      NestedPushAt(fields, c, "selectedField:", component, field);
    }
  }

  method WireDocument(documents: map<string, string>, c: Connection, ghost cs: seq<Connection>)
    returns (r: map<string, string>)
    requires DocumentsAnswer(documents, cs)
    ensures DocumentsAnswer(r, cs + [c])
  {
    r := documents;
    if c.from.nodeType == StateNode && c.from.portId == "value" && c.to.nodeType == Component &&
      c.to.portId == "documentId" {
      r := documents[c.to.nodeId := c.from.nodeId];
    }
    forall component ensures ValueAt(r, component) == ScanLast(cs + [c], DocumentOf(component)) {
      ScanStep(cs, c, DocumentOf(component));
    }
  }

  /** Builds all indexes in one pass over the connections. */
  method BuildWiringGraph(connections: seq<Connection>) returns (g: Graph)
    ensures Answers(g, connections)
  {
    var inputs, clicks, selections: Lists := map[], map[], map[];
    var fields, variants: map<string, Lists> := map[], map[];
    var parameters: map<string, map<string, string>> := map[];
    var rows, documents: map<string, string> := map[], map[];
    for i := 0 to |connections|
      invariant InputsAnswer(inputs, connections[..i]) && ClicksAnswer(clicks, connections[..i])
      invariant SelectionsAnswer(selections, connections[..i]) && FieldsAnswer(fields, connections[..i])
      invariant VariantsAnswer(variants, connections[..i]) && ParametersAnswer(parameters, connections[..i])
      invariant RowsAnswer(rows, connections[..i]) && DocumentsAnswer(documents, connections[..i])
    {
      var c := connections[i];
      ghost var before := connections[..i];
      inputs := WireInput(inputs, c, before);
      variants := WireVariant(variants, c, before);
      clicks := WireClick(clicks, c, before);
      parameters := WireParameter(parameters, c, before);
      rows := WireRows(rows, c, before);
      selections := WireSelection(selections, c, before);
      fields := WireField(fields, c, before);
      documents := WireDocument(documents, c, before);
      assert connections[..i + 1] == before + [c];
    }
    assert connections[..|connections|] == connections;
    g := Graph(inputs, clicks, parameters, rows, selections, fields, documents, variants);
    ghost var cs := connections;
    IndexesAnswer(g, cs);
  }

  lemma ListIndexesAnswer(g: Graph, cs: seq<Connection>, q: Question)
    requires InputsAnswer(g.inputs, cs) && ClicksAnswer(g.clicks, cs) && SelectionsAnswer(g.selections, cs)
    requires FieldsAnswer(g.fields, cs) && VariantsAnswer(g.variants, cs) && IsListQuestion(q)
    ensures Targets(g, q) == ScanAll(cs, q)
  {
  }

  lemma SingleIndexesAnswer(g: Graph, cs: seq<Connection>, q: Question)
    requires ParametersAnswer(g.parameters, cs) && RowsAnswer(g.rows, cs) && DocumentsAnswer(g.documents, cs)
    requires !IsListQuestion(q)
    ensures Source(g, q) == ScanLast(cs, q)
  {
    match q
    case ParameterOf(source, parameter) => assert Source(g, q) == ValueAt(TableAt(g.parameters, source), parameter);
    case RowsOf(component) => assert Source(g, q) == ValueAt(g.rows, component);
    case DocumentOf(component) => assert Source(g, q) == ValueAt(g.documents, component);
  }

  lemma IndexesAnswer(g: Graph, cs: seq<Connection>)
    requires InputsAnswer(g.inputs, cs) && ClicksAnswer(g.clicks, cs) && SelectionsAnswer(g.selections, cs)
    requires FieldsAnswer(g.fields, cs) && VariantsAnswer(g.variants, cs) && ParametersAnswer(g.parameters, cs)
    requires RowsAnswer(g.rows, cs) && DocumentsAnswer(g.documents, cs)
    ensures Answers(g, cs)
  {
    forall q ensures if IsListQuestion(q) then Targets(g, q) == ScanAll(cs, q) else Source(g, q) == ScanLast(cs, q) {
      if IsListQuestion(q) {
        ListIndexesAnswer(g, cs, q);
      } else {
        SingleIndexesAnswer(g, cs, q);
      }
    }
  }

  // ---------------------------------------------------------------- parameters

  type Values = map<string, Json>

  function StateValue(state: Values, id: string): Json {
    if id in state then state[id] else Undefined
  }

  function Parameters(g: Graph, source: string, state: Values): Values {
    var bindings := TableAt(g.parameters, source);
    map p | p in bindings :: BoundValue(bindings, p, state)
  }

  function BoundValue(bindings: map<string, string>, parameter: string, state: Values): Json {
    if parameter in bindings then StateValue(state, bindings[parameter]) else Undefined
  }

  method CollectParameters(g: Graph, source: string, state: Values) returns (parameters: Values)
    ensures parameters == Parameters(g, source, state)
  {
    var bindings := TableAt(g.parameters, source);
    parameters := map[];
    var left := bindings.Keys;
    while left != {}
      invariant left <= bindings.Keys && parameters.Keys == bindings.Keys - left
      invariant forall p | p in parameters :: parameters[p] == BoundValue(bindings, p, state)
    {
      var p :| p in left;
      parameters := parameters[p := StateValue(state, bindings[p])];
      left := left - {p};
    }
  }

  /** A parameter is passed exactly if some state is connected to it, and then with the value of
      the state connected last. */
  lemma ParametersComeFromLastConnection(g: Graph, cs: seq<Connection>, source: string, parameter: string,
                                         state: Values)
    requires Answers(g, cs)
    ensures
      var binding := ScanLast(cs, ParameterOf(source, parameter));
      (parameter in Parameters(g, source, state) <==> binding.Some?) &&
      (binding.Some? ==>
        Parameters(g, source, state)[parameter] ==
          if binding.value in state then state[binding.value] else Undefined)
  {
    assert Source(g, ParameterOf(source, parameter)) == ScanLast(cs, ParameterOf(source, parameter));
  }

  datatype Trigger = OnLoad | OnChange | Manual
  datatype SourceInfo = SourceInfo(id: string, trigger: Trigger, debounceMs: Option<nat>)
  datatype Rerun = Rerun(id: string, debounceMs: nat)

  predicate IsBound(g: Graph, source: string, stateId: string) {
    stateId in TableAt(g.parameters, source).Values
  }

  function Reruns(sources: seq<SourceInfo>, g: Graph, stateId: string): seq<Rerun> {
    if sources == [] then []
    else
      var last := sources[|sources| - 1];
      Reruns(sources[..|sources| - 1], g, stateId)
      + (if last.trigger == OnChange && IsBound(g, last.id, stateId)
         then [Rerun(last.id, if last.debounceMs.Some? then last.debounceMs.value else 300)] else [])
  }

  method OnChangeDataSourcesForState(sources: seq<SourceInfo>, g: Graph, stateId: string) returns (result: seq<Rerun>)
    ensures result == Reruns(sources, g, stateId)
  {
    result := [];
    for i := 0 to |sources|
      invariant result == Reruns(sources[..i], g, stateId)
    {
      assert sources[..i + 1][..i] == sources[..i];
      var source := sources[i];
      if source.trigger == OnChange && source.id in g.parameters && stateId in g.parameters[source.id].Values {
        result := result + [Rerun(source.id, if source.debounceMs.Some? then source.debounceMs.value else 300)];
      }
    }
    assert sources[..|sources|] == sources;
  }

  lemma {:induction false} RerunMembers(sources: seq<SourceInfo>, g: Graph, stateId: string, id: string)
    ensures (exists r :: r in Reruns(sources, g, stateId) && r.id == id) <==>
            (exists s :: s in sources && s.id == id && s.trigger == OnChange) && IsBound(g, id, stateId)
  {
    if sources != [] {
      var last, front := sources[|sources| - 1], sources[..|sources| - 1];
      RerunMembers(front, g, stateId, id);
      assert sources == front + [last];
      var added := if last.trigger == OnChange && IsBound(g, last.id, stateId)
                   then [Rerun(last.id, if last.debounceMs.Some? then last.debounceMs.value else 300)] else [];
      assert Reruns(sources, g, stateId) == Reruns(front, g, stateId) + added;
      assert forall r :: r in Reruns(sources, g, stateId) <==> r in Reruns(front, g, stateId) || r in added;
    }
  }

  /** A rerun after the source's own delay, or else 300 milliseconds. */
  predicate IsRerunOf(r: Rerun, s: SourceInfo) {
    s.id == r.id && s.trigger == OnChange && r.debounceMs == if s.debounceMs.Some? then s.debounceMs.value else 300
  }

  /** Every rerun is that of an on-change source. */
  lemma {:induction false} RerunIsOfASource(sources: seq<SourceInfo>, g: Graph, stateId: string, r: Rerun)
    requires r in Reruns(sources, g, stateId)
    ensures exists s :: s in sources && IsRerunOf(r, s)
  {
    var last, front := sources[|sources| - 1], sources[..|sources| - 1];
    assert sources == front + [last];
    if r in Reruns(front, g, stateId) {
      RerunIsOfASource(front, g, stateId, r);
      var s :| s in front && IsRerunOf(r, s);
      assert s in sources;
    } else {
      assert last in sources;
    }
  }

  function With(state: Values, id: string, v: Json): Values {
    state[id := v]
  }

  /** A change of a state can change what a source is asked with. */
  ghost predicate DependsOn(g: Graph, source: string, stateId: string, state: Values) {
    exists v :: Parameters(g, source, With(state, stateId, v)) != Parameters(g, source, state)
  }

  /** After a change of a state exactly those on-change sources are asked again whose parameters can
      change with it. */
  lemma RerunsExactlyTheDependents(sources: seq<SourceInfo>, g: Graph, stateId: string, state: Values, id: string)
    ensures (exists r :: r in Reruns(sources, g, stateId) && r.id == id) <==>
            (exists s :: s in sources && s.id == id && s.trigger == OnChange) && DependsOn(g, id, stateId, state)
  {
    RerunMembers(sources, g, stateId, id);
    BoundMeansDependent(g, id, stateId, state);
  }

  lemma BoundMeansDependent(g: Graph, source: string, stateId: string, state: Values)
    ensures IsBound(g, source, stateId) <==> DependsOn(g, source, stateId, state)
  {
    var bindings := TableAt(g.parameters, source);
    if IsBound(g, source, stateId) {
      var p :| p in bindings && bindings[p] == stateId;
      var v := if StateValue(state, stateId) == Null then Undefined else Null;
      assert Parameters(g, source, With(state, stateId, v))[p] == v;
      assert Parameters(g, source, state)[p] == StateValue(state, stateId);
    } else {
      forall v ensures Parameters(g, source, With(state, stateId, v)) == Parameters(g, source, state) {
        assert forall p | p in bindings :: bindings[p] in bindings.Values;
      }
    }
  }

  // ---------------------------------------------------------------- adaptive inputs

  function AllVariantStates(g: Graph, component: string): set<string> {
    var byVariant := TableAt(g.variants, component);
    set variant, id | variant in byVariant && id in byVariant[variant] :: id
  }

  /** The value of a state after an adaptive input was used, in terms of the connections. */
  ghost function AdaptiveValue(cs: seq<Connection>, component: string, variant: string, value: Json, state: Values,
                               id: string): Json {
    if id in ScanAll(cs, VariantOf(component, variant)) then value
    else if exists other :: id in ScanAll(cs, VariantOf(component, other)) then Str("")
    else StateValue(state, id)
  }

  function AdaptiveState(g: Graph, component: string, variant: string, value: Json, state: Values): Values {
    var written, active := AllVariantStates(g, component), Targets(g, VariantOf(component, variant));
    map id | id in state.Keys + written :: WrittenValue(written, active, value, state, id)
  }

  function WrittenValue(written: set<string>, active: seq<string>, value: Json, state: Values, id: string): Json {
    if id in written then (if id in active then value else Str("")) else StateValue(state, id)
  }

  ghost predicate WrittenSoFar(next: Values, written: set<string>, active: seq<string>, value: Json, state: Values) {
    next.Keys == state.Keys + written &&
    forall id | id in next :: next[id] == WrittenValue(written, active, value, state, id)
  }

  lemma MovedOver(done: set<string>, left: set<string>, id: string)
    requires id in left
    ensures (done + {id}) + (left - {id}) == done + left
  {
  }

  lemma OneMoreWritten(next: Values, written: set<string>, active: seq<string>, value: Json, state: Values, id: string)
    requires WrittenSoFar(next, written, active, value, state)
    ensures WrittenSoFar(next[id := if id in active then value else Str("")], written + {id}, active, value, state)
  {
  }

  lemma AllWritten(g: Graph, component: string, variant: string, value: Json, state: Values, next: Values)
    requires WrittenSoFar(next, AllVariantStates(g, component), Targets(g, VariantOf(component, variant)), value, state)
    ensures next == AdaptiveState(g, component, variant, value, state)
  {
  }

  /** Clears what any variant of the input writes and sets what the active one writes. */
  method SetAdaptiveValue(g: Graph, component: string, variant: string, value: Json, state: Values)
    returns (next: Values)
    ensures next == AdaptiveState(g, component, variant, value, state)
  {
    var active := Targets(g, VariantOf(component, variant));
    var written := AllVariantStates(g, component);
    var left := written;
    next := state;
    ghost var done: set<string> := {};
    while left != {}
      invariant done + left == written && WrittenSoFar(next, done, active, value, state)
    {
      var id :| id in left;
      OneMoreWritten(next, done, active, value, state, id);
      next := next[id := if id in active then value else Str("")];
      MovedOver(done, left, id);
      done, left := done + {id}, left - {id};
    }
    assert done == written;
    AllWritten(g, component, variant, value, state, next);
  }

  /** Each state of a variant then holds the new value if the active variant writes it, nothing
      otherwise, and every other state is as it was. */
  lemma AdaptiveWrite(g: Graph, cs: seq<Connection>, component: string, variant: string, value: Json, state: Values,
                      id: string)
    requires Answers(g, cs)
    ensures StateValue(AdaptiveState(g, component, variant, value, state), id) ==
      AdaptiveValue(cs, component, variant, value, state, id)
  {
    VariantStatesAreScanned(g, cs, component, id);
    assert Targets(g, VariantOf(component, variant)) == ScanAll(cs, VariantOf(component, variant));
  }

  lemma VariantStatesAreScanned(g: Graph, cs: seq<Connection>, component: string, id: string)
    requires Answers(g, cs)
    ensures id in AllVariantStates(g, component) <==> exists other :: id in ScanAll(cs, VariantOf(component, other))
  {
    var byVariant := TableAt(g.variants, component);
    if id in AllVariantStates(g, component) {
      var other :| other in byVariant && id in byVariant[other];
      assert Targets(g, VariantOf(component, other)) == ScanAll(cs, VariantOf(component, other));
    }
    if other :| id in ScanAll(cs, VariantOf(component, other)) {
      assert Targets(g, VariantOf(component, other)) == ScanAll(cs, VariantOf(component, other));
      assert other in byVariant;
    }
  }
}
