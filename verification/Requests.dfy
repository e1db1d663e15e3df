/** Requests of a composed page and their answers. A new request for a data source aborts the one
    before it; answers arrive in any order and late. */
module Requests {
  import opened Wrappers

  datatype Kind = Rows | Groups

  /** Requests are numbered in the order in which they are issued; the number stands for the
      controller that can abort it. */
  datatype Request = Request(source: string, kind: Kind)

  datatype RowPage = RowPage(rows: seq<string>, hasNextPage: bool, nextCursor: Option<string>)
  datatype Grouping = Grouping(groups: seq<(string, real)>, truncated: bool)

  datatype Status = Idle | Loading | Success | Failed

  datatype Shown<D> = Shown(status: Status, data: D, error: Option<string>)

  datatype Outcome<D> = Arrived(data: D) | Broken(message: string)

  /** What the server answers to each request: anything at all. */
  datatype World = World(rowsOf: nat -> Outcome<RowPage>, groupsOf: nat -> Outcome<Grouping>)

  const NO_ROWS := RowPage([], false, None)
  const NO_GROUPS := Grouping([], false)
  const IDLE := Shown(Idle, NO_ROWS, None)
  const IDLE_AGGREGATE := Shown(Idle, NO_GROUPS, None)

  function ShownFor<D>(outcome: Outcome<D>, nothing: D): Shown<D> {
    match outcome
    case Arrived(data) => Shown(Success, data, None)
    case Broken(message) => Shown(Failed, nothing, Some(message))
  }

  // ---------------------------------------------------------------- the provider as a state machine

  datatype State = State(
    requests: seq<Request>,
    aborts: map<string, nat>,
    aborted: set<nat>,
    settled: set<nat>,
    sources: map<string, Shown<RowPage>>,
    aggregates: map<string, Shown<Grouping>>)

  datatype Event = Ask(source: string, kind: Kind) | Answer(request: nat) | ResetSource(source: string) | AbortAll

  function Start(): State {
    State([], map[], {}, {}, map[], map[])
  }

  function LookUp<D>(table: map<string, Shown<D>>, source: string, idle: Shown<D>): Shown<D> {
    if source in table then table[source] else idle
  }

  /** The earlier request is aborted, the new one is registered, and what is shown turns to loading. */
  function Issue(s: State, source: string, kind: Kind): State {
    var t := s.(
      requests := s.requests + [Request(source, kind)],
      aborts := s.aborts[source := |s.requests|],
      aborted := s.aborted + (if source in s.aborts then {s.aborts[source]} else {}));
    match kind
    case Rows => t.(sources := s.sources[source := LookUp(s.sources, source, IDLE).(status := Loading)])
    case Groups =>
      var shown := LookUp(s.aggregates, source, IDLE_AGGREGATE);
      t.(aggregates := s.aggregates[source := shown.(status := Loading)])
  }

  function Settle(s: State, r: nat, world: World): State
    requires r < |s.requests|
  {
    var t := s.(settled := s.settled + {r});
    var source := s.requests[r].source;
    if r in s.aborted then t
    else match s.requests[r].kind
      case Rows => t.(sources := s.sources[source := ShownFor(world.rowsOf(r), NO_ROWS)])
      case Groups => t.(aggregates := s.aggregates[source := ShownFor(world.groupsOf(r), NO_GROUPS)])
  }

  /** A request is answered at most once, and only after it was issued. */
  function Next(s: State, e: Event, world: World): State {
    match e
    case Ask(source, kind) => Issue(s, source, kind)
    case Answer(r) => if r < |s.requests| && r !in s.settled then Settle(s, r, world) else s
    case ResetSource(source) => s.(sources := s.sources[source := IDLE])
    case AbortAll => s.(aborted := s.aborted + s.aborts.Values)
  }

  function Run(s: State, events: seq<Event>, world: World): State
    decreases |events|
  {
    if events == [] then s else Run(Next(s, events[0], world), events[1..], world)
  }

  // ---------------------------------------------------------------- the provider as it runs

  class Provider {
    var state: State
    const aggregateSources: set<string>
    const world: World

    constructor (aggregateSources: set<string>, world: World)
      ensures state == Start() && this.aggregateSources == aggregateSources && this.world == world
    {
      state := Start();
      this.aggregateSources, this.world := aggregateSources, world;
    }

    method Begin(source: string) returns (r: nat)
      modifies this
      ensures r == |old(state).requests|
      ensures state == old(state).(
        aborts := old(state).aborts[source := r],
        aborted := old(state).aborted + (if source in old(state).aborts then {old(state).aborts[source]} else {}))
    {
      if source in state.aborts {
        state := state.(aborted := state.aborted + {state.aborts[source]});
      }
      r := |state.requests|;
      state := state.(aborts := state.aborts[source := r]);
    }

    /** Asks for rows, or for groups if the source is aggregated. */
    method Execute(source: string) returns (r: nat)
      modifies this
      ensures r == |old(state).requests|
      ensures state == Next(old(state), Ask(source, if source in aggregateSources then Groups else Rows), world)
    {
      if source in aggregateSources {
        r := Begin(source);
        state := state.(requests := state.requests + [Request(source, Groups)]);
        var shown := LookUp(state.aggregates, source, IDLE_AGGREGATE);
        state := state.(aggregates := state.aggregates[source := shown.(status := Loading)]);
      } else {
        r := ExecuteAndGet(source);
      }
    }

    /** Asks for rows, whether or not the source is aggregated. */
    method ExecuteAndGet(source: string) returns (r: nat)
      modifies this
      ensures r == |old(state).requests| && state == Next(old(state), Ask(source, Rows), world)
    {
      r := Begin(source);
      state := state.(requests := state.requests + [Request(source, Rows)]);
      state := state.(sources := state.sources[source := LookUp(state.sources, source, IDLE).(status := Loading)]);
    }

    /** The continuation of a request. Whoever waits for the rows gets none if the request was
        aborted or failed. */
    method Settled(r: nat) returns (rows: seq<string>)
      requires r < |state.requests| && r !in state.settled
      modifies this
      ensures state == Next(old(state), Answer(r), world)
      ensures rows == if r !in old(state).aborted && state.requests[r].kind.Rows? && world.rowsOf(r).Arrived?
                      then world.rowsOf(r).data.rows else []
    {
      var request := state.requests[r];
      rows := [];
      state := state.(settled := state.settled + {r});
      if r in state.aborted {
        return;
      }
      if request.kind == Groups {
        state := state.(aggregates := state.aggregates[request.source := ShownFor(world.groupsOf(r), NO_GROUPS)]);
      } else {
        state := state.(sources := state.sources[request.source := ShownFor(world.rowsOf(r), NO_ROWS)]);
        if world.rowsOf(r).Arrived? {
          rows := world.rowsOf(r).data.rows;
        }
      }
    }

    method Reset(source: string)
      modifies this
      ensures state == Next(old(state), ResetSource(source), world)
    {
      state := state.(sources := state.sources[source := IDLE]);
    }

    /** Leaving the page, or showing another one. */
    method Leave()
      modifies this
      ensures state == Next(old(state), AbortAll, world)
    {
      state := state.(aborted := state.aborted + state.aborts.Values);
    }
  }

  // ---------------------------------------------------------------- newest requests

  ghost predicate Superseded(requests: seq<Request>, r: nat) {
    r < |requests| && exists later: nat :: r < later < |requests| && requests[later].source == requests[r].source
  }

  /** r is the newest request for its source. */
  ghost predicate Newest(requests: seq<Request>, source: string, r: nat) {
    r < |requests| && requests[r].source == source && !Superseded(requests, r)
  }

  ghost predicate NewestOfKind(requests: seq<Request>, source: string, kind: Kind, r: nat) {
    r < |requests| && requests[r] == Request(source, kind) &&
    forall later: nat | r < later < |requests| :: requests[later] != Request(source, kind)
  }

  /** The register of controllers holds exactly the newest requests. */
  ghost predicate RegistersNewest(requests: seq<Request>, aborts: map<string, nat>) {
    forall source, r: nat :: source in aborts && aborts[source] == r <==> Newest(requests, source, r)
  }

  ghost predicate AbortsSuperseded(requests: seq<Request>, aborted: set<nat>) {
    forall r: nat | Superseded(requests, r) :: r in aborted
  }

  ghost predicate OnlyIssued(requests: seq<Request>, aborted: set<nat>) {
    forall r: nat | r in aborted :: r < |requests|
  }

  /** What is shown tells an outcome: the data that arrived, or nothing and the message. */
  predicate Answers<D(==)>(shown: Shown<D>, outcome: Outcome<D>, nothing: D) {
    match outcome
    case Arrived(data) => shown.status == Success && shown.data == data && shown.error.None?
    case Broken(message) => shown.status == Failed && shown.data == nothing && shown.error == Some(message)
  }

  predicate Final(status: Status) {
    status == Success || status == Failed
  }

  /** What is shown as a result is the answer to the newest request of its kind. */
  ghost predicate ShowsNewestRows(s: State, source: string, world: World) {
    source in s.sources && Final(s.sources[source].status) ==>
      exists r ::
        NewestOfKind(s.requests, source, Rows, r) &&
        Answers(s.sources[source], world.rowsOf(r), RowPage([], false, None))
  }

  ghost predicate ShowsNewestGroups(s: State, source: string, world: World) {
    source in s.aggregates && Final(s.aggregates[source].status) ==>
      exists r ::
        NewestOfKind(s.requests, source, Groups, r) &&
        Answers(s.aggregates[source], world.groupsOf(r), Grouping([], false))
  }

  ghost predicate Good(s: State, world: World) {
    RegistersNewest(s.requests, s.aborts) && AbortsSuperseded(s.requests, s.aborted) &&
    OnlyIssued(s.requests, s.aborted) &&
    forall source :: ShowsNewestRows(s, source, world) && ShowsNewestGroups(s, source, world)
  }

  lemma OneMoreSupersedes(requests: seq<Request>, q: Request, r: nat)
    requires r < |requests|
    ensures Superseded(requests + [q], r) <==> Superseded(requests, r) || requests[r].source == q.source
  {
    var more := requests + [q];
    if Superseded(requests, r) {
      var later: nat :| r < later < |requests| && requests[later].source == requests[r].source;
      assert more[later].source == more[r].source;
    } else if requests[r].source == q.source {
      assert more[|requests|].source == more[r].source;
    }
  }

  lemma IssueKeepsRegister(s: State, source: string, kind: Kind)
    requires RegistersNewest(s.requests, s.aborts) && AbortsSuperseded(s.requests, s.aborted)
    ensures RegistersNewest(Issue(s, source, kind).requests, Issue(s, source, kind).aborts)
    ensures AbortsSuperseded(Issue(s, source, kind).requests, Issue(s, source, kind).aborted)
    ensures OnlyIssued(s.requests, s.aborted) ==>
      OnlyIssued(Issue(s, source, kind).requests, Issue(s, source, kind).aborted)
  {
    var t := Issue(s, source, kind);
    var q := Request(source, kind);
    if source in s.aborts {
      assert Newest(s.requests, source, s.aborts[source]);
    }
    forall x, r: nat ensures x in t.aborts && t.aborts[x] == r <==> Newest(t.requests, x, r) {
      assert x in s.aborts && s.aborts[x] == r <==> Newest(s.requests, x, r);
      if r < |s.requests| {
        OneMoreSupersedes(s.requests, q, r);
      }
    }
    forall r: nat | Superseded(t.requests, r) ensures r in t.aborted {
      OneMoreSupersedes(s.requests, q, r);
      if !Superseded(s.requests, r) {
        assert Newest(s.requests, source, r);
      }
    }
  }

  lemma IssueKeepsShown(s: State, source: string, kind: Kind, other: string, world: World)
    requires ShowsNewestRows(s, other, world) && ShowsNewestGroups(s, other, world)
    ensures ShowsNewestRows(Issue(s, source, kind), other, world) &&
      ShowsNewestGroups(Issue(s, source, kind), other, world)
  {
    var t := Issue(s, source, kind);
    if other in t.sources && Final(t.sources[other].status) {
      var r :| NewestOfKind(s.requests, other, Rows, r) &&
        Answers(s.sources[other], world.rowsOf(r), RowPage([], false, None));
      assert NewestOfKind(t.requests, other, Rows, r);
    }
    if other in t.aggregates && Final(t.aggregates[other].status) {
      var r :| NewestOfKind(s.requests, other, Groups, r) &&
        Answers(s.aggregates[other], world.groupsOf(r), Grouping([], false));
      assert NewestOfKind(t.requests, other, Groups, r);
    }
  }

  lemma SettleKeepsShown(s: State, r: nat, other: string, world: World)
    requires r < |s.requests| && AbortsSuperseded(s.requests, s.aborted)
    requires ShowsNewestRows(s, other, world) && ShowsNewestGroups(s, other, world)
    ensures ShowsNewestRows(Settle(s, r, world), other, world) && ShowsNewestGroups(Settle(s, r, world), other, world)
  {
    if r !in s.aborted && s.requests[r].source == other {
      assert NewestOfKind(s.requests, other, s.requests[r].kind, r);
    }
  }

  lemma StepKeepsGood(s: State, e: Event, world: World)
    requires Good(s, world)
    ensures Good(Next(s, e, world), world)
  {
    match e
    case Ask(source, kind) =>
      IssueKeepsRegister(s, source, kind);
      forall other
        ensures ShowsNewestRows(Issue(s, source, kind), other, world) &&
                ShowsNewestGroups(Issue(s, source, kind), other, world)
      {
        IssueKeepsShown(s, source, kind, other, world);
      }
    case Answer(r) =>
      if r < |s.requests| && r !in s.settled {
        forall other
          ensures ShowsNewestRows(Settle(s, r, world), other, world) &&
            ShowsNewestGroups(Settle(s, r, world), other, world)
        {
          SettleKeepsShown(s, r, other, world);
        }
      }
    case ResetSource(source) =>
      forall other
        ensures ShowsNewestRows(Next(s, e, world), other, world) && ShowsNewestGroups(Next(s, e, world), other, world)
      {
        assert ShowsNewestRows(s, other, world) && ShowsNewestGroups(s, other, world);
      }
    case AbortAll =>
      forall other
        ensures ShowsNewestRows(Next(s, e, world), other, world) && ShowsNewestGroups(Next(s, e, world), other, world)
      {
        assert ShowsNewestRows(s, other, world) && ShowsNewestGroups(s, other, world);
      }
      forall r | r in s.aborts.Values ensures r < |s.requests| {
        var source :| source in s.aborts && s.aborts[source] == r;
        assert Newest(s.requests, source, r);
      }
  }

  /** In every interleaving of requests, answers, resets and page changes, a result that is shown is
      the answer to the newest request of its kind for that source. */
  lemma {:induction false} RunShowsNewest(s: State, events: seq<Event>, world: World)
    requires Good(s, world)
    ensures Good(Run(s, events, world), world)
    decreases |events|
  {
    if events != [] {
      StepKeepsGood(s, events[0], world);
      RunShowsNewest(Next(s, events[0], world), events[1..], world);
    }
  }

  predicate IsShown(s: State, source: string, kind: Kind, r: nat, world: World) {
    match kind
    case Rows => source in s.sources && Answers(s.sources[source], world.rowsOf(r), RowPage([], false, None))
    case Groups => source in s.aggregates && Answers(s.aggregates[source], world.groupsOf(r), Grouping([], false))
  }

  predicate HasResult(s: State, source: string, kind: Kind) {
    match kind
    case Rows => source in s.sources && Final(s.sources[source].status)
    case Groups => source in s.aggregates && Final(s.aggregates[source].status)
  }

  lemma {:induction false} SomeRequestIsNewest(requests: seq<Request>, source: string, r: nat) returns (n: nat)
    requires r < |requests| && requests[r].source == source
    ensures r <= n && Newest(requests, source, n)
    decreases |requests| - r
  {
    if Superseded(requests, r) {
      var later: nat :| r < later < |requests| && requests[later].source == source;
      n := SomeRequestIsNewest(requests, source, later);
    } else {
      n := r;
    }
  }

  /** A result on show answers the newest request of its kind; it answers the newest request of all
      for its source exactly when the request in the register was of that kind too. */
  lemma ResultIsNewestExactlyWhen(events: seq<Event>, source: string, kind: Kind, world: World) returns (r: nat)
    requires HasResult(Run(Start(), events, world), source, kind)
    ensures var t := Run(Start(), events, world);
      NewestOfKind(t.requests, source, kind, r) && IsShown(t, source, kind, r, world) &&
      source in t.aborts && t.aborts[source] < |t.requests| &&
      (Newest(t.requests, source, r) <==> t.requests[t.aborts[source]].kind == kind)
  {
    var t := Run(Start(), events, world);
    RunShowsNewest(Start(), events, world);
    assert ShowsNewestRows(t, source, world) && ShowsNewestGroups(t, source, world);
    r :| NewestOfKind(t.requests, source, kind, r) && IsShown(t, source, kind, r, world);
    var n := SomeRequestIsNewest(t.requests, source, r);
    assert source in t.aborts && t.aborts[source] == n;
  }

  /** Only rows are ever asked of this source. */
  ghost predicate OnlyRows(requests: seq<Request>, source: string) {
    forall r: nat | r < |requests| && requests[r].source == source :: requests[r].kind == Rows
  }

  ghost predicate NeverGrouped(events: seq<Event>, source: string) {
    forall e | e in events :: e != Ask(source, Groups)
  }

  lemma {:induction false} RunAsksOnlyRows(s: State, events: seq<Event>, source: string, world: World)
    requires OnlyRows(s.requests, source) && NeverGrouped(events, source)
    ensures OnlyRows(Run(s, events, world).requests, source)
    decreases |events|
  {
    if events != [] {
      assert events[0] in events && forall e | e in events[1..] :: e in events;
      RunAsksOnlyRows(Next(s, events[0], world), events[1..], source, world);
    }
  }

  /** For a source that is not aggregated a stored success or error belongs to the newest request
      of all for that source. */
  lemma StoredResultIsNewest(events: seq<Event>, source: string, world: World) returns (r: nat)
    requires NeverGrouped(events, source) && HasResult(Run(Start(), events, world), source, Rows)
    ensures var t := Run(Start(), events, world);
      Newest(t.requests, source, r) && IsShown(t, source, Rows, r, world)
  {
    RunAsksOnlyRows(Start(), events, source, world);
    r := ResultIsNewestExactlyWhen(events, source, Rows, world);
    var t := Run(Start(), events, world);
    RunShowsNewest(Start(), events, world);
    assert Newest(t.requests, source, t.aborts[source]);
  }

  /** Asking shows that a request is under way and keeps what was shown so far, or nothing; it aborts
      the request in the register and no other. */
  lemma AskShowsLoading(s: State, source: string, kind: Kind, world: World)
    ensures var t := Next(s, Ask(source, kind), world);
      t.requests == s.requests + [Request(source, kind)] && t.settled == s.settled &&
      t.aborted == (if source in s.aborts then s.aborted + {s.aborts[source]} else s.aborted) &&
      (kind.Rows? ==>
        t.aggregates == s.aggregates && source in t.sources &&
        t.sources == s.sources[source := t.sources[source]] && t.sources[source].status == Loading &&
        t.sources[source].data == (if source in s.sources then s.sources[source].data else RowPage([], false, None)) &&
        t.sources[source].error == (if source in s.sources then s.sources[source].error else None)) &&
      (kind.Groups? ==>
        t.sources == s.sources && source in t.aggregates &&
        t.aggregates == s.aggregates[source := t.aggregates[source]] && t.aggregates[source].status == Loading &&
        t.aggregates[source].data ==
          (if source in s.aggregates then s.aggregates[source].data else Grouping([], false)) &&
        t.aggregates[source].error == (if source in s.aggregates then s.aggregates[source].error else None))
  {
  }

  /** A reset shows nothing, for rows only; leaving aborts what is in the register and shows the rest. */
  lemma ResetAndLeave(s: State, source: string, world: World)
    ensures Next(s, ResetSource(source), world) ==
      s.(sources := s.sources[source := Shown(Idle, RowPage([], false, None), None)])
    ensures forall r :: r in Next(s, AbortAll, world).aborted <==> r in s.aborted || r in s.aborts.Values
    ensures Next(s, AbortAll, world) == s.(aborted := Next(s, AbortAll, world).aborted)
  {
  }

  /** A request is answered once; what comes before it is asked for or after it was answered is
      ignored. */
  lemma AnsweredOnce(s: State, r: nat, world: World)
    ensures Next(Next(s, Answer(r), world), Answer(r), world) == Next(s, Answer(r), world)
    ensures r >= |s.requests| || r in s.settled ==> Next(s, Answer(r), world) == s
    ensures r < |s.requests| ==> Next(s, Answer(r), world).settled == s.settled + {r}
  {
    if r in s.settled {
      assert s.settled + {r} == s.settled;
    }
  }

  /** An answer to a superseded request changes nothing that is shown, in any reachable state. */
  lemma SupersededAnswerChangesNothing(events: seq<Event>, r: nat, world: World)
    requires Superseded(Run(Start(), events, world).requests, r)
    ensures
      var t := Run(Start(), events, world);
      Next(t, Answer(r), world).sources == t.sources && Next(t, Answer(r), world).aggregates == t.aggregates
  {
    RunShowsNewest(Start(), events, world);
  }

  /** If r was aborted at all, then by a newer request. */
  ghost predicate AbortedByNewer(s: State, r: nat) {
    r in s.aborted ==> Superseded(s.requests, r)
  }

  lemma {:induction false} AbortedOnlyByNewer(s: State, events: seq<Event>, r: nat, world: World)
    requires Good(s, world) && r < |s.requests| && AbortAll !in events && AbortedByNewer(s, r)
    ensures AbortedByNewer(Run(s, events, world), r) && s.requests <= Run(s, events, world).requests
    decreases |events|
  {
    if events != [] {
      var e, t := events[0], Next(s, events[0], world);
      assert e in events;
      StepKeepsGood(s, e, world);
      if e.Ask? {
        OneMoreSupersedes(s.requests, Request(e.source, e.kind), r);
        assert e.source in s.aborts && s.aborts[e.source] == r ==> Newest(s.requests, e.source, r);
      }
      AbortedOnlyByNewer(t, events[1..], r, world);
    }
  }

  /** Unless the page is left in the meantime, the answer to the newest request for a source is
      shown when it arrives, whatever happened before and in between. */
  lemma NewestAnswerIsShown(before: seq<Event>, source: string, kind: Kind, between: seq<Event>, world: World)
    requires AbortAll !in between
    ensures
      var s := Run(Start(), before, world);
      var t := Run(Next(s, Ask(source, kind), world), between, world);
      var r := |s.requests|;
      Newest(t.requests, source, r) && r !in t.settled ==> IsShown(Next(t, Answer(r), world), source, kind, r, world)
  {
    var s := Run(Start(), before, world);
    var asked := Next(s, Ask(source, kind), world);
    var r := |s.requests|;
    RunShowsNewest(Start(), before, world);
    StepKeepsGood(s, Ask(source, kind), world);
    if source in s.aborts {
      assert Newest(s.requests, source, s.aborts[source]);
    }
    AbortedOnlyByNewer(asked, between, r, world);
    assert asked.requests[r] == Request(source, kind);
  }

  /** Such a state is reached: rows awaited for an aggregated source stay on show while its newer
      request, for groups, is under way. */
  lemma AggregatedSourceShowsOlderRows(source: string, world: World)
    requires world.rowsOf(0).Arrived?
    ensures
      var t := Run(Start(), [Ask(source, Rows), Answer(0), Ask(source, Groups)], world);
      IsShown(t, source, Rows, 0, world) && Superseded(t.requests, 0)
  {
    var events := [Ask(source, Rows), Answer(0), Ask(source, Groups)];
    var one := Next(Start(), events[0], world);
    var two := Next(one, events[1], world);
    var three := Next(two, events[2], world);
    assert events[1..] == [events[1], events[2]] && events[1..][1..] == [events[2]] && [events[2]][1..] == [];
    assert Run(two, [events[2]], world) == three;
    assert three.requests[1].source == three.requests[0].source;
  }
}
