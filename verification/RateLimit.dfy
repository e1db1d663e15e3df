/** Fixed-window limiting of login failures: how many failures a key can have in any stretch of
    time, and what the bounded table of keys may forget. */
module RateLimit {
  import opened Wrappers

  datatype Window = Window(count: nat, resetAt: int)
  datatype Tracked = Tracked(key: string, window: Window)

  /** The table in insertion order; every key occurs once. */
  type Table = seq<Tracked>

  const MAXIMUM_TRACKED_KEYS := 10_000

  ghost predicate Distinct(table: Table) {
    forall i, j | 0 <= i < j < |table| :: table[i].key != table[j].key
  }

  predicate Unexpired(w: Window, now: int) {
    w.resetAt > now
  }

  // ---------------------------------------------------------------- table operations

  function Find(table: Table, key: string): Option<Window> {
    if table == [] then None
    else if table[0].key == key then Some(table[0].window)
    else Find(table[1..], key)
  }

  /** Setting a key keeps its place; a new key goes to the end. */
  function Put(table: Table, key: string, w: Window): Table {
    if table == [] then [Tracked(key, w)]
    else if table[0].key == key then [Tracked(key, w)] + table[1..]
    else [table[0]] + Put(table[1..], key, w)
  }

  function Drop(table: Table, key: string): Table {
    if table == [] then []
    else if table[0].key == key then table[1..]
    else [table[0]] + Drop(table[1..], key)
  }

  function UnexpiredOnly(table: Table, now: int): Table {
    if table == [] then []
    else if Unexpired(table[0].window, now) then [table[0]] + UnexpiredOnly(table[1..], now)
    else UnexpiredOnly(table[1..], now)
  }

  /** Room for one more key: nothing if there is room, else without the expired ones, and if that
      is still full, without the oldest ones. */
  function MakeSpace(table: Table, now: int): Table {
    if |table| < MAXIMUM_TRACKED_KEYS then table
    else
      var live := UnexpiredOnly(table, now);
      if |live| < MAXIMUM_TRACKED_KEYS then live else Latest(live, MAXIMUM_TRACKED_KEYS - 1)
  }

  function Latest(table: Table, n: nat): Table
    requires n <= |table|
  {
    table[|table| - n..]
  }

  lemma LatestButOne(table: Table, n: nat)
    requires n <= |table|
    ensures |Latest(table, n)| == n && (n > 0 ==> Latest(table, n)[1..] == Latest(table, n - 1))
    ensures Latest(table, |table|) == table
  {
  }

  function Record(table: Table, windowMs: int, key: string, now: int): Table {
    var current := Find(table, key);
    if current.Some? && Unexpired(current.value, now) then
      Put(table, key, Window(current.value.count + 1, current.value.resetAt))
    else Put(MakeSpace(table, now), key, Window(1, now + windowMs))
  }

  predicate Blocked(table: Table, maximumAttempts: nat, key: string, now: int) {
    var current := Find(table, key);
    current.Some? && Unexpired(current.value, now) && current.value.count >= maximumAttempts
  }

  // ---------------------------------------------------------------- the class

  class LoginRateLimiter {
    var entries: Table
    const maximumAttempts: nat
    const windowMs: int

    ghost predicate Valid()
      reads this
    {
      Distinct(entries) && |entries| <= 10_000
    }

    constructor (maximumAttempts: nat, windowMs: int)
      ensures Valid() && entries == []
      ensures this.maximumAttempts == maximumAttempts && this.windowMs == windowMs
    {
      this.maximumAttempts, this.windowMs := maximumAttempts, windowMs;
      entries := [];
    }

    /** Refuses a blocked key and says after how many whole seconds its window will be over. */
    method AssertAllowed(key: string, now: int) returns (retryAfterSeconds: Option<int>)
      ensures retryAfterSeconds.Some? <==> Blocked(entries, maximumAttempts, key, now)
      ensures retryAfterSeconds.Some? ==>
        (var left := Find(entries, key).value.resetAt - now;
         1000 * (retryAfterSeconds.value - 1) < left <= 1000 * retryAfterSeconds.value)
    {
      var entry := Find(entries, key);
      if entry.Some? && entry.value.resetAt > now && entry.value.count >= maximumAttempts {
        return Some((entry.value.resetAt - now + 999) / 1000);
      }
      return None;
    }

    method RecordFailure(key: string, now: int)
      requires Valid()
      modifies this
      ensures Valid() && entries == Record(old(entries), windowMs, key, now)
    {
      RecordKeepsBound(entries, windowMs, key, now);
      var current := Find(entries, key);
      if current.None? || current.value.resetAt <= now {
        FreeSpace(now);
        entries := Put(entries, key, Window(1, now + windowMs));
        return;
      }
      entries := Put(entries, key, Window(current.value.count + 1, current.value.resetAt));
    }

    method Clear(key: string)
      requires Valid()
      modifies this
      ensures Valid() && entries == Drop(old(entries), key)
    {
      DropKeepsDistinct(entries, key);
      entries := Drop(entries, key);
    }

    method FreeSpace(now: int)
      requires Valid()
      modifies this
      ensures entries == MakeSpace(old(entries), now)
    {
      if |entries| < MAXIMUM_TRACKED_KEYS {
        return;
      }
      DropExpired(now);
      DropOldest(MAXIMUM_TRACKED_KEYS);
    }

    method DropOldest(limit: nat)
      requires limit > 0
      modifies this
      ensures entries == if |old(entries)| < limit then old(entries) else Latest(old(entries), limit - 1)
    {
      ghost var live, n := entries, |entries|;
      LatestButOne(live, n);
      while |entries| >= limit
        invariant n == |entries| && n <= |live| && entries == Latest(live, n)
        invariant n >= limit - 1 || n == |live|
      {
        LatestButOne(live, n);
        entries := entries[1..];
        n := n - 1;
      }
    }

    method DropExpired(now: int)
      modifies this
      ensures entries == UnexpiredOnly(old(entries), now)
    {
      var i := 0;
      ghost var live := UnexpiredOnly(entries, now);
      while i < |entries|
        invariant 0 <= i <= |entries|
        invariant entries[..i] + UnexpiredOnly(entries[i..], now) == live
        decreases |entries| - i
      {
        VisitOne(entries, i, now);
        if entries[i].window.resetAt <= now {
          entries := entries[..i] + entries[i + 1..];
        } else {
          i := i + 1;
        }
      }
      assert entries[..i] == entries && entries[i..] == [];
    }
  }

  // ---------------------------------------------------------------- lookups after updates

  lemma {:induction false} FindMeaning(table: Table, key: string)
    ensures Find(table, key).None? <==> forall t | t in table :: t.key != key
    ensures Find(table, key).Some? ==> Tracked(key, Find(table, key).value) in table
  {
    if table != [] {
      FindMeaning(table[1..], key);
      if table[0].key != key && Find(table[1..], key).None? {
        forall t | t in table ensures t.key != key {
          assert t == table[0] || t in table[1..];
        }
      }
    }
  }

  lemma {:induction false} PutSize(table: Table, key: string, w: Window)
    ensures |Put(table, key, w)| == |table| + (if Find(table, key).Some? then 0 else 1)
  {
    if table != [] {
      PutSize(table[1..], key, w);
    }
  }

  lemma {:induction false} FindAfterPut(table: Table, key: string, w: Window, other: string)
    ensures Find(Put(table, key, w), other) == if other == key then Some(w) else Find(table, other)
  {
    if table == [] {
      assert Put(table, key, w)[1..] == [];
    } else if table[0].key == key {
      assert Put(table, key, w)[1..] == table[1..];
    } else {
      FindAfterPut(table[1..], key, w, other);
      assert Put(table, key, w)[1..] == Put(table[1..], key, w);
    }
  }

  /** A key that is set again keeps its place in the order of eviction; a new key comes last. */
  lemma {:induction false} PutKeepsPlaces(table: Table, key: string, w: Window)
    requires Distinct(table)
    ensures Find(table, key).None? ==> Put(table, key, w) == table + [Tracked(key, w)]
    ensures Find(table, key).Some? ==>
      |Put(table, key, w)| == |table| &&
      forall i | 0 <= i < |table| :: Put(table, key, w)[i] == if table[i].key == key then Tracked(key, w) else table[i]
  {
    if table != [] {
      HeadIsAlone(table);
      if table[0].key != key {
        PutKeepsPlaces(table[1..], key, w);
      } else {
        FindMeaning(table[1..], key);
      }
    }
  }

  lemma {:induction false} PutKeepsDistinct(table: Table, key: string, w: Window)
    requires Distinct(table)
    ensures Distinct(Put(table, key, w))
  {
    if table != [] && table[0].key != key {
      var rest := Put(table[1..], key, w);
      PutKeepsDistinct(table[1..], key, w);
      FindAfterPut(table[1..], key, w, table[0].key);
      HeadIsAlone(table);
      FindMeaning(rest, table[0].key);
      DistinctPrefixed(table[0], rest);
    }
  }

  lemma HeadIsAlone(table: Table)
    requires Distinct(table) && table != []
    ensures Find(table[1..], table[0].key).None?
  {
    FindMeaning(table[1..], table[0].key);
  }

  lemma DistinctPrefixed(t: Tracked, rest: Table)
    requires Distinct(rest) && forall u | u in rest :: u.key != t.key
    ensures Distinct([t] + rest)
  {
  }

  lemma {:induction false} DropKeepsDistinct(table: Table, key: string)
    requires Distinct(table)
    ensures Distinct(Drop(table, key)) && |Drop(table, key)| <= |table|
    ensures forall t | t in Drop(table, key) :: t in table
  {
    if table != [] && table[0].key != key {
      DropKeepsDistinct(table[1..], key);
      HeadIsAlone(table);
      FindMeaning(table[1..], table[0].key);
      DistinctPrefixed(table[0], Drop(table[1..], key));
    }
  }

  lemma {:induction false} FindAfterDrop(table: Table, key: string, other: string)
    requires Distinct(table)
    ensures Find(Drop(table, key), other) == if other == key then None else Find(table, other)
  {
    if table != [] {
      if table[0].key == key {
        HeadIsAlone(table);
      } else {
        FindAfterDrop(table[1..], key, other);
        FindInPrefixed(table[0], Drop(table[1..], key), other);
      }
    }
  }

  lemma {:induction false} UnexpiredMeaning(table: Table, now: int)
    ensures |UnexpiredOnly(table, now)| <= |table|
    ensures forall t | t in UnexpiredOnly(table, now) :: t in table && Unexpired(t.window, now)
  {
    if table != [] {
      UnexpiredMeaning(table[1..], now);
      assert forall t | t in table[1..] :: t in table;
    }
  }

  lemma {:induction false} UnexpiredKeepsDistinct(table: Table, now: int)
    requires Distinct(table)
    ensures Distinct(UnexpiredOnly(table, now))
    ensures |UnexpiredOnly(table, now)| == |table| ==> UnexpiredOnly(table, now) == table
  {
    if table != [] {
      var rest := UnexpiredOnly(table[1..], now);
      UnexpiredKeepsDistinct(table[1..], now);
      UnexpiredMeaning(table[1..], now);
      HeadIsAlone(table);
      FindMeaning(table[1..], table[0].key);
      DistinctPrefixed(table[0], rest);
    }
  }

  lemma {:induction false} FindUnexpired(table: Table, now: int, key: string)
    requires Distinct(table)
    ensures Find(UnexpiredOnly(table, now), key) ==
            (if Find(table, key).Some? && Unexpired(Find(table, key).value, now) then Find(table, key) else None)
  {
    if table != [] {
      var rest := UnexpiredOnly(table[1..], now);
      FindUnexpired(table[1..], now, key);
      if Unexpired(table[0].window, now) {
        FindInPrefixed(table[0], rest, key);
      } else if key == table[0].key {
        FindInRest(table, key);
      }
    }
  }

  lemma VisitOne(table: Table, i: nat, now: int)
    requires i < |table|
    ensures
      var sum := table[..i] + UnexpiredOnly(table[i..], now);
      var without := table[..i] + table[i + 1..];
      if Unexpired(table[i].window, now) then table[..i + 1] + UnexpiredOnly(table[i + 1..], now) == sum
      else without[..i] + UnexpiredOnly(without[i..], now) == sum
  {
    var without := table[..i] + table[i + 1..];
    assert table[i..][1..] == table[i + 1..] && table[..i + 1] == table[..i] + [table[i]];
    assert without[..i] == table[..i] && without[i..] == table[i + 1..];
  }

  lemma FindInPrefixed(t: Tracked, rest: Table, key: string)
    ensures Find([t] + rest, key) == if t.key == key then Some(t.window) else Find(rest, key)
  {
    assert ([t] + rest)[1..] == rest;
  }

  lemma FindInRest(table: Table, key: string)
    requires Distinct(table) && table != []
    ensures Find(table[1..], key) == if key == table[0].key then None else Find(table, key)
  {
    HeadIsAlone(table);
  }

  /** What making room forgets: expired entries, and of the unexpired ones at most the oldest, and
      that one only if the table is full of unexpired entries. */
  lemma MakeSpaceForgets(table: Table, now: int, key: string)
    requires Distinct(table) && |table| <= 10_000
    ensures Distinct(MakeSpace(table, now)) && |MakeSpace(table, now)| < 10_000
    ensures Find(MakeSpace(table, now), key).Some? ==> Find(MakeSpace(table, now), key) == Find(table, key)
    ensures (Find(table, key).Some? && Unexpired(Find(table, key).value, now) &&
             Find(MakeSpace(table, now), key).None?) <==>
            Full(table, now) && table[0].key == key
  {
    FullExactly(table, now);
    if Full(table, now) {
      FindInRest(table, key);
      assert MakeSpace(table, now) == table[1..];
    } else {
      FindUnexpired(table, now, key);
      UnexpiredKeepsDistinct(table, now);
      UnexpiredMeaning(table, now);
    }
  }

  lemma FullExactly(table: Table, now: int)
    requires Distinct(table) && |table| <= 10_000
    ensures Full(table, now) <==> |table| == 10_000 == |UnexpiredOnly(table, now)|
    ensures Full(table, now) ==> UnexpiredOnly(table, now) == table
  {
    UnexpiredKeepsDistinct(table, now);
    UnexpiredMeaning(table, now);
    if |table| == |UnexpiredOnly(table, now)| {
      forall i | 0 <= i < |table| ensures Unexpired(table[i].window, now) {
        assert table[i] in UnexpiredOnly(table, now);
      }
    } else if Full(table, now) {
      AllUnexpired(table, now);
    }
  }

  /** Every one of the ten thousand entries is unexpired. */
  ghost predicate Full(table: Table, now: int) {
    |table| == 10_000 && forall i | 0 <= i < |table| :: Unexpired(table[i].window, now)
  }

  lemma {:induction false} AllUnexpired(table: Table, now: int)
    requires forall i | 0 <= i < |table| :: Unexpired(table[i].window, now)
    ensures UnexpiredOnly(table, now) == table
  {
    if table != [] {
      AllUnexpired(table[1..], now);
    }
  }

  lemma RecordKeepsBound(table: Table, windowMs: int, key: string, now: int)
    requires Distinct(table) && |table| <= 10_000
    ensures Distinct(Record(table, windowMs, key, now)) && |Record(table, windowMs, key, now)| <= 10_000
  {
    var current := Find(table, key);
    if current.Some? && Unexpired(current.value, now) {
      PutKeepsDistinct(table, key, Window(current.value.count + 1, current.value.resetAt));
      PutSize(table, key, Window(current.value.count + 1, current.value.resetAt));
    } else {
      MakeSpaceForgets(table, now, key);
      PutSize(MakeSpace(table, now), key, Window(1, now + windowMs));
      PutKeepsDistinct(MakeSpace(table, now), key, Window(1, now + windowMs));
    }
  }

  // ---------------------------------------------------------------- runs

  /** What changes the table. A check changes nothing; whether it would have passed can be read off
      the table before each failure. */
  datatype Event = Failure(key: string, now: int) | Clear(key: string)

  function Next(table: Table, windowMs: int, e: Event): Table {
    match e
    case Failure(key, now) => Record(table, windowMs, key, now)
    case Clear(key) => Drop(table, key)
  }

  function After(table: Table, windowMs: int, events: seq<Event>): Table
    decreases |events|
  {
    if events == [] then table else After(Next(table, windowMs, events[0]), windowMs, events[1..])
  }

  ghost predicate Sound(table: Table) {
    Distinct(table) && |table| <= 10_000
  }

  lemma StepIsBounded(table: Table, windowMs: int, e: Event)
    requires Sound(table)
    ensures Sound(Next(table, windowMs, e))
  {
    match e
    case Failure(key, now) => RecordKeepsBound(table, windowMs, key, now);
    case Clear(key) => DropKeepsDistinct(table, key);
  }

  /** Whatever happens, and whatever the clock does, the table never holds more than ten thousand keys. */
  lemma {:induction false} RunIsBounded(table: Table, windowMs: int, events: seq<Event>)
    requires Sound(table)
    ensures Sound(After(table, windowMs, events))
    decreases |events|
  {
    if events != [] {
      StepIsBounded(table, windowMs, events[0]);
      RunIsBounded(Next(table, windowMs, events[0]), windowMs, events[1..]);
    }
  }

  /** An unexpired window is forgotten by its own clearing, and otherwise exactly when it is the
      oldest of ten thousand unexpired ones and another key opens a window. */
  lemma EvictedOnlyWhenFull(table: Table, windowMs: int, key: string, other: string, now: int)
    requires Sound(table) && Find(table, key).Some? && Unexpired(Find(table, key).value, now) && key != other
    ensures Find(Record(table, windowMs, other, now), key).None? <==>
            Full(table, now) && table[0].key == key && Find(table, other).None?
    ensures Find(Record(table, windowMs, other, now), key).Some? ==>
            Find(Record(table, windowMs, other, now), key) == Find(table, key)
  {
    var current := Find(table, other);
    if current.Some? && Unexpired(current.value, now) {
      FindAfterPut(table, other, Window(current.value.count + 1, current.value.resetAt), key);
    } else {
      MakeSpaceForgets(table, now, key);
      FindAfterPut(MakeSpace(table, now), other, Window(1, now + windowMs), key);
      if current.Some? {
        ExpiredIsNotFull(table, other, now);
      }
    }
  }

  lemma ExpiredIsNotFull(table: Table, key: string, now: int)
    requires Find(table, key).Some? && !Unexpired(Find(table, key).value, now)
    ensures !Full(table, now)
  {
    FindMeaning(table, key);
  }

  // ---------------------------------------------------------------- how many failures pass

  /** The failures of a key in the half-open stretch of one window length from t on. */
  function FailuresIn(events: seq<Event>, key: string, t: int, windowMs: int): nat {
    if events == [] then 0
    else (if Counted(events[0], key, t, windowMs) then 1 else 0) + FailuresIn(events[1..], key, t, windowMs)
  }

  predicate Counted(e: Event, key: string, t: int, windowMs: int) {
    e.Failure? && e.key == key && t <= e.now < t + windowMs
  }

  predicate IsOverrun(table: Table, e: Event, key: string, maximumAttempts: nat) {
    e.Failure? && e.key == key && Blocked(table, maximumAttempts, key, e.now)
  }

  /** Failures recorded although a check just before would have refused, as happens when several
      logins are under way at once. */
  function Overruns(table: Table, events: seq<Event>, key: string, maximumAttempts: nat, windowMs: int): nat
    decreases |events|
  {
    if events == [] then 0
    else
      (if IsOverrun(table, events[0], key, maximumAttempts) then 1 else 0)
      + Overruns(Next(table, windowMs, events[0]), events[1..], key, maximumAttempts, windowMs)
  }

  predicate IsForgotten(table: Table, e: Event, key: string, windowMs: int) {
    Find(table, key).Some? && Find(Next(table, windowMs, e), key).None? &&
    (e.Failure? ==> Unexpired(Find(table, key).value, e.now))
  }

  /** How often the window of a key is cleared, or evicted while unexpired. */
  function Forgotten(table: Table, events: seq<Event>, key: string, windowMs: int): nat
    decreases |events|
  {
    if events == [] then 0
    else
      (if IsForgotten(table, events[0], key, windowMs) then 1 else 0)
      + Forgotten(Next(table, windowMs, events[0]), events[1..], key, windowMs)
  }

  /** The clock does not run backwards. */
  predicate Ordered(events: seq<Event>, clock: int) {
    events == [] ||
    (if events[0].Failure? then clock <= events[0].now && Ordered(events[1..], events[0].now)
     else Ordered(events[1..], clock))
  }

  function ClockAfter(e: Event, clock: int): int {
    if e.Failure? then e.now else clock
  }

  /** The attempts of one window; with none allowed the first failure is still recorded unchecked. */
  function Attempts(maximumAttempts: nat): nat {
    if maximumAttempts == 0 then 1 else maximumAttempts
  }

  ghost predicate Opened(w: Option<Window>, clock: int, windowMs: int) {
    w.Some? ==> w.value.count >= 1 && w.value.resetAt <= clock + windowMs
  }

  function Left(w: Window, n: nat): nat {
    if w.count < n then n - w.count else 0
  }

  /** How many more failures can fall into the stretch from t on, given the key's window and the clock. */
  function Potential(w: Option<Window>, clock: int, t: int, n: nat, windowMs: int): nat
    requires n >= 1
  {
    if clock >= t + windowMs then 0
    else if w.None? || w.value.resetAt < t then (if clock >= t then n else 2 * n - 1)
    else if w.value.resetAt < t + windowMs then Left(w.value, n) + n
    else Left(w.value, n)
  }

  lemma WindowAfterFailure(table: Table, windowMs: int, key: string, now: int)
    ensures Find(Record(table, windowMs, key, now), key) ==
            (var current := Find(table, key);
             Some(if current.Some? && Unexpired(current.value, now)
                  then Window(current.value.count + 1, current.value.resetAt)
                  else Window(1, now + windowMs)))
  {
    var current := Find(table, key);
    if current.Some? && Unexpired(current.value, now) {
      FindAfterPut(table, key, Window(current.value.count + 1, current.value.resetAt), key);
    } else {
      FindAfterPut(MakeSpace(table, now), key, Window(1, now + windowMs), key);
    }
  }

  /** A failure of another key leaves a window alone or forgets it. */
  lemma WindowAfterOtherFailure(table: Table, windowMs: int, other: string, now: int, key: string)
    requires Sound(table) && other != key
    ensures Find(Record(table, windowMs, other, now), key) == None ||
      Find(Record(table, windowMs, other, now), key) == Find(table, key)
  {
    var current := Find(table, other);
    if current.Some? && Unexpired(current.value, now) {
      FindAfterPut(table, other, Window(current.value.count + 1, current.value.resetAt), key);
    } else {
      MakeSpaceForgets(table, now, key);
      FindAfterPut(MakeSpace(table, now), other, Window(1, now + windowMs), key);
    }
  }

  lemma WindowAfterOther(table: Table, windowMs: int, e: Event, key: string)
    requires Sound(table) && !(e.Failure? && e.key == key)
    ensures Find(Next(table, windowMs, e), key) == None || Find(Next(table, windowMs, e), key) == Find(table, key)
  {
    if e.Failure? {
      WindowAfterOtherFailure(table, windowMs, e.key, e.now, key);
    } else {
      FindAfterDrop(table, e.key, key);
    }
  }

  function One(b: bool): nat {
    if b then 1 else 0
  }

  /** The potential pays for every counted failure, except for overruns and forgotten windows. */
  lemma StepPotential(table: Table, windowMs: int, e: Event, key: string, clock: int, t: int, maximumAttempts: nat)
    requires Sound(table) && windowMs > 0 && Opened(Find(table, key), clock, windowMs) && clock <= ClockAfter(e, clock)
    ensures Opened(Find(Next(table, windowMs, e), key), ClockAfter(e, clock), windowMs)
    ensures
      var n := Attempts(maximumAttempts);
      Potential(Find(Next(table, windowMs, e), key), ClockAfter(e, clock), t, n, windowMs) +
        One(Counted(e, key, t, windowMs))
      <= Potential(Find(table, key), clock, t, n, windowMs)
         + One(IsOverrun(table, e, key, maximumAttempts)) + (if IsForgotten(table, e, key, windowMs) then n else 0)
  {
    if e.Failure? && e.key == key {
      WindowAfterFailure(table, windowMs, key, e.now);
    } else {
      WindowAfterOther(table, windowMs, e, key);
    }
  }

  lemma {:induction false} PotentialBounds(table: Table, events: seq<Event>, key: string, clock: int, t: int,
                                           maximumAttempts: nat, windowMs: int)
    requires Sound(table) && windowMs > 0 && Ordered(events, clock) && Opened(Find(table, key), clock, windowMs)
    ensures
      var n := Attempts(maximumAttempts);
      FailuresIn(events, key, t, windowMs) <=
      Potential(Find(table, key), clock, t, n, windowMs)
      + n * Forgotten(table, events, key, windowMs) + Overruns(table, events, key, maximumAttempts, windowMs)
    decreases |events|
  {
    if events != [] {
      var e, n, next := events[0], Attempts(maximumAttempts), Next(table, windowMs, events[0]);
      StepIsBounded(table, windowMs, e);
      StepPotential(table, windowMs, e, key, clock, t, maximumAttempts);
      PotentialBounds(next, events[1..], key, ClockAfter(e, clock), t, maximumAttempts, windowMs);
      Distribute(n, One(IsForgotten(table, e, key, windowMs)), Forgotten(next, events[1..], key, windowMs));
    }
  }

  lemma Distribute(n: nat, a: nat, b: nat)
    ensures n * (a + b) == n * a + n * b
  {
  }

  /** In any stretch of one window length, anywhere in any run with a clock that does not run
      backwards, a key has at most one failure less than twice the allowed attempts, plus what
      overlapping logins added, plus one allowance for each time its window was forgotten. */
  lemma FailuresAreBounded(events: seq<Event>, key: string, clock: int, t: int, maximumAttempts: nat, windowMs: int)
    requires windowMs > 0 && Ordered(events, clock)
    ensures FailuresIn(events, key, t, windowMs) <=
            2 * Attempts(maximumAttempts) - 1
            + Attempts(maximumAttempts) * Forgotten([], events, key, windowMs)
            + Overruns([], events, key, maximumAttempts, windowMs)
  {
    PotentialBounds([], events, key, clock, t, maximumAttempts, windowMs);
  }

  /** The overruns of the window that is open after the events, given those before them: a failure
      that opens a window begins again at none. */
  function WindowOverruns(table: Table, events: seq<Event>, key: string, maximumAttempts: nat, windowMs: int,
                          before: nat): nat
    decreases |events|
  {
    if events == [] then before
    else
      WindowOverruns(Next(table, windowMs, events[0]), events[1..], key, maximumAttempts, windowMs,
                     OverrunsAfter(table, events[0], key, maximumAttempts, before))
  }

  function OverrunsAfter(table: Table, e: Event, key: string, maximumAttempts: nat, before: nat): nat {
    if IsOverrun(table, e, key, maximumAttempts) then before + 1
    else if e.Failure? && e.key == key && !IsOpen(table, key, e.now) then 0
    else before
  }

  predicate IsOpen(table: Table, key: string, now: int) {
    Find(table, key).Some? && Unexpired(Find(table, key).value, now)
  }

  /** What a window counts beyond the allowed attempts. */
  function Excess(w: Window, maximumAttempts: nat): nat {
    if w.count > Attempts(maximumAttempts) then w.count - Attempts(maximumAttempts) else 0
  }

  ghost predicate ExceedsBy(w: Option<Window>, maximumAttempts: nat, overruns: nat) {
    w.Some? ==> w.value.count >= 1 && Excess(w.value, maximumAttempts) == overruns
  }

  /** A window counts more than the allowed attempts by exactly the overruns since it was opened,
      and these are some of the overruns of the run. */
  lemma WindowIsBounded(events: seq<Event>, key: string, maximumAttempts: nat, windowMs: int)
    ensures var overruns := WindowOverruns([], events, key, maximumAttempts, windowMs, 0);
      ExceedsBy(Find(After([], windowMs, events), key), maximumAttempts, overruns) &&
      overruns <= Overruns([], events, key, maximumAttempts, windowMs)
  {
    EventsExceedBy([], events, key, maximumAttempts, windowMs, 0);
    SomeOfAllOverruns([], events, key, maximumAttempts, windowMs, 0);
  }

  lemma {:induction false} SomeOfAllOverruns(table: Table, events: seq<Event>, key: string, maximumAttempts: nat,
                                             windowMs: int, before: nat)
    ensures WindowOverruns(table, events, key, maximumAttempts, windowMs, before) <=
      before + Overruns(table, events, key, maximumAttempts, windowMs)
    decreases |events|
  {
    if events != [] {
      SomeOfAllOverruns(Next(table, windowMs, events[0]), events[1..], key, maximumAttempts, windowMs,
                        OverrunsAfter(table, events[0], key, maximumAttempts, before));
    }
  }

  lemma StepExceedsBy(table: Table, windowMs: int, e: Event, key: string, maximumAttempts: nat, overruns: nat)
    requires Sound(table) && ExceedsBy(Find(table, key), maximumAttempts, overruns)
    ensures ExceedsBy(Find(Next(table, windowMs, e), key), maximumAttempts,
                      OverrunsAfter(table, e, key, maximumAttempts, overruns))
  {
    if e.Failure? && e.key == key {
      WindowAfterFailure(table, windowMs, key, e.now);
    } else {
      WindowAfterOther(table, windowMs, e, key);
    }
  }

  lemma {:induction false} EventsExceedBy(table: Table, events: seq<Event>, key: string, maximumAttempts: nat,
                                          windowMs: int, before: nat)
    requires Sound(table) && ExceedsBy(Find(table, key), maximumAttempts, before)
    ensures ExceedsBy(Find(After(table, windowMs, events), key), maximumAttempts,
                      WindowOverruns(table, events, key, maximumAttempts, windowMs, before))
    decreases |events|
  {
    if events != [] {
      var e := events[0];
      StepIsBounded(table, windowMs, e);
      StepExceedsBy(table, windowMs, e, key, maximumAttempts, before);
      EventsExceedBy(Next(table, windowMs, e), events[1..], key, maximumAttempts, windowMs,
                     OverrunsAfter(table, e, key, maximumAttempts, before));
    }
  }

  // ---------------------------------------------------------------- the bound is sharp

  function Burst(key: string, now: int, n: nat): seq<Event> {
    if n == 0 then [] else [Failure(key, now)] + Burst(key, now, n - 1)
  }

  /** Failures within one window up to the allowed number: nothing is overrun or forgotten. */
  lemma {:induction false} BurstRuns(key: string, w: Window, now: int, n: nat, rest: seq<Event>, maximumAttempts: nat,
                                     windowMs: int)
    requires Unexpired(w, now) && w.count + n <= maximumAttempts
    ensures
      var (start, end) := ([Tracked(key, w)], [Tracked(key, Window(w.count + n, w.resetAt))]);
      var events := Burst(key, now, n) + rest;
      Overruns(start, events, key, maximumAttempts, windowMs) == Overruns(end, rest, key, maximumAttempts, windowMs) &&
      Forgotten(start, events, key, windowMs) == Forgotten(end, rest, key, windowMs)
    decreases n
  {
    BurstHead(key, now, n, rest);
    if n > 0 {
      OneRuns(key, w, now, Burst(key, now, n) + rest, maximumAttempts, windowMs);
      BurstRuns(key, Window(w.count + 1, w.resetAt), now, n - 1, rest, maximumAttempts, windowMs);
    }
  }

  lemma BurstHead(key: string, now: int, n: nat, rest: seq<Event>)
    ensures n == 0 ==> Burst(key, now, n) + rest == rest
    ensures n > 0 ==>
      (var events := Burst(key, now, n) + rest;
       events != [] && events[0] == Failure(key, now) && events[1..] == Burst(key, now, n - 1) + rest)
  {
  }

  lemma OneRuns(key: string, w: Window, now: int, events: seq<Event>, maximumAttempts: nat, windowMs: int)
    requires Unexpired(w, now) && w.count < maximumAttempts && events != [] && events[0] == Failure(key, now)
    ensures
      var (start, next) := ([Tracked(key, w)], [Tracked(key, Window(w.count + 1, w.resetAt))]);
      Overruns(start, events, key, maximumAttempts, windowMs) ==
        Overruns(next, events[1..], key, maximumAttempts, windowMs) &&
      Forgotten(start, events, key, windowMs) == Forgotten(next, events[1..], key, windowMs)
  {
    OneJoins(key, w, now, windowMs);
  }

  lemma OneJoins(key: string, w: Window, now: int, windowMs: int)
    requires Unexpired(w, now)
    ensures Next([Tracked(key, w)], windowMs, Failure(key, now)) == [Tracked(key, Window(w.count + 1, w.resetAt))]
  {
  }

  lemma {:induction false} BurstCounts(key: string, now: int, n: nat, rest: seq<Event>, t: int, windowMs: int)
    requires Ordered(rest, now)
    ensures
      var events := Burst(key, now, n) + rest;
      Ordered(events, now) &&
      FailuresIn(events, key, t, windowMs) ==
        (if t <= now < t + windowMs then n else 0) + FailuresIn(rest, key, t, windowMs)
    decreases n
  {
    BurstHead(key, now, n, rest);
    if n > 0 {
      BurstCounts(key, now, n - 1, rest, t, windowMs);
    }
  }

  /** One failure, the rest of the allowance just before the window ends, and a full allowance when
      the next one begins: all checked, and one less than twice the allowance in one stretch. */
  lemma BoundIsAttained(key: string, maximumAttempts: nat, windowMs: int) returns (events: seq<Event>)
    requires maximumAttempts >= 1 && windowMs >= 2
    ensures Ordered(events, 0)
    ensures Overruns([], events, key, maximumAttempts, windowMs) == 0 && Forgotten([], events, key, windowMs) == 0
    ensures FailuresIn(events, key, windowMs - 1, windowMs) == 2 * maximumAttempts - 1
  {
    var n, t := maximumAttempts - 1, windowMs - 1;
    var last := Burst(key, windowMs, n);
    assert last + [] == last;
    BurstRuns(key, Window(1, 2 * windowMs), windowMs, n, [], maximumAttempts, windowMs);
    BurstCounts(key, windowMs, n, [], t, windowMs);
    var second := [Failure(key, windowMs)] + last;
    assert second[1..] == last;
    var full := [Tracked(key, Window(maximumAttempts, windowMs))];
    assert Next(full, windowMs, second[0]) == [Tracked(key, Window(1, 2 * windowMs))];
    BurstRuns(key, Window(1, windowMs), windowMs - 1, n, second, maximumAttempts, windowMs);
    BurstCounts(key, windowMs - 1, n, second, t, windowMs);
    var first := Burst(key, windowMs - 1, n) + second;
    events := [Failure(key, 0)] + first;
    assert events[1..] == first;
    assert Next([], windowMs, events[0]) == [Tracked(key, Window(1, windowMs))];
  }

  /** Two logins that were both checked before either failed exceed the bound for checked failures. */
  lemma OverlappingLoginsExceed(key: string, now: int) returns (events: seq<Event>)
    ensures !Blocked([], 1, key, now) && Ordered(events, now) && Forgotten([], events, key, 60_000) == 0
    ensures FailuresIn(events, key, now, 60_000) == 2 && Overruns([], events, key, 1, 60_000) == 1
  {
    var last := [Failure(key, now)];
    events := last + last;
    var one, two := [Tracked(key, Window(1, now + 60_000))], [Tracked(key, Window(2, now + 60_000))];
    assert events[0] == last[0] && events[1..] == last && last[1..] == [];
    assert Next([], 60_000, last[0]) == one && Next(one, 60_000, last[0]) == two;
    assert Forgotten(one, last, key, 60_000) == 0 && Overruns(one, last, key, 1, 60_000) == 1;
    assert FailuresIn(last, key, now, 60_000) == 1;
  }
}
