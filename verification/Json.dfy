/** JSON-like values as the manifest code handles them, and their canonical form. Objects keep
    their members in insertion order; keys are not integer-like. */
module Json {
  import opened Text

  datatype Number = Finite(value: real) | NegativeZero | NaN | Infinite(positive: bool)

  datatype Json =
    | Undefined
    | Null
    | Bool(b: bool)
    | Num(n: Number)
    | Str(s: string)
    | Arr(items: seq<Json>)
    | Obj(members: seq<Member>)

  datatype Member = Member(key: string, value: Json)

  // ---------------------------------------------------------------- members

  predicate Has(ms: seq<Member>, key: string) {
    exists m :: m in ms && m.key == key
  }

  function Get(ms: seq<Member>, key: string): (v: Json)
    requires Has(ms, key)
    ensures Member(key, v) in ms
    ensures v < Obj(ms)
  {
    if ms[0].key == key then ms[0].value
    else
      assert forall m | m in ms && m.key == key :: m in ms[1..];
      var v := Get(ms[1..], key);
      var i :| 0 <= i < |ms| && ms[i] == Member(key, v);
      assert ms[i].value < Obj(ms);
      v
  }

  function Read(ms: seq<Member>, key: string): Json {
    if Has(ms, key) then Get(ms, key) else Undefined
  }

  /** A member of a value that may be no object at all. */
  function Lookup(v: Json, key: string): Json {
    if v.Obj? then Read(v.members, key) else Undefined
  }

  ghost predicate DistinctKeys(ms: seq<Member>) {
    forall i, j | 0 <= i < j < |ms| :: ms[i].key != ms[j].key
  }

  /** An object never holds two members with one key. */
  ghost predicate WellFormed(v: Json) {
    match v
    case Arr(items) => forall x | x in items :: WellFormed(x)
    case Obj(ms) => DistinctKeys(ms) && forall m | m in ms :: WellFormed(m.value)
    case _ => true
  }

  ghost predicate Sorted(ms: seq<Member>) {
    forall i, j | 0 <= i < j < |ms| :: Less(ms[i].key, ms[j].key)
  }

  function InsertMember(m: Member, ms: seq<Member>): (r: seq<Member>)
    ensures forall x :: x in r <==> x == m || x in ms
  {
    if ms == [] || Less(m.key, ms[0].key) then [m] + ms else [ms[0]] + InsertMember(m, ms[1..])
  }

  function SortMembers(ms: seq<Member>): (r: seq<Member>)
    ensures forall x :: x in r <==> x in ms
  {
    if ms == [] then [] else InsertMember(ms[0], SortMembers(ms[1..]))
  }

  lemma {:induction false} InsertKeepsSorted(m: Member, ms: seq<Member>)
    requires Sorted(ms) && !Has(ms, m.key)
    ensures Sorted(InsertMember(m, ms))
  {
    if ms == [] {
    } else if Less(m.key, ms[0].key) {
      forall j | 0 <= j < |ms| ensures Less(m.key, ms[j].key) {
        if j > 0 {
          LessIsTransitive(m.key, ms[0].key, ms[j].key);
        }
      }
    } else {
      var rest := InsertMember(m, ms[1..]);
      InsertKeepsSorted(m, ms[1..]);
      LessIsTotal(m.key, ms[0].key);
      forall x | x in rest ensures Less(ms[0].key, x.key) {
        if x != m {
          var j :| 0 <= j < |ms[1..]| && ms[1..][j] == x;
          assert ms[j + 1] == x;
        }
      }
    }
  }

  lemma {:induction false} SortMembersSorts(ms: seq<Member>)
    requires DistinctKeys(ms)
    ensures Sorted(SortMembers(ms))
  {
    if ms != [] {
      SortMembersSorts(ms[1..]);
      forall x | x in ms[1..] ensures x.key != ms[0].key {
        var j :| 0 <= j < |ms[1..]| && ms[1..][j] == x;
        assert ms[j + 1] == x;
      }
      InsertKeepsSorted(ms[0], SortMembers(ms[1..]));
    }
  }

  lemma SortedHasDistinctKeys(ms: seq<Member>)
    requires Sorted(ms)
    ensures DistinctKeys(ms)
  {
    forall i, j | 0 <= i < j < |ms| ensures ms[i].key != ms[j].key {
      LessIsTotal(ms[i].key, ms[j].key);
    }
  }

  lemma SortedHead(ms: seq<Member>, m: Member)
    requires Sorted(ms) && m in ms
    ensures m == ms[0] || Less(ms[0].key, m.key)
  {
    var i :| 0 <= i < |ms| && ms[i] == m;
  }

  /** A strictly sorted list is determined by the members it holds. */
  lemma {:induction false} SortedIsUnique(ms: seq<Member>, ns: seq<Member>)
    requires Sorted(ms) && Sorted(ns) && forall x :: x in ms <==> x in ns
    ensures ms == ns
  {
    if ns != [] {
      assert ns[0] in ns;
    }
    if ms != [] {
      assert ms[0] in ms && ms[0] in ns;
      assert ns[0] in ns && ns[0] in ms;
      SortedHead(ms, ns[0]);
      SortedHead(ns, ms[0]);
      LessIsTotal(ms[0].key, ns[0].key);
      TailOfSorted(ms);
      TailOfSorted(ns);
      SortedIsUnique(ms[1..], ns[1..]);
      assert ms == [ms[0]] + ms[1..] && ns == [ns[0]] + ns[1..];
    }
  }

  lemma TailOfSorted(ms: seq<Member>)
    requires Sorted(ms) && ms != []
    ensures Sorted(ms[1..]) && forall x :: x in ms[1..] <==> x in ms && x != ms[0]
  {
    LessIsTotal(ms[0].key, ms[0].key);
    forall x ensures x in ms[1..] <==> x in ms && x != ms[0] {
      if x in ms[1..] {
        var j :| 0 <= j < |ms[1..]| && ms[1..][j] == x;
        assert ms[j + 1] == x;
      }
    }
  }

  lemma DistinctGet(ms: seq<Member>, m: Member)
    requires DistinctKeys(ms) && m in ms
    ensures Has(ms, m.key) && Get(ms, m.key) == m.value
  {
    assert Has(ms, m.key);
    var i :| 0 <= i < |ms| && ms[i] == m;
    var j :| 0 <= j < |ms| && ms[j] == Member(m.key, Get(ms, m.key));
  }

  // ---------------------------------------------------------------- canonical form

  /** Sorted keys at every level, no undefined members, no negative zero. */
  function Canonical(v: Json): (r: Json)
    decreases v, 1
  {
    match v
    case Arr(items) => Arr(CanonicalItems(items))
    case Obj(ms) => Obj(SortMembers(CanonicalMembers(ms)))
    case Num(NegativeZero) => Num(Finite(0.0))
    case _ => v
  }

  function CanonicalItems(items: seq<Json>): (r: seq<Json>)
    ensures |r| == |items|
    decreases items, 0
  {
    if items == [] then [] else [Canonical(items[0])] + CanonicalItems(items[1..])
  }

  function CanonicalMembers(ms: seq<Member>): (r: seq<Member>)
    decreases ms, 0
  {
    if ms == [] then []
    else (if ms[0].value.Undefined? then [] else [Member(ms[0].key, Canonical(ms[0].value))])
         + CanonicalMembers(ms[1..])
  }

  ghost predicate IsCanonical(v: Json) {
    match v
    case Arr(items) => forall x | x in items :: IsCanonical(x)
    case Obj(ms) => Sorted(ms) && forall m | m in ms :: !m.value.Undefined? && IsCanonical(m.value)
    case Num(n) => !n.NegativeZero?
    case _ => true
  }

  lemma {:induction false} CanonicalItemsAt(items: seq<Json>, i: nat)
    requires i < |items|
    ensures CanonicalItems(items)[i] == Canonical(items[i])
  {
    if i > 0 {
      CanonicalItemsAt(items[1..], i - 1);
    }
  }

  lemma {:induction false} CanonicalMembersContent(ms: seq<Member>, x: Member)
    ensures x in CanonicalMembers(ms) <==>
      exists m :: m in ms && !m.value.Undefined? && x == Member(m.key, Canonical(m.value))
  {
    if ms != [] {
      CanonicalMembersContent(ms[1..], x);
      assert forall m :: m in ms <==> m == ms[0] || m in ms[1..];
    }
  }

  lemma {:induction false} CanonicalMembersDistinct(ms: seq<Member>)
    requires DistinctKeys(ms)
    ensures DistinctKeys(CanonicalMembers(ms))
  {
    if ms != [] {
      var rest := CanonicalMembers(ms[1..]);
      CanonicalMembersDistinct(ms[1..]);
      forall x | x in rest ensures x.key != ms[0].key {
        CanonicalMembersContent(ms[1..], x);
        var m :| m in ms[1..] && x == Member(m.key, Canonical(m.value));
        var j :| 0 <= j < |ms[1..]| && ms[1..][j] == m;
        assert ms[j + 1] == m;
      }
    }
  }

  lemma {:induction false} CanonicalIsCanonical(v: Json)
    requires WellFormed(v)
    ensures IsCanonical(Canonical(v)) && (Canonical(v).Undefined? <==> v.Undefined?)
    decreases v
  {
    match v
    case Arr(items) =>
      forall x | x in CanonicalItems(items) ensures IsCanonical(x) {
        var i :| 0 <= i < |items| && CanonicalItems(items)[i] == x;
        CanonicalItemsAt(items, i);
        CanonicalIsCanonical(items[i]);
      }
    case Obj(ms) =>
      CanonicalMembersDistinct(ms);
      SortMembersSorts(CanonicalMembers(ms));
      forall x | x in CanonicalMembers(ms) ensures !x.value.Undefined? && IsCanonical(x.value) {
        CanonicalMembersContent(ms, x);
        var m :| m in ms && !m.value.Undefined? && x == Member(m.key, Canonical(m.value));
        CanonicalIsCanonical(m.value);
      }
    case _ =>
  }

  /** A canonical value is its own canonical form. */
  lemma {:induction false} CanonicalIsFixed(v: Json)
    requires IsCanonical(v)
    ensures Canonical(v) == v
    decreases v
  {
    match v
    case Arr(items) =>
      forall i | 0 <= i < |items| ensures CanonicalItems(items)[i] == items[i] {
        CanonicalItemsAt(items, i);
        CanonicalIsFixed(items[i]);
      }
    case Obj(ms) =>
      forall m | m in ms ensures Canonical(m.value) == m.value {
        CanonicalIsFixed(m.value);
      }
      SortedHasDistinctKeys(ms);
      CanonicalMembersDistinct(ms);
      SortMembersSorts(CanonicalMembers(ms));
      forall x ensures x in SortMembers(CanonicalMembers(ms)) <==> x in ms {
        CanonicalMembersContent(ms, x);
      }
      SortedIsUnique(SortMembers(CanonicalMembers(ms)), ms);
    case _ =>
  }

  // ---------------------------------------------------------------- meaning

  /** A value without the accidents of its representation: objects as finite maps. */
  datatype Meaning =
    | Atom(v: Json)
    | List(items: seq<Meaning>)
    | Table(fields: map<string, Meaning>)

  ghost function Fields(ms: seq<Member>): set<string> {
    set m | m in ms && !m.value.Undefined? :: m.key
  }

  ghost function MeaningOf(v: Json): Meaning
    decreases v
  {
    match v
    case Arr(items) => List(seq(|items|, i requires 0 <= i < |items| => MeaningOf(items[i])))
    case Obj(ms) => Table(map k | k in Fields(ms) && Has(ms, k) :: MeaningOf(Get(ms, k)))
    case Num(NegativeZero) => Atom(Num(Finite(0.0)))
    case _ => Atom(v)
  }

  lemma CanonicalMember(ms: seq<Member>, key: string)
    requires DistinctKeys(ms)
    ensures var cs := SortMembers(CanonicalMembers(ms));
      (key in Fields(cs) <==> key in Fields(ms)) &&
      (key in Fields(ms) ==> Has(cs, key) && Has(ms, key) && Get(cs, key) == Canonical(Get(ms, key)))
  {
    var cs := SortMembers(CanonicalMembers(ms));
    CanonicalMembersDistinct(ms);
    SortMembersSorts(CanonicalMembers(ms));
    SortedHasDistinctKeys(cs);
    if key in Fields(cs) {
      var x :| x in cs && x.key == key;
      CanonicalMembersContent(ms, x);
      var m :| m in ms && !m.value.Undefined? && x == Member(m.key, Canonical(m.value));
      assert key in Fields(ms);
    }
    if key in Fields(ms) {
      var m :| m in ms && !m.value.Undefined? && m.key == key;
      var x := Member(key, Canonical(m.value));
      CanonicalMembersContent(ms, x);
      assert x in cs && !x.value.Undefined?;
      DistinctGet(ms, m);
      DistinctGet(cs, x);
    }
  }

  lemma CanonicalKeepsTable(ms: seq<Member>)
    requires DistinctKeys(ms)
    requires forall k | k in Fields(ms) :: Has(ms, k) && MeaningOf(Canonical(Get(ms, k))) == MeaningOf(Get(ms, k))
    ensures MeaningOf(Canonical(Obj(ms))) == MeaningOf(Obj(ms))
  {
    var a, b := MeaningOf(Canonical(Obj(ms))).fields, MeaningOf(Obj(ms)).fields;
    forall k ensures (k in a <==> k in b) && (k in b ==> a[k] == b[k]) {
      CanonicalMember(ms, k);
    }
    assert a == b;
  }

  /** Canonicalising keeps the meaning. */
  lemma {:induction false} CanonicalKeepsMeaning(v: Json)
    requires WellFormed(v)
    ensures MeaningOf(Canonical(v)) == MeaningOf(v)
    decreases v
  {
    match v
    case Arr(items) =>
      forall i | 0 <= i < |items| ensures MeaningOf(CanonicalItems(items)[i]) == MeaningOf(items[i]) {
        CanonicalItemsAt(items, i);
        CanonicalKeepsMeaning(items[i]);
      }
    case Obj(ms) =>
      forall k | k in Fields(ms) ensures Has(ms, k) && MeaningOf(Canonical(Get(ms, k))) == MeaningOf(Get(ms, k)) {
        CanonicalMember(ms, k);
        assert Member(k, Get(ms, k)) in ms;
        CanonicalKeepsMeaning(Get(ms, k));
      }
      CanonicalKeepsTable(ms);
    case _ =>
  }

  /** Canonical values with one meaning are one value. */
  lemma {:induction false} CanonicalIsDetermined(v: Json, w: Json)
    requires IsCanonical(v) && IsCanonical(w) && MeaningOf(v) == MeaningOf(w)
    ensures v == w
    decreases v
  {
    match v
    case Arr(items) =>
      var a, b := MeaningOf(v).items, MeaningOf(w).items;
      forall i | 0 <= i < |items| ensures items[i] == w.items[i] {
        assert a[i] == b[i];
        CanonicalIsDetermined(items[i], w.items[i]);
      }
      assert items == w.items;
    case Obj(ms) =>
      SortedHasDistinctKeys(ms);
      SortedHasDistinctKeys(w.members);
      forall x ensures x in ms <==> x in w.members {
        if x in ms {
          MemberIsDetermined(v, w, x);
        }
        if x in w.members {
          DistinctGet(w.members, x);
          assert x.key in Fields(w.members) && x.key in MeaningOf(w).fields && x.key in MeaningOf(v).fields;
          var m := Member(x.key, Get(ms, x.key));
          MemberIsDetermined(v, w, m);
          DistinctGet(w.members, m);
        }
      }
      SortedIsUnique(ms, w.members);
    case _ =>
  }

  lemma {:induction false} MemberIsDetermined(v: Json, w: Json, m: Member)
    requires v.Obj? && w.Obj? && m in v.members
    requires IsCanonical(v) && IsCanonical(w) && MeaningOf(v) == MeaningOf(w)
    ensures m in w.members
    decreases v, 0
  {
    SortedHasDistinctKeys(v.members);
    DistinctGet(v.members, m);
    assert m.key in Fields(v.members) && m.key in MeaningOf(v).fields && m.key in MeaningOf(w).fields;
    var other := Get(w.members, m.key);
    assert MeaningOf(v).fields[m.key] == MeaningOf(w).fields[m.key];
    CanonicalIsDetermined(m.value, other);
  }

  /** Serialising and hashing the canonical form identify two values exactly when the values
      differ in nothing but key order, undefined members and the sign of zero. */
  lemma CanonicalIdentifiesMeaning(v: Json, w: Json)
    requires WellFormed(v) && WellFormed(w)
    ensures Canonical(v) == Canonical(w) <==> MeaningOf(v) == MeaningOf(w)
  {
    CanonicalKeepsMeaning(v);
    CanonicalKeepsMeaning(w);
    CanonicalIsCanonical(v);
    CanonicalIsCanonical(w);
    if MeaningOf(v) == MeaningOf(w) {
      CanonicalIsDetermined(Canonical(v), Canonical(w));
    }
  }
}
