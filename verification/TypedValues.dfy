/** Typed values and the shapes a decoder accepts: a shape is the type of a writer if every value it
    writes is accepted, and every meaning that is accepted is written for some value. */
module TypedValues {
  import opened Wrappers
  import opened Json
  import opened Diff
  import opened Decode
  import opened DecodeProofs
  import T = ManifestTypes

  /** The meanings of what the compatibility check lets through. */
  ghost predicate Normal(m: Meaning) {
    match m
    case Atom(v) => v.Null? || v.Bool? || v.Str? || (v.Num? && v.n.Finite?)
    case List(items) => forall x | x in items :: Normal(x)
    case Table(fields) => forall k | k in fields :: Normal(fields[k])
  }

  lemma {:induction false} CleanIsNormal(v: Json)
    requires Clean(v)
    ensures Normal(MeaningOf(v))
    decreases v
  {
    match v
    case Arr(items) =>
      forall x | x in MeaningOf(v).items ensures Normal(x) {
        var i :| 0 <= i < |items| && MeaningOf(v).items[i] == x;
        CleanIsNormal(items[i]);
      }
    case Obj(ms) =>
      forall k | k in MeaningOf(v).fields ensures Normal(MeaningOf(v).fields[k]) {
        CleanFields(ms, k);
        CleanIsNormal(Get(ms, k));
      }
    case _ =>
  }

  /** A value that is clean JSON of a shape. */
  ghost predicate Admits(g: Grammar, shape: Shape, v: Json)
    requires Direct(g)
  {
    Clean(v) && Accepts(g, shape, MeaningOf(v))
  }

  /** Some value is written with this meaning. */
  ghost predicate Writes<V(!new)>(write: V -> Json, m: Meaning) {
    exists t: V :: Clean(write(t)) && MeaningOf(write(t)) == m
  }

  lemma Witness<V(!new)>(write: V -> Json, t: V, m: Meaning)
    requires Clean(write(t)) && MeaningOf(write(t)) == m
    ensures Writes(write, m)
  {
  }

  ghost predicate AllAccepted<V(!new)>(g: Grammar, shape: Shape, write: V -> Json)
    requires Direct(g)
  {
    forall t: V :: Clean(write(t)) && Accepts(g, shape, MeaningOf(write(t)))
  }

  ghost predicate AllWritten<V(!new)>(g: Grammar, shape: Shape, write: V -> Json)
    requires Direct(g)
  {
    forall m {:trigger Accepts(g, shape, m)} | Normal(m) && Accepts(g, shape, m) :: Writes(write, m)
  }

  /** The shape accepts exactly what is written. */
  ghost predicate Typed<V(!new)>(g: Grammar, shape: Shape, write: V -> Json)
    requires Direct(g)
  {
    AllAccepted(g, shape, write) && AllWritten(g, shape, write)
  }

  // ---------------------------------------------------------------- plain values

  lemma TextIsTyped(g: Grammar)
    requires Direct(g)
    ensures Typed(g, Text, T.WriteText)
  {
    forall m | Normal(m) && Accepts(g, Text, m) ensures Writes(T.WriteText, m) {
      Witness(T.WriteText, m.v.s, m);
    }
  }

  lemma FlagIsTyped(g: Grammar)
    requires Direct(g)
    ensures Typed(g, Flag, T.WriteFlag)
  {
    forall m | Normal(m) && Accepts(g, Flag, m) ensures Writes(T.WriteFlag, m) {
      Witness(T.WriteFlag, m.v.b, m);
    }
  }

  lemma IntegerIsTyped(g: Grammar)
    requires Direct(g)
    ensures Typed(g, Integer, T.WriteInteger)
  {
    forall m | Normal(m) && Accepts(g, Integer, m) ensures Writes(T.WriteInteger, m) {
      var x: T.SafeInteger := m.v.n.value.Floor;
      Witness(T.WriteInteger, x, m);
    }
  }

  lemma ScalarIsTyped(g: Grammar)
    requires Direct(g)
    ensures Typed(g, Scalar, T.WriteScalar)
  {
    forall m | Normal(m) && Accepts(g, Scalar, m) ensures Writes(T.WriteScalar, m) {
      match m.v
      case Null => Witness(T.WriteScalar, T.NullScalar, m);
      case Bool(b) => Witness(T.WriteScalar, T.BoolScalar(b), m);
      case Num(n) => Witness(T.WriteScalar, T.NumberScalar(n.value), m);
      case Str(s) => Witness(T.WriteScalar, T.TextScalar(s), m);
    }
  }

  lemma FilterValueIsTyped(g: Grammar)
    requires Direct(g)
    ensures Typed(g, ScalarOrList, T.WriteFilterValue)
  {
    ScalarIsTyped(g);
    forall v: T.FilterValue ensures Clean(T.WriteFilterValue(v)) &&
      Accepts(g, ScalarOrList, MeaningOf(T.WriteFilterValue(v)))
    {
      if v.Many? {
        EachIsAccepted(g, Scalar, T.WriteScalar, v.scalars);
      } else {
        assert Accepts(g, Scalar, MeaningOf(T.WriteScalar(v.scalar)));
      }
    }
    forall m | Normal(m) && Accepts(g, ScalarOrList, m) ensures Writes(T.WriteFilterValue, m) {
      if m.List? {
        forall x | x in m.items ensures Accepts(g, Scalar, x) {
        }
        ListIsWritten(g, Scalar, T.WriteScalar, m);
        var xs := PickEach(T.WriteScalar, m);
        Witness(T.WriteFilterValue, T.Many(xs), m);
      } else {
        assert Accepts(g, Scalar, m);
        var x := Pick(T.WriteScalar, m);
        Witness(T.WriteFilterValue, T.One(x), m);
      }
    }
  }

  // ---------------------------------------------------------------- lists

  lemma EachIsAccepted<V(!new)>(g: Grammar, shape: Shape, write: V -> Json, xs: seq<V>)
    requires Direct(g) && AllAccepted(g, shape, write)
    ensures Clean(T.WriteEach(xs, write)) && Accepts(g, ListOf(shape), MeaningOf(T.WriteEach(xs, write)))
  {
    var items := T.WriteEach(xs, write).items;
    ItemsAreAccepted(g, shape, items);
  }

  lemma ItemsAreAccepted(g: Grammar, shape: Shape, items: seq<Json>)
    requires Direct(g) && forall i | 0 <= i < |items| :: Clean(items[i]) && Accepts(g, shape, MeaningOf(items[i]))
    ensures Clean(Arr(items)) && Accepts(g, ListOf(shape), MeaningOf(Arr(items)))
  {
    var m := MeaningOf(Arr(items));
    forall x | x in m.items ensures Accepts(g, shape, x) {
      var i :| 0 <= i < |m.items| && m.items[i] == x;
      assert x == MeaningOf(items[i]);
    }
  }

  lemma ListIsWritten<V(!new)>(g: Grammar, shape: Shape, write: V -> Json, m: Meaning)
    requires Direct(g) && AllWritten(g, shape, write) && Normal(m) && Accepts(g, ListOf(shape), m)
    ensures WritesEach(write, m)
  {
  }

  ghost predicate WritesEach<V(!new)>(write: V -> Json, m: Meaning) {
    m.List? && forall x | x in m.items :: Writes(write, x)
  }

  ghost function Pick<V(!new)>(write: V -> Json, m: Meaning): (t: V)
    requires Writes(write, m)
    ensures Clean(write(t)) && MeaningOf(write(t)) == m
  {
    var t: V :| Clean(write(t)) && MeaningOf(write(t)) == m;
    t
  }

  ghost function PickEach<V(!new)>(write: V -> Json, m: Meaning): (ts: seq<V>)
    requires WritesEach(write, m)
    ensures Clean(T.WriteEach(ts, write)) && MeaningOf(T.WriteEach(ts, write)) == m
  {
    var ts := seq(|m.items|, i requires 0 <= i < |m.items| => Pick(write, m.items[i]));
    assert MeaningOf(T.WriteEach(ts, write)).items == m.items;
    ts
  }

  // ---------------------------------------------------------------- members

  /** A slot says of its key what a table says. */
  ghost predicate Filled(slot: T.Slot, m: Meaning)
    requires m.Table?
  {
    (slot.1.Some? <==> slot.0 in m.fields) &&
    (slot.1.Some? ==> Clean(slot.1.value) && MeaningOf(slot.1.value) == m.fields[slot.0])
  }

  // ---------------------------------------------------------------- objects

  ghost predicate DistinctSlots(slots: seq<T.Slot>) {
    forall i, j | 0 <= i < j < |slots| :: slots[i].0 != slots[j].0
  }

  lemma {:induction false} MembersOf(slots: seq<T.Slot>, k: string)
    requires DistinctSlots(slots)
    ensures Has(T.Members(slots), k) ==> exists i :: 0 <= i < |slots| && slots[i].0 == k
    ensures forall i | 0 <= i < |slots| && slots[i].0 == k ::
      (Has(T.Members(slots), k) <==> slots[i].1.Some?) &&
      (slots[i].1.Some? ==> Get(T.Members(slots), k) == slots[i].1.value)
  {
    if slots != [] {
      var first, rest := slots[0], slots[1..];
      var ms := T.Members(rest);
      MembersOf(rest, k);
      assert forall i | 0 <= i < |rest| :: rest[i] == slots[i + 1];
      assert forall i | 1 <= i < |slots| :: slots[i] == rest[i - 1];
      if first.0 == k {
        assert !Has(ms, k);
      }
      if first.1.Some? {
        OneMoreMember(Member(first.0, first.1.value), ms, k);
      } else {
        assert T.Members(slots) == ms;
      }
    }
  }

  lemma OneMoreMember(m: Member, ms: seq<Member>, k: string)
    ensures Has([m] + ms, k) <==> m.key == k || Has(ms, k)
    ensures Has([m] + ms, k) ==> Get([m] + ms, k) == if m.key == k then m.value else Get(ms, k)
  {
    var all := [m] + ms;
    assert all[0] == m && all[1..] == ms;
    assert forall x :: x in all <==> x == m || x in ms;
  }

  lemma {:induction false} MembersAreClean(slots: seq<T.Slot>)
    requires DistinctSlots(slots) && forall i | 0 <= i < |slots| && slots[i].1.Some? :: Clean(slots[i].1.value)
    ensures Clean(T.Object(slots))
  {
    if slots != [] {
      var first, rest := slots[0], slots[1..];
      var ms := T.Members(rest);
      assert forall i | 0 <= i < |rest| :: rest[i] == slots[i + 1];
      MembersAreClean(rest);
      MembersOf(rest, first.0);
      assert !Has(ms, first.0);
      if first.1.Some? {
        AddDistinct(Member(first.0, first.1.value), ms);
      }
    }
  }

  /** What an object of slots means. */
  lemma ObjectMeans(slots: seq<T.Slot>)
    requires DistinctSlots(slots) && forall i | 0 <= i < |slots| && slots[i].1.Some? :: Clean(slots[i].1.value)
    ensures Clean(T.Object(slots))
    ensures forall i | 0 <= i < |slots| :: Filled(slots[i], MeaningOf(T.Object(slots)))
    ensures forall k | k in MeaningOf(T.Object(slots)).fields :: exists i :: 0 <= i < |slots| && slots[i].0 == k
  {
    MembersAreClean(slots);
    var ms := T.Members(slots);
    forall i | 0 <= i < |slots| ensures Filled(slots[i], MeaningOf(T.Object(slots))) {
      MembersOf(slots, slots[i].0);
      CleanFields(ms, slots[i].0);
    }
    forall k | k in MeaningOf(T.Object(slots)).fields ensures exists i :: 0 <= i < |slots| && slots[i].0 == k {
      CleanFields(ms, k);
      MembersOf(slots, k);
    }
  }

  /** Slots that fill a table are the object with the meaning of the table. */
  lemma ObjectIs(slots: seq<T.Slot>, m: Meaning)
    requires m.Table? && DistinctSlots(slots) && (forall i | 0 <= i < |slots| :: Filled(slots[i], m))
    requires forall k | k in m.fields :: exists i :: 0 <= i < |slots| && slots[i].0 == k
    ensures Clean(T.Object(slots)) && MeaningOf(T.Object(slots)) == m
  {
    ObjectMeans(slots);
    var t := MeaningOf(T.Object(slots));
    forall k ensures (k in t.fields <==> k in m.fields) && (k in m.fields ==> t.fields[k] == m.fields[k]) {
      if k in m.fields || k in t.fields {
        var i :| 0 <= i < |slots| && slots[i].0 == k;
        assert Filled(slots[i], m) && Filled(slots[i], t);
      }
    }
    assert t.fields == m.fields;
  }

  // ---------------------------------------------------------------- fields

  /** A slot is one that a field accepts. */
  ghost predicate Fits(g: Grammar, f: Field, slot: T.Slot)
    requires Direct(g)
  {
    f.key == slot.0 && (f.required ==> slot.1.Some?) &&
    (slot.1.Some? ==> Clean(slot.1.value) && Accepts(g, f.shape, MeaningOf(slot.1.value)))
  }

  ghost predicate AllFit(g: Grammar, fields: seq<Field>, slots: seq<T.Slot>)
    requires Direct(g)
  {
    |fields| == |slots| && DistinctSlots(slots) && forall i | 0 <= i < |slots| :: Fits(g, fields[i], slots[i])
  }

  lemma FitTogether(g: Grammar, fields: seq<Field>, slots: seq<T.Slot>, i: nat, j: nat)
    requires Direct(g) && Named(fields, slots) && i <= j <= |fields|
    requires FitFrom(g, fields, slots, 0, i) && FitFrom(g, fields, slots, i, j)
    requires FitFrom(g, fields, slots, j, |fields|)
    ensures AllFit(g, fields, slots)
  {
  }

  /** The slots have the names of the fields, in their order. */
  ghost predicate Named(fields: seq<Field>, slots: seq<T.Slot>) {
    |fields| == |slots| && DistinctSlots(slots) && forall i | 0 <= i < |slots| :: fields[i].key == slots[i].0
  }

  lemma FittingIsAccepted(g: Grammar, fields: seq<Field>, slots: seq<T.Slot>)
    requires Direct(g) && AllFit(g, fields, slots)
    ensures var m := MeaningOf(T.Object(slots));
      Clean(T.Object(slots)) && AcceptsFields(g, fields, m) && Covered(fields, m)
  {
    forall i | 0 <= i < |slots| && slots[i].1.Some? ensures Clean(slots[i].1.value) {
      assert Fits(g, fields[i], slots[i]);
    }
    ObjectMeans(slots);
    var m := MeaningOf(T.Object(slots));
    forall f | f in fields
      ensures (f.required ==> f.key in m.fields) && (f.key in m.fields ==> Accepts(g, f.shape, m.fields[f.key]))
    {
      var i :| 0 <= i < |fields| && fields[i] == f;
      assert Fits(g, f, slots[i]) && Filled(slots[i], m);
    }
    forall k | k in m.fields ensures Knows(fields, k) {
      var i :| 0 <= i < |slots| && slots[i].0 == k;
      assert Fits(g, fields[i], slots[i]) && fields[i] in fields;
    }
  }

  ghost predicate FitFrom(g: Grammar, fields: seq<Field>, slots: seq<T.Slot>, lo: nat, hi: nat)
    requires Direct(g)
  {
    hi <= |fields| && |fields| == |slots| && forall i | lo <= i < hi :: Fits(g, fields[i], slots[i])
  }

  /** What a field says about a table that is accepted. */
  lemma FieldOf(g: Grammar, fields: seq<Field>, m: Meaning, i: nat)
    requires Direct(g) && m.Table? && Normal(m) && AcceptsFields(g, fields, m) && i < |fields|
    ensures fields[i].required ==> fields[i].key in m.fields
    ensures fields[i].key in m.fields ==>
      Normal(m.fields[fields[i].key]) && Accepts(g, fields[i].shape, m.fields[fields[i].key])
  {
    assert fields[i] in fields;
  }

  // Slots that are written fit their fields.

  lemma TextFits(g: Grammar, key: string, x: string)
    requires Direct(g)
    ensures Fits(g, Field(key, true, Text), (key, Some(T.WriteText(x))))
  {
  }

  lemma ValueFits<V(!new)>(g: Grammar, key: string, shape: Shape, write: V -> Json, x: V)
    requires Direct(g) && AllAccepted(g, shape, write)
    ensures Fits(g, Field(key, true, shape), (key, Some(write(x))))
  {
  }

  lemma MaybeFits<V(!new)>(g: Grammar, key: string, shape: Shape, write: V -> Json, x: Option<V>)
    requires Direct(g) && AllAccepted(g, shape, write)
    ensures Fits(g, Field(key, false, shape), (key, T.Maybe(x, write)))
  {
  }

  lemma EachFits<V(!new)>(g: Grammar, key: string, shape: Shape, write: V -> Json, xs: seq<V>)
    requires Direct(g) && AllAccepted(g, shape, write)
    ensures Fits(g, Field(key, true, ListOf(shape)), (key, Some(T.WriteEach(xs, write))))
  {
    EachIsAccepted(g, shape, write, xs);
  }

  lemma MaybeEachFits<V(!new)>(g: Grammar, key: string, shape: Shape, write: V -> Json, xs: Option<seq<V>>)
    requires Direct(g) && AllAccepted(g, shape, write)
    ensures Fits(g, Field(key, false, ListOf(shape)), (key, T.MaybeEach(xs, write)))
  {
    if xs.Some? {
      EachIsAccepted(g, shape, write, xs.value);
    }
  }

  lemma MaybeTextFits(g: Grammar, key: string, x: Option<string>)
    requires Direct(g)
    ensures Fits(g, Field(key, false, Text), (key, T.Maybe(x, T.WriteText)))
  {
    TextIsTyped(g);
    MaybeFits(g, key, Text, T.WriteText, x);
  }

  lemma MaybeFlagFits(g: Grammar, key: string, x: Option<bool>)
    requires Direct(g)
    ensures Fits(g, Field(key, false, Flag), (key, T.Maybe(x, T.WriteFlag)))
  {
    FlagIsTyped(g);
    MaybeFits(g, key, Flag, T.WriteFlag, x);
  }

  lemma IntegerFits(g: Grammar, key: string, x: T.SafeInteger)
    requires Direct(g)
    ensures Fits(g, Field(key, true, Integer), (key, Some(T.WriteInteger(x))))
  {
    IntegerIsTyped(g);
    ValueFits(g, key, Integer, T.WriteInteger, x);
  }

  lemma MaybeIntegerFits(g: Grammar, key: string, x: Option<T.SafeInteger>)
    requires Direct(g)
    ensures Fits(g, Field(key, false, Integer), (key, T.Maybe(x, T.WriteInteger)))
  {
    IntegerIsTyped(g);
    MaybeFits(g, key, Integer, T.WriteInteger, x);
  }

  lemma EachTextFits(g: Grammar, key: string, xs: seq<string>)
    requires Direct(g)
    ensures Fits(g, Field(key, true, ListOf(Text)), (key, Some(T.WriteEach(xs, T.WriteText))))
  {
    TextIsTyped(g);
    EachFits(g, key, Text, T.WriteText, xs);
  }

  lemma MaybeEachTextFits(g: Grammar, key: string, xs: Option<seq<string>>)
    requires Direct(g)
    ensures Fits(g, Field(key, false, ListOf(Text)), (key, T.MaybeEach(xs, T.WriteText)))
  {
    TextIsTyped(g);
    MaybeEachFits(g, key, Text, T.WriteText, xs);
  }

  // Fields of a table that is accepted are written.

  ghost predicate Given(g: Grammar, fields: seq<Field>, m: Meaning)
    requires Direct(g)
  {
    m.Table? && Normal(m) && AcceptsFields(g, fields, m)
  }

  lemma ValueAt<V(!new)>(g: Grammar, fields: seq<Field>, m: Meaning, i: nat, key: string, shape: Shape,
                         write: V -> Json)
    returns (x: V)
    requires Direct(g) && Given(g, fields, m) && i < |fields| && fields[i] == Field(key, true, shape)
    requires AllWritten(g, shape, write)
    ensures Filled((key, Some(write(x))), m)
  {
    FieldOf(g, fields, m, i);
    x := Pick(write, m.fields[key]);
  }

  lemma MaybeAt<V(!new)>(g: Grammar, fields: seq<Field>, m: Meaning, i: nat, key: string, shape: Shape,
                         write: V -> Json)
    returns (x: Option<V>)
    requires Direct(g) && Given(g, fields, m) && i < |fields| && fields[i] == Field(key, false, shape)
    requires AllWritten(g, shape, write)
    ensures Filled((key, T.Maybe(x, write)), m)
  {
    FieldOf(g, fields, m, i);
    x := if key in m.fields then Some(Pick(write, m.fields[key])) else None;
  }

  lemma EachAt<V(!new)>(g: Grammar, fields: seq<Field>, m: Meaning, i: nat, key: string, shape: Shape,
                        write: V -> Json)
    returns (xs: seq<V>)
    requires Direct(g) && Given(g, fields, m) && i < |fields| && fields[i] == Field(key, true, ListOf(shape))
    requires AllWritten(g, shape, write)
    ensures Filled((key, Some(T.WriteEach(xs, write))), m)
  {
    FieldOf(g, fields, m, i);
    ListIsWritten(g, shape, write, m.fields[key]);
    xs := PickEach(write, m.fields[key]);
  }

  lemma MaybeEachAt<V(!new)>(g: Grammar, fields: seq<Field>, m: Meaning, i: nat, key: string, shape: Shape,
                             write: V -> Json)
    returns (xs: Option<seq<V>>)
    requires Direct(g) && Given(g, fields, m) && i < |fields| && fields[i] == Field(key, false, ListOf(shape))
    requires AllWritten(g, shape, write)
    ensures Filled((key, T.MaybeEach(xs, write)), m)
  {
    FieldOf(g, fields, m, i);
    if key in m.fields {
      ListIsWritten(g, shape, write, m.fields[key]);
      xs := Some(PickEach(write, m.fields[key]));
    } else {
      xs := None;
    }
  }

  lemma TextAt(g: Grammar, fields: seq<Field>, m: Meaning, i: nat, key: string) returns (x: string)
    requires Direct(g) && Given(g, fields, m) && i < |fields| && fields[i] == Field(key, true, Text)
    ensures Filled((key, Some(T.WriteText(x))), m)
  {
    TextIsTyped(g);
    x := ValueAt(g, fields, m, i, key, Text, T.WriteText);
  }

  lemma MaybeTextAt(g: Grammar, fields: seq<Field>, m: Meaning, i: nat, key: string) returns (x: Option<string>)
    requires Direct(g) && Given(g, fields, m) && i < |fields| && fields[i] == Field(key, false, Text)
    ensures Filled((key, T.Maybe(x, T.WriteText)), m)
  {
    TextIsTyped(g);
    x := MaybeAt(g, fields, m, i, key, Text, T.WriteText);
  }

  lemma MaybeFlagAt(g: Grammar, fields: seq<Field>, m: Meaning, i: nat, key: string) returns (x: Option<bool>)
    requires Direct(g) && Given(g, fields, m) && i < |fields| && fields[i] == Field(key, false, Flag)
    ensures Filled((key, T.Maybe(x, T.WriteFlag)), m)
  {
    FlagIsTyped(g);
    x := MaybeAt(g, fields, m, i, key, Flag, T.WriteFlag);
  }

  lemma IntegerAt(g: Grammar, fields: seq<Field>, m: Meaning, i: nat, key: string) returns (x: T.SafeInteger)
    requires Direct(g) && Given(g, fields, m) && i < |fields| && fields[i] == Field(key, true, Integer)
    ensures Filled((key, Some(T.WriteInteger(x))), m)
  {
    IntegerIsTyped(g);
    x := ValueAt(g, fields, m, i, key, Integer, T.WriteInteger);
  }

  lemma MaybeIntegerAt(g: Grammar, fields: seq<Field>, m: Meaning, i: nat, key: string)
    returns (x: Option<T.SafeInteger>)
    requires Direct(g) && Given(g, fields, m) && i < |fields| && fields[i] == Field(key, false, Integer)
    ensures Filled((key, T.Maybe(x, T.WriteInteger)), m)
  {
    IntegerIsTyped(g);
    x := MaybeAt(g, fields, m, i, key, Integer, T.WriteInteger);
  }

  lemma EachTextAt(g: Grammar, fields: seq<Field>, m: Meaning, i: nat, key: string) returns (xs: seq<string>)
    requires Direct(g) && Given(g, fields, m) && i < |fields| && fields[i] == Field(key, true, ListOf(Text))
    ensures Filled((key, Some(T.WriteEach(xs, T.WriteText))), m)
  {
    TextIsTyped(g);
    xs := EachAt(g, fields, m, i, key, Text, T.WriteText);
  }

  lemma MaybeEachTextAt(g: Grammar, fields: seq<Field>, m: Meaning, i: nat, key: string)
    returns (xs: Option<seq<string>>)
    requires Direct(g) && Given(g, fields, m) && i < |fields| && fields[i] == Field(key, false, ListOf(Text))
    ensures Filled((key, T.MaybeEach(xs, T.WriteText)), m)
  {
    TextIsTyped(g);
    xs := MaybeEachAt(g, fields, m, i, key, Text, T.WriteText);
  }

  lemma LiteralAt(g: Grammar, fields: seq<Field>, m: Meaning, i: nat, key: string, value: string)
    requires Direct(g) && Given(g, fields, m) && i < |fields| && fields[i] == Field(key, true, Strings([value]))
    ensures Filled((key, Some(Str(value))), m)
  {
    FieldOf(g, fields, m, i);
    assert m.fields[key].v.s in [value];
  }

  lemma NumberAt(g: Grammar, fields: seq<Field>, m: Meaning, i: nat, key: string, value: int)
    requires Direct(g) && Given(g, fields, m) && i < |fields| && fields[i] == Field(key, true, Numbers([value]))
    ensures Filled((key, Some(Num(Finite(value as real)))), m)
  {
    FieldOf(g, fields, m, i);
  }

  lemma PresentAt(g: Grammar, fields: seq<Field>, m: Meaning, i: nat, key: string, value: string)
    returns (there: bool)
    requires Direct(g) && Given(g, fields, m) && i < |fields| && fields[i] == Field(key, false, Strings([value]))
    ensures Filled((key, if there then Some(Str(value)) else None), m)
  {
    FieldOf(g, fields, m, i);
    there := key in m.fields;
    if there {
      assert m.fields[key].v.s in [value];
    }
  }

  // Lists of values of the type that is being proved: what they hold is smaller.

  ghost predicate EachAdmitted(g: Grammar, shape: Shape, items: seq<Json>)
    requires Direct(g)
  {
    forall i | 0 <= i < |items| :: Admits(g, shape, items[i])
  }

  lemma ItemsFit(g: Grammar, key: string, required: bool, shape: Shape, items: seq<Json>)
    requires Direct(g) && EachAdmitted(g, shape, items)
    ensures Fits(g, Field(key, required, ListOf(shape)), (key, Some(Arr(items))))
  {
    ItemsAreAccepted(g, shape, items);
  }

  ghost predicate WrittenBelow<V(!new)>(g: Grammar, shape: Shape, write: V -> Json, m: Meaning)
    requires Direct(g)
  {
    m.Table? && forall k | k in m.fields && m.fields[k].List? ::
      forall x | x in m.fields[k].items && Normal(x) && Accepts(g, shape, x) :: Writes(write, x)
  }

  lemma EachBelow<V(!new)>(g: Grammar, fields: seq<Field>, m: Meaning, i: nat, key: string, shape: Shape,
                           write: V -> Json)
    returns (xs: seq<V>)
    requires Direct(g) && Given(g, fields, m) && i < |fields| && fields[i] == Field(key, true, ListOf(shape))
    requires WrittenBelow(g, shape, write, m)
    ensures Filled((key, Some(T.WriteEach(xs, write))), m)
  {
    FieldOf(g, fields, m, i);
    xs := PickEach(write, m.fields[key]);
  }

  lemma MaybeEachBelow<V(!new)>(g: Grammar, fields: seq<Field>, m: Meaning, i: nat, key: string, shape: Shape,
                                write: V -> Json)
    returns (xs: Option<seq<V>>)
    requires Direct(g) && Given(g, fields, m) && i < |fields| && fields[i] == Field(key, false, ListOf(shape))
    requires WrittenBelow(g, shape, write, m)
    ensures Filled((key, T.MaybeEach(xs, write)), m)
  {
    FieldOf(g, fields, m, i);
    xs := if key in m.fields then Some(PickEach(write, m.fields[key])) else None;
  }

  ghost predicate AllFilled(slots: seq<T.Slot>, m: Meaning) {
    m.Table? && forall i | 0 <= i < |slots| :: Filled(slots[i], m)
  }

  /** Slots with the names of the fields that fill a table with no other members are that table. */
  lemma FilledIsWritten(fields: seq<Field>, slots: seq<T.Slot>, m: Meaning)
    requires Named(fields, slots) && AllFilled(slots, m) && Covered(fields, m)
    ensures Clean(T.Object(slots)) && MeaningOf(T.Object(slots)) == m
  {
    forall k | k in m.fields ensures exists i :: 0 <= i < |slots| && slots[i].0 == k {
      var f :| f in fields && f.key == k;
      var i :| 0 <= i < |fields| && fields[i] == f;
      assert slots[i].0 == k;
    }
    ObjectIs(slots, m);
  }

  // ---------------------------------------------------------------- records

  ghost predicate Fills<V(!new)>(members: V -> seq<T.Slot>, m: Meaning) {
    exists x: V :: AllFilled(members(x), m)
  }

  lemma Filling<V(!new)>(members: V -> seq<T.Slot>, x: V, m: Meaning)
    requires AllFilled(members(x), m)
    ensures Fills(members, m)
  {
  }

  lemma NamedByFit(g: Grammar, fields: seq<Field>, slots: seq<T.Slot>)
    requires Direct(g) && AllFit(g, fields, slots)
    ensures Named(fields, slots)
  {
    forall i | 0 <= i < |fields| ensures fields[i].key == slots[i].0 {
      assert Fits(g, fields[i], slots[i]);
    }
  }

  lemma RecordIsWritten<V(!new)>(g: Grammar, shape: Shape, members: V -> seq<T.Slot>, write: V -> Json, m: Meaning)
    requires Direct(g) && shape.Record? && Normal(m) && Accepts(g, shape, m)
    requires forall x: V :: AllFit(g, shape.fields, members(x)) && write(x) == T.Object(members(x))
    requires forall m | Given(g, shape.fields, m) :: Fills(members, m)
    ensures Writes(write, m)
  {
    assert Given(g, shape.fields, m);
    var x: V :| AllFilled(members(x), m);
    NamedByFit(g, shape.fields, members(x));
    FilledIsWritten(shape.fields, members(x), m);
    Witness(write, x, m);
  }

  /** A record whose members fit its fields, and whose fields fill its members, is typed. */
  lemma RecordIsTyped<V(!new)>(g: Grammar, rule: Rule, members: V -> seq<T.Slot>, write: V -> Json)
    requires Direct(g) && g(rule).Record?
    requires forall x: V :: AllFit(g, g(rule).fields, members(x)) && write(x) == T.Object(members(x))
    requires forall m | Given(g, g(rule).fields, m) :: Fills(members, m)
    ensures Typed(g, Ref(rule), write)
  {
    forall x: V ensures Admits(g, Ref(rule), write(x)) {
      RecordIsAccepted(g, g(rule), members(x));
      RuleAccepts(g, rule, MeaningOf(write(x)));
    }
    forall m | Normal(m) && Accepts(g, Ref(rule), m) ensures Writes(write, m) {
      RuleAccepts(g, rule, m);
      RecordIsWritten(g, g(rule), members, write, m);
    }
  }

  lemma RecordIsAccepted(g: Grammar, shape: Shape, slots: seq<T.Slot>)
    requires Direct(g) && shape.Record? && AllFit(g, shape.fields, slots)
    ensures Admits(g, shape, T.Object(slots))
  {
    FittingIsAccepted(g, shape.fields, slots);
  }

  lemma RuleAccepts(g: Grammar, rule: Rule, m: Meaning)
    requires Direct(g)
    ensures Accepts(g, Ref(rule), m) <==> Accepts(g, g(rule), m)
  {
  }

  /** What is typed at the shape of a rule is typed at the rule. */
  lemma RuleIsTyped<V(!new)>(g: Grammar, rule: Rule, write: V -> Json)
    requires Direct(g) && Typed(g, g(rule), write)
    ensures Typed(g, Ref(rule), write)
  {
    RuleAcceptsAll(g, rule, write);
    RuleWritesAll(g, rule, write);
  }

  lemma RuleAcceptsAll<V(!new)>(g: Grammar, rule: Rule, write: V -> Json)
    requires Direct(g) && AllAccepted(g, g(rule), write)
    ensures AllAccepted(g, Ref(rule), write)
  {
    forall x: V ensures Admits(g, Ref(rule), write(x)) {
      RuleAccepts(g, rule, MeaningOf(write(x)));
    }
  }

  lemma RuleWritesAll<V(!new)>(g: Grammar, rule: Rule, write: V -> Json)
    requires Direct(g) && AllWritten(g, g(rule), write)
    ensures AllWritten(g, Ref(rule), write)
  {
    forall m | Normal(m) && Accepts(g, Ref(rule), m) ensures Writes(write, m) {
      RuleAccepts(g, rule, m);
    }
  }

  // ---------------------------------------------------------------- unions

  ghost predicate DistinctTags(variants: seq<Variant>) {
    forall i, j | 0 <= i < j < |variants| :: variants[i].tag != variants[j].tag
  }

  lemma {:induction false} VariantIs(variants: seq<Variant>, i: nat)
    requires i < |variants| && DistinctTags(variants)
    ensures VariantFor(variants, Str(variants[i].tag)) == [variants[i]]
  {
    if i > 0 {
      assert variants[0].tag != variants[i].tag;
      assert forall j | 0 <= j < |variants[1..]| :: variants[1..][j] == variants[j + 1];
      VariantIs(variants[1..], i - 1);
    }
  }

  /** The variant that an accepted table is one of. */
  lemma FoundVariant(g: Grammar, shape: Shape, m: Meaning) returns (found: Variant)
    requires Direct(g) && shape.Union? && Normal(m) && Accepts(g, shape, m)
    ensures found in shape.variants && Given(g, found.fields, m) && Covered(found.fields, m)
  {
    found := VariantFor(shape.variants, m.fields[shape.tag].v)[0];
  }

  /** Slots that fit a variant, its tag among them, are accepted by the union. */
  lemma VariantIsAccepted(g: Grammar, shape: Shape, i: nat, n: nat, slots: seq<T.Slot>)
    requires Direct(g) && shape.Union? && i < |shape.variants| && DistinctTags(shape.variants)
    requires n < |shape.variants[i].fields|
    requires shape.variants[i].fields[n] == Field(shape.tag, true, Strings([shape.variants[i].tag]))
    requires AllFit(g, shape.variants[i].fields, slots)
    requires forall f | f in shape.early :: f in shape.variants[i].fields
    ensures Clean(T.Object(slots)) && Accepts(g, shape, MeaningOf(T.Object(slots)))
  {
    var v, m := shape.variants[i], MeaningOf(T.Object(slots));
    FittingIsAccepted(g, v.fields, slots);
    assert v.fields[n] in v.fields;
    assert m.fields[shape.tag].v == Str(v.tag);
    VariantIs(shape.variants, i);
  }
}
