/** The check that an untrusted object graph is JSON: finite numbers, dense arrays, plain objects
    with ordinary members, and no cycle. Objects may be shared. */
module ObjectGraph {
  import opened Json
  import opened DecodeProofs

  datatype Value =
    | Plain(atom: Json)      // null, a boolean, a string or any number
    | Foreign                // undefined, a function, a symbol, a big integer
    | Ref(id: nat)

  datatype Slot = Hole | Filled(value: Value)

  /** A property as reflection shows it; ordinary ones are enumerable data properties. */
  datatype Property = SymbolKey | Accessor(key: string) | Ordinary(key: string, value: Value)

  datatype Node = ArrayNode(slots: seq<Slot>) | ObjectNode(plainPrototype: bool, properties: seq<Property>)

  type Heap = map<nat, Node>

  function Contents(node: Node): (r: seq<Value>) {
    match node
    case ArrayNode(slots) => SlotValues(slots)
    case ObjectNode(_, properties) => PropertyValues(properties)
  }

  function SlotValues(slots: seq<Slot>): (r: seq<Value>) {
    if slots == [] then []
    else (if slots[0].Filled? then [slots[0].value] else []) + SlotValues(slots[1..])
  }

  function PropertyValue(p: Property): seq<Value> {
    if p.Ordinary? then [p.value] else []
  }

  function PropertyValues(properties: seq<Property>): (r: seq<Value>) {
    if properties == [] then [] else PropertyValue(properties[0]) + PropertyValues(properties[1..])
  }

  /** A finite object graph: every reference leads to an object. */
  ghost predicate Closed(heap: Heap) {
    forall id, v | id in heap && v in Contents(heap[id]) :: Inside(heap, v)
  }

  ghost predicate Inside(heap: Heap, v: Value) {
    v.Ref? ==> v.id in heap
  }

  predicate LegalAtom(v: Value) {
    v.Ref? || (v.Plain? && (v.atom.Null? || v.atom.Bool? || v.atom.Str? ||
      (v.atom.Num? && (v.atom.n.Finite? || v.atom.n.NegativeZero?))))
  }

  /** Nothing is wrong with the object itself. */
  predicate LegalNode(node: Node) {
    match node
    case ArrayNode(slots) => forall s | s in slots :: s.Filled?
    case ObjectNode(plainPrototype, properties) => plainPrototype && forall p | p in properties :: p.Ordinary?
  }

  // ---------------------------------------------------------------- reachability

  ghost predicate Edge(heap: Heap, a: nat, b: nat) {
    a in heap && Ref(b) in Contents(heap[a])
  }

  ghost predicate Steps(heap: Heap, a: nat, b: nat, n: nat)
    decreases n
  {
    if n == 0 then a == b else exists c :: Edge(heap, a, c) && Steps(heap, c, b, n - 1)
  }

  ghost predicate Reaches(heap: Heap, a: nat, b: nat) {
    exists n: nat :: Steps(heap, a, b, n)
  }

  ghost predicate OnCycle(heap: Heap, x: nat) {
    exists c :: Edge(heap, x, c) && Reaches(heap, c, x)
  }

  /** The object is well made, all it holds directly is legal, and it does not contain itself. */
  ghost predicate SoundNode(heap: Heap, x: nat) {
    x in heap && LegalNode(heap[x]) && (forall v | v in Contents(heap[x]) :: LegalAtom(v)) && !OnCycle(heap, x)
  }

  ghost predicate Sound(heap: Heap, v: Value) {
    LegalAtom(v) && (v.Ref? ==> forall x | Reaches(heap, v.id, x) :: SoundNode(heap, x))
  }

  ghost predicate Avoids(heap: Heap, v: Value, active: set<nat>) {
    v.Ref? ==> forall x | Reaches(heap, v.id, x) :: x !in active
  }

  lemma ReachesSelf(heap: Heap, a: nat)
    ensures Reaches(heap, a, a)
  {
    assert Steps(heap, a, a, 0);
  }

  lemma ReachesThroughEdge(heap: Heap, a: nat, c: nat, x: nat)
    requires Edge(heap, a, c) && Reaches(heap, c, x)
    ensures Reaches(heap, a, x)
  {
    var n: nat :| Steps(heap, c, x, n);
    assert Steps(heap, a, x, n + 1);
  }

  lemma ReachesSplits(heap: Heap, a: nat, x: nat)
    requires Reaches(heap, a, x) && a != x
    ensures exists c :: Edge(heap, a, c) && Reaches(heap, c, x)
  {
    var n: nat :| Steps(heap, a, x, n);
    var c :| Edge(heap, a, c) && Steps(heap, c, x, n - 1);
    assert Reaches(heap, c, x);
  }

  // ---------------------------------------------------------------- the check

  /** What the recursion decides, given the objects that are being visited. */
  ghost predicate Accepted(heap: Heap, v: Value, active: set<nat>)
    decreases heap.Keys - active
  {
    if !v.Ref? then LegalAtom(v)
    else
      v.id in heap && v.id !in active && LegalNode(heap[v.id]) &&
      forall c | c in Contents(heap[v.id]) :: Accepted(heap, c, active + {v.id})
  }

  /** The set of objects under visit; a failure leaves it as it is, a normal return restores it. */
  class Checker {
    var active: set<nat>

    constructor ()
      ensures active == {}
    {
      active := {};
    }

    method AssertJsonCompatible(heap: Heap, input: Value) returns (ok: bool)
      requires Closed(heap) && Inside(heap, input)
      modifies this
      ensures ok <==> Accepted(heap, input, old(active))
      ensures ok ==> active == old(active)
      decreases heap.Keys - active, 1
    {
      if input.Plain? {
        return LegalAtom(input);
      }
      if input.Foreign? {
        return false;
      }
      if input.id in active {
        return false;
      }
      ghost var before := active;
      active := active + {input.id};
      if heap[input.id].ArrayNode? {
        ok := CheckSlots(heap, heap[input.id].slots);
      } else if !heap[input.id].plainPrototype {
        return false;
      } else {
        ok := CheckProperties(heap, heap[input.id].properties);
      }
      assert ok <==>
        LegalNode(heap[input.id]) && forall c | c in Contents(heap[input.id]) :: Accepted(heap, c, before + {input.id});
      if ok {
        active := active - {input.id};
      }
    }

    method CheckSlots(heap: Heap, slots: seq<Slot>) returns (ok: bool)
      requires Closed(heap) && forall v | v in SlotValues(slots) :: Inside(heap, v)
      modifies this
      ensures ok <==>
        (forall s | s in slots :: s.Filled?) && forall v | v in SlotValues(slots) :: Accepted(heap, v, old(active))
      ensures ok ==> active == old(active)
      decreases heap.Keys - active, 2
    {
      for index := 0 to |slots|
        invariant active == old(active)
        invariant forall s | s in slots[..index] :: s.Filled?
        invariant forall v | v in SlotValues(slots[..index]) :: Accepted(heap, v, old(active))
      {
        SlotValuesPush(slots[..index], slots[index], slots[index + 1..]);
        assert slots[..index] + [slots[index]] == slots[..index + 1];
        assert slots[..index] + [slots[index]] + slots[index + 1..] == slots;
        if slots[index].Hole? {
          assert slots[index] in slots;
          return false;
        }
        var fine := AssertJsonCompatible(heap, slots[index].value);
        if !fine {
          return false;
        }
      }
      assert slots[..|slots|] == slots;
      return true;
    }

    method CheckProperties(heap: Heap, properties: seq<Property>) returns (ok: bool)
      requires Closed(heap) && forall v | v in PropertyValues(properties) :: Inside(heap, v)
      modifies this
      ensures ok <==>
        (forall p | p in properties :: p.Ordinary?) && forall v | v in PropertyValues(properties) ::
          Accepted(heap, v, old(active))
      ensures ok ==> active == old(active)
      decreases heap.Keys - active, 2
    {
      for index := 0 to |properties|
        invariant active == old(active)
        invariant forall p | p in properties[..index] :: p.Ordinary?
        invariant forall v | v in PropertyValues(properties[..index]) :: Accepted(heap, v, old(active))
      {
        PropertyValuesPush(properties[..index], properties[index], properties[index + 1..]);
        assert properties[..index] + [properties[index]] == properties[..index + 1];
        assert properties[..index] + [properties[index]] + properties[index + 1..] == properties;
        if !properties[index].Ordinary? {
          assert properties[index] in properties;
          return false;
        }
        var fine := AssertJsonCompatible(heap, properties[index].value);
        if !fine {
          return false;
        }
      }
      assert properties[..|properties|] == properties;
      return true;
    }
  }

  lemma Regroup(a: seq<Value>, b: seq<Value>, c: seq<Value>)
    ensures a + (b + c) == a + b + c
  {
  }

  lemma {:induction false} SlotValuesConcat(s: seq<Slot>, t: seq<Slot>)
    ensures SlotValues(s + t) == SlotValues(s) + SlotValues(t)
  {
    if s == [] {
      assert s + t == t;
    } else {
      var first := if s[0].Filled? then [s[0].value] else [];
      SlotValuesConcat(s[1..], t);
      assert (s + t)[0] == s[0] && (s + t)[1..] == s[1..] + t;
      Regroup(first, SlotValues(s[1..]), SlotValues(t));
    }
  }

  lemma SlotValuesPush(s: seq<Slot>, x: Slot, t: seq<Slot>)
    ensures SlotValues(s + [x]) == SlotValues(s) + (if x.Filled? then [x.value] else [])
    ensures SlotValues(s + [x] + t) == SlotValues(s) + (if x.Filled? then [x.value] else []) + SlotValues(t)
  {
    SlotValuesConcat(s, [x]);
    SlotValuesConcat(s + [x], t);
  }

  lemma {:induction false} PropertyValuesConcat(s: seq<Property>, t: seq<Property>)
    ensures PropertyValues(s + t) == PropertyValues(s) + PropertyValues(t)
  {
    if s == [] {
      assert s + t == t;
    } else {
      PropertyValuesConcat(s[1..], t);
      assert (s + t)[0] == s[0] && (s + t)[1..] == s[1..] + t;
      Regroup(PropertyValue(s[0]), PropertyValues(s[1..]), PropertyValues(t));
    }
  }

  lemma PropertyValuesPush(s: seq<Property>, x: Property, t: seq<Property>)
    ensures PropertyValues(s + [x]) == PropertyValues(s) + (if x.Ordinary? then [x.value] else [])
    ensures PropertyValues(s + [x] + t) ==
      PropertyValues(s) + (if x.Ordinary? then [x.value] else []) + PropertyValues(t)
  {
    PropertyValuesConcat(s, [x]);
    PropertyValuesConcat(s + [x], t);
  }

  // ---------------------------------------------------------------- the theorem

  /** The check accepts exactly the graphs in which everything reachable is legal and nothing
      reachable lies on a cycle; objects under visit count as a cycle if they are met again. */
  lemma {:induction false} AcceptedMeansSound(heap: Heap, v: Value, active: set<nat>)
    ensures Accepted(heap, v, active) <==> Sound(heap, v) && Avoids(heap, v, active)
    decreases heap.Keys - active
  {
    if v.Ref? {
      ReachesSelf(heap, v.id);
      if v.id in heap && v.id !in active {
        forall c | c in Contents(heap[v.id])
          ensures Accepted(heap, c, active + {v.id}) <==> Sound(heap, c) && Avoids(heap, c, active + {v.id})
        {
          AcceptedMeansSound(heap, c, active + {v.id});
        }
        if Accepted(heap, v, active) {
          AcceptedIsSound(heap, v, active);
        }
        if Sound(heap, v) && Avoids(heap, v, active) {
          SoundPartsAreAccepted(heap, v, active);
        }
      }
    }
  }

  // ---------------------------------------------------------------- soundness from the inside

  /** Every part of an array is there, every part of an object is an ordinary member of an ordinary
      object, and all of them are sound. */
  ghost predicate SoundParts(heap: Heap, node: Node) {
    match node
    case ArrayNode(slots) => forall i | 0 <= i < |slots| :: slots[i].Filled? && Sound(heap, slots[i].value)
    case ObjectNode(plainPrototype, properties) =>
      plainPrototype && forall i | 0 <= i < |properties| :: properties[i].Ordinary? && Sound(heap, properties[i].value)
  }

  /** Sound are null, booleans, texts and finite numbers, and the objects with sound parts that do not
      contain themselves. */
  lemma SoundExactlyWhen(heap: Heap, v: Value)
    ensures Sound(heap, v) <==>
      match v
      case Foreign => false
      case Plain(atom) =>
        atom == Null || atom.Bool? || atom.Str? || (atom.Num? && atom.n !in {NaN, Infinite(true), Infinite(false)})
      case Ref(id) => id in heap && !OnCycle(heap, id) && SoundParts(heap, heap[id])
  {
    if v.Ref? {
      ReachesSelf(heap, v.id);
      if v.id in heap {
        PartsAreContents(heap, heap[v.id]);
        if LegalNode(heap[v.id]) && !OnCycle(heap, v.id) && forall c | c in Contents(heap[v.id]) :: Sound(heap, c) {
          SoundFromContents(heap, v.id);
        } else if Sound(heap, v) {
          forall c | c in Contents(heap[v.id]) ensures Sound(heap, c) {
            ContentIsSound(heap, v.id, c);
          }
        }
      }
    }
  }

  lemma SoundFromContents(heap: Heap, id: nat)
    requires id in heap && LegalNode(heap[id]) && !OnCycle(heap, id)
    requires forall c | c in Contents(heap[id]) :: Sound(heap, c)
    ensures Sound(heap, Ref(id))
  {
    forall x | Reaches(heap, id, x) ensures SoundNode(heap, x) {
      if x != id {
        ReachesSplits(heap, id, x);
        var c :| Edge(heap, id, c) && Reaches(heap, c, x);
        assert Sound(heap, Ref(c));
      }
    }
  }

  lemma ContentIsSound(heap: Heap, id: nat, c: Value)
    requires id in heap && Sound(heap, Ref(id)) && c in Contents(heap[id])
    ensures Sound(heap, c)
  {
    ReachesSelf(heap, id);
    if c.Ref? {
      forall x | Reaches(heap, c.id, x) ensures SoundNode(heap, x) {
        ReachesThroughEdge(heap, id, c.id, x);
      }
    }
  }

  lemma PartsAreContents(heap: Heap, node: Node)
    ensures SoundParts(heap, node) <==> LegalNode(node) && forall c | c in Contents(node) :: Sound(heap, c)
  {
    match node
    case ArrayNode(slots) => SlotParts(heap, slots);
    case ObjectNode(_, properties) => PropertyParts(heap, properties);
  }

  lemma {:induction false} SlotParts(heap: Heap, slots: seq<Slot>)
    ensures (forall i | 0 <= i < |slots| :: slots[i].Filled? && Sound(heap, slots[i].value)) <==>
      (forall s | s in slots :: s.Filled?) && forall c | c in SlotValues(slots) :: Sound(heap, c)
  {
    if slots != [] {
      SlotParts(heap, slots[1..]);
      assert forall i | 0 < i < |slots| :: slots[i] == slots[1..][i - 1];
      assert forall s :: s in slots <==> s == slots[0] || s in slots[1..];
    }
  }

  lemma {:induction false} PropertyParts(heap: Heap, properties: seq<Property>)
    ensures (forall i | 0 <= i < |properties| :: properties[i].Ordinary? && Sound(heap, properties[i].value)) <==>
      (forall p | p in properties :: p.Ordinary?) && forall c | c in PropertyValues(properties) :: Sound(heap, c)
  {
    if properties != [] {
      PropertyParts(heap, properties[1..]);
      assert forall i | 0 < i < |properties| :: properties[i] == properties[1..][i - 1];
      assert forall p :: p in properties <==> p == properties[0] || p in properties[1..];
    }
  }

  lemma AcceptedIsSound(heap: Heap, v: Value, active: set<nat>)
    requires v.Ref? && v.id in heap && v.id !in active && LegalNode(heap[v.id])
    requires forall c | c in Contents(heap[v.id]) :: Sound(heap, c) && Avoids(heap, c, active + {v.id})
    ensures Sound(heap, v) && Avoids(heap, v, active)
  {
    forall x | Reaches(heap, v.id, x) ensures SoundNode(heap, x) && x !in active {
      if x == v.id {
        forall c | Edge(heap, x, c) ensures !Reaches(heap, c, x) {
          assert Avoids(heap, Ref(c), active + {v.id});
        }
      } else {
        ReachesSplits(heap, v.id, x);
        var c :| Edge(heap, v.id, c) && Reaches(heap, c, x);
        assert Sound(heap, Ref(c)) && Avoids(heap, Ref(c), active + {v.id});
      }
    }
  }

  lemma SoundPartsAreAccepted(heap: Heap, v: Value, active: set<nat>)
    requires v.Ref? && v.id in heap && Sound(heap, v) && Avoids(heap, v, active)
    ensures LegalNode(heap[v.id])
    ensures forall c | c in Contents(heap[v.id]) :: Sound(heap, c) && Avoids(heap, c, active + {v.id})
  {
    ReachesSelf(heap, v.id);
    assert SoundNode(heap, v.id);
    forall c | c in Contents(heap[v.id]) ensures Sound(heap, c) && Avoids(heap, c, active + {v.id}) {
      if c.Ref? {
        assert Edge(heap, v.id, c.id);
        forall x | Reaches(heap, c.id, x) ensures SoundNode(heap, x) && x !in active + {v.id} {
          ReachesThroughEdge(heap, v.id, c.id, x);
          if x == v.id {
            assert OnCycle(heap, v.id);
          }
        }
      }
    }
  }

  /** The whole check: an input is let through exactly when it is JSON and unfolds to a tree. */
  method CheckInput(heap: Heap, input: Value) returns (ok: bool)
    requires Closed(heap) && Inside(heap, input)
    ensures ok <==> Sound(heap, input)
  {
    var checker := new Checker();
    AcceptedMeansSound(heap, input, {});
    ok := checker.AssertJsonCompatible(heap, input);
  }

  // ---------------------------------------------------------------- unfolding

  ghost predicate DistinctNames(properties: seq<Property>) {
    forall i, j | 0 <= i < j < |properties| && properties[i].Ordinary? && properties[j].Ordinary? ::
      properties[i].key != properties[j].key
  }

  /** The JSON value an accepted graph stands for; shared objects are repeated. */
  ghost function Unfold(heap: Heap, v: Value, active: set<nat>): (r: Json)
    requires Accepted(heap, v, active)
    decreases heap.Keys - active, 1, 0
  {
    if v.Plain? then v.atom
    else match heap[v.id]
      case ArrayNode(slots) => Arr(UnfoldSlots(heap, v.id, slots, active))
      case ObjectNode(_, properties) => Obj(UnfoldProperties(heap, v.id, properties, active))
  }

  ghost function UnfoldSlots(heap: Heap, id: nat, slots: seq<Slot>, active: set<nat>): (r: seq<Json>)
    requires id in heap && id !in active && (forall s | s in slots :: s.Filled?)
    requires forall c | c in SlotValues(slots) :: Accepted(heap, c, active + {id})
    decreases heap.Keys - active, 0, |slots|
  {
    if slots == [] then []
    else [Unfold(heap, slots[0].value, active + {id})] + UnfoldSlots(heap, id, slots[1..], active)
  }

  ghost function UnfoldProperties(heap: Heap, id: nat, properties: seq<Property>, active: set<nat>): (r: seq<Member>)
    requires id in heap && id !in active && (forall p | p in properties :: p.Ordinary?)
    requires forall c | c in PropertyValues(properties) :: Accepted(heap, c, active + {id})
    decreases heap.Keys - active, 0, |properties|
  {
    if properties == [] then []
    else [Member(properties[0].key, Unfold(heap, properties[0].value, active + {id}))]
         + UnfoldProperties(heap, id, properties[1..], active)
  }

  /** What the check lets through is what the decoder relies on. */
  lemma {:induction false} UnfoldIsClean(heap: Heap, v: Value, active: set<nat>)
    requires Accepted(heap, v, active)
    requires forall id | id in heap && heap[id].ObjectNode? :: DistinctNames(heap[id].properties)
    ensures Clean(Unfold(heap, v, active))
    decreases heap.Keys - active, 1, 0
  {
    if v.Ref? {
      match heap[v.id]
      case ArrayNode(slots) => UnfoldSlotsAreClean(heap, v.id, slots, active);
      case ObjectNode(_, properties) => UnfoldPropertiesAreClean(heap, v.id, properties, active);
    }
  }

  lemma {:induction false} UnfoldSlotsAreClean(heap: Heap, id: nat, slots: seq<Slot>, active: set<nat>)
    requires id in heap && id !in active && (forall s | s in slots :: s.Filled?)
    requires forall c | c in SlotValues(slots) :: Accepted(heap, c, active + {id})
    requires forall x | x in heap && heap[x].ObjectNode? :: DistinctNames(heap[x].properties)
    ensures forall x | x in UnfoldSlots(heap, id, slots, active) :: Clean(x)
    decreases heap.Keys - active, 0, |slots|
  {
    if slots != [] {
      UnfoldIsClean(heap, slots[0].value, active + {id});
      UnfoldSlotsAreClean(heap, id, slots[1..], active);
    }
  }

  lemma {:induction false} UnfoldPropertiesAreClean(heap: Heap, id: nat, properties: seq<Property>, active: set<nat>)
    requires id in heap && id !in active && (forall p | p in properties :: p.Ordinary?)
    requires forall c | c in PropertyValues(properties) :: Accepted(heap, c, active + {id})
    requires forall x | x in heap && heap[x].ObjectNode? :: DistinctNames(heap[x].properties)
    requires DistinctNames(properties)
    ensures var ms := UnfoldProperties(heap, id, properties, active);
      |ms| == |properties| && (forall i | 0 <= i < |ms| :: ms[i].key == properties[i].key) &&
      DistinctKeys(ms) && forall m | m in ms :: Clean(m.value)
    decreases heap.Keys - active, 0, |properties|
  {
    if properties != [] {
      UnfoldIsClean(heap, properties[0].value, active + {id});
      assert DistinctNames(properties[1..]) by {
        forall i, j | 0 <= i < j < |properties[1..]| ensures properties[1..][i].key != properties[1..][j].key {
          assert properties[i + 1].key != properties[j + 1].key;
        }
      }
      UnfoldPropertiesAreClean(heap, id, properties[1..], active);
    }
  }
}
