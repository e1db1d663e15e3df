/** Registers of names: each one is looked up and entered, and one that is there already is reported. */
module Uniqueness {
  import opened Sequences

  /** Registering the values one after the other meets none twice. */
  ghost predicate AllNew(xs: seq<string>, seen: set<string>) {
    xs == [] || (xs[0] !in seen && AllNew(xs[1..], seen + {xs[0]}))
  }

  ghost function Elements(xs: seq<string>): set<string> {
    set x | x in xs
  }

  lemma {:induction false} AllNewConcat(a: seq<string>, b: seq<string>, seen: set<string>)
    ensures AllNew(a + b, seen) <==> AllNew(a, seen) && AllNew(b, seen + Elements(a))
    decreases |a|
  {
    if a == [] {
      assert a + b == b && seen + Elements(a) == seen;
    } else {
      AllNewConcat(a[1..], b, seen + {a[0]});
      assert (a + b)[1..] == a[1..] + b;
      assert seen + {a[0]} + Elements(a[1..]) == seen + Elements(a);
    }
  }

  lemma {:induction false} AllNewMeaning(xs: seq<string>, seen: set<string>)
    ensures AllNew(xs, seen) <==> NoDuplicates(xs) && forall x | x in xs :: x !in seen
    decreases |xs|
  {
    if xs != [] {
      AllNewMeaning(xs[1..], seen + {xs[0]});
      assert forall x | x in xs :: x == xs[0] || x in xs[1..];
      if NoDuplicates(xs) {
        forall x | x in xs[1..] ensures x != xs[0] {
          var i :| 0 <= i < |xs[1..]| && xs[1..][i] == x;
          assert xs[i + 1] == x;
        }
      }
      if AllNew(xs, seen) {
        DistinctHead(xs);
      }
    }
  }

  lemma DistinctHead(xs: seq<string>)
    requires xs != [] && xs[0] !in xs[1..] && NoDuplicates(xs[1..])
    ensures NoDuplicates(xs)
  {
    forall i, j | 0 <= i < j < |xs| ensures xs[i] != xs[j] {
      assert xs[j] == xs[1..][j - 1];
      if i > 0 {
        assert xs[i] == xs[1..][i - 1];
      }
    }
  }

  lemma JustOne(x: string, seen: set<string>)
    ensures AllNew([x], seen) <==> x !in seen
    ensures Elements([x]) == {x} && Elements([]) == {} && AllNew([], seen)
  {
    assert [x][1..] == [];
  }
}
