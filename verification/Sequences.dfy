/** Filtering, stable sorting and relative order in sequences. */
module Sequences {

  function Filter<T(!new)>(s: seq<T>, keep: T -> bool): (r: seq<T>)
    ensures forall x :: x in r <==> x in s && keep(x)
  {
    if s == [] then []
    else if keep(s[0]) then [s[0]] + Filter(s[1..], keep)
    else Filter(s[1..], keep)
  }

  lemma {:induction false} FilterConcat<T(!new)>(s: seq<T>, t: seq<T>, keep: T -> bool)
    ensures Filter(s + t, keep) == Filter(s, keep) + Filter(t, keep)
  {
    if s == [] {
      assert s + t == t;
    } else {
      FilterConcat(s[1..], t, keep);
      assert (s + t)[1..] == s[1..] + t;
    }
  }

  lemma Associative<T>(a: seq<T>, b: seq<T>, c: seq<T>)
    ensures (a + b) + c == a + (b + c)
  {
  }

  ghost predicate NoDuplicates<T>(s: seq<T>) {
    forall i, j | 0 <= i < j < |s| :: s[i] != s[j]
  }

  /** Some occurrence of x lies before some occurrence of y. */
  ghost predicate Before<T(!new)>(s: seq<T>, x: T, y: T) {
    s != [] && ((s[0] == x && y in s[1..]) || Before(s[1..], x, y))
  }

  lemma {:induction false} BeforeMeaning<T(!new)>(s: seq<T>, x: T, y: T)
    ensures Before(s, x, y) <==> exists i, j :: 0 <= i < j < |s| && s[i] == x && s[j] == y
  {
    if s != [] {
      var t := s[1..];
      BeforeMeaning(t, x, y);
      if i, j :| 0 <= i < j < |s| && s[i] == x && s[j] == y {
        assert t[j - 1] == y;
        if i > 0 {
          assert t[i - 1] == x;
        }
      }
      if s[0] == x && y in t {
        var j :| 0 <= j < |t| && t[j] == y;
        assert s[0] == x && s[j + 1] == y;
      } else if Before(t, x, y) {
        var i, j :| 0 <= i < j < |t| && t[i] == x && t[j] == y;
        assert s[i + 1] == x && s[j + 1] == y;
      }
    }
  }

  lemma {:induction false} BeforeInConcat<T(!new)>(s: seq<T>, t: seq<T>, x: T, y: T)
    requires Before(s, x, y) || Before(t, x, y) || (x in s && y in t)
    ensures Before(s + t, x, y)
  {
    if s == [] {
      assert s + t == t;
    } else {
      assert (s + t)[1..] == s[1..] + t;
      if !(s[0] == x && y in s[1..] + t) {
        BeforeInConcat(s[1..], t, x, y);
      }
    }
  }

  lemma NoDuplicatesConcat<T(!new)>(s: seq<T>, t: seq<T>)
    requires NoDuplicates(s) && NoDuplicates(t)
    requires forall x | x in s :: x !in t
    ensures NoDuplicates(s + t)
  {
    forall i, j | 0 <= i < j < |s + t| ensures (s + t)[i] != (s + t)[j] {
      if i < |s| <= j {
        assert (s + t)[i] in s && (s + t)[j] in t;
      }
    }
  }

  lemma {:induction false} NoDuplicatesFilter<T(!new)>(s: seq<T>, keep: T -> bool)
    requires NoDuplicates(s)
    ensures NoDuplicates(Filter(s, keep))
  {
    if s != [] {
      NoDuplicatesFilter(s[1..], keep);
      assert s[0] !in s[1..];
    }
  }

  lemma {:induction false} BeforeInFilter<T(!new)>(s: seq<T>, keep: T -> bool, x: T, y: T)
    requires Before(s, x, y) && keep(x) && keep(y)
    ensures Before(Filter(s, keep), x, y)
  {
    var rest := Filter(s[1..], keep);
    if !(s[0] == x && y in s[1..]) {
      BeforeInFilter(s[1..], keep, x, y);
    }
    BeforeInConcat([s[0]], rest, x, y);
  }

  /** Puts x in front of the first element whose key is not smaller. */
  function Insert<T(!new)>(x: T, s: seq<T>, key: T -> int): (r: seq<T>)
    ensures forall y :: y in r <==> y == x || y in s
    ensures multiset(r) == multiset{x} + multiset(s)
  {
    assert s != [] ==> s == [s[0]] + s[1..];
    if s == [] || key(x) <= key(s[0]) then [x] + s
    else [s[0]] + Insert(x, s[1..], key)
  }

  /** The stable sort of the language: by key, equal keys in their old order. */
  function SortBy<T(!new)>(s: seq<T>, key: T -> int): (r: seq<T>)
    ensures forall x :: x in r <==> x in s
    ensures multiset(r) == multiset(s)
  {
    assert s != [] ==> s == [s[0]] + s[1..];
    if s == [] then [] else Insert(s[0], SortBy(s[1..], key), key)
  }

  ghost predicate Ordered<T(!new)>(s: seq<T>, key: T -> int) {
    s != [] ==> (forall x | x in s[1..] :: key(s[0]) <= key(x)) && Ordered(s[1..], key)
  }

  lemma {:induction false} InsertKeepsOrdered<T(!new)>(x: T, s: seq<T>, key: T -> int)
    requires Ordered(s, key)
    ensures Ordered(Insert(x, s, key), key)
  {
    if s == [] || key(x) <= key(s[0]) {
      assert ([x] + s)[1..] == s;
    } else {
      InsertKeepsOrdered(x, s[1..], key);
      assert Insert(x, s, key)[1..] == Insert(x, s[1..], key);
    }
  }

  lemma {:induction false} InsertKeepsDistinct<T(!new)>(x: T, s: seq<T>, key: T -> int)
    requires x !in s && NoDuplicates(s)
    ensures NoDuplicates(Insert(x, s, key))
  {
    if s == [] || key(x) <= key(s[0]) {
      NoDuplicatesConcat([x], s);
    } else {
      InsertKeepsDistinct(x, s[1..], key);
      assert s[0] !in s[1..];
      NoDuplicatesConcat([s[0]], Insert(x, s[1..], key));
    }
  }

  lemma {:induction false} InsertKeepsBefore<T(!new)>(x: T, s: seq<T>, key: T -> int, a: T, b: T)
    requires Before(s, a, b) || (a == x && b in s && key(x) <= key(b))
    requires Ordered(s, key)
    ensures Before(Insert(x, s, key), a, b)
  {
    if key(x) <= key(s[0]) {
      BeforeInConcat([x], s, a, b);
    } else {
      var u := Insert(x, s[1..], key);
      if !(s[0] == a && b in s[1..]) {
        InsertKeepsBefore(x, s[1..], key, a, b);
      }
      BeforeInConcat([s[0]], u, a, b);
    }
  }

  lemma {:induction false} SortByOrders<T(!new)>(s: seq<T>, key: T -> int)
    ensures Ordered(SortBy(s, key), key) && multiset(SortBy(s, key)) == multiset(s)
    ensures NoDuplicates(s) ==> NoDuplicates(SortBy(s, key))
  {
    if s != [] {
      SortByOrders(s[1..], key);
      InsertKeepsOrdered(s[0], SortBy(s[1..], key), key);
      if NoDuplicates(s) {
        assert s[0] !in s[1..];
        InsertKeepsDistinct(s[0], SortBy(s[1..], key), key);
      }
    }
  }

  /** The sort is stable: an element with no larger key that came first still comes first. */
  lemma {:induction false} SortByIsStable<T(!new)>(s: seq<T>, key: T -> int, a: T, b: T)
    requires Before(s, a, b) && key(a) <= key(b)
    ensures Before(SortBy(s, key), a, b)
  {
    if !(s[0] == a && b in s[1..]) {
      SortByIsStable(s[1..], key, a, b);
    }
    SortByOrders(s[1..], key);
    InsertKeepsBefore(s[0], SortBy(s[1..], key), key, a, b);
  }

  lemma {:induction false} OrderedSmallerFirst<T(!new)>(r: seq<T>, key: T -> int, a: T, b: T)
    requires Ordered(r, key) && a in r && b in r && key(a) < key(b)
    ensures Before(r, a, b)
  {
    if r[0] != a {
      assert a in r[1..] && r[0] != b;
      OrderedSmallerFirst(r[1..], key, a, b);
    }
  }

  /** Of two elements, the one with the smaller key comes first. */
  lemma SmallerKeyFirst<T(!new)>(s: seq<T>, key: T -> int, a: T, b: T)
    requires a in s && b in s && key(a) < key(b)
    ensures Before(SortBy(s, key), a, b)
  {
    SortByOrders(s, key);
    OrderedSmallerFirst(SortBy(s, key), key, a, b);
  }
}
