/** Strings in the order of the comparison operators of the language, which compares UTF-16 units:
    a character above U+FFFF, being a pair of surrogates, comes before U+E000. */
module Text {

  /** The place of a character in the order of units: the surrogates are where UTF-16 has them. */
  function Rank(c: char): (rank: int) {
    if c as int < 0xD800 then c as int
    else if c as int < 0x1_0000 then c as int + 0x10_0000
    else c as int - 0x1_0000 + 0xD800
  }

  predicate Less(a: string, b: string) {
    b != [] && (a == [] || Rank(a[0]) < Rank(b[0]) || (a[0] == b[0] && Less(a[1..], b[1..])))
  }

  lemma RankIsInjective(c: char, d: char)
    ensures Rank(c) == Rank(d) <==> c == d
  {
  }

  lemma {:induction false} LessIsTotal(a: string, b: string)
    ensures Less(a, b) || Less(b, a) || a == b
    ensures !(Less(a, b) && Less(b, a)) && !Less(a, a)
    decreases |a|
  {
    if a != [] {
      if b != [] {
        RankIsInjective(a[0], b[0]);
        if a[0] == b[0] {
          LessIsTotal(a[1..], b[1..]);
          assert a == [a[0]] + a[1..] && b == [b[0]] + b[1..];
        }
      }
      LessIsTotal(a[1..], a[1..]);
    }
  }

  lemma {:induction false} LessIsTransitive(a: string, b: string, c: string)
    requires Less(a, b) && Less(b, c)
    ensures Less(a, c)
    decreases |a|
  {
    if a != [] && a[0] == b[0] == c[0] {
      LessIsTransitive(a[1..], b[1..], c[1..]);
    }
  }

  // ---------------------------------------------------------------- UTF-16

  /** The units of a character: itself, or a high and a low surrogate. */
  function CharUnits(c: char): (units: seq<int>)
    ensures 1 <= |units| <= 2
  {
    if c as int < 0x1_0000 then [c as int]
    else [0xD800 + (c as int - 0x1_0000) / 0x400, 0xDC00 + (c as int - 0x1_0000) % 0x400]
  }

  /** A text as the language holds it; its length there is the number of units. */
  function Units(s: string): (units: seq<int>)
    ensures |s| <= |units|
  {
    if s == [] then [] else CharUnits(s[0]) + Units(s[1..])
  }

  lemma {:induction false} EqualUnits(s: string, n: nat)
    requires forall i | 0 <= i < |s| :: |CharUnits(s[i])| == n
    ensures |Units(s)| == |s| * n
  {
    if s != [] {
      EqualUnits(s[1..], n);
    }
  }

  predicate UnitsLess(u: seq<int>, v: seq<int>) {
    v != [] && (u == [] || u[0] < v[0] || (u[0] == v[0] && UnitsLess(u[1..], v[1..])))
  }

  /** Texts that begin with different characters differ within the units of these. */
  lemma FirstCharDecides(c: char, d: char, u: seq<int>, v: seq<int>)
    requires c != d
    ensures UnitsLess(CharUnits(c) + u, CharUnits(d) + v) <==> Rank(c) < Rank(d)
  {
    var a, b := CharUnits(c) + u, CharUnits(d) + v;
    if a[0] == b[0] {
      assert |CharUnits(c)| == 2 && |CharUnits(d)| == 2;
      assert a[1..][0] == CharUnits(c)[1] && b[1..][0] == CharUnits(d)[1];
    }
  }

  lemma {:induction false} SamePrefix(p: seq<int>, u: seq<int>, v: seq<int>)
    ensures UnitsLess(p + u, p + v) <==> UnitsLess(u, v)
  {
    if p == [] {
      assert p + u == u && p + v == v;
    } else {
      SamePrefix(p[1..], u, v);
      assert (p + u)[1..] == p[1..] + u && (p + v)[1..] == p[1..] + v;
    }
  }

  /** The comparison of texts is the comparison of their units. */
  lemma {:induction false} LessComparesUnits(a: string, b: string)
    ensures Less(a, b) <==> UnitsLess(Units(a), Units(b))
  {
    if a != [] && b != [] {
      RankIsInjective(a[0], b[0]);
      if a[0] == b[0] {
        LessComparesUnits(a[1..], b[1..]);
        SamePrefix(CharUnits(a[0]), Units(a[1..]), Units(b[1..]));
      } else {
        FirstCharDecides(a[0], b[0], Units(a[1..]), Units(b[1..]));
      }
    }
  }
}
