/** Sequence, set and string helpers shared by the registry, the graph check and the
    verification context. */
module Common {

  /** No element occurs twice in `s`. */
  ghost predicate NoDup<T>(s: seq<T>) {
    forall i, j :: 0 <= i < j < |s| ==> s[i] != s[j]
  }

  /** The set of elements of `s`. */
  ghost function Elems<T>(s: seq<T>): set<T> {
    set x | x in s
  }

  lemma ElemsAppend<T>(s: seq<T>, x: T)
    ensures Elems(s + [x]) == Elems(s) + {x}
  {
  }

  /** Underscore's `_.uniq`: the first occurrence of every element, in order. */
  function Dedupe(s: seq<string>): (r: seq<string>)
    ensures NoDup(r)
    ensures forall x :: x in r <==> x in s
    ensures |r| <= |s|
  {
    if s == [] then []
    else
      var r := Dedupe(s[..|s| - 1]);
      var last := s[|s| - 1];
      assert forall x :: x in s <==> x in s[..|s| - 1] || x == last;
      if last in r then r else r + [last]
  }

  lemma {:induction false} DedupeKeepsDuplicateFree(s: seq<string>)
    requires NoDup(s)
    ensures Dedupe(s) == s
  {
    if s != [] {
      var init := s[..|s| - 1];
      assert NoDup(init);
      DedupeKeepsDuplicateFree(init);
      assert s[|s| - 1] !in init;
      assert init + [s[|s| - 1]] == s;
    }
  }

  /** JavaScript's `Array.prototype.join`. */
  function Join(parts: seq<string>, sep: string): string {
    if parts == [] then ""
    else if |parts| == 1 then parts[0]
    else parts[0] + sep + Join(parts[1..], sep)
  }

  /** Decimal rendering of a natural number, as string concatenation renders it. */
  function NatToString(n: nat): (r: string)
    ensures |r| > 0
  {
    var digit := ['0', '1', '2', '3', '4', '5', '6', '7', '8', '9'][n % 10];
    if n < 10 then [digit] else NatToString(n / 10) + [digit]
  }

  /** The entries of `m0` are kept, with their values, in `m1`. */
  ghost predicate Extends<K, V>(m0: map<K, V>, m1: map<K, V>) {
    forall k :: k in m0 ==> k in m1 && m1[k] == m0[k]
  }

  lemma ExtendsTransitive<K, V>(m0: map<K, V>, m1: map<K, V>, m2: map<K, V>)
    requires Extends(m0, m1) && Extends(m1, m2)
    ensures Extends(m0, m2)
  {
  }

  lemma PrefixTransitive<T>(s0: seq<T>, s1: seq<T>, s2: seq<T>)
    requires s0 <= s1 && s1 <= s2
    ensures s0 <= s2
  {
    assert s2[..|s0|] == s1[..|s0|];
  }

  lemma ShrinkingComplement<T>(universe: set<T>, a: set<T>, b: set<T>)
    requires a <= b
    ensures |universe - b| <= |universe - a|
  {
    assert universe - b <= universe - a;
    SubsetCard(universe - b, universe - a);
  }

  lemma {:induction false} SubsetCard<T>(a: set<T>, b: set<T>)
    requires a <= b
    ensures |a| <= |b|
  {
    if a != {} {
      var x :| x in a;
      SubsetCard(a - {x}, b - {x});
    }
  }

  /** Adding an element of `universe` that is not yet in `a` shrinks the complement. */
  lemma AddShrinksComplement<T>(universe: set<T>, a: set<T>, x: T)
    requires x in universe && x !in a
    ensures |universe - (a + {x})| < |universe - a|
  {
    assert universe - (a + {x}) == (universe - a) - {x};
  }

  /** Pushing a fresh element of `universe` on a stack shrinks the measure of unused elements. */
  lemma PushShrinks<T>(universe: set<T>, path: seq<T>, x: T)
    requires x in universe && x !in path
    ensures |universe - Elems(path + [x])| < |universe - Elems(path)|
  {
    assert Elems(path + [x]) == Elems(path) + {x};
    AddShrinksComplement(universe, Elems(path), x);
  }
}
