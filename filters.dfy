/**
 * List comprehensions with a condition (`[x for x in s if keep(x)]`): the kept elements,
 * and the positions they were taken from.
 */
module Filters {
  /** The elements of `s` that `keep` accepts, in their order in `s`. */
  function Filter<T>(s: seq<T>, keep: T -> bool): (r: seq<T>)
    ensures |r| <= |s|
    ensures forall i :: 0 <= i < |r| ==> r[i] in s && keep(r[i])
    ensures forall i :: 0 <= i < |s| && keep(s[i]) ==> s[i] in r
  {
    if s == [] then []
    else
      var prefix := s[..|s| - 1];
      var last := s[|s| - 1];
      var prev := Filter(prefix, keep);
      assert s == prefix + [last];
      if keep(last) then prev + [last] else prev
  }

  /** The positions of `s` whose element `keep` accepts, in increasing order. */
  function Positions<T>(s: seq<T>, keep: T -> bool): (ps: seq<nat>)
    ensures forall i :: 0 <= i < |ps| ==> ps[i] < |s| && keep(s[ps[i]])
    ensures forall i, j :: 0 <= i < j < |ps| ==> ps[i] < ps[j]
    ensures forall j :: 0 <= j < |s| && keep(s[j]) ==> j in ps
  {
    if s == [] then []
    else
      var prev := Positions(s[..|s| - 1], keep);
      assert forall i :: 0 <= i < |prev| ==> s[prev[i]] == s[..|s| - 1][prev[i]];
      if keep(s[|s| - 1]) then prev + [|s| - 1] else prev
  }

  /** The kept elements are exactly the elements at the kept positions, in that order. */
  lemma {:induction false} FilterAtPositions<T>(s: seq<T>, keep: T -> bool)
    ensures |Filter(s, keep)| == |Positions(s, keep)|
    ensures forall i :: 0 <= i < |Filter(s, keep)| ==> Filter(s, keep)[i] == s[Positions(s, keep)[i]]
  {
    if s != [] {
      var prefix := s[..|s| - 1];
      FilterAtPositions(prefix, keep);
      var r, ps := Filter(prefix, keep), Positions(prefix, keep);
      forall i | 0 <= i < |r| ensures r[i] == s[ps[i]] {
        assert r[i] == prefix[ps[i]];
      }
      if keep(s[|s| - 1]) {
        assert Filter(s, keep) == r + [s[|s| - 1]];
        assert Positions(s, keep) == ps + [|s| - 1];
      } else {
        assert Filter(s, keep) == r;
        assert Positions(s, keep) == ps;
      }
    }
  }

  /** Each value is kept as often as it occurs in `s` when `keep` accepts it, and never otherwise. */
  lemma {:induction false} FilterMultiset<T>(s: seq<T>, keep: T -> bool)
    ensures forall x :: multiset(Filter(s, keep))[x] == if keep(x) then multiset(s)[x] else 0
  {
    if s != [] {
      var prefix := s[..|s| - 1];
      var last := s[|s| - 1];
      FilterMultiset(prefix, keep);
      assert s == prefix + [last];
      assert multiset(s) == multiset(prefix) + multiset{last};
    }
  }

  /** Filtering keeps the elements of a sequence without repetitions pairwise distinct. */
  lemma FilterDistinct<T>(s: seq<T>, keep: T -> bool)
    requires forall i, j :: 0 <= i < j < |s| ==> s[i] != s[j]
    ensures forall i, j :: 0 <= i < j < |Filter(s, keep)| ==> Filter(s, keep)[i] != Filter(s, keep)[j]
  {
    FilterAtPositions(s, keep);
  }
}
