/** Sequence facts shared by the dictionary-building loops of the core: a
    Python `dict` remembers its keys in first-insertion order, which is the
    de-duplication of the keys inserted. */
module Sequences {

  predicate NoDuplicates<T(==)>(s: seq<T>) {
    forall i, j :: 0 <= i < j < |s| ==> s[i] != s[j]
  }

  /** The distinct elements of `s`, each where it first occurs. */
  function Dedup<T(==,!new)>(s: seq<T>): (r: seq<T>)
    ensures forall x :: x in r <==> x in s
    ensures NoDuplicates(r)
  {
    if s == [] then []
    else
      var d := Dedup(s[..|s| - 1]);
      var x := s[|s| - 1];
      assert s == s[..|s| - 1] + [x];
      if x in d then d else d + [x]
  }

  /** `sub` is `s` with some elements left out and the rest kept in order. */
  predicate IsSubsequence<T(==)>(sub: seq<T>, s: seq<T>)
    decreases |s|
  {
    if sub == [] then true
    else if s == [] then false
    else if sub[|sub| - 1] == s[|s| - 1] then IsSubsequence(sub[..|sub| - 1], s[..|s| - 1])
    else IsSubsequence(sub, s[..|s| - 1])
  }

  /** Extending `s` on the right keeps every subsequence of it. */
  lemma {:induction false} SubsequenceExtend<T>(sub: seq<T>, s: seq<T>, x: T)
    requires IsSubsequence(sub, s)
    ensures IsSubsequence(sub, s + [x])
    decreases |s|, 1
  {
    if sub != [] && sub[|sub| - 1] == x {
      assert (s + [x])[..|s|] == s;
      SubsequencePrefix(sub, s);
    } else if sub != [] {
      assert (s + [x])[..|s|] == s;
    }
  }

  /** Extending both sides by the same element keeps the relation. */
  lemma SubsequenceAppend<T>(sub: seq<T>, s: seq<T>, x: T)
    requires IsSubsequence(sub, s)
    ensures IsSubsequence(sub + [x], s + [x])
  {
    assert (sub + [x])[..|sub|] == sub;
    assert (s + [x])[..|s|] == s;
  }

  /** Dropping the last element of a subsequence keeps it a subsequence. */
  lemma {:induction false} SubsequencePrefix<T>(sub: seq<T>, s: seq<T>)
    requires sub != [] && IsSubsequence(sub, s)
    ensures IsSubsequence(sub[..|sub| - 1], s)
    decreases |s|, 0
  {
    var sub' := sub[..|sub| - 1];
    if sub' != [] && s != [] {
      if sub[|sub| - 1] == s[|s| - 1] {
        SubsequenceExtend(sub', s[..|s| - 1], s[|s| - 1]);
        assert s[..|s| - 1] + [s[|s| - 1]] == s;
      } else {
        SubsequencePrefix(sub, s[..|s| - 1]);
        SubsequenceExtend(sub', s[..|s| - 1], s[|s| - 1]);
        assert s[..|s| - 1] + [s[|s| - 1]] == s;
      }
    }
  }

  /** Where `x` first occurs in `s`. */
  function FirstPos<T(==)>(s: seq<T>, x: T): (k: nat)
    requires x in s
    ensures k < |s| && s[k] == x
    ensures forall j :: 0 <= j < k ==> s[j] != x
    decreases |s|
  {
    var s' := s[..|s| - 1];
    if x in s' then FirstPos(s', x) else |s| - 1
  }

  /** De-duplication keeps the order of first occurrences. */
  lemma {:induction false} DedupIsSubsequence<T(!new)>(s: seq<T>)
    ensures IsSubsequence(Dedup(s), s)
  {
    if s != [] {
      var s' := s[..|s| - 1];
      var x := s[|s| - 1];
      DedupIsSubsequence(s');
      if x in Dedup(s') {
        SubsequenceExtend(Dedup(s'), s', x);
        assert s' + [x] == s;
      } else {
        assert (Dedup(s') + [x])[..|Dedup(s')|] == Dedup(s');
      }
    }
  }

  /** Of two elements kept by de-duplication, the one that occurs first in
      `s` comes first; with `Dedup`'s own contract this fixes the result as
      the distinct elements in first-occurrence order. */
  lemma {:induction false} DedupFirstOrder<T(!new)>(s: seq<T>)
    ensures forall i, j :: 0 <= i < j < |Dedup(s)| ==>
      FirstPos(s, Dedup(s)[i]) < FirstPos(s, Dedup(s)[j])
  {
    if s != [] {
      var s' := s[..|s| - 1];
      var x := s[|s| - 1];
      var d', d := Dedup(s'), Dedup(s);
      DedupFirstOrder(s');
      forall i, j | 0 <= i < j < |d|
        ensures FirstPos(s, d[i]) < FirstPos(s, d[j])
      {
        assert d[i] in d' && d[i] in s';
        assert FirstPos(s, d[i]) == FirstPos(s', d[i]);
        if j < |d'| {
          assert d[j] == d'[j] && d[i] == d'[i];
          assert FirstPos(s, d[j]) == FirstPos(s', d[j]);
        } else {
          assert d == d' + [x] && d[j] == x && x !in s';
          assert FirstPos(s, x) == |s| - 1;
        }
      }
    }
  }

  /** A sequence without duplicates has as many distinct elements as it is long. */
  lemma {:induction false} DistinctCount<T>(s: seq<T>)
    requires NoDuplicates(s)
    ensures |set x | x in s| == |s|
  {
    if s != [] {
      var s' := s[..|s| - 1];
      DistinctCount(s');
      assert (set x | x in s) == (set x | x in s') + {s[|s| - 1]};
    }
  }
}
