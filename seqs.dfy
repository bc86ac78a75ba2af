/** Sequence helpers shared by the modules of the model. */
module Seqs {

  /** `s.startsWith(prefix)`. */
  predicate StartsWith<T(==)>(s: seq<T>, prefix: seq<T>) {
    |prefix| <= |s| && s[..|prefix|] == prefix
  }

  /** No element occurs twice. */
  predicate Distinct<T(==)>(s: seq<T>) {
    forall i, j :: 0 <= i < j < |s| ==> s[i] != s[j]
  }

  /** `s` without any occurrence of `x`, order kept (`Map.delete`, `Set.delete`). */
  function Without<T(==)>(s: seq<T>, x: T): (r: seq<T>)
    ensures forall i :: 0 <= i < |r| ==> r[i] in s && r[i] != x
    ensures forall i :: 0 <= i < |s| && s[i] != x ==> s[i] in r
    ensures |r| <= |s|
    ensures Distinct(s) ==> Distinct(r)
    ensures x !in s ==> r == s
  {
    if s == [] then []
    else
      var rest := Without(s[1..], x);
      if s[0] == x then rest else [s[0]] + rest
  }

  /** The distinct elements of `s` in order of first occurrence (`new Set(values)`). */
  function Dedup<T(==)>(s: seq<T>): (r: seq<T>)
    ensures Distinct(r)
    ensures forall i :: 0 <= i < |r| ==> r[i] in s
    ensures forall i :: 0 <= i < |s| ==> s[i] in r
    ensures |r| <= |s|
  {
    if s == [] then []
    else
      var init := Dedup(s[..|s| - 1]);
      var last := s[|s| - 1];
      assert s == s[..|s| - 1] + [last];
      if last in init then init else init + [last]
  }

  /**
   * `Dedup` keeps the elements in the order in which they first occur: deduplicating any prefix of
   * `s` gives a prefix of `Dedup(s)`, so an element seen earlier in `s` never comes later in the result.
   */
  lemma {:induction false} DedupKeepsFirstOccurrenceOrder<T>(s: seq<T>, n: nat)
    requires n <= |s|
    decreases |s|
    ensures Dedup(s[..n]) <= Dedup(s)
  {
    if n < |s| {
      var p := s[..|s| - 1];
      assert s[..n] == p[..n];
      DedupKeepsFirstOccurrenceOrder(p, n);
    } else {
      assert s[..n] == s;
    }
  }

  /** `s` in reverse order (`Array.prototype.reverse`). */
  function Reversed<T>(s: seq<T>): (r: seq<T>)
    ensures |r| == |s|
    ensures forall i :: 0 <= i < |s| ==> r[i] == s[|s| - 1 - i]
  {
    if s == [] then [] else Reversed(s[1..]) + [s[0]]
  }
}
