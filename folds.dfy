/**
 * The two array idioms the editable queries are built from: `filter(keep).reduce((acc, x) =>
 * ({...acc, [key(x)]: val(x)}), {})`, which builds a record in which a later element overwrites an
 * earlier one under the same key, and `find(p)`, the first element satisfying `p`.
 */
module Folds {
  import opened Wrappers

  /** `xs.filter(keep).reduce(...)` into a record keyed by `key`, folded from the left. */
  function Collect<T, V>(xs: seq<T>, keep: T -> bool, key: T -> string, val: T -> V): map<string, V>
    decreases |xs|
  {
    if xs == [] then map[]
    else
      var acc := Collect(xs[..|xs| - 1], keep, key, val);
      var x := xs[|xs| - 1];
      if keep(x) then acc[key(x) := val(x)] else acc
  }

  /** `xs[i]` is kept, has key `k`, and no later element is kept under `k`. */
  predicate LastWith<T>(xs: seq<T>, keep: T -> bool, key: T -> string, k: string, i: int) {
    && 0 <= i < |xs|
    && keep(xs[i]) && key(xs[i]) == k
    && forall j :: i < j < |xs| ==> !(keep(xs[j]) && key(xs[j]) == k)
  }

  /**
   * A key is in the collected record exactly when some kept element has it, and its value comes from
   * the last kept element with that key.
   */
  lemma {:induction false} CollectLastWins<T, V>(xs: seq<T>, keep: T -> bool, key: T -> string, val: T -> V)
    decreases |xs|
    ensures forall k :: k in Collect(xs, keep, key, val) <==> exists i :: 0 <= i < |xs| && keep(xs[i]) && key(xs[i]) == k
    ensures forall k :: k in Collect(xs, keep, key, val) ==>
              exists i :: LastWith(xs, keep, key, k, i) && Collect(xs, keep, key, val)[k] == val(xs[i])
  {
    var r := Collect(xs, keep, key, val);
    if xs != [] {
      var init := xs[..|xs| - 1];
      var n := |xs| - 1;
      var acc := Collect(init, keep, key, val);
      CollectLastWins(init, keep, key, val);
      assert r == if keep(xs[n]) then acc[key(xs[n]) := val(xs[n])] else acc;
      forall k
        ensures k in r <==> exists i :: 0 <= i < |xs| && keep(xs[i]) && key(xs[i]) == k
      {
        if k in r && !(keep(xs[n]) && key(xs[n]) == k) {
          var i :| 0 <= i < |init| && keep(init[i]) && key(init[i]) == k;
          assert xs[i] == init[i];
        }
        if exists i :: 0 <= i < |xs| && keep(xs[i]) && key(xs[i]) == k {
          var i :| 0 <= i < |xs| && keep(xs[i]) && key(xs[i]) == k;
          if i < n {
            assert init[i] == xs[i];
          }
        }
      }
      forall k | k in r
        ensures exists i :: LastWith(xs, keep, key, k, i) && r[k] == val(xs[i])
      {
        if keep(xs[n]) && key(xs[n]) == k {
          assert LastWith(xs, keep, key, k, n);
        } else {
          var i :| LastWith(init, keep, key, k, i) && acc[k] == val(init[i]);
          assert xs[i] == init[i];
          assert LastWith(xs, keep, key, k, i);
        }
      }
    }
  }

  /** `xs.find(p)`. */
  function FindFirst<T>(xs: seq<T>, p: T -> bool): Option<T>
    decreases |xs|
  {
    if xs == [] then None
    else if p(xs[0]) then Some(xs[0])
    else FindFirst(xs[1..], p)
  }

  /** `find` gives the element at the first index satisfying `p`, or nothing when none does. */
  lemma {:induction false} FindFirstIsFirst<T>(xs: seq<T>, p: T -> bool)
    decreases |xs|
    ensures FindFirst(xs, p).None? <==> forall i :: 0 <= i < |xs| ==> !p(xs[i])
    ensures FindFirst(xs, p).Some? ==>
              exists i :: 0 <= i < |xs| && xs[i] == FindFirst(xs, p).value && p(xs[i])
                          && forall j :: 0 <= j < i ==> !p(xs[j])
  {
    if xs != [] && !p(xs[0]) {
      var rest := xs[1..];
      FindFirstIsFirst(rest, p);
      forall j | 0 < j < |xs|
        ensures xs[j] == rest[j - 1]
      {
      }
      if FindFirst(xs, p).Some? {
        var i :| 0 <= i < |rest| && rest[i] == FindFirst(rest, p).value && p(rest[i])
                 && forall j :: 0 <= j < i ==> !p(rest[j]);
        assert xs[i + 1] == rest[i];
      }
    } else if xs != [] {
      assert xs[0] == FindFirst(xs, p).value;
    }
  }
}
