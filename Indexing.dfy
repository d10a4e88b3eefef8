/**
 * Building a map from a sequence by assigning `m[key(x)] := val(x)` for
 * each element in order, as PHP's `foreach ($xs as $x) { $m[key] = val; }`
 * does. Later elements with the same key overwrite earlier ones.
 */
module Indexing {

  /** `base` after the assignments for every element of `xs`, first to last. */
  function IndexBy<T, K, V>(base: map<K, V>, xs: seq<T>, key: T -> K, val: T -> V): (m: map<K, V>)
    ensures base.Keys <= m.Keys
    ensures forall i :: 0 <= i < |xs| ==> key(xs[i]) in m
    decreases |xs|
  {
    if xs == [] then base else IndexBy(base[key(xs[0]) := val(xs[0])], xs[1..], key, val)
  }

  /** Some element of `xs` has key `k`. */
  ghost predicate KeyOccurs<T, K>(xs: seq<T>, key: T -> K, k: K) {
    exists i :: 0 <= i < |xs| && key(xs[i]) == k
  }

  /** No element after position `i` has the key of `xs[i]`. */
  ghost predicate IsLastWithKey<T, K>(xs: seq<T>, key: T -> K, i: int)
    requires 0 <= i < |xs|
  {
    forall j :: i < j < |xs| ==> key(xs[j]) != key(xs[i])
  }

  /** The result has exactly the keys of `base` and the keys of the elements. */
  lemma {:induction false} IndexByKeys<T, K, V>(base: map<K, V>, xs: seq<T>, key: T -> K, val: T -> V)
    ensures forall k :: k in IndexBy(base, xs, key, val) <==> k in base || KeyOccurs(xs, key, k)
    decreases |xs|
  {
    if xs != [] {
      var base' := base[key(xs[0]) := val(xs[0])];
      IndexByKeys(base', xs[1..], key, val);
      forall k ensures KeyOccurs(xs, key, k) <==> key(xs[0]) == k || KeyOccurs(xs[1..], key, k) {
        if KeyOccurs(xs, key, k) {
          var i :| 0 <= i < |xs| && key(xs[i]) == k;
          if i > 0 {
            assert xs[1..][i - 1] == xs[i];
          }
        }
        if KeyOccurs(xs[1..], key, k) {
          var i :| 0 <= i < |xs[1..]| && key(xs[1..][i]) == k;
          assert xs[i + 1] == xs[1..][i];
        }
      }
    }
  }

  /** A key that no element carries keeps its value from `base`. */
  lemma {:induction false} IndexByUntouched<T, K, V>(base: map<K, V>, xs: seq<T>, key: T -> K, val: T -> V, k: K)
    requires k in base && !KeyOccurs(xs, key, k)
    ensures k in IndexBy(base, xs, key, val) && IndexBy(base, xs, key, val)[k] == base[k]
    decreases |xs|
  {
    if xs != [] {
      assert key(xs[0]) != k;
      var base' := base[key(xs[0]) := val(xs[0])];
      IndexByUntouched(base', xs[1..], key, val, k);
    }
  }

  /** The value stored under a key is that of the last element carrying it. */
  lemma {:induction false} IndexByLastWins<T, K, V>(base: map<K, V>, xs: seq<T>, key: T -> K, val: T -> V, i: int)
    requires 0 <= i < |xs| && IsLastWithKey(xs, key, i)
    ensures key(xs[i]) in IndexBy(base, xs, key, val)
    ensures IndexBy(base, xs, key, val)[key(xs[i])] == val(xs[i])
    decreases |xs|
  {
    var base' := base[key(xs[0]) := val(xs[0])];
    if i == 0 {
      IndexByUntouched(base', xs[1..], key, val, key(xs[0]));
    } else {
      forall j | i - 1 < j < |xs[1..]| ensures key(xs[1..][j]) != key(xs[1..][i - 1]) {
        assert xs[1..][j] == xs[j + 1];
      }
      IndexByLastWins(base', xs[1..], key, val, i - 1);
    }
  }

  /** One more assignment step: the loop form of `IndexBy`. */
  lemma IndexByStep<T, K, V>(base: map<K, V>, xs: seq<T>, key: T -> K, val: T -> V, i: int)
    requires 0 <= i < |xs|
    ensures IndexBy(base, xs[i..], key, val) == IndexBy(base[key(xs[i]) := val(xs[i])], xs[i + 1..], key, val)
  {
    assert xs[i..][0] == xs[i];
    assert xs[i..][1..] == xs[i + 1..];
  }
}
