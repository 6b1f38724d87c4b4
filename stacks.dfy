/**
 * The list operations the popup stacks are built from: `List.FindIndex`
 * with reference equality and `List.Remove`, which removes the FIRST element
 * equal to its argument. The two popup stacks (definitions and instances)
 * are separate lists, so removing a definition and an instance by value
 * keeps the two lengths equal but need not keep them index-aligned.
 */
module Stacks {

  /** `List.FindIndex(item => item == x)`: the first index holding `x`, or -1. */
  function IndexOf<T(==)>(s: seq<T>, x: T): (i: int)
    ensures -1 <= i < |s|
    ensures i == -1 <==> x !in s
    ensures 0 <= i ==> s[i] == x && x !in s[..i]
  {
    if s == [] then -1
    else if s[0] == x then 0
    else
      var j := IndexOf(s[1..], x);
      if j < 0 then -1
      else
        assert s[1..][..j] == s[1..j + 1];
        assert s[..j + 1] == [s[0]] + s[1..j + 1];
        j + 1
  }

  /** `List.Remove(x)`: drops the first occurrence of `x`; no change when absent. */
  function RemoveFirst<T(==)>(s: seq<T>, x: T): (r: seq<T>)
    ensures x in s ==> |r| == |s| - 1
    ensures x !in s ==> r == s
  {
    if s == [] then []
    else if s[0] == x then s[1..]
    else [s[0]] + RemoveFirst(s[1..], x)
  }

  /** The definitions stack after closing the popup `v`: the first
      occurrence of the definition paired with `v` is removed. */
  function RemoveConfigOf<C(==), V(==)>(configs: seq<C>, instances: seq<V>, v: V): (r: seq<C>)
    requires |configs| == |instances|
    ensures v in instances ==> |r| == |configs| - 1
    ensures v !in instances ==> r == configs
  {
    var k := IndexOf(instances, v);
    if k < 0 then configs else RemoveFirst(configs, configs[k])
  }

  /** Removing by value removes exactly the element at the first index holding it. */
  lemma {:induction false} RemoveFirstAt<T>(s: seq<T>, x: T)
    requires x in s
    ensures RemoveFirst(s, x) == s[..IndexOf(s, x)] + s[IndexOf(s, x) + 1..]
  {
    if s[0] != x {
      var t := s[1..];
      RemoveFirstAt(t, x);
      var j := IndexOf(t, x);
      assert IndexOf(s, x) == j + 1;
      assert s[..j + 1] == [s[0]] + t[..j];
      assert s[j + 2..] == t[j + 1..];
      calc {
        RemoveFirst(s, x);
        [s[0]] + RemoveFirst(t, x);
        [s[0]] + (t[..j] + t[j + 1..]);
        ([s[0]] + t[..j]) + t[j + 1..];
      }
    }
  }

  /** Removing by value takes one copy out of the multiset of elements. */
  lemma {:induction false} RemoveFirstMultiset<T>(s: seq<T>, x: T)
    ensures multiset(RemoveFirst(s, x)) == multiset(s) - multiset{x}
  {
    if s != [] {
      assert s == [s[0]] + s[1..];
      if s[0] != x {
        RemoveFirstMultiset(s[1..], x);
      }
    }
  }

  ghost predicate Distinct<T>(s: seq<T>) {
    forall i, j :: 0 <= i < j < |s| ==> s[i] != s[j]
  }

  lemma DistinctIndexOf<T>(s: seq<T>, k: nat)
    requires Distinct(s) && k < |s|
    ensures IndexOf(s, s[k]) == k
  {
  }

  /** `rc`/`ri` are the parallel stacks `configs`/`instances` with the pair
      at index `k` taken out and every other pair kept together, in order. */
  ghost predicate PairRemoved<C, V>(configs: seq<C>, instances: seq<V>, k: nat, rc: seq<C>, ri: seq<V>)
    requires |configs| == |instances| && k < |configs|
  {
    && |rc| == |ri| == |configs| - 1
    && (forall j :: 0 <= j < k ==> rc[j] == configs[j] && ri[j] == instances[j])
    && (forall j :: k <= j < |rc| ==> rc[j] == configs[j + 1] && ri[j] == instances[j + 1])
  }

  /** Disposing the pair at index `k` of two parallel stacks by value.
      When `k` is the first index of its definition and of its instance (in
      particular, when both stacks hold distinct elements), every remaining
      definition stays paired with the instance it was pushed with. */
  lemma {:induction false} RemovePairKeepsAlignment<C, V>(configs: seq<C>, instances: seq<V>, k: nat)
    requires |configs| == |instances| && k < |configs|
    requires IndexOf(configs, configs[k]) == k && IndexOf(instances, instances[k]) == k
    ensures PairRemoved(configs, instances, k, RemoveFirst(configs, configs[k]), RemoveFirst(instances, instances[k]))
  {
    RemoveFirstAt(configs, configs[k]);
    RemoveFirstAt(instances, instances[k]);
  }

  /** Distinct definitions and instances keep the pairing on every disposal. */
  lemma RemovePairKeepsAlignmentDistinct<C, V>(configs: seq<C>, instances: seq<V>, k: nat)
    requires |configs| == |instances| && k < |configs|
    requires Distinct(configs) && Distinct(instances)
    ensures PairRemoved(configs, instances, k, RemoveFirst(configs, configs[k]), RemoveFirst(instances, instances[k]))
  {
    DistinctIndexOf(configs, k);
    DistinctIndexOf(instances, k);
    RemovePairKeepsAlignment(configs, instances, k);
  }

  /** The same definition opened twice: disposing the top pair by value
      removes the LOWER copy of the definition, and the instance pushed first
      ends up paired with the other definition. */
  lemma AlignmentLostWithRepeatedConfig<C, V>(a: C, b: C, x: V, y: V, z: V)
    requires a != b && x != y && y != z && x != z
    ensures RemoveFirst([a, b, a], a) == [b, a]
    ensures RemoveFirst([x, y, z], z) == [x, y]
    ensures (RemoveFirst([a, b, a], a)[0], RemoveFirst([x, y, z], z)[0]) == (b, x)
  {
    assert [a, b, a][1..] == [b, a];
    assert [x, y, z][1..] == [y, z];
    assert [y, z][1..] == [z];
  }
}
