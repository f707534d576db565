/**
 * Grouping the extracted records by `provider::model`, as both report
 * generators do with `grouped.setdefault(key, []).append(item)`: groups
 * appear in the order their key is first seen, and each holds its records
 * in log order.
 */
module Grouping {
  import opened Base
  import opened Seqs
  import opened Dicts

  /** The group key `f"{provider}::{model}"`. */
  function GroupKey(provider: string, model: string): string
  {
    provider + "::" + model
  }

  /** One step of the loop: append `x` to the group of `k`, opening the group if it is new. */
  function AddToGroup<T>(groups: Dict<seq<T>>, k: string, x: T): (r: Dict<seq<T>>)
    ensures Get(r, k).Some? && |Get(r, k).value| > 0
  {
    var existing := match Get(groups, k) case Some(g) => g case None => [];
    Put(groups, k, existing + [x])
  }

  /** The grouping loop over `xs`, keyed by `key`. */
  function GroupBy<T>(xs: seq<T>, key: T -> string): Dict<seq<T>>
  {
    if |xs| == 0 then []
    else AddToGroup(GroupBy(xs[..|xs| - 1], key), key(xs[|xs| - 1]), xs[|xs| - 1])
  }

  /** The test "has key `k`". */
  function HasKey<T>(key: T -> string, k: string): T -> bool
  {
    (x: T) => key(x) == k
  }

  /** The records of `xs` whose key is `k`, in order. */
  function Members<T>(xs: seq<T>, key: T -> string, k: string): seq<T>
  {
    Filter(HasKey(key, k), xs)
  }

  lemma MapSnoc<T>(xs: seq<T>, key: T -> string)
    requires |xs| > 0
    ensures Map(key, xs) == Map(key, xs[..|xs| - 1]) + [key(xs[|xs| - 1])]
  {
  }

  /** No record of `xs` has a key that does not occur among the keys. */
  lemma NoMembers<T>(xs: seq<T>, key: T -> string, k: string)
    requires k !in Map(key, xs)
    ensures Members(xs, key, k) == []
    decreases |xs|
  {
    if |xs| > 0 {
      assert Map(key, xs[1..]) == Map(key, xs)[1..];
      NoMembers(xs[1..], key, k);
      assert Map(key, xs)[0] == key(xs[0]);
    }
  }

  /** The group order is the order in which keys are first seen. */
  lemma {:induction false} GroupByKeys<T>(xs: seq<T>, key: T -> string)
    ensures Keys(GroupBy(xs, key)) == Dedup(Map(key, xs))
  {
    if |xs| > 0 {
      var init := xs[..|xs| - 1];
      var x := xs[|xs| - 1];
      var g := GroupBy(init, key);
      GroupByKeys(init, key);
      MapSnoc(xs, key);
      var ks := Map(key, xs);
      assert ks[..|ks| - 1] == Map(key, init);
      var existing := match Get(g, key(x)) case Some(m) => m case None => [];
      PutKeys(g, key(x), existing + [x]);
    }
  }

  /** What the group of `k` should be after the records `xs`. */
  ghost predicate GroupOfKeyIsMembers<T>(xs: seq<T>, key: T -> string, k: string)
  {
    Get(GroupBy(xs, key), k) == if k in Map(key, xs) then Some(Members(xs, key, k)) else None
  }

  lemma GroupByLast<T>(init: seq<T>, x: T, key: T -> string)
    ensures var xs := init + [x];
      && xs[..|xs| - 1] == init && xs[|xs| - 1] == x
      && Map(key, xs) == Map(key, init) + [key(x)]
  {
    var xs := init + [x];
    assert xs[..|xs| - 1] == init;
    MapSnoc(xs, key);
  }

  lemma GroupByStepSameKey<T>(init: seq<T>, x: T, key: T -> string)
    requires GroupOfKeyIsMembers(init, key, key(x))
    ensures GroupOfKeyIsMembers(init + [x], key, key(x))
  {
    var k := key(x);
    var xs := init + [x];
    GroupByLast(init, x, key);
    var g := GroupBy(init, key);
    FilterSnoc(HasKey(key, k), init, x);
    assert Members(xs, key, k) == Members(init, key, k) + [x];
    if k !in Map(key, init) {
      NoMembers(init, key, k);
    }
    var existing := match Get(g, k) case Some(m) => m case None => [];
    assert existing == Members(init, key, k);
    assert GroupBy(xs, key) == Put(g, k, existing + [x]);
    assert k in Map(key, xs);
  }

  lemma GroupByStepOtherKey<T>(init: seq<T>, x: T, key: T -> string, k: string)
    requires k != key(x)
    requires GroupOfKeyIsMembers(init, key, k)
    ensures GroupOfKeyIsMembers(init + [x], key, k)
  {
    var xs := init + [x];
    GroupByLast(init, x, key);
    var g := GroupBy(init, key);
    FilterSnoc(HasKey(key, k), init, x);
    assert Members(xs, key, k) == Members(init, key, k);
    var existing := match Get(g, key(x)) case Some(m) => m case None => [];
    assert GroupBy(xs, key) == Put(g, key(x), existing + [x]);
    assert Get(GroupBy(xs, key), k) == Get(g, k);
    assert (k in Map(key, xs)) == (k in Map(key, init));
  }

  /** The group of `k` holds exactly the records with key `k`, in order; there is none for a key never seen. */
  lemma {:induction false} GroupByMembers<T>(xs: seq<T>, key: T -> string, k: string)
    ensures GroupOfKeyIsMembers(xs, key, k)
  {
    if |xs| > 0 {
      var init := xs[..|xs| - 1];
      var x := xs[|xs| - 1];
      assert xs == init + [x];
      assert GroupOfKeyIsMembers(init + [x], key, k) by {
        GroupByMembers(init, key, k);
        if k == key(x) {
          GroupByStepSameKey(init, x, key);
        } else {
          GroupByStepOtherKey(init, x, key, k);
        }
      }
    }
  }

  /**
   * The groups are the distinct keys in first-seen order, and the group of
   * each key holds exactly the records with that key, in order.
   */
  lemma GroupByIsPartition<T>(xs: seq<T>, key: T -> string)
    ensures Keys(GroupBy(xs, key)) == Dedup(Map(key, xs))
    ensures forall k :: Get(GroupBy(xs, key), k) == (if k in Map(key, xs) then Some(Members(xs, key, k)) else None)
  {
    GroupByKeys(xs, key);
    forall k
      ensures Get(GroupBy(xs, key), k) == (if k in Map(key, xs) then Some(Members(xs, key, k)) else None)
    {
      GroupByMembers(xs, key, k);
    }
  }

  /** Every group is non-empty. */
  lemma GroupsNonEmpty<T>(xs: seq<T>, key: T -> string, k: string)
    requires k in Keys(GroupBy(xs, key))
    ensures Get(GroupBy(xs, key), k).Some? && |Get(GroupBy(xs, key), k).value| > 0
  {
    var g := GroupBy(xs, key);
    GroupByIsPartition(xs, key);
    var ms := Members(xs, key, k);
    assert k in Map(key, xs);
    var i :| 0 <= i < |xs| && Map(key, xs)[i] == k;
    FilterKeeps(HasKey(key, k), xs, i);
  }

  /** Every entry of the grouping holds a non-empty group. */
  lemma GroupEntriesNonEmpty<T>(xs: seq<T>, key: T -> string)
    ensures forall i :: 0 <= i < |GroupBy(xs, key)| ==> |GroupBy(xs, key)[i].1| > 0
  {
    var g := GroupBy(xs, key);
    GroupByKeys(xs, key);
    forall i | 0 <= i < |g|
      ensures |g[i].1| > 0
    {
      assert Keys(g)[i] == g[i].0;
      forall j | 0 <= j < i
        ensures g[j].0 != g[i].0
      {
        assert Keys(g)[j] == g[j].0;
      }
      GetFirst(g, i);
      GroupsNonEmpty(xs, key, g[i].0);
    }
  }

  /** The entry at position `i` of the grouping holds exactly the records with its key. */
  lemma GroupEntryIsMembers<T>(xs: seq<T>, key: T -> string, i: nat)
    requires i < |GroupBy(xs, key)|
    ensures GroupBy(xs, key)[i].1 == Members(xs, key, GroupBy(xs, key)[i].0)
  {
    var g := GroupBy(xs, key);
    GroupByIsPartition(xs, key);
    assert Keys(g)[i] == g[i].0;
    forall j | 0 <= j < i
      ensures g[j].0 != g[i].0
    {
      assert Keys(g)[j] == g[j].0;
    }
    GetFirst(g, i);
  }

  /** Every record's key names one entry of the grouping. */
  lemma KeyHasEntry<T>(xs: seq<T>, key: T -> string, j: nat) returns (i: nat)
    requires j < |xs|
    ensures i < |GroupBy(xs, key)| && GroupBy(xs, key)[i].0 == key(xs[j])
  {
    var g := GroupBy(xs, key);
    GroupByKeys(xs, key);
    assert Map(key, xs)[j] == key(xs[j]);
    var ks := Keys(g);
    assert key(xs[j]) in ks;
    i :| 0 <= i < |ks| && ks[i] == key(xs[j]);
  }

  /** The sizes of the groups, in group order. */
  function Sizes<T>(groups: Dict<seq<T>>): (ns: seq<nat>)
    ensures |ns| == |groups|
  {
    if |groups| == 0 then [] else [|groups[0].1|] + Sizes(groups[1..])
  }

  lemma {:induction false} AddToGroupSize<T>(groups: Dict<seq<T>>, k: string, x: T)
    ensures SumNat(Sizes(AddToGroup(groups, k, x))) == SumNat(Sizes(groups)) + 1
  {
    if |groups| > 0 && groups[0].0 != k {
      AddToGroupSize(groups[1..], k, x);
      var existing := match Get(groups[1..], k) case Some(m) => m case None => [];
      assert AddToGroup(groups, k, x) == [groups[0]] + AddToGroup(groups[1..], k, x);
      assert AddToGroup(groups, k, x)[1..] == AddToGroup(groups[1..], k, x);
    } else if |groups| > 0 {
      assert AddToGroup(groups, k, x)[1..] == groups[1..];
    }
  }

  /** Every record lands in exactly one group: the group sizes add up to the number of records. */
  lemma {:induction false} GroupSizesAddUp<T>(xs: seq<T>, key: T -> string)
    ensures SumNat(Sizes(GroupBy(xs, key))) == |xs|
  {
    if |xs| > 0 {
      GroupSizesAddUp(xs[..|xs| - 1], key);
      AddToGroupSize(GroupBy(xs[..|xs| - 1], key), key(xs[|xs| - 1]), xs[|xs| - 1]);
    }
  }

  /** The first ':' of a key built from a provider without ':' ends the provider. */
  lemma FirstColon(p: string, m: string, i: nat)
    requires ':' !in p && i < |GroupKey(p, m)| && GroupKey(p, m)[i] == ':'
    ensures |p| <= i
  {
  }

  /** Keys are injective as long as provider names have no ':'. */
  lemma GroupKeyInjective(p1: string, m1: string, p2: string, m2: string)
    requires ':' !in p1 && ':' !in p2
    requires GroupKey(p1, m1) == GroupKey(p2, m2)
    ensures p1 == p2 && m1 == m2
  {
    var k := GroupKey(p1, m1);
    assert k[|p1|] == ':' && k[|p2|] == ':';
    FirstColon(p1, m1, |p2|);
    FirstColon(p2, m2, |p1|);
    assert p1 == k[..|p1|] && p2 == k[..|p2|];
    assert m1 == k[|p1| + 2..] && m2 == k[|p2| + 2..];
  }

  /** With a ':' in the provider the key is ambiguous: ("a:", "b") and ("a", ":b") share "a:::b". */
  lemma GroupKeyAmbiguousWithColon()
    ensures GroupKey("a:", "b") == GroupKey("a", ":b")
  {
  }
}
