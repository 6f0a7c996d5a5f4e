/**
 * Grouping of positions by key, as the core does twice with a dictionary of
 * lists: hits grouped by their query, and table rows grouped by the feature
 * name in front of the stratification delimiter. The dictionary is a map from
 * key to the positions carrying it; its iteration order, which Python 2 leaves
 * unspecified, is fixed here to the order in which keys first appear.
 */
module Grouping {

  /** No element occurs twice. */
  predicate Distinct<T(==)>(s: seq<T>) {
    forall i, j :: 0 <= i < j < |s| ==> s[i] != s[j]
  }

  /** The positions of `keys` that hold `k`, in increasing order. */
  function IndicesOf(keys: seq<string>, k: string): (r: seq<nat>)
    ensures forall j :: 0 <= j < |r| ==> r[j] < |keys|
    decreases |keys|
  {
    if |keys| == 0 then []
    else IndicesOf(keys[..|keys| - 1], k) + (if keys[|keys| - 1] == k then [|keys| - 1] else [])
  }

  /** A position belongs to the group of `k` exactly when it holds `k`. */
  lemma {:induction false} IndicesOfMember(keys: seq<string>, k: string, i: nat)
    ensures i in IndicesOf(keys, k) <==> i < |keys| && keys[i] == k
    decreases |keys|
  {
    if |keys| > 0 {
      IndicesOfMember(keys[..|keys| - 1], k, i);
    }
  }

  /** Each group lists its positions in input order. */
  lemma {:induction false} IndicesOfIncreasing(keys: seq<string>, k: string)
    ensures forall a, b :: 0 <= a < b < |IndicesOf(keys, k)| ==> IndicesOf(keys, k)[a] < IndicesOf(keys, k)[b]
    decreases |keys|
  {
    if |keys| > 0 {
      var prefix := keys[..|keys| - 1];
      IndicesOfIncreasing(prefix, k);
      var p := IndicesOf(prefix, k);
      var r := IndicesOf(keys, k);
      assert r[..|p|] == p;
      forall a, b | 0 <= a < b < |r| ensures r[a] < r[b] {
        if b >= |p| {
          assert r[a] == p[a];
        }
      }
    }
  }

  /** Every position lies in exactly one group: the one of the key it holds. */
  lemma {:induction false} ExactlyOneGroup(keys: seq<string>, i: nat, k: string)
    requires i < |keys|
    ensures i in IndicesOf(keys, k) <==> k == keys[i]
  {
    IndicesOfMember(keys, k, i);
  }

  /** The distinct keys, in the order of their first appearance. */
  function FirstAppearance(keys: seq<string>): (r: seq<string>)
    ensures forall k :: k in r <==> k in keys
    ensures Distinct(r)
    decreases |keys|
  {
    if |keys| == 0 then []
    else
      var prev := FirstAppearance(keys[..|keys| - 1]);
      var k := keys[|keys| - 1];
      if k in prev then prev else prev + [k]
  }

  /** The positions of all groups of `order`, group after group. */
  function Members(keys: seq<string>, order: seq<string>): seq<nat>
    decreases |order|
  {
    if |order| == 0 then []
    else Members(keys, order[..|order| - 1]) + IndicesOf(keys, order[|order| - 1])
  }

  function Range(n: nat): (r: seq<nat>)
    ensures |r| == n && forall i :: 0 <= i < n ==> r[i] == i
  {
    seq(n, i => i)
  }

  lemma {:induction false} MembersOfNothing(order: seq<string>)
    ensures Members([], order) == []
    decreases |order|
  {
    if |order| > 0 {
      MembersOfNothing(order[..|order| - 1]);
    }
  }

  /** Appending one key adds its position once to the listing of a distinct order that holds it. */
  lemma {:induction false} MembersExtend(keys: seq<string>, k: string, order: seq<string>)
    requires Distinct(order)
    ensures multiset(Members(keys + [k], order))
         == multiset(Members(keys, order) + if k in order then [|keys|] else [])
    decreases |order|
  {
    if |order| > 0 {
      var prefix := order[..|order| - 1];
      var g := order[|order| - 1];
      MembersExtend(keys, k, prefix);
      IndicesOfAppend(keys, k, g);
      KeyOnce(order, k, |keys|);
      var here: seq<nat> := if g == k then [|keys|] else [];
      Regroup(Members(keys + [k], prefix), Members(keys, prefix), if k in prefix then [|keys|] else [],
              IndicesOf(keys, g), here, if k in order then [|keys|] else []);
    }
  }

  lemma {:induction false} IndicesOfAppend(keys: seq<string>, k: string, g: string)
    ensures IndicesOf(keys + [k], g) == IndicesOf(keys, g) + if g == k then [|keys|] else []
  {
    assert (keys + [k])[..|keys|] == keys;
  }

  /** A key of a distinct order is either in its prefix or its last element, not both. */
  lemma {:induction false} KeyOnce(order: seq<string>, k: string, n: nat)
    requires Distinct(order) && |order| > 0
    ensures multiset(if k in order then [n] else [])
         == multiset(if k in order[..|order| - 1] then [n] else []) + multiset(if order[|order| - 1] == k then [n] else [])
  {
    var prefix, g := order[..|order| - 1], order[|order| - 1];
    assert order == prefix + [g];
    assert k in order <==> k in prefix || k == g;
    assert g !in prefix;
  }

  /** Rearranging the step of `MembersExtend`: the new position moves to the end. */
  lemma {:induction false} Regroup(m': seq<nat>, m: seq<nat>, before: seq<nat>, group: seq<nat>, here: seq<nat>, added: seq<nat>)
    requires multiset(m') == multiset(m + before)
    requires multiset(added) == multiset(before) + multiset(here)
    ensures multiset(m' + (group + here)) == multiset(m + group + added)
  {
  }

  /**
   * Listing the groups of a distinct order that holds every key visits every
   * position exactly once.
   */
  lemma {:induction false} MembersPermutation(keys: seq<string>, order: seq<string>)
    requires Distinct(order)
    requires forall i :: 0 <= i < |keys| ==> keys[i] in order
    ensures multiset(Members(keys, order)) == multiset(Range(|keys|))
    decreases |keys|
  {
    if |keys| == 0 {
      MembersOfNothing(order);
    } else {
      var prefix := keys[..|keys| - 1];
      var k := keys[|keys| - 1];
      MembersPermutation(prefix, order);
      MembersExtend(prefix, k, order);
      assert prefix + [k] == keys;
      assert Range(|keys|) == Range(|prefix|) + [|prefix|];
    }
  }

  /**
   * Groups positions by key, as `groups.setdefault(key, []).append(i)` (or the
   * equivalent test-then-append) does over an enumeration; `order` is the
   * order in which the dictionary's keys are visited afterwards.
   */
  method GroupIndices(keys: seq<string>) returns (groups: map<string, seq<nat>>, order: seq<string>)
    ensures order == FirstAppearance(keys)
    ensures forall k :: k in groups <==> k in keys
    ensures forall k :: k in groups ==> groups[k] == IndicesOf(keys, k)
  {
    groups, order := map[], [];
    var i := 0;
    while i < |keys|
      invariant 0 <= i <= |keys|
      invariant order == FirstAppearance(keys[..i])
      invariant GroupsOf(groups, keys[..i])
    {
      var k := keys[i];
      assert keys[..i + 1] == keys[..i] + [k];
      GroupsAdd(groups, keys[..i], k);
      FirstAppearanceAppend(keys[..i], k);
      if k in groups {
        groups := groups[k := groups[k] + [i]];
      } else {
        groups := groups[k := [i]];
        order := order + [k];
      }
      i := i + 1;
    }
    assert keys[..i] == keys;
  }

  /** `groups` maps exactly the keys of `keys`, each to its positions. */
  ghost predicate GroupsOf(groups: map<string, seq<nat>>, keys: seq<string>) {
    (forall k :: k in groups <==> k in keys) && forall k :: k in groups ==> groups[k] == IndicesOf(keys, k)
  }

  /** Appending a key to an existing group, or opening a new group for it. */
  lemma {:induction false} GroupsAdd(groups: map<string, seq<nat>>, keys: seq<string>, k: string)
    requires GroupsOf(groups, keys)
    ensures GroupsOf(if k in groups then groups[k := groups[k] + [|keys|]] else groups[k := [|keys|]], keys + [k])
  {
    var keys' := keys + [k];
    var groups' := if k in groups then groups[k := groups[k] + [|keys|]] else groups[k := [|keys|]];
    assert keys'[..|keys|] == keys;
    forall g | g in groups'
      ensures groups'[g] == IndicesOf(keys', g)
    {
      if g == k && k !in groups && IndicesOf(keys, k) != [] {
        IndicesOfMember(keys, k, IndicesOf(keys, k)[0]);
      }
    }
  }

  lemma {:induction false} FirstAppearanceAppend(keys: seq<string>, k: string)
    ensures FirstAppearance(keys + [k]) == if k in keys then FirstAppearance(keys) else FirstAppearance(keys) + [k]
  {
    assert (keys + [k])[..|keys|] == keys;
  }
}
