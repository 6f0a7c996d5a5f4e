/**
 * Sums of real scores, and the values of a dictionary read as a sequence.
 * The order in which Python visits a dictionary is not modelled: `ValueSeq`
 * picks one, and every property stated with it holds for all of them.
 */
module MapSums {

  function Sum(s: seq<real>): real
    decreases |s|
  {
    if |s| == 0 then 0.0 else s[0] + Sum(s[1..])
  }

  lemma {:induction false} SumConcat(a: seq<real>, b: seq<real>)
    ensures Sum(a + b) == Sum(a) + Sum(b)
    decreases |a|
  {
    if |a| == 0 {
      assert a + b == b;
    } else {
      SumConcat(a[1..], b);
      assert (a + b)[1..] == a[1..] + b;
    }
  }

  /** A sum does not depend on the order of its terms. */
  lemma {:induction false} SumPermutation(a: seq<real>, b: seq<real>)
    requires multiset(a) == multiset(b)
    ensures Sum(a) == Sum(b)
    decreases |a|
  {
    if |a| == 0 {
      assert |b| == |multiset(b)| == 0;
    } else {
      var x := a[0];
      assert x in multiset(b);
      var k :| 0 <= k < |b| && b[k] == x;
      var rest := b[..k] + b[k + 1..];
      assert a == [x] + a[1..];
      RemoveAt(b, k);
      SumPermutation(a[1..], rest);
    }
  }

  /** Taking out the term at `k`. */
  lemma {:induction false} RemoveAt(b: seq<real>, k: nat)
    requires k < |b|
    ensures multiset(b[..k] + b[k + 1..]) == multiset(b) - multiset{b[k]}
    ensures Sum(b) == Sum(b[..k] + b[k + 1..]) + b[k]
  {
    assert b == b[..k] + [b[k]] + b[k + 1..];
    SumConcat(b[..k], b[k + 1..]);
    SumConcat(b[..k] + [b[k]], b[k + 1..]);
    SumConcat(b[..k], [b[k]]);
  }

  /** The values of `m` at `keys`, in some order of the keys. */
  ghost function ValuesAt(m: map<string, real>, keys: set<string>): (r: seq<real>)
    requires keys <= m.Keys
    ensures |r| == |keys|
    decreases keys
  {
    if keys == {} then []
    else
      var k :| k in keys;
      ValuesAt(m, keys - {k}) + [m[k]]
  }

  /** Whichever key is taken out first, the values form the same multiset. */
  lemma {:induction false} ValuesAtRemove(m: map<string, real>, keys: set<string>, k: string)
    requires keys <= m.Keys && k in keys
    ensures multiset(ValuesAt(m, keys)) == multiset(ValuesAt(m, keys - {k})) + multiset{m[k]}
    decreases keys
  {
    var j :| j in keys && ValuesAt(m, keys) == ValuesAt(m, keys - {j}) + [m[j]];
    if j != k {
      var kj, kk := keys - {j}, keys - {k};
      ValuesAtRemove(m, kj, k);
      ValuesAtRemove(m, kk, j);
      assert kj - {k} == kk - {j};
    }
  }

  /** A value occurs among those at `keys` exactly when some key of `keys` maps to it. */
  lemma {:induction false} ValuesAtMember(m: map<string, real>, keys: set<string>, x: real)
    requires keys <= m.Keys
    ensures x in ValuesAt(m, keys) <==> exists k :: k in keys && m[k] == x
    decreases keys
  {
    if keys != {} {
      var j :| j in keys && ValuesAt(m, keys) == ValuesAt(m, keys - {j}) + [m[j]];
      ValuesAtMember(m, keys - {j}, x);
      if exists k :: k in keys && m[k] == x {
        var k :| k in keys && m[k] == x;
        if k != j {
          assert k in keys - {j};
        }
      }
    }
  }

  /** The values of `m`, in some order of its keys. */
  ghost function ValueSeq(m: map<string, real>): (r: seq<real>)
    ensures |r| == |m.Keys|
  {
    ValuesAt(m, m.Keys)
  }

  lemma {:induction false} ValueSeqRemove(m: map<string, real>, k: string)
    requires k in m
    ensures multiset(ValueSeq(m)) == multiset(ValueSeq(m - {k})) + multiset{m[k]}
  {
    ValuesAtRemove(m, m.Keys, k);
    assert (m - {k}).Keys == m.Keys - {k};
    ValuesAtSame(m, m - {k}, m.Keys - {k});
  }

  /** Only the values at `keys` matter. */
  lemma {:induction false} ValuesAtSame(m: map<string, real>, m': map<string, real>, keys: set<string>)
    requires keys <= m.Keys && keys <= m'.Keys
    requires forall k :: k in keys ==> m[k] == m'[k]
    ensures multiset(ValuesAt(m, keys)) == multiset(ValuesAt(m', keys))
    decreases keys
  {
    if keys != {} {
      var j :| j in keys && ValuesAt(m, keys) == ValuesAt(m, keys - {j}) + [m[j]];
      ValuesAtRemove(m', keys, j);
      ValuesAtSame(m, m', keys - {j});
    }
  }

  /** The sum of a dictionary's values. */
  ghost function MapTotal(m: map<string, real>): real {
    Sum(ValueSeq(m))
  }

  lemma {:induction false} MapTotalRemove(m: map<string, real>, k: string)
    requires k in m
    ensures MapTotal(m) == MapTotal(m - {k}) + m[k]
  {
    ValueSeqRemove(m, k);
    SumPermutation(ValueSeq(m), ValueSeq(m - {k}) + [m[k]]);
    SumConcat(ValueSeq(m - {k}), [m[k]]);
  }

  /** Every value of `m` is positive. */
  predicate AllPositive(m: map<string, real>) {
    forall k :: k in m ==> m[k] > 0.0
  }

  /** `d.get(k, 0)` */
  function Get(m: map<string, real>, k: string): real {
    if k in m then m[k] else 0.0
  }

  /** Adding `w` to one entry (`d[k] = w + d.get(k, 0)`) adds `w` to the total. */
  lemma {:induction false} MapTotalAdd(m: map<string, real>, k: string, w: real)
    ensures MapTotal(m[k := w + Get(m, k)]) == MapTotal(m) + w
  {
    var m' := m[k := w + Get(m, k)];
    MapTotalRemove(m', k);
    assert m' - {k} == m - {k};
    if k in m {
      MapTotalRemove(m, k);
    } else {
      assert m - {k} == m;
    }
  }
}
