/**
 * Hit scoring (the first half of `identify_reactions_and_pathways_by_bug`):
 * a bug's hits are grouped by query; within a query, every hit whose
 * reference gene the reactions database knows gets the weight
 * `exp(-evalue)`, the weights are normalised to sum to one, and each gene
 * accumulates its normalised weights over all queries.
 *
 * `math.exp` is a parameter `exp`, of which only positivity is used.
 */
module HitScoring {
  import Grouping
  import opened MapSums

  /** One alignment hit: the query read, the reference gene it hit, its e-value. */
  datatype Hit = Hit(query: string, reference: string, evalue: real)

  /** `math.exp` as the model sees it: a function with positive values. */
  ghost predicate Positive(exp: real -> real) {
    forall x :: exp(x) > 0.0
  }

  predicate InRange(idx: seq<nat>, n: nat) {
    forall k :: 0 <= k < |idx| ==> idx[k] < n
  }

  /** The query of every hit, by position. */
  function QueryKeys(hits: seq<Hit>): (keys: seq<string>)
    ensures |keys| == |hits|
    ensures forall i :: 0 <= i < |hits| ==> keys[i] == hits[i].query
  {
    seq(|hits|, i requires 0 <= i < |hits| => hits[i].query)
  }

  /**
   * The `genes` list of one query: a (reference, exp(-evalue)) pair for each
   * of its hits, in position order, whose reference gene the database knows.
   */
  function QueryGenes(hits: seq<Hit>, idx: seq<nat>, known: set<string>, exp: real -> real): (genes: seq<(string, real)>)
    requires InRange(idx, |hits|)
    requires Positive(exp)
    ensures |genes| <= |idx|
    ensures forall k :: 0 <= k < |genes| ==> genes[k].0 in known && genes[k].1 > 0.0
    decreases |idx|
  {
    if |idx| == 0 then []
    else
      var prev := QueryGenes(hits, idx[..|idx| - 1], known, exp);
      var hit := hits[idx[|idx| - 1]];
      if hit.reference in known then prev + [(hit.reference, exp(-hit.evalue))] else prev
  }

  /** `total_score`: the sum of a query's weights. */
  function TotalScore(genes: seq<(string, real)>): (total: real)
    ensures (forall k :: 0 <= k < |genes| ==> genes[k].1 > 0.0) ==> (total > 0.0 <==> genes != [])
    decreases |genes|
  {
    if |genes| == 0 then 0.0 else TotalScore(genes[..|genes| - 1]) + genes[|genes| - 1].1
  }

  /** `total_genes[gene] = score / total_score + total_genes.get(gene, 0)` for each pair, in order. */
  function AddScores(totals: map<string, real>, genes: seq<(string, real)>, total: real): map<string, real>
    requires genes != [] ==> total != 0.0
    decreases |genes|
  {
    if |genes| == 0 then totals
    else
      var m := AddScores(totals, genes[..|genes| - 1], total);
      var (gene, score) := genes[|genes| - 1];
      m[gene := score / total + Get(m, gene)]
  }

  /** The gene totals after one more query has been scored. */
  function ScoreQuery(totals: map<string, real>, hits: seq<Hit>, query: string, known: set<string>, exp: real -> real): map<string, real>
    requires Positive(exp)
  {
    var genes := QueryGenes(hits, Grouping.IndicesOf(QueryKeys(hits), query), known, exp);
    AddScores(totals, genes, TotalScore(genes))
  }

  /** The gene totals after the queries of `order` have been scored, in that order. */
  function ScoreQueries(totals: map<string, real>, hits: seq<Hit>, order: seq<string>, known: set<string>, exp: real -> real): map<string, real>
    requires Positive(exp)
    decreases |order|
  {
    if |order| == 0 then totals
    else ScoreQuery(ScoreQueries(totals, hits, order[..|order| - 1], known, exp), hits, order[|order| - 1], known, exp)
  }

  /** `total_genes` for a bug, queries visited in order of first appearance. */
  function GeneScores(hits: seq<Hit>, known: set<string>, exp: real -> real): map<string, real>
    requires Positive(exp)
  {
    ScoreQueries(map[], hits, Grouping.FirstAppearance(QueryKeys(hits)), known, exp)
  }

  /** The queries that have at least one hit to a gene the database knows. */
  function QueriesWithKnownHit(hits: seq<Hit>, known: set<string>): set<string> {
    set i | 0 <= i < |hits| && hits[i].reference in known :: hits[i].query
  }

  /** The genes hit by `query` (if `queries` is a singleton) or by any query of `queries` that the database knows. */
  function KnownReferences(hits: seq<Hit>, known: set<string>, queries: set<string>): set<string> {
    set i | 0 <= i < |hits| && hits[i].reference in known && hits[i].query in queries :: hits[i].reference
  }

  /** The number of positions of `order` that hold a member of `s`. */
  function CountIn(order: seq<string>, s: set<string>): nat
    decreases |order|
  {
    if |order| == 0 then 0
    else CountIn(order[..|order| - 1], s) + (if order[|order| - 1] in s then 1 else 0)
  }

  lemma {:induction false} CountInDistinct(order: seq<string>, s: set<string>)
    requires Grouping.Distinct(order)
    ensures CountIn(order, s) == |set q | q in order && q in s|
    decreases |order|
  {
    if |order| > 0 {
      var prefix := order[..|order| - 1];
      var last := order[|order| - 1];
      CountInDistinct(prefix, s);
      assert order == prefix + [last];
      assert last !in prefix;
      ElementsInAppend(prefix, last, s);
    }
  }

  lemma {:induction false} ElementsInAppend(prefix: seq<string>, last: string, s: set<string>)
    requires last !in prefix
    ensures |set q | q in prefix + [last] && q in s|
         == |set q | q in prefix && q in s| + if last in s then 1 else 0
  {
    var before := set q | q in prefix && q in s;
    var after := set q | q in prefix + [last] && q in s;
    if last in s {
      assert after == before + {last};
    } else {
      assert after == before;
    }
  }

  /** A query contributes a non-empty `genes` list exactly when one of its hits is to a known gene. */
  lemma {:induction false} QueryGenesEmpty(hits: seq<Hit>, idx: seq<nat>, known: set<string>, exp: real -> real)
    requires InRange(idx, |hits|) && Positive(exp)
    ensures QueryGenes(hits, idx, known, exp) == [] <==> forall k :: 0 <= k < |idx| ==> hits[idx[k]].reference !in known
    decreases |idx|
  {
    if |idx| > 0 {
      QueryGenesEmpty(hits, idx[..|idx| - 1], known, exp);
    }
  }

  /** The genes of a query's `genes` list are the known genes its hits refer to. */
  lemma {:induction false} QueryGenesReferences(hits: seq<Hit>, idx: seq<nat>, known: set<string>, exp: real -> real)
    requires InRange(idx, |hits|) && Positive(exp)
    ensures var genes := QueryGenes(hits, idx, known, exp);
      (set k | 0 <= k < |genes| :: genes[k].0)
      == set k | 0 <= k < |idx| && hits[idx[k]].reference in known :: hits[idx[k]].reference
    decreases |idx|
  {
    if |idx| > 0 {
      var prefix := idx[..|idx| - 1];
      QueryGenesReferences(hits, prefix, known, exp);
      var pg := QueryGenes(hits, prefix, known, exp);
      var hit := hits[idx[|idx| - 1]];
      KnownRefsAppend(hits, idx, known);
      if hit.reference in known {
        GenesAppend(pg, (hit.reference, exp(-hit.evalue)));
      }
    }
  }

  /** The genes of a `genes` list with one more pair. */
  lemma {:induction false} GenesAppend(pg: seq<(string, real)>, pair: (string, real))
    ensures (set k | 0 <= k < |pg + [pair]| :: (pg + [pair])[k].0) == (set k | 0 <= k < |pg| :: pg[k].0) + {pair.0}
  {
    var genes := pg + [pair];
    var lhs := set k | 0 <= k < |genes| :: genes[k].0;
    var plhs := set k | 0 <= k < |pg| :: pg[k].0;
    forall x | x in lhs ensures x in plhs + {pair.0} {
      var k :| 0 <= k < |genes| && genes[k].0 == x;
      if k < |pg| { assert pg[k] == genes[k]; }
    }
    forall x | x in plhs + {pair.0} ensures x in lhs {
      if x in plhs {
        var k :| 0 <= k < |pg| && pg[k].0 == x;
        assert genes[k] == pg[k];
      } else {
        assert genes[|pg|].0 == x;
      }
    }
  }

  /** The known genes the hits at `idx` refer to, one position at a time. */
  lemma {:induction false} KnownRefsAppend(hits: seq<Hit>, idx: seq<nat>, known: set<string>)
    requires InRange(idx, |hits|) && |idx| > 0
    ensures var prefix, hit := idx[..|idx| - 1], hits[idx[|idx| - 1]];
      (set k | 0 <= k < |idx| && hits[idx[k]].reference in known :: hits[idx[k]].reference)
      == (set k | 0 <= k < |prefix| && hits[prefix[k]].reference in known :: hits[prefix[k]].reference)
         + (if hit.reference in known then {hit.reference} else {})
  {
    var prefix := idx[..|idx| - 1];
    assert forall k :: 0 <= k < |prefix| ==> prefix[k] == idx[k];
  }

  /** The `genes` list of a query: non-empty exactly when the query has a hit to a known gene. */
  lemma {:induction false} QueryHasKnownHit(hits: seq<Hit>, query: string, known: set<string>, exp: real -> real)
    requires Positive(exp)
    ensures QueryGenes(hits, Grouping.IndicesOf(QueryKeys(hits), query), known, exp) != []
        <==> query in QueriesWithKnownHit(hits, known)
  {
    var keys := QueryKeys(hits);
    var idx := Grouping.IndicesOf(keys, query);
    QueryGenesEmpty(hits, idx, known, exp);
    if query in QueriesWithKnownHit(hits, known) {
      var i :| 0 <= i < |hits| && hits[i].reference in known && hits[i].query == query;
      Grouping.IndicesOfMember(keys, query, i);
      var k :| 0 <= k < |idx| && idx[k] == i;
    } else {
      forall k | 0 <= k < |idx| ensures hits[idx[k]].reference !in known {
        Grouping.IndicesOfMember(keys, query, idx[k]);
      }
    }
  }

  /** The known genes the hits of `query` refer to are those that scoring the query adds. */
  lemma {:induction false} QueryReferences(hits: seq<Hit>, query: string, known: set<string>, exp: real -> real)
    requires Positive(exp)
    ensures var genes := QueryGenes(hits, Grouping.IndicesOf(QueryKeys(hits), query), known, exp);
      (set k | 0 <= k < |genes| :: genes[k].0) == KnownReferences(hits, known, {query})
  {
    var keys := QueryKeys(hits);
    var idx := Grouping.IndicesOf(keys, query);
    QueryGenesReferences(hits, idx, known, exp);
    var a := set k | 0 <= k < |idx| && hits[idx[k]].reference in known :: hits[idx[k]].reference;
    var b := KnownReferences(hits, known, {query});
    forall g | g in b ensures g in a {
      var i :| 0 <= i < |hits| && hits[i].reference in known && hits[i].query in {query} && hits[i].reference == g;
      Grouping.IndicesOfMember(keys, query, i);
      var k :| 0 <= k < |idx| && idx[k] == i;
    }
    forall g | g in a ensures g in b {
      var k :| 0 <= k < |idx| && hits[idx[k]].reference in known && hits[idx[k]].reference == g;
      Grouping.IndicesOfMember(keys, query, idx[k]);
    }
  }

  /** Each pair adds its gene as a key. */
  lemma {:induction false} AddScoresKeys(totals: map<string, real>, genes: seq<(string, real)>, total: real)
    requires genes != [] ==> total != 0.0
    ensures AddScores(totals, genes, total).Keys == totals.Keys + set k | 0 <= k < |genes| :: genes[k].0
    decreases |genes|
  {
    if |genes| > 0 {
      var prefix := genes[..|genes| - 1];
      AddScoresKeys(totals, prefix, total);
      assert (set k | 0 <= k < |genes| :: genes[k].0)
          == (set k | 0 <= k < |prefix| :: prefix[k].0) + {genes[|genes| - 1].0};
    }
  }

  /** With positive weights and divisor, every gene total stays positive. */
  lemma {:induction false} AddScoresPositive(totals: map<string, real>, genes: seq<(string, real)>, total: real)
    requires total > 0.0
    requires forall k :: 0 <= k < |genes| ==> genes[k].1 > 0.0
    requires AllPositive(totals)
    ensures AllPositive(AddScores(totals, genes, total))
    decreases |genes|
  {
    if |genes| > 0 {
      var prefix := genes[..|genes| - 1];
      AddScoresPositive(totals, prefix, total);
      var m := AddScores(totals, prefix, total);
      var gene, score := genes[|genes| - 1].0, genes[|genes| - 1].1;
      assert score / total > 0.0;
      assert AllPositive(m);
      assert Get(m, gene) >= 0.0;
      assert AddScores(totals, genes, total) == m[gene := score / total + Get(m, gene)];
    }
  }

  lemma {:induction false} DivideSum(a: real, b: real, t: real)
    requires t != 0.0
    ensures (a + b) / t == a / t + b / t
  {
  }

  lemma {:induction false} SelfDivide(t: real)
    requires t != 0.0
    ensures t / t == 1.0
  {
  }

  /** Scoring one query raises the sum of all gene totals by `total_score / total_score`. */
  lemma {:induction false} AddScoresMass(totals: map<string, real>, genes: seq<(string, real)>, total: real)
    requires total > 0.0
    ensures MapTotal(AddScores(totals, genes, total)) == MapTotal(totals) + TotalScore(genes) / total
    decreases |genes|
  {
    if |genes| > 0 {
      var prefix := genes[..|genes| - 1];
      AddScoresMass(totals, prefix, total);
      AddScoresLast(totals, genes, total);
      MassStep(MapTotal(totals), MapTotal(AddScores(totals, prefix, total)), MapTotal(AddScores(totals, genes, total)),
        TotalScore(prefix), genes[|genes| - 1].1, total);
    }
  }

  /** The last pair adds its share to the sum of all gene totals. */
  lemma {:induction false} AddScoresLast(totals: map<string, real>, genes: seq<(string, real)>, total: real)
    requires total != 0.0 && |genes| > 0
    ensures MapTotal(AddScores(totals, genes, total))
         == MapTotal(AddScores(totals, genes[..|genes| - 1], total)) + genes[|genes| - 1].1 / total
  {
    var m, last := AddScores(totals, genes[..|genes| - 1], total), genes[|genes| - 1];
    assert AddScores(totals, genes, total) == m[last.0 := last.1 / total + Get(m, last.0)];
    MapTotalAdd(m, last.0, last.1 / total);
  }

  /** The arithmetic of one step of `AddScoresMass`. */
  lemma {:induction false} MassStep(start: real, before: real, after: real, prior: real, score: real, total: real)
    requires total != 0.0
    requires before == start + prior / total
    requires after == before + score / total
    ensures after == start + (prior + score) / total
  {
    DivideSum(prior, score, total);
  }

  /**
   * A query with a hit to a known gene adds normalised weights that sum to
   * one; a query without one leaves `total_genes` unchanged.
   */
  lemma {:induction false} QueryAddsOne(totals: map<string, real>, hits: seq<Hit>, query: string, known: set<string>, exp: real -> real)
    requires Positive(exp)
    ensures query in QueriesWithKnownHit(hits, known)
      ==> MapTotal(ScoreQuery(totals, hits, query, known, exp)) == MapTotal(totals) + 1.0
    ensures query !in QueriesWithKnownHit(hits, known)
      ==> ScoreQuery(totals, hits, query, known, exp) == totals
  {
    QueryHasKnownHit(hits, query, known, exp);
    var genes := QueryGenes(hits, Grouping.IndicesOf(QueryKeys(hits), query), known, exp);
    if genes != [] {
      var t := TotalScore(genes);
      assert t > 0.0;
      AddScoresMass(totals, genes, t);
      SelfDivide(t);
    }
  }

  /** Scoring the queries of `order` adds one per query with a hit to a known gene. */
  lemma {:induction false} ScoreQueriesMass(totals: map<string, real>, hits: seq<Hit>, order: seq<string>, known: set<string>, exp: real -> real)
    requires Positive(exp)
    ensures MapTotal(ScoreQueries(totals, hits, order, known, exp))
         == MapTotal(totals) + CountIn(order, QueriesWithKnownHit(hits, known)) as real
    decreases |order|
  {
    if |order| > 0 {
      var prefix := order[..|order| - 1];
      ScoreQueriesMass(totals, hits, prefix, known, exp);
      QueryAddsOne(ScoreQueries(totals, hits, prefix, known, exp), hits, order[|order| - 1], known, exp);
    }
  }

  /**
   * Mass conservation of hit scoring: the gene totals of a bug add up to the
   * number of its queries that have a hit to a gene the database knows.
   */
  lemma {:induction false} GeneScoresMass(hits: seq<Hit>, known: set<string>, exp: real -> real)
    requires Positive(exp)
    ensures MapTotal(GeneScores(hits, known, exp)) == |QueriesWithKnownHit(hits, known)| as real
  {
    var order := Grouping.FirstAppearance(QueryKeys(hits));
    var s := QueriesWithKnownHit(hits, known);
    ScoreQueriesMass(map[], hits, order, known, exp);
    CountInDistinct(order, s);
    assert (set q | q in order && q in s) == s by {
      forall q | q in s ensures q in order {
        var i :| 0 <= i < |hits| && hits[i].reference in known && hits[i].query == q;
        assert QueryKeys(hits)[i] == q;
      }
    }
    assert ValueSeq(map[]) == [];
  }

  /** Scoring the queries of `order` adds as keys the known genes their hits refer to. */
  lemma {:induction false} ScoreQueriesKeys(totals: map<string, real>, hits: seq<Hit>, order: seq<string>, known: set<string>, exp: real -> real)
    requires Positive(exp)
    ensures ScoreQueries(totals, hits, order, known, exp).Keys
         == totals.Keys + KnownReferences(hits, known, set q | q in order)
    decreases |order|
  {
    if |order| > 0 {
      var prefix := order[..|order| - 1];
      var q := order[|order| - 1];
      ScoreQueriesKeys(totals, hits, prefix, known, exp);
      ScoreQueryKeys(ScoreQueries(totals, hits, prefix, known, exp), hits, q, known, exp);
      assert order == prefix + [q];
      ElementsAppend(prefix, q);
      KnownReferencesUnion(hits, known, set x | x in prefix, {q});
    }
  }

  /** Scoring one query adds as keys the known genes its hits refer to. */
  lemma {:induction false} ScoreQueryKeys(totals: map<string, real>, hits: seq<Hit>, q: string, known: set<string>, exp: real -> real)
    requires Positive(exp)
    ensures ScoreQuery(totals, hits, q, known, exp).Keys == totals.Keys + KnownReferences(hits, known, {q})
  {
    var genes := QueryGenes(hits, Grouping.IndicesOf(QueryKeys(hits), q), known, exp);
    AddScoresKeys(totals, genes, TotalScore(genes));
    QueryReferences(hits, q, known, exp);
  }

  lemma {:induction false} ElementsAppend(prefix: seq<string>, q: string)
    ensures (set x | x in prefix + [q]) == (set x | x in prefix) + {q}
  {
  }

  lemma {:induction false} KnownReferencesUnion(hits: seq<Hit>, known: set<string>, a: set<string>, b: set<string>)
    ensures KnownReferences(hits, known, a + b) == KnownReferences(hits, known, a) + KnownReferences(hits, known, b)
  {
  }

  /** Scoring keeps every gene total positive. */
  lemma {:induction false} ScoreQueriesPositive(totals: map<string, real>, hits: seq<Hit>, order: seq<string>, known: set<string>, exp: real -> real)
    requires Positive(exp)
    requires AllPositive(totals)
    ensures AllPositive(ScoreQueries(totals, hits, order, known, exp))
    decreases |order|
  {
    if |order| > 0 {
      var prefix := order[..|order| - 1];
      ScoreQueriesPositive(totals, hits, prefix, known, exp);
      var m := ScoreQueries(totals, hits, prefix, known, exp);
      var genes := QueryGenes(hits, Grouping.IndicesOf(QueryKeys(hits), order[|order| - 1]), known, exp);
      assert ScoreQueries(totals, hits, order, known, exp) == AddScores(m, genes, TotalScore(genes));
      if genes != [] {
        assert TotalScore(genes) > 0.0;
        AddScoresPositive(m, genes, TotalScore(genes));
      }
    }
  }

  /**
   * `total_genes` holds exactly the database genes that some hit refers to,
   * each with a positive score; hits to unknown genes contribute nothing.
   */
  lemma {:induction false} GeneScoresKeys(hits: seq<Hit>, known: set<string>, exp: real -> real)
    requires Positive(exp)
    ensures GeneScores(hits, known, exp).Keys
         == set i | 0 <= i < |hits| && hits[i].reference in known :: hits[i].reference
    ensures forall g :: g in GeneScores(hits, known, exp) ==> g in known && GeneScores(hits, known, exp)[g] > 0.0
  {
    var keys := QueryKeys(hits);
    var order := Grouping.FirstAppearance(keys);
    ScoreQueriesKeys(map[], hits, order, known, exp);
    ScoreQueriesPositive(map[], hits, order, known, exp);
    assert KnownReferences(hits, known, set q | q in order)
        == set i | 0 <= i < |hits| && hits[i].reference in known :: hits[i].reference by {
      forall i | 0 <= i < |hits| ensures hits[i].query in order {
        assert keys[i] == hits[i].query;
      }
    }
  }

  /** A bug with no hits gets no gene scores. */
  lemma {:induction false} NoHitsNoScores(known: set<string>, exp: real -> real)
    requires Positive(exp)
    ensures GeneScores([], known, exp) == map[]
  {
  }

  /** The inner loop over one query's hits: its `genes` list and `total_score`. */
  method CollectQueryGenes(hits: seq<Hit>, idx: seq<nat>, known: set<string>, exp: real -> real)
    returns (genes: seq<(string, real)>, totalScore: real)
    requires InRange(idx, |hits|) && Positive(exp)
    ensures genes == QueryGenes(hits, idx, known, exp)
    ensures totalScore == TotalScore(genes)
  {
    genes, totalScore := [], 0.0;
    var k := 0;
    while k < |idx|
      invariant 0 <= k <= |idx|
      invariant genes == QueryGenes(hits, idx[..k], known, exp)
      invariant totalScore == TotalScore(genes)
    {
      assert idx[..k + 1][..k] == idx[..k];
      var hit := hits[idx[k]];
      if hit.reference in known {
        var score := exp(-hit.evalue);
        genes := genes + [(hit.reference, score)];
        totalScore := totalScore + score;
      }
      k := k + 1;
    }
    assert idx[..k] == idx;
  }

  /** The loop that adds one query's normalised weights to `total_genes`. */
  method AddQueryScores(totalGenes: map<string, real>, genes: seq<(string, real)>, totalScore: real)
    returns (updated: map<string, real>)
    requires genes != [] ==> totalScore != 0.0
    ensures updated == AddScores(totalGenes, genes, totalScore)
  {
    updated := totalGenes;
    var n := 0;
    while n < |genes|
      invariant 0 <= n <= |genes|
      invariant updated == AddScores(totalGenes, genes[..n], totalScore)
    {
      assert genes[..n + 1][..n] == genes[..n];
      var (gene, score) := genes[n];
      updated := updated[gene := score / totalScore + Get(updated, gene)];
      n := n + 1;
    }
    assert genes[..n] == genes;
  }

  /**
   * Groups the hits by query and accumulates the normalised weights per gene
   * (the loops that build `hits_by_query` and `total_genes`).
   */
  method ScoreGenes(hits: seq<Hit>, known: set<string>, exp: real -> real) returns (totalGenes: map<string, real>)
    requires Positive(exp)
    ensures totalGenes == GeneScores(hits, known, exp)
  {
    var keys := QueryKeys(hits);
    var hitsByQuery, order := Grouping.GroupIndices(keys);
    totalGenes := map[];
    var q := 0;
    while q < |order|
      invariant 0 <= q <= |order|
      invariant totalGenes == ScoreQueries(map[], hits, order[..q], known, exp)
    {
      var query := order[q];
      assert query in keys;
      var idx := hitsByQuery[query];
      assert InRange(idx, |hits|);
      var genes, totalScore := CollectQueryGenes(hits, idx, known, exp);
      totalGenes := AddQueryScores(totalGenes, genes, totalScore);
      ScoreQueriesStep(hits, order, q, known, exp);
      q := q + 1;
    }
    assert order[..q] == order;
  }

  lemma {:induction false} ScoreQueriesStep(hits: seq<Hit>, order: seq<string>, q: nat, known: set<string>, exp: real -> real)
    requires Positive(exp) && q < |order|
    ensures ScoreQueries(map[], hits, order[..q + 1], known, exp)
         == ScoreQuery(ScoreQueries(map[], hits, order[..q], known, exp), hits, order[q], known, exp)
  {
    assert order[..q + 1][..q] == order[..q];
  }
}
