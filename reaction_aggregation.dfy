/**
 * Reaction aggregation (the middle of `identify_reactions_and_pathways_by_bug`):
 * every reaction of the reactions database scores the sum of its genes'
 * totals, genes without a total counting 0; only reactions with a positive
 * score are kept, and each of them is written to the reactions file that
 * MinPath reads.
 */
module ReactionAggregation {
  import opened MapSums

  /**
   * The gene/reaction database as the core uses it: `list_reactions()`,
   * `find_genes(reaction)` and `gene_present(gene)`.
   */
  datatype ReactionsDatabase = ReactionsDatabase(
    reactions: seq<string>,
    genesOf: map<string, seq<string>>,
    genes: set<string>)

  /** `find_genes(reaction)`: the reaction's genes, none for an unknown reaction. */
  function FindGenes(db: ReactionsDatabase, reaction: string): seq<string> {
    if reaction in db.genesOf then db.genesOf[reaction] else []
  }

  /** `sum(total_genes.get(gene, 0) for gene in genes)`, added left to right. */
  function ReactionScore(totals: map<string, real>, genes: seq<string>): real
    decreases |genes|
  {
    if |genes| == 0 then 0.0 else ReactionScore(totals, genes[..|genes| - 1]) + Get(totals, genes[|genes| - 1])
  }

  /** The lines of the reactions file: each listed reaction with a positive score, in list order. */
  function PositiveReactions(totals: map<string, real>, db: ReactionsDatabase, reactions: seq<string>): (written: seq<(string, real)>)
    ensures forall k :: 0 <= k < |written| ==>
      written[k].0 in reactions && written[k].1 == ReactionScore(totals, FindGenes(db, written[k].0)) > 0.0
    ensures forall r :: r in reactions && ReactionScore(totals, FindGenes(db, r)) > 0.0 ==>
      exists k :: 0 <= k < |written| && written[k].0 == r
    decreases |reactions|
  {
    if |reactions| == 0 then []
    else
      var prefix := reactions[..|reactions| - 1];
      var prev := PositiveReactions(totals, db, prefix);
      var r := reactions[|reactions| - 1];
      var score := ReactionScore(totals, FindGenes(db, r));
      assert reactions == prefix + [r];
      PositiveStep(totals, db, prefix, r, prev);
      if score > 0.0 then prev + [(r, score)] else prev
  }

  /** One more reaction keeps the reactions file sound and complete. */
  lemma {:induction false} PositiveStep(totals: map<string, real>, db: ReactionsDatabase, prefix: seq<string>, r: string, prev: seq<(string, real)>)
    requires forall k :: 0 <= k < |prev| ==>
      prev[k].0 in prefix && prev[k].1 == ReactionScore(totals, FindGenes(db, prev[k].0)) > 0.0
    requires forall r' :: r' in prefix && ReactionScore(totals, FindGenes(db, r')) > 0.0 ==>
      exists k :: 0 <= k < |prev| && prev[k].0 == r'
    ensures var score := ReactionScore(totals, FindGenes(db, r));
      var written := if score > 0.0 then prev + [(r, score)] else prev;
      (forall k :: 0 <= k < |written| ==>
        written[k].0 in prefix + [r] && written[k].1 == ReactionScore(totals, FindGenes(db, written[k].0)) > 0.0) &&
      (forall r' :: r' in prefix + [r] && ReactionScore(totals, FindGenes(db, r')) > 0.0 ==>
        exists k :: 0 <= k < |written| && written[k].0 == r')
  {
    var score := ReactionScore(totals, FindGenes(db, r));
    var written := if score > 0.0 then prev + [(r, score)] else prev;
    forall k | 0 <= k < |written|
      ensures written[k].0 in prefix + [r] && written[k].1 == ReactionScore(totals, FindGenes(db, written[k].0)) > 0.0
    {
      if k < |prev| {
        assert written[k] == prev[k];
      }
    }
    forall r' | r' in prefix + [r] && ReactionScore(totals, FindGenes(db, r')) > 0.0
      ensures exists k :: 0 <= k < |written| && written[k].0 == r'
    {
      if r' in prefix {
        var k :| 0 <= k < |prev| && prev[k].0 == r';
        assert written[k].0 == r';
      } else {
        assert written[|written| - 1].0 == r';
      }
    }
  }

  /** With non-negative gene totals, no reaction scores below zero. */
  lemma {:induction false} ReactionScoreNonNegative(totals: map<string, real>, genes: seq<string>)
    requires forall g :: g in totals ==> totals[g] >= 0.0
    ensures ReactionScore(totals, genes) >= 0.0
    decreases |genes|
  {
    if |genes| > 0 {
      ReactionScoreNonNegative(totals, genes[..|genes| - 1]);
    }
  }

  /**
   * With positive gene totals, a reaction scores above zero exactly when one
   * of its genes has a total.
   */
  lemma {:induction false} ReactionScorePositive(totals: map<string, real>, genes: seq<string>)
    requires AllPositive(totals)
    ensures ReactionScore(totals, genes) > 0.0 <==> exists k :: 0 <= k < |genes| && genes[k] in totals
    decreases |genes|
  {
    if |genes| > 0 {
      var prefix := genes[..|genes| - 1];
      ReactionScorePositive(totals, prefix);
      ReactionScoreNonNegative(totals, prefix);
      if exists k :: 0 <= k < |prefix| && prefix[k] in totals {
        var k :| 0 <= k < |prefix| && prefix[k] in totals;
        assert genes[k] == prefix[k];
      }
      if exists k :: 0 <= k < |genes| && genes[k] in totals {
        var k :| 0 <= k < |genes| && genes[k] in totals;
        if k < |prefix| { assert prefix[k] == genes[k]; }
      }
    }
  }

  /** With no gene totals at all, every reaction scores 0. */
  lemma {:induction false} ReactionScoreOfNothing(genes: seq<string>)
    ensures ReactionScore(map[], genes) == 0.0
    decreases |genes|
  {
    if |genes| > 0 {
      ReactionScoreOfNothing(genes[..|genes| - 1]);
    }
  }

  /** The inner loop adding up the gene totals of one reaction. */
  method SumGeneScores(totals: map<string, real>, genes: seq<string>) returns (abundance: real)
    ensures abundance == ReactionScore(totals, genes)
  {
    abundance := 0.0;
    var j := 0;
    while j < |genes|
      invariant 0 <= j <= |genes|
      invariant abundance == ReactionScore(totals, genes[..j])
    {
      assert genes[..j + 1][..j] == genes[..j];
      abundance := abundance + Get(totals, genes[j]);
      j := j + 1;
    }
    assert genes[..j] == genes;
  }

  /**
   * The reaction loop: `reactions` maps exactly the database reactions with a
   * positive score to that score, and `written` lists them, as the reactions
   * file does, in database order.
   */
  method AggregateReactions(totals: map<string, real>, db: ReactionsDatabase)
    returns (reactions: map<string, real>, written: seq<(string, real)>)
    ensures forall r :: r in reactions <==> r in db.reactions && ReactionScore(totals, FindGenes(db, r)) > 0.0
    ensures forall r :: r in reactions ==> reactions[r] == ReactionScore(totals, FindGenes(db, r))
    ensures AllPositive(reactions)
    ensures written == PositiveReactions(totals, db, db.reactions)
    ensures forall k :: 0 <= k < |written| ==> written[k].0 in reactions && written[k].1 == reactions[written[k].0]
    ensures forall r :: r in reactions ==> exists k :: 0 <= k < |written| && written[k].0 == r
  {
    reactions, written := map[], [];
    var i := 0;
    while i < |db.reactions|
      invariant 0 <= i <= |db.reactions|
      invariant ScoredReactions(reactions, totals, db, db.reactions[..i])
      invariant written == PositiveReactions(totals, db, db.reactions[..i])
    {
      var reaction := db.reactions[i];
      var abundance := SumGeneScores(totals, FindGenes(db, reaction));
      assert db.reactions[..i + 1] == db.reactions[..i] + [reaction];
      ScoredReactionsStep(reactions, totals, db, db.reactions[..i], reaction);
      if abundance > 0.0 {
        written := written + [(reaction, abundance)];
        reactions := reactions[reaction := abundance];
      }
      i := i + 1;
    }
    assert db.reactions[..i] == db.reactions;
    WrittenAreScored(reactions, totals, db, written);
  }

  /** The loop's map: the reactions of `done` with a positive score, each mapped to its score. */
  ghost predicate ScoredReactions(reactions: map<string, real>, totals: map<string, real>, db: ReactionsDatabase, done: seq<string>) {
    (forall r :: r in reactions <==> r in done && ReactionScore(totals, FindGenes(db, r)) > 0.0) &&
    (forall r :: r in reactions ==> reactions[r] == ReactionScore(totals, FindGenes(db, r)))
  }

  lemma {:induction false} ScoredReactionsStep(reactions: map<string, real>, totals: map<string, real>, db: ReactionsDatabase,
                                               done: seq<string>, reaction: string)
    requires ScoredReactions(reactions, totals, db, done)
    ensures var score := ReactionScore(totals, FindGenes(db, reaction));
      ScoredReactions(if score > 0.0 then reactions[reaction := score] else reactions, totals, db, done + [reaction])
      && PositiveReactions(totals, db, done + [reaction])
         == PositiveReactions(totals, db, done) + (if score > 0.0 then [(reaction, score)] else [])
  {
    assert (done + [reaction])[..|done|] == done;
    var score := ReactionScore(totals, FindGenes(db, reaction));
    var after := if score > 0.0 then reactions[reaction := score] else reactions;
    forall r ensures r in after <==> r in done + [reaction] && ReactionScore(totals, FindGenes(db, r)) > 0.0 {
      assert r in done + [reaction] <==> r in done || r == reaction;
    }
  }

  /** Every written line is a kept reaction with its score, and every kept reaction is written. */
  lemma {:induction false} WrittenAreScored(reactions: map<string, real>, totals: map<string, real>, db: ReactionsDatabase,
                                            written: seq<(string, real)>)
    requires ScoredReactions(reactions, totals, db, db.reactions)
    requires written == PositiveReactions(totals, db, db.reactions)
    ensures forall k :: 0 <= k < |written| ==> written[k].0 in reactions && written[k].1 == reactions[written[k].0]
    ensures forall r :: r in reactions ==> exists k :: 0 <= k < |written| && written[k].0 == r
  {
  }
}
