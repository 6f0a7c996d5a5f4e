/**
 * The end of `identify_reactions_and_pathways_by_bug`: the per-bug store
 * `pathway -> reaction -> score`, and the whole per-bug pipeline from hits to
 * that store. MinPath is not modelled; the detail file it writes is an input.
 */
module PathwayStore {
  import opened Wrappers
  import opened MapSums
  import HitScoring
  import ReactionAggregation
  import MinPathDetail

  /** The per-bug store: pathway to (reaction to score). */
  type Store = map<string, map<string, real>>

  /** Whether the store holds an entry for `reaction` under `pathway`. */
  predicate Holds(store: Store, pathway: string, reaction: string) {
    pathway in store && reaction in store[pathway]
  }

  /**
   * The entries the store is meant to receive: the reaction has a score, and
   * MinPath listed it under the non-empty pathway name.
   */
  predicate Assigned(reactions: map<string, real>, pathways: map<string, seq<string>>, pathway: string, reaction: string) {
    reaction in reactions && pathway != "" && pathway in MinPathDetail.Lookup(pathways, reaction)
  }

  /** `store.add(reaction, pathway, score)`: sets one entry, creating the pathway's map if needed. */
  function Add(store: Store, reaction: string, pathway: string, score: real): (r: Store)
    ensures Holds(r, pathway, reaction) && r[pathway][reaction] == score
    ensures forall p, q :: (p != pathway || q != reaction) ==>
      (Holds(r, p, q) <==> Holds(store, p, q)) && (Holds(store, p, q) ==> r[p][q] == store[p][q])
    ensures forall p :: p in r ==> p in store || p == pathway
  {
    store[pathway := (if pathway in store then store[pathway] else map[])[reaction := score]]
  }

  /** The inner loop: the reaction is added under each non-empty pathway of its list. */
  method AddReaction(store: Store, reaction: string, score: real, listed: seq<string>) returns (r: Store)
    ensures forall p, q :: Holds(r, p, q) <==> Holds(store, p, q) || (q == reaction && p != "" && p in listed)
    ensures forall p, q :: Holds(r, p, q) ==>
      if q == reaction && p != "" && p in listed then r[p][q] == score else Holds(store, p, q) && r[p][q] == store[p][q]
    ensures forall p :: p in r ==> p in store || (p != "" && p in listed)
  {
    r := store;
    var k := 0;
    while k < |listed|
      invariant 0 <= k <= |listed|
      invariant forall p, q :: Holds(r, p, q) <==> Holds(store, p, q) || (q == reaction && p != "" && p in listed[..k])
      invariant forall p, q :: Holds(r, p, q) ==>
        if q == reaction && p != "" && p in listed[..k] then r[p][q] == score else Holds(store, p, q) && r[p][q] == store[p][q]
      invariant forall p :: p in r ==> p in store || (p != "" && p in listed[..k])
    {
      assert listed[..k + 1] == listed[..k] + [listed[k]];
      if listed[k] != "" {
        r := Add(r, reaction, listed[k], score);
      }
      k := k + 1;
    }
    assert listed[..k] == listed;
  }

  /**
   * The store-building loop over `reactions`: an entry exists exactly where
   * it is assigned, holds the reaction's score, and no pathway is stored
   * without a reaction. The dictionary is visited in no particular order.
   */
  method BuildStore(reactions: map<string, real>, pathways: map<string, seq<string>>) returns (store: Store)
    ensures forall p, r :: Holds(store, p, r) <==> Assigned(reactions, pathways, p, r)
    ensures forall p, r :: Holds(store, p, r) ==> r in reactions && store[p][r] == reactions[r]
    ensures forall p :: p in store ==> |store[p]| > 0
  {
    store := map[];
    var remaining := reactions.Keys;
    while remaining != {}
      invariant remaining <= reactions.Keys
      invariant forall p, r :: Holds(store, p, r) <==> Assigned(reactions, pathways, p, r) && r !in remaining
      invariant forall p, r :: Holds(store, p, r) ==> r in reactions && store[p][r] == reactions[r]
      invariant forall p :: p in store ==> |store[p]| > 0
      decreases remaining
    {
      var reaction :| reaction in remaining;
      var listed := if reaction in pathways then pathways[reaction] else [""];
      ghost var before := store;
      store := AddReaction(store, reaction, reactions[reaction], listed);
      remaining := remaining - {reaction};
      forall p | p in store ensures |store[p]| > 0 {
        if p !in before {
          assert Holds(store, p, reaction);
        } else {
          var q :| q in before[p];
          assert Holds(store, p, q);
        }
      }
    }
  }

  /** The score `reactions` gives a database reaction, from the bug's hits. */
  function ScoreOf(db: ReactionAggregation.ReactionsDatabase, hits: seq<HitScoring.Hit>, exp: real -> real, reaction: string): real
    requires HitScoring.Positive(exp)
  {
    ReactionAggregation.ReactionScore(HitScoring.GeneScores(hits, db.genes, exp), ReactionAggregation.FindGenes(db, reaction))
  }

  /** With no hits, no reaction scores above zero. */
  lemma {:induction false} NoHitsNoReactions(db: ReactionAggregation.ReactionsDatabase, exp: real -> real, reaction: string)
    requires HitScoring.Positive(exp)
    ensures ScoreOf(db, [], exp, reaction) == 0.0
  {
    HitScoring.NoHitsNoScores(db.genes, exp);
    ReactionAggregation.ReactionScoreOfNothing(ReactionAggregation.FindGenes(db, reaction));
  }

  /**
   * The lines read back as MinPath's detail output: none when the reactions
   * file is empty, because MinPath is then not run and its output file stays
   * empty; otherwise MinPath's output `detail`.
   */
  function MinPathOutput(written: seq<(string, real)>, detail: seq<string>): seq<string> {
    if written == [] then [] else detail
  }

  /**
   * `identify_reactions_and_pathways_by_bug` with MinPath's detail output
   * given as `detail`: `written` is the reactions file handed to MinPath, and
   * the store holds, for every database reaction with a positive score and
   * every non-empty pathway MinPath listed it under, that score. Reading the
   * detail fails exactly as the reading loop does. With no positive reaction
   * (in particular with no hits) MinPath is bypassed and the store is empty;
   * no stored pathway is ever empty.
   */
  method IdentifyReactionsAndPathways(db: ReactionAggregation.ReactionsDatabase, hits: seq<HitScoring.Hit>, exp: real -> real,
                                      fmt: MinPathDetail.DetailFormat, isHeader: string -> bool, detail: seq<string>)
    returns (written: seq<(string, real)>, r: Result<Store, MinPathDetail.DetailError>)
    requires HitScoring.Positive(exp)
    requires |fmt.delimiter| > 0
    ensures written == ReactionAggregation.PositiveReactions(HitScoring.GeneScores(hits, db.genes, exp), db, db.reactions)
    ensures r.Ok? <==> MinPathDetail.Parse(MinPathDetail.Kinds(fmt, isHeader, MinPathOutput(written, detail))).Ok?
    ensures r.Err? ==> r.error == MinPathDetail.Parse(MinPathDetail.Kinds(fmt, isHeader, MinPathOutput(written, detail))).error
    ensures r.Ok? ==> forall p, q :: Holds(r.value, p, q) <==>
      q in db.reactions && ScoreOf(db, hits, exp, q) > 0.0 && p != "" &&
      p in MinPathDetail.AssignedPathways(MinPathDetail.Kinds(fmt, isHeader, MinPathOutput(written, detail)), q)
    ensures r.Ok? ==> forall p, q :: Holds(r.value, p, q) ==> r.value[p][q] == ScoreOf(db, hits, exp, q) > 0.0
    ensures r.Ok? ==> forall p :: p in r.value ==> |r.value[p]| > 0
    ensures written == [] ==> r == Ok(map[])
    ensures hits == [] ==> written == [] && r == Ok(map[])
  {
    var totalGenes := HitScoring.ScoreGenes(hits, db.genes, exp);
    var reactions;
    reactions, written := ReactionAggregation.AggregateReactions(totalGenes, db);
    if hits == [] && written != [] {
      NoHitsNoReactions(db, exp, written[0].0);
    }
    var lines := if |written| == 0 then [] else detail;
    assert lines == MinPathOutput(written, detail);
    var pathways := MinPathDetail.ReadDetail(fmt, isHeader, lines);
    if pathways.Err? {
      r := Err(pathways.error);
      return;
    }
    ghost var kinds := MinPathDetail.Kinds(fmt, isHeader, lines);
    MinPathDetail.ParsedPathways(kinds);
    var store := BuildStore(reactions, pathways.value);
    r := Ok(store);
    if written == [] {
      assert forall q :: q !in reactions;
      if store != map[] {
        var p :| p in store;
        var q :| q in store[p];
        assert Holds(store, p, q);
      }
    }
  }
}
