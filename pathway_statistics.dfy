/**
 * Per-pathway statistics of one bug (`pathways_abundance_by_bug` and the
 * coverage part of `pathways_coverage_by_bug`): the store's reaction scores
 * are backfilled with 0 for the pathway's database reactions, abundance is
 * the mean of the upper half of the sorted scores, and coverage the share of
 * scores above the bug's median score.
 */
module PathwayStatistics {
  import opened MapSums
  import opened Sorting
  import Strings
  import Grouping
  import PathwayStore

  /** The pathways database as the core uses it: `find_reactions(pathway)`. */
  datatype PathwaysDatabase = PathwaysDatabase(reactionsOf: map<string, seq<string>>)

  function FindReactions(db: PathwaysDatabase, pathway: string): seq<string> {
    if pathway in db.reactionsOf then db.reactionsOf[pathway] else []
  }

  /**
   * `reaction_scores.setdefault(reaction, 0)` for each of `reactions`: the
   * missing ones are added with 0, and the existing scores stay as they are.
   */
  function Backfilled(scores: map<string, real>, reactions: seq<string>): map<string, real>
    decreases |reactions|
  {
    if |reactions| == 0 then scores
    else
      var prev := Backfilled(scores, reactions[..|reactions| - 1]);
      var k := reactions[|reactions| - 1];
      if k in prev then prev else prev[k := 0.0]
  }

  /** Backfilling only adds the missing reactions, with score 0. */
  lemma {:induction false} BackfilledEntries(scores: map<string, real>, reactions: seq<string>)
    ensures Backfilled(scores, reactions).Keys == scores.Keys + (set k | k in reactions)
    ensures forall k :: k in scores ==> Backfilled(scores, reactions)[k] == scores[k]
    ensures forall k :: k in Backfilled(scores, reactions) && k !in scores ==> Backfilled(scores, reactions)[k] == 0.0
    decreases |reactions|
  {
    if |reactions| > 0 {
      var prefix := reactions[..|reactions| - 1];
      BackfilledEntries(scores, prefix);
      assert reactions == prefix + [reactions[|reactions| - 1]];
    }
  }

  /** Backfilling twice is backfilling once: coverage sees what abundance left. */
  lemma {:induction false} BackfillIdempotent(scores: map<string, real>, reactions: seq<string>)
    ensures Backfilled(Backfilled(scores, reactions), reactions) == Backfilled(scores, reactions)
  {
    var once := Backfilled(scores, reactions);
    var twice := Backfilled(once, reactions);
    BackfilledEntries(scores, reactions);
    BackfilledEntries(once, reactions);
    assert twice.Keys == once.Keys;
  }

  /** Every pathway of the store, backfilled with its database reactions. */
  function BackfillAll(items: PathwayStore.Store, db: PathwaysDatabase): (r: PathwayStore.Store)
    ensures r.Keys == items.Keys
  {
    map p | p in items :: Backfilled(items[p], FindReactions(db, p))
  }

  /** The mean of `sorted[len(sorted) / 2:]`, a slice that is never empty. */
  function UpperHalfMean(s: seq<real>): real
    requires |s| > 0
  {
    Sum(s[|s| / 2..]) / (|s| - |s| / 2) as real
  }

  /** On sorted scores the mean of the upper half lies between its first and last score. */
  lemma {:induction false} UpperHalfMeanBounds(s: seq<real>)
    requires |s| > 0 && Sorted(s)
    ensures s[|s| / 2] <= UpperHalfMean(s) <= s[|s| - 1]
  {
    var k := |s| / 2;
    var half := s[k..];
    SuffixBounds(s, k);
    SumBounds(half, s[k], s[|s| - 1]);
    MeanBounds(Sum(half), |half| as real, s[k], s[|s| - 1]);
  }

  /** In a sorted sequence every entry from position `k` on lies between the `k`-th and the last. */
  lemma {:induction false} SuffixBounds(s: seq<real>, k: nat)
    requires k < |s| && Sorted(s)
    ensures forall i :: 0 <= i < |s[k..]| ==> s[k] <= s[k..][i] <= s[|s| - 1]
  {
    forall i | 0 <= i < |s[k..]|
      ensures s[k] <= s[k..][i] <= s[|s| - 1]
    {
      assert s[k..][i] == s[k + i];
    }
  }

  lemma {:induction false} SumBounds(s: seq<real>, lo: real, hi: real)
    requires forall i :: 0 <= i < |s| ==> lo <= s[i] <= hi
    ensures |s| as real * lo <= Sum(s) <= |s| as real * hi
    decreases |s|
  {
    if |s| > 0 {
      SumBounds(s[1..], lo, hi);
    }
  }

  lemma {:induction false} MeanBounds(total: real, n: real, lo: real, hi: real)
    requires n > 0.0 && n * lo <= total <= n * hi
    ensures lo <= total / n <= hi
  {
  }

  /** The worked example: the upper half of [0, 0, 1, 3, 5] is [1, 3, 5], whose mean is 3. */
  lemma {:induction false} UpperHalfMeanExample()
    ensures UpperHalfMean([0.0, 0.0, 1.0, 3.0, 5.0]) == 3.0
  {
    assert [0.0, 0.0, 1.0, 3.0, 5.0][2..] == [1.0, 3.0, 5.0];
    assert Sum([1.0, 3.0, 5.0]) == 9.0 by {
      assert [1.0, 3.0, 5.0][1..] == [3.0, 5.0];
      assert [3.0, 5.0][1..] == [5.0];
      assert [5.0][1..] == [];
    }
  }

  /** The abundance of a pathway from its (backfilled) reaction scores. */
  ghost function Abundance(scores: map<string, real>): real
    requires |scores| > 0
  {
    UpperHalfMean(SortAscending(ValueSeq(scores)))
  }

  /**
   * The abundance lies between two of the pathway's scores: it is at most the
   * largest and at least the score in the middle of the sorted list.
   */
  lemma {:induction false} AbundanceBounds(scores: map<string, real>)
    requires |scores| > 0
    ensures exists k :: k in scores && (forall j :: j in scores ==> scores[j] <= scores[k]) && Abundance(scores) <= scores[k]
    ensures exists k :: k in scores && scores[k] <= Abundance(scores)
  {
    var vals := ValueSeq(scores);
    var s := SortAscending(vals);
    var top := s[|s| - 1];
    var mid := s[|s| / 2];
    assert top in multiset(vals) && mid in multiset(vals) by {
      assert top in multiset(s) && mid in multiset(s);
    }
    UpperHalfMeanBounds(s);
    ValuesAtMember(scores, scores.Keys, top);
    ValuesAtMember(scores, scores.Keys, mid);
    var k :| k in scores && scores[k] == top;
    forall j | j in scores ensures scores[j] <= top {
      ValuesAtMember(scores, scores.Keys, scores[j]);
      assert scores[j] in multiset(s);
      LastIsMax(s, scores[j]);
    }
  }

  /** With non-negative scores the abundance is non-negative. */
  lemma {:induction false} AbundanceNonNegative(scores: map<string, real>)
    requires |scores| > 0
    requires forall k :: k in scores ==> scores[k] >= 0.0
    ensures Abundance(scores) >= 0.0
  {
    AbundanceBounds(scores);
  }

  /** How many of the scores are strictly above `median`. */
  function CountAbove(scores: map<string, real>, median: real): nat {
    |set k | k in scores && scores[k] > median|
  }

  /** A subset is no larger, and a proper subset is smaller. */
  lemma {:induction false} SubsetSize(a: set<string>, b: set<string>)
    requires a <= b
    ensures |a| <= |b|
    ensures a != b ==> |a| < |b|
  {
    assert b == a + (b - a);
    assert a * (b - a) == {};
    if a != b {
      var x :| x in b && x !in a;
      assert x in b - a;
    }
  }

  /** `count_greater_than_median / float(len(reaction_scores.keys()))` */
  function Coverage(scores: map<string, real>, median: real): (c: real)
    requires |scores| > 0
    ensures 0.0 <= c <= 1.0
  {
    SubsetSize((set k | k in scores && scores[k] > median), scores.Keys);
    CountAbove(scores, median) as real / |scores| as real
  }

  /** Coverage is 1 exactly when every score is above the median, 0 exactly when none is. */
  lemma {:induction false} CoverageExtremes(scores: map<string, real>, median: real)
    requires |scores| > 0
    ensures Coverage(scores, median) == 1.0 <==> forall k :: k in scores ==> scores[k] > median
    ensures Coverage(scores, median) == 0.0 <==> forall k :: k in scores ==> scores[k] <= median
  {
    var above := set k | k in scores && scores[k] > median;
    if forall k :: k in scores ==> scores[k] > median {
      assert above == scores.Keys;
    } else {
      var k :| k in scores && scores[k] <= median;
      assert k !in above;
      SubsetSize(above, scores.Keys);
    }
    if forall k :: k in scores ==> scores[k] <= median {
      assert above == {};
    } else {
      var k :| k in scores && scores[k] > median;
      assert k in above;
    }
  }

  /** The worked example: with median 2, the scores 0, 3 and 5 give coverage 2/3. */
  lemma {:induction false} CoverageExample()
    ensures Coverage(map["a" := 0.0, "b" := 3.0, "c" := 5.0], 2.0) == 2.0 / 3.0
  {
    var scores := map["a" := 0.0, "b" := 3.0, "c" := 5.0];
    assert (set k | k in scores && scores[k] > 2.0) == {"b", "c"};
    assert scores.Keys == {"a", "b", "c"};
  }

  /** The loop counting the scores above the median. */
  method CountAboveMedian(scores: map<string, real>, median: real) returns (count: nat)
    ensures count == CountAbove(scores, median)
  {
    count := 0;
    var remaining := scores.Keys;
    while remaining != {}
      invariant remaining <= scores.Keys
      invariant count == |set k | k in scores && k !in remaining && scores[k] > median|
      decreases remaining
    {
      var reaction :| reaction in remaining;
      ghost var seen := set k | k in scores && k !in remaining && scores[k] > median;
      remaining := remaining - {reaction};
      if scores[reaction] > median {
        assert (set k | k in scores && k !in remaining && scores[k] > median) == seen + {reaction};
        count := count + 1;
      } else {
        assert (set k | k in scores && k !in remaining && scores[k] > median) == seen;
      }
    }
    assert (set k | k in scores && k !in remaining && scores[k] > median) == set k | k in scores && scores[k] > median;
  }

  /** `sorted(reaction_scores.values())`: the values in some order of the keys. */
  method ValuesOf(scores: map<string, real>) returns (vals: seq<real>)
    ensures multiset(vals) == multiset(ValueSeq(scores))
  {
    vals := [];
    var remaining := scores.Keys;
    ValuesAtSame(scores, scores, scores.Keys);
    while remaining != {}
      invariant remaining <= scores.Keys
      invariant multiset(vals) + multiset(ValuesAt(scores, remaining)) == multiset(ValueSeq(scores))
      decreases remaining
    {
      var reaction :| reaction in remaining;
      ValuesAtRemove(scores, remaining, reaction);
      vals := vals + [scores[reaction]];
      remaining := remaining - {reaction};
    }
  }

  /** The per-bug store, whose reaction maps the statistics backfill in place. */
  class BugStore {
    const bug: string
    var items: PathwayStore.Store

    constructor (bug: string, items: PathwayStore.Store)
      ensures this.bug == bug && this.items == items
    {
      this.bug := bug;
      this.items := items;
    }

    /** The `setdefault` loop on one pathway's map. */
    method Backfill(pathway: string, reactions: seq<string>)
      requires pathway in items
      modifies this
      ensures items == old(items)[pathway := Backfilled(old(items)[pathway], reactions)]
    {
      var k := 0;
      while k < |reactions|
        invariant 0 <= k <= |reactions|
        invariant items == old(items)[pathway := Backfilled(old(items)[pathway], reactions[..k])]
      {
        assert reactions[..k + 1][..k] == reactions[..k];
        var reaction := reactions[k];
        if reaction !in items[pathway] {
          items := items[pathway := items[pathway][reaction := 0.0]];
        }
        k := k + 1;
      }
      assert reactions[..k] == reactions;
    }
  }

  /** No pathway's scores are empty once backfilled (otherwise the source divides by zero). */
  predicate Measurable(items: PathwayStore.Store, db: PathwaysDatabase) {
    forall p :: p in items ==> items[p] != map[] || FindReactions(db, p) != []
  }

  /**
   * `Measurable` is exactly the condition under which no pathway's map is
   * still empty after backfilling, i.e. under which neither statistics pass
   * divides by `len(reaction_scores) == 0`.
   */
  lemma {:induction false} MeasurableSpec(items: PathwayStore.Store, db: PathwaysDatabase)
    ensures Measurable(items, db) <==> forall p :: p in items ==> |BackfillAll(items, db)[p]| > 0
  {
    forall p | p in items
      ensures (items[p] != map[] || FindReactions(db, p) != []) <==> |BackfillAll(items, db)[p]| > 0
    {
      var rs := FindReactions(db, p);
      BackfilledEntries(items[p], rs);
      if rs != [] {
        assert rs[0] in BackfillAll(items, db)[p];
      }
      if items[p] != map[] {
        var q :| q in items[p];
        assert q in BackfillAll(items, db)[p];
      }
    }
  }

  /** A store with no empty pathway, as the store-building stage makes, is measurable for any database. */
  lemma {:induction false} NonEmptyMeasurable(items: PathwayStore.Store, db: PathwaysDatabase)
    requires forall p :: p in items ==> |items[p]| > 0
    ensures Measurable(items, db)
  {
    forall p | p in items ensures items[p] != map[] {
      assert |items[p]| > 0;
    }
  }

  /** The abundance of one backfilled pathway, as the loop body computes it. */
  method PathwayAbundance(scores: map<string, real>) returns (abundance: real)
    requires |scores| > 0
    ensures abundance == Abundance(scores)
  {
    var vals := ValuesOf(scores);
    var sorted := SortAscending(vals);
    SortedUnique(sorted, SortAscending(ValueSeq(scores)));
    abundance := UpperHalfMean(sorted);
  }

  /** One pass of the pathway loop: backfill the pathway's map, then take its abundance. */
  method AbundanceStep(store: BugStore, db: PathwaysDatabase, pathway: string) returns (abundance: real)
    requires pathway in store.items
    requires store.items[pathway] != map[] || FindReactions(db, pathway) != []
    modifies store
    ensures store.items == old(store.items)[pathway := Backfilled(old(store.items)[pathway], FindReactions(db, pathway))]
    ensures |store.items[pathway]| > 0 && abundance == Abundance(store.items[pathway])
  {
    ghost var before := store.items[pathway];
    store.Backfill(pathway, FindReactions(db, pathway));
    BackfilledEntries(before, FindReactions(db, pathway));
    var scores := store.items[pathway];
    assert |scores| > 0 by {
      if before == map[] {
        var r := FindReactions(db, pathway)[0];
        assert r in scores;
      } else {
        var r :| r in before;
        assert r in scores;
      }
    }
    abundance := PathwayAbundance(scores);
  }

  /** Backfilling leaves no pathway of a measurable store without scores. */
  lemma {:induction false} BackfillAllNonEmpty(items: PathwayStore.Store, db: PathwaysDatabase)
    requires Measurable(items, db)
    ensures forall p :: p in BackfillAll(items, db) ==> |BackfillAll(items, db)[p]| > 0
  {
    forall p | p in BackfillAll(items, db) ensures |BackfillAll(items, db)[p]| > 0 {
      var scores := BackfillAll(items, db)[p];
      BackfilledEntries(items[p], FindReactions(db, p));
      if items[p] == map[] {
        assert FindReactions(db, p)[0] in scores;
      } else {
        var r :| r in items[p];
        assert r in scores;
      }
    }
  }

  /** `abundances` holds, for each of its pathways, the abundance of its backfilled scores. */
  ghost predicate AbundancesOf(abundances: map<string, real>, filled: PathwayStore.Store) {
    forall p :: p in abundances ==> p in filled && |filled[p]| > 0 && abundances[p] == Abundance(filled[p])
  }

  /** The store once the pathways outside `todo` are backfilled. */
  predicate FilledExcept(items: PathwayStore.Store, items0: PathwayStore.Store, filled: PathwayStore.Store, todo: set<string>) {
    items.Keys == items0.Keys && filled.Keys == items0.Keys &&
    forall p :: p in items ==> items[p] == if p in todo then items0[p] else filled[p]
  }

  lemma {:induction false} FilledExceptStep(items: PathwayStore.Store, items0: PathwayStore.Store, filled: PathwayStore.Store, todo: set<string>, pathway: string)
    requires FilledExcept(items, items0, filled, todo) && pathway in todo && pathway in items0
    ensures FilledExcept(items[pathway := filled[pathway]], items0, filled, todo - {pathway})
  {
  }

  lemma {:induction false} FilledExceptStart(items0: PathwayStore.Store, filled: PathwayStore.Store)
    requires filled.Keys == items0.Keys
    ensures FilledExcept(items0, items0, filled, items0.Keys)
  {
  }

  lemma {:induction false} FilledExceptDone(items: PathwayStore.Store, items0: PathwayStore.Store, filled: PathwayStore.Store)
    requires FilledExcept(items, items0, filled, {})
    ensures items == filled
  {
  }

  lemma {:induction false} AbundancesOfExtend(abundances: map<string, real>, filled: PathwayStore.Store, pathway: string, abundance: real)
    requires AbundancesOf(abundances, filled)
    requires pathway in filled && |filled[pathway]| > 0 && abundance == Abundance(filled[pathway])
    ensures AbundancesOf(abundances[pathway := abundance], filled)
  {
    var a' := abundances[pathway := abundance];
    forall p | p in a' ensures p in filled && |filled[p]| > 0 && a'[p] == Abundance(filled[p]) {
      if p != pathway {
        assert a'[p] == abundances[p];
      }
    }
  }

  /** One pass of the pathway loop, with the loop's invariant carried across it. */
  method AbundanceLoopStep(store: BugStore, db: PathwaysDatabase, pathway: string, abundances: map<string, real>,
                           ghost items0: PathwayStore.Store, ghost todo: set<string>)
    returns (abundances': map<string, real>)
    requires Measurable(items0, db) && pathway in todo && todo <= items0.Keys
    requires FilledExcept(store.items, items0, BackfillAll(items0, db), todo)
    requires abundances.Keys == items0.Keys - todo && AbundancesOf(abundances, BackfillAll(items0, db))
    modifies store
    ensures FilledExcept(store.items, items0, BackfillAll(items0, db), todo - {pathway})
    ensures abundances'.Keys == items0.Keys - (todo - {pathway}) && AbundancesOf(abundances', BackfillAll(items0, db))
  {
    ghost var filled := BackfillAll(items0, db);
    ghost var before := store.items;
    var abundance := AbundanceStep(store, db, pathway);
    assert store.items == before[pathway := filled[pathway]];
    FilledExceptStep(before, items0, filled, todo, pathway);
    AbundancesOfExtend(abundances, filled, pathway, abundance);
    abundances' := abundances[pathway := abundance];
  }

  /**
   * `pathways_abundance_by_bug`: every pathway of the store is backfilled in
   * place and gets the abundance of its backfilled scores.
   */
  method PathwaysAbundance(store: BugStore, db: PathwaysDatabase) returns (abundances: map<string, real>)
    requires Measurable(store.items, db)
    modifies store
    ensures store.items == BackfillAll(old(store.items), db)
    ensures abundances.Keys == store.items.Keys
    ensures AbundancesOf(abundances, store.items)
  {
    ghost var items0 := store.items;
    ghost var filled := BackfillAll(items0, db);
    abundances := map[];
    var remaining := store.items.Keys;
    FilledExceptStart(items0, filled);
    while remaining != {}
      invariant remaining <= items0.Keys
      invariant FilledExcept(store.items, items0, filled, remaining)
      invariant abundances.Keys == items0.Keys - remaining && AbundancesOf(abundances, filled)
      decreases remaining
    {
      var pathway :| pathway in remaining;
      abundances := AbundanceLoopStep(store, db, pathway, abundances, items0, remaining);
      remaining := remaining - {pathway};
    }
    AbundancesDone(store.items, items0, filled, abundances);
  }

  lemma {:induction false} AbundancesDone(items: PathwayStore.Store, items0: PathwayStore.Store, filled: PathwayStore.Store,
                                         abundances: map<string, real>)
    requires FilledExcept(items, items0, filled, {})
    requires abundances.Keys == items0.Keys - {} && AbundancesOf(abundances, filled)
    ensures items == filled && abundances.Keys == items.Keys && AbundancesOf(abundances, items)
  {
    FilledExceptDone(items, items0, filled);
  }

  /** Backfilling the whole store twice is backfilling it once. */
  lemma {:induction false} BackfillAllIdempotent(items: PathwayStore.Store, db: PathwaysDatabase)
    ensures BackfillAll(BackfillAll(items, db), db) == BackfillAll(items, db)
  {
    var once := BackfillAll(items, db);
    forall p | p in once ensures BackfillAll(once, db)[p] == once[p] {
      BackfillIdempotent(items[p], FindReactions(db, p));
    }
  }

  /** One pass of the coverage loop: backfill the pathway's map, then count its scores above the median. */
  method CoverageStep(store: BugStore, db: PathwaysDatabase, pathway: string, median: real) returns (coverage: real)
    requires pathway in store.items
    requires store.items[pathway] != map[] || FindReactions(db, pathway) != []
    modifies store
    ensures store.items == old(store.items)[pathway := Backfilled(old(store.items)[pathway], FindReactions(db, pathway))]
    ensures |store.items[pathway]| > 0 && coverage == Coverage(store.items[pathway], median)
  {
    ghost var before := store.items[pathway];
    store.Backfill(pathway, FindReactions(db, pathway));
    BackfilledEntries(before, FindReactions(db, pathway));
    var scores := store.items[pathway];
    assert |scores| > 0 by {
      if before == map[] {
        var r := FindReactions(db, pathway)[0];
        assert r in scores;
      } else {
        var r :| r in before;
        assert r in scores;
      }
    }
    var count := CountAboveMedian(scores, median);
    coverage := count as real / |scores| as real;
  }

  /** `coverages` holds, for each of its pathways, the coverage of its backfilled scores. */
  predicate CoveragesOf(coverages: map<string, real>, filled: PathwayStore.Store, median: real) {
    forall p :: p in coverages ==> p in filled && |filled[p]| > 0 && coverages[p] == Coverage(filled[p], median)
  }

  /** `pathway + delimiter + str(coverage)`, the line handed to xipe. */
  function XipeLine(pathway: string, coverage: real, delimiter: string, show: real -> string): string {
    Strings.Join([pathway, show(coverage)], delimiter)
  }

  /** `xipe_input` lists the pathways of `order`, each with its coverage. */
  predicate XipeInputFor(xipeInput: seq<string>, order: seq<string>, coverages: map<string, real>, delimiter: string, show: real -> string) {
    |xipeInput| == |order| &&
    forall i :: 0 <= i < |order| ==> order[i] in coverages && xipeInput[i] == XipeLine(order[i], coverages[order[i]], delimiter, show)
  }

  lemma {:induction false} CoveragesOfExtend(coverages: map<string, real>, filled: PathwayStore.Store, median: real, pathway: string, coverage: real)
    requires CoveragesOf(coverages, filled, median)
    requires pathway in filled && |filled[pathway]| > 0 && coverage == Coverage(filled[pathway], median)
    ensures CoveragesOf(coverages[pathway := coverage], filled, median)
  {
    var c' := coverages[pathway := coverage];
    forall p | p in c' ensures p in filled && |filled[p]| > 0 && c'[p] == Coverage(filled[p], median) {
      if p != pathway {
        assert c'[p] == coverages[p];
      }
    }
  }

  lemma {:induction false} XipeInputExtend(xipeInput: seq<string>, order: seq<string>, coverages: map<string, real>, delimiter: string, show: real -> string,
                        pathway: string, coverage: real)
    requires XipeInputFor(xipeInput, order, coverages, delimiter, show)
    requires pathway !in order
    ensures XipeInputFor(xipeInput + [XipeLine(pathway, coverage, delimiter, show)], order + [pathway],
                         coverages[pathway := coverage], delimiter, show)
  {
    var order' := order + [pathway];
    forall i | 0 <= i < |order'|
      ensures order'[i] in coverages[pathway := coverage]
    {
      if i < |order| {
        assert order'[i] == order[i];
      }
    }
  }

  /** `order` lists each of `keys` exactly once. */
  ghost predicate Enumerates(order: seq<string>, keys: set<string>) {
    Grouping.Distinct(order) && forall p :: p in order <==> p in keys
  }

  lemma {:induction false} EnumeratesExtend(order: seq<string>, keys: set<string>, p: string)
    requires Enumerates(order, keys) && p !in keys
    ensures Enumerates(order + [p], keys + {p})
  {
  }

  /** One pass of the coverage loop, with the loop's invariant carried across it. */
  method CoverageLoopStep(store: BugStore, db: PathwaysDatabase, median: real, delimiter: string, show: real -> string,
                          pathway: string, coverages: map<string, real>, xipeInput: seq<string>,
                          ghost order: seq<string>, ghost items0: PathwayStore.Store, ghost todo: set<string>)
    returns (coverages': map<string, real>, xipeInput': seq<string>, ghost order': seq<string>)
    requires Measurable(items0, db) && pathway in todo && todo <= items0.Keys
    requires FilledExcept(store.items, items0, BackfillAll(items0, db), todo)
    requires coverages.Keys == items0.Keys - todo && CoveragesOf(coverages, BackfillAll(items0, db), median)
    requires Enumerates(order, coverages.Keys)
    requires XipeInputFor(xipeInput, order, coverages, delimiter, show)
    modifies store
    ensures FilledExcept(store.items, items0, BackfillAll(items0, db), todo - {pathway})
    ensures coverages'.Keys == items0.Keys - (todo - {pathway}) && CoveragesOf(coverages', BackfillAll(items0, db), median)
    ensures Enumerates(order', coverages'.Keys)
    ensures XipeInputFor(xipeInput', order', coverages', delimiter, show)
  {
    ghost var filled := BackfillAll(items0, db);
    ghost var before := store.items;
    var coverage := CoverageStep(store, db, pathway, median);
    assert store.items == before[pathway := filled[pathway]];
    CoverageInvariantStep(before, items0, filled, todo, pathway, median, coverages, coverage, order, xipeInput, delimiter, show);
    coverages' := coverages[pathway := coverage];
    xipeInput' := xipeInput + [XipeLine(pathway, coverage, delimiter, show)];
    order' := order + [pathway];
  }

  /** The coverage loop's invariant, carried across one pathway. */
  lemma {:induction false} CoverageInvariantStep(before: PathwayStore.Store, items0: PathwayStore.Store, filled: PathwayStore.Store,
                                                 todo: set<string>, pathway: string, median: real,
                                                 coverages: map<string, real>, coverage: real, order: seq<string>,
                                                 xipeInput: seq<string>, delimiter: string, show: real -> string)
    requires pathway in todo && todo <= items0.Keys
    requires FilledExcept(before, items0, filled, todo)
    requires coverages.Keys == items0.Keys - todo && CoveragesOf(coverages, filled, median)
    requires |filled[pathway]| > 0 && coverage == Coverage(filled[pathway], median)
    requires Enumerates(order, coverages.Keys)
    requires XipeInputFor(xipeInput, order, coverages, delimiter, show)
    ensures FilledExcept(before[pathway := filled[pathway]], items0, filled, todo - {pathway})
    ensures coverages[pathway := coverage].Keys == items0.Keys - (todo - {pathway})
    ensures CoveragesOf(coverages[pathway := coverage], filled, median)
    ensures Enumerates(order + [pathway], coverages[pathway := coverage].Keys)
    ensures XipeInputFor(xipeInput + [XipeLine(pathway, coverage, delimiter, show)], order + [pathway],
                         coverages[pathway := coverage], delimiter, show)
  {
    FilledExceptStep(before, items0, filled, todo, pathway);
    CoveragesOfExtend(coverages, filled, median, pathway, coverage);
    assert pathway !in order;
    XipeInputExtend(xipeInput, order, coverages, delimiter, show, pathway, coverage);
    EnumeratesExtend(order, coverages.Keys, pathway);
  }

  /**
   * The coverage loop of `pathways_coverage_by_bug`: every pathway of the
   * store is backfilled in place and gets the share of its backfilled scores
   * above `median`; `xipeInput` holds one `pathway<delimiter>coverage` line
   * per pathway, in the (unspecified) order the dictionary was visited.
   */
  method PathwayCoverages(store: BugStore, db: PathwaysDatabase, median: real, delimiter: string, show: real -> string)
    returns (coverages: map<string, real>, xipeInput: seq<string>, ghost order: seq<string>)
    requires Measurable(store.items, db)
    modifies store
    ensures store.items == BackfillAll(old(store.items), db)
    ensures coverages.Keys == store.items.Keys
    ensures CoveragesOf(coverages, store.items, median)
    ensures Enumerates(order, coverages.Keys)
    ensures XipeInputFor(xipeInput, order, coverages, delimiter, show)
  {
    ghost var items0 := store.items;
    ghost var filled := BackfillAll(items0, db);
    coverages, xipeInput, order := map[], [], [];
    var remaining := store.items.Keys;
    FilledExceptStart(items0, filled);
    while remaining != {}
      invariant remaining <= items0.Keys
      invariant FilledExcept(store.items, items0, filled, remaining)
      invariant coverages.Keys == items0.Keys - remaining && CoveragesOf(coverages, filled, median)
      invariant Enumerates(order, coverages.Keys)
      invariant XipeInputFor(xipeInput, order, coverages, delimiter, show)
      decreases remaining
    {
      var pathway :| pathway in remaining;
      coverages, xipeInput, order :=
        CoverageLoopStep(store, db, median, delimiter, show, pathway, coverages, xipeInput, order, items0, remaining);
      remaining := remaining - {pathway};
    }
    CoveragesDone(store.items, items0, filled, coverages, median);
  }

  lemma {:induction false} CoveragesDone(items: PathwayStore.Store, items0: PathwayStore.Store, filled: PathwayStore.Store,
                                        coverages: map<string, real>, median: real)
    requires FilledExcept(items, items0, filled, {})
    requires coverages.Keys == items0.Keys - {} && CoveragesOf(coverages, filled, median)
    ensures items == filled && coverages.Keys == items.Keys && CoveragesOf(coverages, items, median)
  {
    FilledExceptDone(items, items0, filled);
  }
}
