/**
 * `print_pathways`: the per-bug pathway maps (abundance or coverage) are
 * merged into one community table. A pathway's total is the sum of its
 * positive scores over the bugs, each positive score also gives a detail
 * line, and the pathways are written highest total first, after a header
 * line. The file itself is not modelled: the written text is returned as
 * its lines, and `str` on floats is the parameter `show`.
 */
module PathwayOutput {
  import Grouping

  /** `config.output_file_column_delimiter` and `config.output_file_category_delimiter` */
  datatype OutputFormat = OutputFormat(delimiter: string, categoryDelimiter: string)

  /** One bug's result, as `store.pathways(bug, scores)` holds it. */
  datatype BugPathways = BugPathways(bug: string, items: map<string, real>)

  /** One bug's positive score for a pathway. */
  datatype Contribution = Contribution(bug: string, score: real)

  /** The positive scores of `pathway`, in bug-list order. */
  function Contributions(bugs: seq<BugPathways>, pathway: string): seq<Contribution>
    decreases |bugs|
  {
    if |bugs| == 0 then []
    else
      var last := bugs[|bugs| - 1];
      Contributions(bugs[..|bugs| - 1], pathway) +
        if pathway in last.items && last.items[pathway] > 0.0 then [Contribution(last.bug, last.items[pathway])] else []
  }

  function Total(contributions: seq<Contribution>): real
    decreases |contributions|
  {
    if |contributions| == 0 then 0.0
    else Total(contributions[..|contributions| - 1]) + contributions[|contributions| - 1].score
  }

  /** `pathway + category_delimiter + bug + delimiter + str(score)` */
  function DetailLine(fmt: OutputFormat, show: real -> string, pathway: string, c: Contribution): string {
    pathway + fmt.categoryDelimiter + c.bug + fmt.delimiter + show(c.score)
  }

  function DetailLines(fmt: OutputFormat, show: real -> string, pathway: string, contributions: seq<Contribution>): (lines: seq<string>)
    ensures |lines| == |contributions|
  {
    seq(|contributions|, i requires 0 <= i < |contributions| => DetailLine(fmt, show, pathway, contributions[i]))
  }

  /** Every pathway some bug reports. */
  function Pathways(bugs: seq<BugPathways>): set<string> {
    set i, p | 0 <= i < |bugs| && p in bugs[i].items :: p
  }

  /** Reference value of `all_pathways_scores`. */
  function MergedScores(bugs: seq<BugPathways>): map<string, real> {
    map p | p in Pathways(bugs) && |Contributions(bugs, p)| > 0 :: Total(Contributions(bugs, p))
  }

  /** Reference value of `all_pathways_output_lines`. */
  function MergedLines(fmt: OutputFormat, show: real -> string, bugs: seq<BugPathways>): map<string, seq<string>> {
    map p | p in Pathways(bugs) && |Contributions(bugs, p)| > 0 :: DetailLines(fmt, show, p, Contributions(bugs, p))
  }

  /** Every pathway with a total has detail lines, and no other. */
  lemma {:induction false} MergedKeys(fmt: OutputFormat, show: real -> string, bugs: seq<BugPathways>)
    ensures MergedLines(fmt, show, bugs).Keys == MergedScores(bugs).Keys
  {
  }

  /** Appending a bug appends its positive score, if any, to each pathway's list. */
  lemma {:induction false} ContributionsLast(done: seq<BugPathways>, bug: BugPathways, pathway: string)
    ensures Contributions(done + [bug], pathway) == Contributions(done, pathway) +
      if pathway in bug.items && bug.items[pathway] > 0.0 then [Contribution(bug.bug, bug.items[pathway])] else []
  {
    assert (done + [bug])[..|done|] == done;
  }

  /**
   * A pathway's contributions are exactly the bugs that give it a positive
   * score, with that score.
   */
  lemma {:induction false} ContributionsMember(bugs: seq<BugPathways>, pathway: string, c: Contribution)
    ensures c in Contributions(bugs, pathway) <==>
      exists i :: 0 <= i < |bugs| && bugs[i].bug == c.bug && pathway in bugs[i].items &&
        bugs[i].items[pathway] == c.score && c.score > 0.0
    decreases |bugs|
  {
    if |bugs| > 0 {
      var prefix := bugs[..|bugs| - 1];
      ContributionsMember(prefix, pathway, c);
      if exists i :: 0 <= i < |prefix| && prefix[i].bug == c.bug && pathway in prefix[i].items &&
          prefix[i].items[pathway] == c.score && c.score > 0.0 {
        var i :| 0 <= i < |prefix| && prefix[i].bug == c.bug && pathway in prefix[i].items &&
          prefix[i].items[pathway] == c.score && c.score > 0.0;
        assert bugs[i] == prefix[i];
      }
      if exists i :: 0 <= i < |bugs| && bugs[i].bug == c.bug && pathway in bugs[i].items &&
          bugs[i].items[pathway] == c.score && c.score > 0.0 {
        var i :| 0 <= i < |bugs| && bugs[i].bug == c.bug && pathway in bugs[i].items &&
          bugs[i].items[pathway] == c.score && c.score > 0.0;
        if i < |prefix| {
          assert bugs[i] == prefix[i];
        }
      }
    }
  }

  /** A pathway that no bug reports has no contributions. */
  lemma {:induction false} ContributionsReported(bugs: seq<BugPathways>, pathway: string)
    requires pathway !in Pathways(bugs)
    ensures Contributions(bugs, pathway) == []
    decreases |bugs|
  {
    if |bugs| > 0 {
      var prefix := bugs[..|bugs| - 1];
      assert pathway !in Pathways(prefix) by {
        forall i | 0 <= i < |prefix| ensures pathway !in prefix[i].items {
          assert prefix[i] == bugs[i];
        }
      }
      ContributionsReported(prefix, pathway);
    }
  }

  /** A sum of positive scores is positive once it has a term. */
  lemma {:induction false} TotalPositive(contributions: seq<Contribution>)
    requires forall k :: 0 <= k < |contributions| ==> contributions[k].score > 0.0
    ensures |contributions| > 0 ==> Total(contributions) > 0.0
    ensures Total(contributions) >= 0.0
    decreases |contributions|
  {
    if |contributions| > 0 {
      var prefix := contributions[..|contributions| - 1];
      assert forall k :: 0 <= k < |prefix| ==> prefix[k].score > 0.0 by {
        forall k | 0 <= k < |prefix| ensures prefix[k].score > 0.0 {
          assert prefix[k] == contributions[k];
        }
      }
      TotalPositive(prefix);
    }
  }

  /**
   * The merged table holds exactly the pathways some bug scores positively,
   * and each total is positive.
   */
  lemma {:induction false} MergedTotals(bugs: seq<BugPathways>, pathway: string)
    ensures pathway in MergedScores(bugs) <==>
      exists i :: 0 <= i < |bugs| && pathway in bugs[i].items && bugs[i].items[pathway] > 0.0
    ensures pathway in MergedScores(bugs) ==> MergedScores(bugs)[pathway] > 0.0
  {
    var cs := Contributions(bugs, pathway);
    forall k | 0 <= k < |cs| ensures cs[k].score > 0.0 {
      ContributionsMember(bugs, pathway, cs[k]);
    }
    TotalPositive(cs);
    if exists i :: 0 <= i < |bugs| && pathway in bugs[i].items && bugs[i].items[pathway] > 0.0 {
      var i :| 0 <= i < |bugs| && pathway in bugs[i].items && bugs[i].items[pathway] > 0.0;
      ContributionsMember(bugs, pathway, Contribution(bugs[i].bug, bugs[i].items[pathway]));
      assert pathway in Pathways(bugs);
    }
    if pathway in MergedScores(bugs) {
      ContributionsMember(bugs, pathway, cs[0]);
    }
  }

  /** Two bugs, one pathway positive in both, one in neither. */
  lemma {:induction false} MergeExample()
    ensures var bugs := [BugPathways("s1", map["P1" := 1.5, "P2" := 0.0]), BugPathways("s2", map["P1" := 2.0])];
      MergedScores(bugs) == map["P1" := 3.5] &&
      Contributions(bugs, "P1") == [Contribution("s1", 1.5), Contribution("s2", 2.0)]
  {
    var bugs := [BugPathways("s1", map["P1" := 1.5, "P2" := 0.0]), BugPathways("s2", map["P1" := 2.0])];
    ExampleFirstPathway(bugs);
    ExampleSecondPathway(bugs);
    ExamplePathways(bugs);
    var merged := MergedScores(bugs);
    assert merged.Keys == {"P1"};
    assert merged["P1"] == 3.5;
  }

  lemma {:induction false} ExampleFirstPathway(bugs: seq<BugPathways>)
    requires bugs == [BugPathways("s1", map["P1" := 1.5, "P2" := 0.0]), BugPathways("s2", map["P1" := 2.0])]
    ensures Contributions(bugs, "P1") == [Contribution("s1", 1.5), Contribution("s2", 2.0)]
    ensures Total(Contributions(bugs, "P1")) == 3.5
  {
    assert bugs[..1] == [bugs[0]];
    assert bugs[..1][..0] == [];
    assert Contributions(bugs[..1], "P1") == [Contribution("s1", 1.5)];
    var p1 := [Contribution("s1", 1.5), Contribution("s2", 2.0)];
    assert Contributions(bugs, "P1") == p1;
    assert p1[..1] == [p1[0]] && p1[..1][..0] == [];
  }

  lemma {:induction false} ExampleSecondPathway(bugs: seq<BugPathways>)
    requires bugs == [BugPathways("s1", map["P1" := 1.5, "P2" := 0.0]), BugPathways("s2", map["P1" := 2.0])]
    ensures Contributions(bugs, "P2") == []
  {
    assert bugs[..1] == [bugs[0]];
    assert bugs[..1][..0] == [];
    assert bugs[0].items["P2"] == 0.0 && "P2" !in bugs[1].items;
    assert Contributions(bugs[..1], "P2") == [];
  }

  lemma {:induction false} ExamplePathways(bugs: seq<BugPathways>)
    requires bugs == [BugPathways("s1", map["P1" := 1.5, "P2" := 0.0]), BugPathways("s2", map["P1" := 2.0])]
    ensures Pathways(bugs) == {"P1", "P2"}
  {
    assert "P1" in bugs[0].items && "P2" in bugs[0].items;
  }

  /** The loop's state for one pathway agrees with its contributions so far. */
  predicate Agrees(scores: map<string, real>, lines: map<string, seq<string>>, fmt: OutputFormat, show: real -> string,
                   pathway: string, contributions: seq<Contribution>) {
    (pathway in scores <==> |contributions| > 0) && (pathway in lines <==> |contributions| > 0) &&
    (|contributions| > 0 ==>
      scores[pathway] == Total(contributions) && lines[pathway] == DetailLines(fmt, show, pathway, contributions))
  }

  /** The two dictionaries after the bugs `done`. */
  ghost predicate MergedUpTo(scores: map<string, real>, lines: map<string, seq<string>>, fmt: OutputFormat, show: real -> string,
                             done: seq<BugPathways>) {
    forall pathway :: Agrees(scores, lines, fmt, show, pathway, Contributions(done, pathway))
  }

  /** One pathway of one bug: a positive score is added to the total and gets a detail line. */
  lemma {:induction false} AgreesStep(scores: map<string, real>, lines: map<string, seq<string>>, fmt: OutputFormat, show: real -> string,
                   pathway: string, before: seq<Contribution>, bug: string, score: real)
    requires score > 0.0
    requires Agrees(scores, lines, fmt, show, pathway, before)
    ensures var line := pathway + fmt.categoryDelimiter + bug + fmt.delimiter + show(score);
      Agrees(if pathway !in scores then scores[pathway := score] else scores[pathway := scores[pathway] + score],
             if pathway !in scores then lines[pathway := [line]] else lines[pathway := lines[pathway] + [line]],
             fmt, show, pathway, before + [Contribution(bug, score)])
  {
    var after := before + [Contribution(bug, score)];
    assert after[..|after| - 1] == before;
    if |before| == 0 {
      assert Total(before) == 0.0;
    }
  }

  /**
   * The dictionaries part-way through one bug: pathways of the bug still to
   * visit agree with the bugs before it, the others with the bug included.
   */
  ghost predicate MergingBug(scores: map<string, real>, lines: map<string, seq<string>>, fmt: OutputFormat, show: real -> string,
                             done: seq<BugPathways>, bug: BugPathways, remaining: set<string>) {
    forall pathway :: Agrees(scores, lines, fmt, show, pathway,
      if pathway in remaining then Contributions(done, pathway) else Contributions(done + [bug], pathway))
  }

  /** One pass of the inner loop: the bug's score for `pathway`, counted when positive. */
  method MergePathway(scores: map<string, real>, lines: map<string, seq<string>>, fmt: OutputFormat, show: real -> string,
                      ghost done: seq<BugPathways>, bug: BugPathways, ghost remaining: set<string>, pathway: string)
    returns (scores': map<string, real>, lines': map<string, seq<string>>)
    requires pathway in remaining && pathway in bug.items
    requires MergingBug(scores, lines, fmt, show, done, bug, remaining)
    ensures MergingBug(scores', lines', fmt, show, done, bug, remaining - {pathway})
  {
    scores', lines' := scores, lines;
    var score := bug.items[pathway];
    if score > 0.0 {
      var line := pathway + fmt.categoryDelimiter + bug.bug + fmt.delimiter + show(score);
      if pathway !in scores {
        scores' := scores[pathway := score];
        lines' := lines[pathway := [line]];
      } else {
        scores' := scores[pathway := scores[pathway] + score];
        lines' := lines[pathway := lines[pathway] + [line]];
      }
    }
    forall q ensures Agrees(scores', lines', fmt, show, q,
      if q in remaining - {pathway} then Contributions(done, q) else Contributions(done + [bug], q))
    {
      if q == pathway {
        assert Agrees(scores, lines, fmt, show, q, Contributions(done, q));
        ContributionsLast(done, bug, q);
        if score > 0.0 {
          AgreesStep(scores, lines, fmt, show, q, Contributions(done, q), bug.bug, score);
        } else {
          assert Contributions(done + [bug], q) == Contributions(done, q);
        }
      } else {
        var c := if q in remaining then Contributions(done, q) else Contributions(done + [bug], q);
        assert Agrees(scores, lines, fmt, show, q, c);
        assert (q in scores' <==> q in scores) && (q in lines' <==> q in lines);
        assert q in scores ==> scores'[q] == scores[q];
        assert q in lines ==> lines'[q] == lines[q];
      }
    }
  }

  /** The inner loop of `print_pathways`: one bug's pathways, in any order. */
  method MergeBug(scores: map<string, real>, lines: map<string, seq<string>>, fmt: OutputFormat, show: real -> string,
                  ghost done: seq<BugPathways>, bug: BugPathways)
    returns (scores': map<string, real>, lines': map<string, seq<string>>)
    requires MergedUpTo(scores, lines, fmt, show, done)
    ensures MergedUpTo(scores', lines', fmt, show, done + [bug])
  {
    scores', lines' := scores, lines;
    var remaining := bug.items.Keys;
    forall pathway | pathway !in remaining ensures Contributions(done + [bug], pathway) == Contributions(done, pathway) {
      ContributionsLast(done, bug, pathway);
    }
    while remaining != {}
      invariant remaining <= bug.items.Keys
      invariant MergingBug(scores', lines', fmt, show, done, bug, remaining)
      decreases |remaining|
    {
      var pathway :| pathway in remaining;
      scores', lines' := MergePathway(scores', lines', fmt, show, done, bug, remaining, pathway);
      remaining := remaining - {pathway};
    }
    forall pathway ensures Agrees(scores', lines', fmt, show, pathway, Contributions(done + [bug], pathway)) {
      assert pathway !in remaining;
    }
  }

  /** The loop's state after all bugs is the reference merge. */
  lemma {:induction false} MergedUpToAll(scores: map<string, real>, lines: map<string, seq<string>>, fmt: OutputFormat, show: real -> string,
                      bugs: seq<BugPathways>)
    requires MergedUpTo(scores, lines, fmt, show, bugs)
    ensures scores == MergedScores(bugs) && lines == MergedLines(fmt, show, bugs)
  {
    forall pathway | pathway in scores || pathway in lines ensures pathway in Pathways(bugs) {
      assert Agrees(scores, lines, fmt, show, pathway, Contributions(bugs, pathway));
      if pathway !in Pathways(bugs) {
        ContributionsReported(bugs, pathway);
      }
    }
    forall pathway ensures Agrees(scores, lines, fmt, show, pathway, Contributions(bugs, pathway)) {
    }
  }

  /** The merge loop over the bugs. */
  method MergeBugs(fmt: OutputFormat, show: real -> string, bugs: seq<BugPathways>)
    returns (scores: map<string, real>, lines: map<string, seq<string>>)
    ensures scores == MergedScores(bugs)
    ensures lines == MergedLines(fmt, show, bugs)
  {
    scores, lines := map[], map[];
    var i := 0;
    while i < |bugs|
      invariant 0 <= i <= |bugs|
      invariant MergedUpTo(scores, lines, fmt, show, bugs[..i])
    {
      assert bugs[..i + 1] == bugs[..i] + [bugs[i]];
      scores, lines := MergeBug(scores, lines, fmt, show, bugs[..i], bugs[i]);
      i := i + 1;
    }
    assert bugs[..i] == bugs;
    MergedUpToAll(scores, lines, fmt, show, bugs);
  }

  /** Every pathway of `order` has a total. */
  predicate Scored(order: seq<string>, scores: map<string, real>) {
    forall k :: 0 <= k < |order| ==> order[k] in scores
  }

  /** Highest total first. */
  predicate NonIncreasing(order: seq<string>, scores: map<string, real>)
    requires Scored(order, scores)
  {
    forall i, j :: 0 <= i < j < |order| ==> scores[order[i]] >= scores[order[j]]
  }

  /** Inserting a pathway after every pathway whose total is at least its own. */
  function InsertByTotal(order: seq<string>, scores: map<string, real>, pathway: string): (r: seq<string>)
    requires Scored(order, scores) && pathway in scores
    ensures |r| == |order| + 1 && Scored(r, scores)
    ensures r[0] == pathway || (|order| > 0 && r[0] == order[0])
    ensures forall q :: q in r <==> q in order || q == pathway
    decreases |order|
  {
    if |order| == 0 || scores[pathway] > scores[order[0]] then [pathway] + order
    else [order[0]] + InsertByTotal(order[1..], scores, pathway)
  }

  /** Insertion keeps the order non-increasing and the pathways distinct. */
  lemma {:induction false} InsertByTotalSorted(order: seq<string>, scores: map<string, real>, pathway: string)
    requires Scored(order, scores) && pathway in scores
    requires NonIncreasing(order, scores) && Grouping.Distinct(order) && pathway !in order
    ensures NonIncreasing(InsertByTotal(order, scores, pathway), scores)
    ensures Grouping.Distinct(InsertByTotal(order, scores, pathway))
    decreases |order|
  {
    var r := InsertByTotal(order, scores, pathway);
    if |order| == 0 || scores[pathway] > scores[order[0]] {
      assert forall k :: 0 < k < |r| ==> r[k] == order[k - 1];
    } else {
      var tail := order[1..];
      assert forall k :: 0 <= k < |tail| ==> tail[k] == order[k + 1];
      InsertByTotalSorted(tail, scores, pathway);
      var rest := InsertByTotal(tail, scores, pathway);
      assert r == [order[0]] + rest;
      forall j | 0 < j < |r| ensures scores[r[0]] >= scores[r[j]] && r[0] != r[j] {
        assert r[j] == rest[j - 1];
        assert rest[j - 1] in tail || rest[j - 1] == pathway;
      }
    }
  }

  /**
   * `sorted(all_pathways_scores, key=all_pathways_scores.get, reverse=True)`:
   * every pathway once, highest total first. The order among equal totals
   * follows dictionary order, which is left open.
   */
  method SortByTotal(scores: map<string, real>) returns (order: seq<string>)
    ensures Grouping.Distinct(order) && Scored(order, scores)
    ensures forall pathway :: pathway in order <==> pathway in scores
    ensures NonIncreasing(order, scores)
  {
    order := [];
    var remaining := scores.Keys;
    while remaining != {}
      invariant remaining <= scores.Keys
      invariant Grouping.Distinct(order) && Scored(order, scores) && NonIncreasing(order, scores)
      invariant forall pathway :: pathway in order <==> pathway in scores && pathway !in remaining
      decreases |remaining|
    {
      var pathway :| pathway in remaining;
      InsertByTotalSorted(order, scores, pathway);
      order := InsertByTotal(order, scores, pathway);
      remaining := remaining - {pathway};
    }
  }

  /** `pathway + delimiter + str(total)` followed by the pathway's detail lines. */
  function Block(fmt: OutputFormat, show: real -> string, scores: map<string, real>, lines: map<string, seq<string>>,
                 pathway: string): seq<string>
    requires pathway in scores && pathway in lines
  {
    [pathway + fmt.delimiter + show(scores[pathway])] + lines[pathway]
  }

  /** The blocks of the pathways of `order`, one after the other. */
  function Blocks(fmt: OutputFormat, show: real -> string, scores: map<string, real>, lines: map<string, seq<string>>,
                  order: seq<string>): seq<string>
    requires forall k :: 0 <= k < |order| ==> order[k] in scores && order[k] in lines
    decreases |order|
  {
    if |order| == 0 then []
    else Blocks(fmt, show, scores, lines, order[..|order| - 1]) + Block(fmt, show, scores, lines, order[|order| - 1])
  }

  /** Where the block of `order[k]` starts, counting from the first block. */
  function Offset(scores: map<string, real>, lines: map<string, seq<string>>, order: seq<string>, k: nat): nat
    requires k <= |order|
    requires forall k :: 0 <= k < |order| ==> order[k] in lines
    decreases k
  {
    if k == 0 then 0 else Offset(scores, lines, order, k - 1) + 1 + |lines[order[k - 1]]|
  }

  /**
   * The written text is the blocks in `order`: block `k` sits at its offset,
   * total line first.
   */
  lemma {:induction false} BlockAt(fmt: OutputFormat, show: real -> string, scores: map<string, real>,
                                   lines: map<string, seq<string>>, order: seq<string>, k: nat)
    requires forall k :: 0 <= k < |order| ==> order[k] in scores && order[k] in lines
    requires k < |order|
    ensures Offset(scores, lines, order, k + 1) <= |Blocks(fmt, show, scores, lines, order)|
    ensures Blocks(fmt, show, scores, lines, order)[Offset(scores, lines, order, k)..Offset(scores, lines, order, k + 1)] ==
      Block(fmt, show, scores, lines, order[k])
    decreases |order|
  {
    var prefix := order[..|order| - 1];
    assert forall j :: 0 <= j < |prefix| ==> prefix[j] == order[j];
    OffsetPrefix(scores, lines, order, prefix, k);
    var all := Blocks(fmt, show, scores, lines, order);
    var front := Blocks(fmt, show, scores, lines, prefix);
    if k < |prefix| {
      BlockAt(fmt, show, scores, lines, prefix, k);
      OffsetPrefix(scores, lines, order, prefix, k + 1);
      assert all[Offset(scores, lines, order, k)..Offset(scores, lines, order, k + 1)] ==
        front[Offset(scores, lines, order, k)..Offset(scores, lines, order, k + 1)];
    } else {
      BlocksLength(fmt, show, scores, lines, prefix);
    }
  }

  /** Offsets up to `k` depend only on the first `k` pathways. */
  lemma {:induction false} OffsetPrefix(scores: map<string, real>, lines: map<string, seq<string>>,
                                        order: seq<string>, prefix: seq<string>, k: nat)
    requires |prefix| <= |order| && forall j :: 0 <= j < |prefix| ==> prefix[j] == order[j]
    requires forall j :: 0 <= j < |order| ==> order[j] in lines
    requires k <= |prefix|
    ensures Offset(scores, lines, order, k) == Offset(scores, lines, prefix, k)
    decreases k
  {
    if k > 0 {
      OffsetPrefix(scores, lines, order, prefix, k - 1);
    }
  }

  /** The blocks end at the last offset. */
  lemma {:induction false} BlocksLength(fmt: OutputFormat, show: real -> string, scores: map<string, real>,
                                        lines: map<string, seq<string>>, order: seq<string>)
    requires forall k :: 0 <= k < |order| ==> order[k] in scores && order[k] in lines
    ensures |Blocks(fmt, show, scores, lines, order)| == Offset(scores, lines, order, |order|)
    decreases |order|
  {
    if |order| > 0 {
      var prefix := order[..|order| - 1];
      assert forall j :: 0 <= j < |prefix| ==> prefix[j] == order[j];
      BlocksLength(fmt, show, scores, lines, prefix);
      OffsetPrefix(scores, lines, order, prefix, |prefix|);
    }
  }

  /** The whole written text: the header line, then the blocks in `order`. */
  function Report(fmt: OutputFormat, show: real -> string, header: string, scores: map<string, real>,
                  lines: map<string, seq<string>>, order: seq<string>): seq<string>
    requires forall k :: 0 <= k < |order| ==> order[k] in scores && order[k] in lines
  {
    ["Pathway" + fmt.delimiter + header] + Blocks(fmt, show, scores, lines, order)
  }

  /**
   * `text` is what is written for the merged dictionaries when the pathways
   * are taken in `order`: each pathway once, highest total first.
   */
  ghost predicate PrintedInOrder(fmt: OutputFormat, show: real -> string, header: string, scores: map<string, real>,
                                 lines: map<string, seq<string>>, order: seq<string>, text: seq<string>) {
    Grouping.Distinct(order) && Scored(order, scores) &&
    (forall pathway :: pathway in order <==> pathway in scores) &&
    NonIncreasing(order, scores) &&
    (forall k :: 0 <= k < |order| ==> order[k] in lines) &&
    text == Report(fmt, show, header, scores, lines, order)
  }

  /**
   * `print_pathways`, returning the lines it writes: the header first, then
   * for each pathway with a positive score, highest total first, its total
   * line and one detail line per bug with a positive score.
   */
  method PrintPathways(fmt: OutputFormat, show: real -> string, bugs: seq<BugPathways>, header: string)
    returns (text: seq<string>)
    ensures |text| > 0 && text[0] == "Pathway" + fmt.delimiter + header
    ensures exists order :: PrintedInOrder(fmt, show, header, MergedScores(bugs), MergedLines(fmt, show, bugs), order, text)
  {
    var scores, lines := MergeBugs(fmt, show, bugs);
    MergedKeys(fmt, show, bugs);
    text := WriteReport(fmt, show, header, scores, lines);
  }

  /** The header line, then the pathways of `scores`, highest total first. */
  method WriteReport(fmt: OutputFormat, show: real -> string, header: string, scores: map<string, real>,
                     lines: map<string, seq<string>>) returns (text: seq<string>)
    requires lines.Keys == scores.Keys
    ensures |text| > 0 && text[0] == "Pathway" + fmt.delimiter + header
    ensures exists order :: PrintedInOrder(fmt, show, header, scores, lines, order, text)
  {
    var order := SortByTotal(scores);
    assert forall k :: 0 <= k < |order| ==> order[k] in lines by {
      forall k | 0 <= k < |order| ensures order[k] in lines {
        assert order[k] in order;
      }
    }
    var blocks := WriteBlocks(fmt, show, scores, lines, order);
    text := ["Pathway" + fmt.delimiter + header] + blocks;
    assert PrintedInOrder(fmt, show, header, scores, lines, order, text);
  }

  /** The writing loop: one block per pathway of `order`. */
  method WriteBlocks(fmt: OutputFormat, show: real -> string, scores: map<string, real>, lines: map<string, seq<string>>,
                     order: seq<string>) returns (text: seq<string>)
    requires forall k :: 0 <= k < |order| ==> order[k] in scores && order[k] in lines
    ensures text == Blocks(fmt, show, scores, lines, order)
  {
    text := [];
    var i := 0;
    while i < |order|
      invariant 0 <= i <= |order|
      invariant text == Blocks(fmt, show, scores, lines, order[..i])
    {
      assert order[..i + 1][..i] == order[..i];
      text := text + ([order[i] + fmt.delimiter + show(scores[order[i]])] + lines[order[i]]);
      i := i + 1;
    }
    assert order[..i] == order;
  }
}
