# HUMAnN pathway quantification and RNA/DNA normalisation, in Dafny

This project models two parts of HUMAnN.

The first part is the pathway quantification core of `src/quantify_modules.py`. For each bug (organism):

- its alignment hits are grouped by query read;
- each hit to a gene known to the reactions database is weighted by `exp(-evalue)`, normalised within its query, and accumulated per gene;
- gene scores are summed into reaction scores, and only reactions with a positive score are kept;
- MinPath's detail output assigns reactions to pathways, and the per-bug store `pathway -> reaction -> score` is built from that;
- every pathway's reaction scores are backfilled with 0 for the database reactions the bug lacks;
- abundance is the mean of the upper half of the sorted scores;
- coverage is the share of scores above the bug's median score, and the xipe filter then drops pathways xipe flags and does not rescue.

Finally `print_pathways` merges the per-bug results into one community table. Pathway totals are sums of positive scores, one detail line is written per positive score, and pathways are printed highest total first.

The second part is the table transformations of `humann2/tools/rna_dna_norm.py`:

- `remove_totals` keeps only stratified rows;
- `wbsmooth` applies Witten-Bell smoothing over a feature list: zeros become the column's epsilon, other values are scaled by the column's norm, and absent features get the epsilon row;
- `hsum` puts before every group a summary row holding the column sums of its members, followed by the member rows;
- the final RNA-over-DNA division is modelled row by row.

Modules follow the program's structure:

| module | file |
|---|---|
| `Grouping` | hits grouped by query |
| `HitScoring` | gene scores |
| `ReactionAggregation` | reaction scores |
| `MinPathDetail` | MinPath's detail file |
| `PathwayStore` | the per-bug store |
| `PathwayStatistics` | backfill, abundance, coverage |
| `Xipe` | the xipe filter |
| `PathwayOutput` | `print_pathways` |
| `RnaDnaNorm` | `rna_dna_norm.py` |

`MapSums`, `Sorting`, `Strings` and `Wrappers` are shared helpers. They provide sums over sequences and maps, insertion sort for `sorted`, and Python's `strip`, `split` and `join`, plus `Option` and `Result`.

Two functions are parameters of the model rather than parts of it. `math.exp` is a parameter of which only positivity is used. Python's `str` on floats is a parameter `show`.

Python exceptions are modelled as error values, and every error is said to occur exactly when the source raises:

- the MinPath loop's IndexError and unbound `current_pathway`;
- xipe's ValueError and KeyError;
- `wbsmooth`'s IndexError on an empty table and its ZeroDivisionError on an all-zero column;
- the ZeroDivisionError of the final ratio and its IndexError when DNA has more rows than RNA.

Where the source mutates an object in place, the model is imperative. The bug's pathway store (`pathways_and_reactions_store.get_items()`, whose reaction maps are backfilled in place) is the class `PathwayStatistics.BugStore`. `util.Table` is the class `RnaDnaNorm.Table`, which `RemoveTotals`, `WbSmooth`, `HSum` and `NormalizeRna` modify. The loops of the source are methods with loop invariants, proved against specification functions. The properties are proved as lemmas about those functions.

## Model

| member | source | states |
|---|---|---|
| Grouping.IndicesOfMember | src/quantify_modules.py:72-78 | index `i` is in the group of key `k` exactly when `keys[i] == k` |
| Grouping.IndicesOfIncreasing | src/quantify_modules.py:72-78 | each group lists its hit indices in increasing order, as `enumerate` appends them |
| Grouping.ExactlyOneGroup | src/quantify_modules.py:72-78 | every hit index belongs to the group of its own query and to no other |
| Grouping.MembersPermutation | src/quantify_modules.py:72-78 | concatenating the groups over all distinct keys visits every hit index exactly once |
| Grouping.GroupIndices | src/quantify_modules.py:72-78 | the loop builds a map whose keys are exactly the queries and whose values are each query's hit indices; the order of first appearance is also returned |
| HitScoring.QueryGenesEmpty | src/quantify_modules.py:87-94 | a query contributes no genes exactly when none of its hits references a known gene |
| HitScoring.QueryGenes | src/quantify_modules.py:87-94 | a query yields at most one gene per hit, each a known reference with a positive weight, and its total weight is positive exactly when it yields a gene |
| HitScoring.QueryGenesReferences | src/quantify_modules.py:87-94 | the genes a list of hits contributes are exactly the known references among them |
| HitScoring.QueryHasKnownHit | src/quantify_modules.py:86-94 | a query contributes genes exactly when it is one of the queries with a hit to a known gene |
| HitScoring.QueryReferences | src/quantify_modules.py:86-94 | the genes a query contributes are exactly the known references hit by that query's reads |
| HitScoring.AddScoresKeys | src/quantify_modules.py:96-97 | adding a query's genes extends the gene map by exactly those genes |
| HitScoring.AddScoresPositive | src/quantify_modules.py:96-97 | gene totals stay positive |
| HitScoring.AddScoresMass | src/quantify_modules.py:96-97 | one query adds its total weight divided by its total, to the sum of all gene scores |
| HitScoring.QueryAddsOne | src/quantify_modules.py:86-97 | a query with a known hit adds exactly 1 to the sum of gene scores; one without adds nothing |
| HitScoring.ScoreQueriesMass | src/quantify_modules.py:86-97 | over a list of queries, the sum of gene scores grows by the number of queries with a known hit |
| HitScoring.GeneScoresMass | src/quantify_modules.py:85-97 | the gene scores of a bug sum to the number of its reads that hit a known gene: each read is distributed once |
| HitScoring.ScoreQueriesKeys | src/quantify_modules.py:86-97 | the genes scored are exactly the known references hit by the processed queries |
| HitScoring.ScoreQueriesPositive | src/quantify_modules.py:86-97 | all accumulated gene scores are positive |
| HitScoring.GeneScoresKeys | src/quantify_modules.py:85-97 | a gene gets a score exactly when some hit references it and the database knows it, and that score is positive |
| HitScoring.NoHitsNoScores | src/quantify_modules.py:72-97 | a bug without hits has no gene scores |
| HitScoring.CollectQueryGenes | src/quantify_modules.py:87-94 | the inner loop collects the query's known genes with their weights and their total |
| HitScoring.AddQueryScores | src/quantify_modules.py:96-97 | the update loop adds each normalised weight to the gene's running total |
| HitScoring.ScoreGenes | src/quantify_modules.py:72-97 | grouping and scoring together compute the gene score map of the bug |
| MapSums.MapTotalAdd | src/quantify_modules.py:97 | `total_genes[gene] = w + total_genes.get(gene, 0)` raises the sum of all gene scores by exactly `w` |
| ReactionAggregation.ReactionScoreNonNegative | src/quantify_modules.py:105-109 | a reaction's score is non-negative when the gene scores are |
| ReactionAggregation.ReactionScorePositive | src/quantify_modules.py:105-112 | with positive gene scores, a reaction scores above 0 exactly when one of its genes has a score |
| ReactionAggregation.ReactionScoreOfNothing | src/quantify_modules.py:105-109 | without gene scores every reaction scores 0 |
| ReactionAggregation.PositiveReactions | src/quantify_modules.py:112-114 | the lines written are the positive reactions with their scores, and every positive reaction is written |
| ReactionAggregation.SumGeneScores | src/quantify_modules.py:106-109 | the inner loop computes the reaction's score from its genes' totals, 0 for genes without one |
| ReactionAggregation.AggregateReactions | src/quantify_modules.py:103-116 | the kept reactions are exactly the database reactions with a positive score, each mapped to its score; every kept reaction is written |
| MinPathDetail.Kinds | src/quantify_modules.py:135-140 | one classification per detail line |
| MinPathDetail.StepAssigned | src/quantify_modules.py:137-143 | one line keeps the invariant that a reaction's pathway list is the list of pathways current at its earlier lines |
| MinPathDetail.ParsedPathways | src/quantify_modules.py:134-144 | after the loop, the current pathway is the last pathway line, and each reaction lists the pathway current at each of its lines, in file order |
| MinPathDetail.ErrorPersists | src/quantify_modules.py:134-144 | once a line raises, the whole loop raises that exception |
| MinPathDetail.NoPathwayYet | src/quantify_modules.py:137-140 | while only reaction lines have been read, no pathway is current |
| MinPathDetail.ReactionBeforePathwayFails | src/quantify_modules.py:137-143 | a reaction line before every pathway line makes the loop fail |
| MinPathDetail.ReadDetail | src/quantify_modules.py:132-144 | the `while line:` loop succeeds exactly when the specification does, with the same pathway lists or the same exception |
| PathwayStore.Add | src/quantify_modules.py:158-159 | `store.add` sets exactly one entry and leaves every other entry and pathway as it was |
| PathwayStore.AddReaction | src/quantify_modules.py:155-159 | one reaction is stored under exactly its listed non-empty pathways, with its score |
| PathwayStore.BuildStore | src/quantify_modules.py:151-159 | the store holds (pathway, reaction) exactly when the reaction has a score and MinPath listed it under that non-empty pathway; each entry holds the reaction's score; no pathway is empty |
| PathwayStore.NoHitsNoReactions | src/quantify_modules.py:72-116 | without hits no reaction scores above 0 |
| PathwayStore.IdentifyReactionsAndPathways | src/quantify_modules.py:36-162 | the per-bug pipeline writes the positive reactions, fails exactly when reading MinPath's output fails, and otherwise stores each assigned reaction with its positive score; when no reaction is written MinPath's output is not read and the store is empty (so a bug without hits gets an empty store); no stored pathway is empty |
| PathwayStatistics.MeasurableSpec | src/quantify_modules.py:209-281 | the coverage and abundance divisions have a non-zero divisor for every pathway exactly when the store is measurable: every pathway keeps at least one reaction after backfilling from the database |
| PathwayStatistics.NonEmptyMeasurable | src/quantify_modules.py:209-281 | a store in which no pathway is empty, as the pipeline produces, is measurable against any database |
| PathwayStatistics.BackfilledEntries | src/quantify_modules.py:209-210 | backfilling adds the pathway's database reactions with score 0 and keeps every existing score |
| PathwayStatistics.BackfillIdempotent | src/quantify_modules.py:270-272 | a second backfill changes nothing |
| PathwayStatistics.BackfillAll | src/quantify_modules.py:268-272 | backfilling the store keeps its set of pathways |
| PathwayStatistics.BackfillAllIdempotent | src/quantify_modules.py:206-210 | backfilling in the coverage pass after the abundance pass (the same store objects) changes nothing |
| PathwayStatistics.UpperHalfMeanBounds | src/quantify_modules.py:275-281 | the mean of the upper half of the sorted scores lies between the median element and the largest score |
| PathwayStatistics.UpperHalfMeanExample | src/quantify_modules.py:278-281 | for sorted scores 0, 0, 1, 3, 5 the upper half is 1, 3, 5 and the abundance is 3 |
| PathwayStatistics.AbundanceBounds | src/quantify_modules.py:275-281 | a pathway's abundance lies between its smallest and largest reaction score |
| PathwayStatistics.AbundanceNonNegative | src/quantify_modules.py:275-281 | with non-negative reaction scores, abundance is non-negative |
| PathwayStatistics.Coverage | src/quantify_modules.py:213-219 | coverage is a share: between 0 and 1 |
| PathwayStatistics.CoverageExtremes | src/quantify_modules.py:213-219 | coverage is 1 exactly when every score is above the median, and 0 exactly when none is |
| PathwayStatistics.CoverageExample | src/quantify_modules.py:213-219 | scores 0, 3, 5 with median 2 give coverage 2/3 |
| PathwayStatistics.CountAboveMedian | src/quantify_modules.py:213-216 | the counting loop counts the scores strictly above the median |
| PathwayStatistics.ValuesOf | src/quantify_modules.py:275 | `reaction_scores.values()` holds each score once per reaction |
| PathwayStatistics.BugStore.Backfill | src/quantify_modules.py:209-210 | `setdefault` in place replaces exactly the one pathway's map by its backfilled map |
| PathwayStatistics.PathwayAbundance | src/quantify_modules.py:275-281 | sorting, halving and averaging compute the specified abundance |
| PathwayStatistics.AbundanceStep | src/quantify_modules.py:268-283 | one iteration backfills its pathway in place and returns that pathway's abundance |
| PathwayStatistics.FilledExceptStep | src/quantify_modules.py:268-272 | the store invariant of the loop: pathways done are backfilled, the rest untouched |
| PathwayStatistics.AbundancesOfExtend | src/quantify_modules.py:283 | recording one more pathway's abundance keeps every recorded abundance correct |
| PathwayStatistics.PathwaysAbundance | src/quantify_modules.py:267-286 | the store ends fully backfilled, and every pathway gets exactly its abundance |
| PathwayStatistics.CoverageStep | src/quantify_modules.py:206-221 | one iteration backfills its pathway in place and returns that pathway's coverage |
| PathwayStatistics.CoveragesOfExtend | src/quantify_modules.py:221 | recording one more pathway's coverage keeps every recorded coverage correct |
| PathwayStatistics.XipeInputExtend | src/quantify_modules.py:222 | appending one `pathway<delim>coverage` line keeps xipe's input aligned with the pathways visited |
| PathwayStatistics.PathwayCoverages | src/quantify_modules.py:202-222 | the store ends fully backfilled, every pathway gets exactly its coverage, and xipe's input has one line per pathway in visiting order |
| Sorting.SortAscending | src/quantify_modules.py:275 | `sorted` returns a sorted permutation of the scores |
| Strings.Strip | src/quantify_modules.py:136 | `strip` returns the input without surrounding whitespace: a slice that neither starts nor ends with whitespace, after only whitespace |
| Strings.Inner | src/quantify_modules.py:246 | `pathway_data[1:-1]` is what remains once the first and last characters are taken off: the text is its first character, the result and its last character; shorter text gives an empty result |
| Xipe.FlaggedMember | src/quantify_modules.py:234-238 | a pathway is flagged exactly when some stderr line splits into two fields naming it |
| Xipe.FlagPathways | src/quantify_modules.py:234-238 | the stderr loop collects the second field of every two-field line, in order |
| Xipe.RemoveFirst | src/quantify_modules.py:248 | `list.remove` takes away one occurrence |
| Xipe.RemoveFirstIsFirst | src/quantify_modules.py:248 | the occurrence removed is the first one |
| Xipe.Records | src/quantify_modules.py:241-244 | one record per stdout line |
| Xipe.RescuedCount | src/quantify_modules.py:241-248 | each pathway stays flagged as often as it was flagged, less the number of its successful stdout records while flagged, never below zero |
| Xipe.RescuedOnlyShrinks | src/quantify_modules.py:241-248 | rescuing only ever removes flags |
| Xipe.RescuedErrorPersists | src/quantify_modules.py:241-248 | once a stdout record raises, the whole loop raises that exception |
| Xipe.ReinstatePathways | src/quantify_modules.py:241-248 | the stdout loop computes the specified rescue, or the same exception |
| Xipe.RemovedSpec | src/quantify_modules.py:251-252 | deletion succeeds exactly when every flagged pathway is present and no pathway is flagged twice; the result drops exactly the flagged pathways and keeps the other coverages |
| Xipe.RemovePathways | src/quantify_modules.py:251-252 | the `del` loop computes the specified deletion, or the same KeyError |
| Xipe.RemovedErrorPersists | src/quantify_modules.py:251-252 | once a `del` fails, the loop fails with that KeyError |
| Xipe.XipeFilterKeeps | src/quantify_modules.py:234-252 | a successful filter keeps a subset of the coverages with their values, and keeps every pathway never flagged |
| Xipe.PathwaysCoverage | src/quantify_modules.py:191-254 | the whole coverage pass backfills the store, feeds xipe one line per pathway, and returns the filtered coverages |
| PathwayOutput.DetailLines | src/quantify_modules.py:308-313 | one detail line per contribution |
| PathwayOutput.ContributionsLast | src/quantify_modules.py:301-313 | a further bug appends its positive score, if any, to a pathway's contributions |
| PathwayOutput.ContributionsMember | src/quantify_modules.py:301-305 | a pathway's contributions are exactly the positive scores of the bugs that report it |
| PathwayOutput.ContributionsReported | src/quantify_modules.py:304-305 | a pathway no bug reports has no contributions |
| PathwayOutput.TotalPositive | src/quantify_modules.py:305-311 | a total of positive scores is non-negative, and positive when there is a contribution |
| PathwayOutput.MergedTotals | src/quantify_modules.py:299-313 | a pathway is in the merged table exactly when some bug gives it a positive score, and its total is then positive |
| PathwayOutput.MergeExample | src/quantify_modules.py:299-313 | a two-bug example: zero scores are dropped, and the totals and detail lines come out as expected |
| PathwayOutput.AgreesStep | src/quantify_modules.py:305-313 | adding one positive score keeps a pathway's total and detail lines in step |
| PathwayOutput.MergePathway | src/quantify_modules.py:304-313 | one pathway of one bug is merged into the running maps |
| PathwayOutput.MergeBug | src/quantify_modules.py:301-313 | one bug's items are merged, whatever order the dictionary gives them in |
| PathwayOutput.MergedUpToAll | src/quantify_modules.py:299-313 | after all bugs, the running maps are the merged totals and detail lines |
| PathwayOutput.MergeBugs | src/quantify_modules.py:299-313 | the merging loop computes the merged totals and detail lines |
| PathwayOutput.InsertByTotal | src/quantify_modules.py:320 | inserting a pathway adds exactly it to the order |
| PathwayOutput.InsertByTotalSorted | src/quantify_modules.py:320 | insertion keeps the order non-increasing by total and free of repeats |
| PathwayOutput.SortByTotal | src/quantify_modules.py:320 | the pathways are ordered by decreasing total, each exactly once |
| PathwayOutput.BlockAt | src/quantify_modules.py:320-324 | the k-th pathway's block (total line, then its detail lines) sits at its offset in the output |
| PathwayOutput.BlocksLength | src/quantify_modules.py:320-324 | the output is as long as all blocks together |
| PathwayOutput.WriteBlocks | src/quantify_modules.py:320-324 | the writing loop emits exactly the blocks in order |
| PathwayOutput.WriteReport | src/quantify_modules.py:315-324 | given a score and a line list per pathway, the output is the header line and then every pathway's block exactly once, totals non-increasing |
| PathwayOutput.PrintPathways | src/quantify_modules.py:288-326 | the file starts with the header line, followed by each merged pathway's block, in an order of non-increasing totals that lists every pathway once |
| RnaDnaNorm.StratifiedIndicesSpec | humann2/tools/rna_dna_norm.py:38-41 | the kept rows are exactly those whose name holds the stratum delimiter, in table order |
| RnaDnaNorm.RemoveTotalsNames | humann2/tools/rna_dna_norm.py:36-42 | a name survives exactly when it is in the table and stratified |
| RnaDnaNorm.RemoveTotals | humann2/tools/rna_dna_norm.py:36-42 | the table keeps its stratified rows, names and data in step, in their order |
| RnaDnaNorm.StatsUpTo | humann2/tools/rna_dna_norm.py:56-64 | a successful statistics pass yields one entry per column; a failing one fails with ZeroDivisionError |
| RnaDnaNorm.StatsErrorPersists | humann2/tools/rna_dna_norm.py:56-64 | once a column raises, the pass raises that exception |
| RnaDnaNorm.StatsUpToSpec | humann2/tools/rna_dna_norm.py:56-64 | the pass succeeds exactly when every column has statistics, and then holds them; otherwise it fails at the first column without statistics |
| RnaDnaNorm.StatsBounds | humann2/tools/rna_dna_norm.py:58-64 | with a non-negative column sum, the norm lies in [0, 1] and epsilon is non-negative |
| RnaDnaNorm.ColumnStatsBounds | humann2/tools/rna_dna_norm.py:46-64 | on counts, a column has no statistics exactly when it is all zero; otherwise its norm lies in [0, 1] and its epsilon is non-negative |
| RnaDnaNorm.RowMap | humann2/tools/rna_dna_norm.py:66 | the row map holds exactly the row names, each mapped to a row with that name |
| RnaDnaNorm.RowMapDistinct | humann2/tools/rna_dna_norm.py:66 | with distinct names, each name maps to its own row |
| RnaDnaNorm.ColumnTotals | humann2/tools/rna_dna_norm.py:46-53 | the first loop computes every column's sum and its number of positive entries |
| RnaDnaNorm.ComputeStats | humann2/tools/rna_dna_norm.py:55-64 | the statistics loop computes the specified pass, including its exception |
| RnaDnaNorm.SmoothedNonNegative | humann2/tools/rna_dna_norm.py:66-83 | smoothing counts yields non-negative values |
| RnaDnaNorm.SmoothColumnSum | humann2/tools/rna_dna_norm.py:74-78 | a present column's smoothed sum is its norm times its sum plus epsilon times its zeros |
| RnaDnaNorm.EpsilonTotalProduct | humann2/tools/rna_dna_norm.py:80-82 | absent features add epsilon once each |
| RnaDnaNorm.SplitSum | humann2/tools/rna_dna_norm.py:69-82 | a rebuilt column's sum splits into its present rows plus epsilon for each absent feature |
| RnaDnaNorm.PresentRowsSpec | humann2/tools/rna_dna_norm.py:69-73 | the table rows used are exactly those whose names are among the features, each used once |
| RnaDnaNorm.PresentRowsPermutation | humann2/tools/rna_dna_norm.py:66-73 | when every row name is a feature, the rebuild uses every table row exactly once |
| RnaDnaNorm.SmoothedColumn | humann2/tools/rna_dna_norm.py:68-83 | a column of the rebuilt table is the present rows' smoothed values spread over the features, with epsilon for absent features |
| RnaDnaNorm.PresentSum | humann2/tools/rna_dna_norm.py:66-73 | the present rows together carry the whole column sum |
| RnaDnaNorm.StatsEquations | humann2/tools/rna_dna_norm.py:58-64 | the norm and epsilon of a column satisfy `norm * (N + T) == N` and `epsilon * Z == norm * T` |
| RnaDnaNorm.ColumnBalance | humann2/tools/rna_dna_norm.py:56-82 | the mass the norm takes from the observed values is exactly the mass epsilon gives to the zeros and absent features |
| RnaDnaNorm.SmoothingKeepsColumnSums | humann2/tools/rna_dna_norm.py:44-83 | Witten-Bell smoothing keeps every column's sum when the column has unobserved features (Z > 0) |
| RnaDnaNorm.WbSmooth | humann2/tools/rna_dna_norm.py:44-83 | `wbsmooth` raises exactly when the statistics pass does, leaving the table as it was; otherwise the table is rebuilt on the features with the smoothed rows |
| RnaDnaNorm.Rebuild | humann2/tools/rna_dna_norm.py:68-83 | the rebuild loop gives one row per feature, its smoothed row or the epsilon row |
| RnaDnaNorm.GroupOf | humann2/tools/rna_dna_norm.py:88-89 | a row's group is the longest prefix of its name without `\|`: the whole name, or the part followed by the first `\|` |
| Strings.SplitFirstField | humann2/tools/rna_dna_norm.py:89 | the first field of a split on one character is a prefix of the text that does not contain the character and is either the whole text or followed by it |
| RnaDnaNorm.Layout | humann2/tools/rna_dna_norm.py:91-102 | the layout refers only to existing rows |
| RnaDnaNorm.RowTotal | humann2/tools/rna_dna_norm.py:95-97 | a summary row is as wide as the first row, or narrower when `zip` truncates at a shorter member |
| RnaDnaNorm.LayoutMemberCount | humann2/tools/rna_dna_norm.py:91-102 | each row appears in the new table as often as it appears in the groups |
| RnaDnaNorm.LayoutSummaryCount | humann2/tools/rna_dna_norm.py:92-94 | each group gets exactly one summary row |
| RnaDnaNorm.SummedLayoutCounts | humann2/tools/rna_dna_norm.py:85-103 | the new table has one row per old row plus one per group; every old row appears exactly once, and every group exactly once as a summary |
| RnaDnaNorm.LayoutBlocks | humann2/tools/rna_dna_norm.py:92-102 | every old row follows its own group's summary row, with only rows of that group in between |
| RnaDnaNorm.RowTotalColumn | humann2/tools/rna_dna_norm.py:95-97 | a summary entry is the sum of that column over the group's rows |
| RnaDnaNorm.SummaryColumnMembers | humann2/tools/rna_dna_norm.py:92-98 | the summary rows of a column add up to the column's sum over all grouped rows |
| RnaDnaNorm.SummariesAddUp | humann2/tools/rna_dna_norm.py:85-103 | on a rectangular table, the summary rows of a column add up to the old column sum |
| RnaDnaNorm.BlockRender | humann2/tools/rna_dna_norm.py:93-102 | a group's block is its name and the names of its rows, with the summary row then the rows themselves |
| RnaDnaNorm.WriteBlock | humann2/tools/rna_dna_norm.py:93-102 | one group's iteration writes its block |
| RnaDnaNorm.SummaryRow | humann2/tools/rna_dna_norm.py:95-97 | the zip-adding loop computes the group's summary row |
| RnaDnaNorm.HSum | humann2/tools/rna_dna_norm.py:85-103 | `hsum` replaces the table by the summed layout: names and rows |
| RnaDnaNorm.RowRatioSpec | humann2/tools/rna_dna_norm.py:130 | a row's ratio fails exactly when a DNA value among the zipped pairs is 0, at the first such column; otherwise each ratio times its DNA value is the RNA value |
| RnaDnaNorm.RatiosSpec | humann2/tools/rna_dna_norm.py:129-130 | the ratio loop succeeds exactly when RNA has enough rows and no zipped DNA value is 0, and then gives one row per DNA row whose every ratio times its DNA value is the RNA value; otherwise it fails at the first failing row, whose prefix succeeds |
| RnaDnaNorm.NormalizeRna | humann2/tools/rna_dna_norm.py:129-130 | the rows divided before an exception stay divided, and the rest stay as they were; row names do not change |
| RnaDnaNorm.RatiosErrorPersists | humann2/tools/rna_dna_norm.py:129-130 | once a row fails, the loop fails with that exception |

## Left out

- PathwayStatistics.PathwaysAbundance and PathwayStatistics.PathwayCoverages (with their step methods) require `Measurable`, so the ZeroDivisionError that Python raises for a pathway with no reactions after backfilling (src/quantify_modules.py:219 and :281) is excluded rather than modelled. Stores produced by IdentifyReactionsAndPathways always meet it (NonEmptyMeasurable).
- MinPath (`install_minpath`, `run_minpath`), its temporary files and its output file are not modelled. Its detail output is an input given as lines, and `re.search` on the pathway identifier is a predicate parameter `isHeader`.
- The xipe subprocess is not modelled: its stdout and stderr are inputs. `float()` and `int()` are parameters returning `None` where Python raises ValueError.
- Multiprocessing (`compute_pathways_abundance_and_coverage` and the per-bug dispatch) is not modelled. The model covers one bug at a time, as each worker does.
- Temporary files, the reactions file and the output file are not modelled. The written lines are returned as sequences of strings.
- Verbose progress messages are not modelled.
- `math.exp` is a parameter known only to be positive. Floating-point rounding is not modelled: scores are reals.
- `store.median_score()` is a parameter `median`. The `store` module is not part of this model; its stores and databases are modelled from their uses in the core.
- Python 2 dictionary order is not modelled. Where it shows (the order of queries, of `groups.items()` in `hsum`), the model uses the order of first appearance. Everywhere else the results are proved independent of order.
- PathwayOutput.SortByTotal: ties between equal totals are left in an unspecified order, as `sorted` on a dictionary leaves them.
- PathwayOutput.PrintPathways: the order of pathways with equal totals is left unspecified, as above.
- `util.c_strat_delim` is taken to be `'|'`. `util.Table`'s reading and writing are not part of this model.
- `get_args` and `main` of `rna_dna_norm.py` are not modelled. This includes the stratification assertion, the union of the feature lists and the stratified feature filter. Only `main`'s final division loop is modelled.
- RnaDnaNorm.WbSmooth: requires a rectangular table and distinct features. `main` passes a sorted set of names. On a ragged table Python raises IndexError or uses only the first row's width; that case is not modelled.
- RnaDnaNorm.WbSmooth: `map(float, row)` is the identity on reals. The shared `epsilons` list given to every absent feature is a value here, because no later step mutates a row in place.
- RnaDnaNorm.SmoothingKeepsColumnSums: stated only for columns with an unobserved feature (Z > 0). When Z is 0 the source still scales by the norm and the column loses mass.
- RnaDnaNorm.NormalizeRna: the DNA rows are a value, not a second `Table` object, so aliasing between the two tables is not modelled.
