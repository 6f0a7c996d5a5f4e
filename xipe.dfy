/**
 * The xipe filter at the end of `pathways_coverage_by_bug`. xipe itself is
 * not modelled: its stdout and stderr texts are inputs. Every two-field line
 * of stderr flags a pathway for removal; a flagged pathway is un-flagged once
 * per two-field stdout record whose `(score, bin)` has a high enough score
 * in the target bin; the pathways still flagged are deleted from the
 * coverage map.
 */
module Xipe {
  import opened Wrappers
  import Strings
  import Grouping
  import PathwayStore
  import PathwayStatistics

  /** The configured delimiter, probability threshold and target bin. */
  datatype XipeConfig = XipeConfig(delimiter: string, probability: real, bin: int)

  /**
   * The exceptions the filter can raise: a stdout record that does not split
   * into exactly two parts, a score `float()` rejects, a bin `int()` rejects
   * (all ValueError, with the 0-based stdout line), or a `del` of a pathway
   * the coverage map does not hold (KeyError).
   */
  datatype XipeError = MalformedRecord(line: nat) | BadScore(line: nat) | BadBin(line: nat) | MissingPathway(pathway: string)

  /** `line.strip().split(delimiter)` */
  function Fields(cfg: XipeConfig, line: string): seq<string>
    requires |cfg.delimiter| > 0
  {
    Strings.Split(Strings.Strip(line), cfg.delimiter)
  }

  /** What one stderr line flags: the second field of a two-field line. */
  function Flag(cfg: XipeConfig, line: string): Option<string>
    requires |cfg.delimiter| > 0
  {
    var data := Fields(cfg, line);
    if |data| == 2 then Some(data[1]) else None
  }

  function Flags(cfg: XipeConfig, lines: seq<string>): (flags: seq<Option<string>>)
    requires |cfg.delimiter| > 0
    ensures |flags| == |lines|
  {
    seq(|lines|, i requires 0 <= i < |lines| => Flag(cfg, lines[i]))
  }

  /** The pathways flagged, in line order, repeats kept. */
  function Flagged(flags: seq<Option<string>>): seq<string>
    decreases |flags|
  {
    if |flags| == 0 then []
    else
      var prev := Flagged(flags[..|flags| - 1]);
      match flags[|flags| - 1]
      case Some(pathway) => prev + [pathway]
      case None => prev
  }

  /** A pathway is flagged exactly when some stderr line flags it. */
  lemma {:induction false} FlaggedMember(flags: seq<Option<string>>, pathway: string)
    ensures pathway in Flagged(flags) <==> Some(pathway) in flags
    decreases |flags|
  {
    if |flags| > 0 {
      var prefix := flags[..|flags| - 1];
      FlaggedMember(prefix, pathway);
      assert flags == prefix + [flags[|flags| - 1]];
    }
  }

  /** The stderr loop building `pathways_to_remove`. */
  method FlagPathways(cfg: XipeConfig, stderr: string) returns (toRemove: seq<string>)
    requires |cfg.delimiter| > 0
    ensures toRemove == Flagged(Flags(cfg, Strings.Split(stderr, "\n")))
  {
    var lines := Strings.Split(stderr, "\n");
    ghost var flags := Flags(cfg, lines);
    toRemove := [];
    var i := 0;
    while i < |lines|
      invariant 0 <= i <= |lines|
      invariant toRemove == Flagged(flags[..i])
    {
      FlaggedStep(flags, i);
      assert flags[i] == Flag(cfg, lines[i]);
      var data := Fields(cfg, lines[i]);
      if |data| == 2 {
        toRemove := toRemove + [data[1]];
      }
      i := i + 1;
    }
    assert flags[..i] == flags;
  }

  lemma {:induction false} FlaggedStep(flags: seq<Option<string>>, i: nat)
    requires i < |flags|
    ensures Flagged(flags[..i + 1]) == Flagged(flags[..i]) + if flags[i].Some? then [flags[i].value] else []
  {
    assert flags[..i + 1][..i] == flags[..i];
    assert flags[..i + 1][i] == flags[i];
  }

  /** Python's `list.remove(x)`: drops the first occurrence of `x`. */
  function RemoveFirst(s: seq<string>, x: string): (r: seq<string>)
    requires x in s
    ensures |r| == |s| - 1
    ensures multiset(r) == multiset(s) - multiset{x}
    decreases |s|
  {
    if s[0] == x then
      assert s == [s[0]] + s[1..];
      s[1..]
    else
      assert s == [s[0]] + s[1..];
      [s[0]] + RemoveFirst(s[1..], x)
  }

  /** The element dropped is the first occurrence, and the others keep their order. */
  lemma {:induction false} RemoveFirstIsFirst(s: seq<string>, x: string, i: nat)
    requires i < |s| && s[i] == x && x !in s[..i]
    ensures RemoveFirst(s, x) == s[..i] + s[i + 1..]
    decreases i
  {
    if i == 0 {
      assert s[..0] + s[1..] == s[1..];
    } else {
      var t := s[1..];
      TailBefore(s, x, i);
      RemoveFirstIsFirst(t, x, i - 1);
      assert RemoveFirst(s, x) == [s[0]] + (t[..i - 1] + t[i..]);
      SplitAfterHead(s, i);
    }
  }

  /** `x` is missing before position `i - 1` of the tail, and is not the head. */
  lemma {:induction false} TailBefore(s: seq<string>, x: string, i: nat)
    requires 0 < i < |s| && s[i] == x && x !in s[..i]
    ensures s[0] != x && s[1..][i - 1] == x && x !in s[1..][..i - 1]
  {
    assert s[0] == s[..i][0];
    assert s[1..][..i - 1] == s[..i][1..];
  }

  lemma {:induction false} SplitAfterHead(s: seq<string>, i: nat)
    requires 0 < i < |s|
    ensures [s[0]] + (s[1..][..i - 1] + s[1..][i..]) == s[..i] + s[i + 1..]
  {
    assert s[..i] == [s[0]] + s[1..][..i - 1];
    assert s[i + 1..] == s[1..][i..];
  }

  /**
   * Reading one stdout record's `"(score, bin)"`: whether it rescues the
   * pathway. The bin is parsed only when the score reaches the threshold.
   */
  function Judge(cfg: XipeConfig, parseReal: string -> Option<real>, parseInt: string -> Option<int>, record: string, n: nat): Result<bool, XipeError> {
    var parts := Strings.Split(Strings.Inner(record), ", ");
    if |parts| != 2 then Err(MalformedRecord(n))
    else
      match parseReal(parts[0])
      case None => Err(BadScore(n))
      case Some(score) =>
        if score < cfg.probability then Ok(false)
        else
          match parseInt(parts[1])
          case None => Err(BadBin(n))
          case Some(bin) => Ok(bin == cfg.bin)
  }

  /**
   * What one stdout line says: nothing unless it has two fields; otherwise
   * the pathway and the verdict on its `(score, bin)` record.
   */
  datatype Record = Skipped | Scored(pathway: string, verdict: Result<bool, XipeError>)

  function ReadRecord(cfg: XipeConfig, parseReal: string -> Option<real>, parseInt: string -> Option<int>, line: string, n: nat): Record
    requires |cfg.delimiter| > 0
  {
    var data := Fields(cfg, line);
    if |data| == 2 then Scored(data[0], Judge(cfg, parseReal, parseInt, data[1], n)) else Skipped
  }

  function Records(cfg: XipeConfig, parseReal: string -> Option<real>, parseInt: string -> Option<int>, lines: seq<string>): (records: seq<Record>)
    requires |cfg.delimiter| > 0
    ensures |records| == |lines|
  {
    seq(|lines|, i requires 0 <= i < |lines| => ReadRecord(cfg, parseReal, parseInt, lines[i], i))
  }

  /** One stdout line: only the record of a still-flagged pathway is judged. */
  function RescueStep(flagged: seq<string>, record: Record): Result<seq<string>, XipeError> {
    match record
    case Skipped => Ok(flagged)
    case Scored(pathway, verdict) =>
      if pathway !in flagged then Ok(flagged)
      else
        match verdict
        case Err(e) => Err(e)
        case Ok(rescued) => Ok(if rescued then RemoveFirst(flagged, pathway) else flagged)
  }

  /** The stdout loop; the first exception ends it. */
  function Rescued(flagged: seq<string>, records: seq<Record>): Result<seq<string>, XipeError>
    decreases |records|
  {
    if |records| == 0 then Ok(flagged)
    else
      match Rescued(flagged, records[..|records| - 1])
      case Err(e) => Err(e)
      case Ok(prev) => RescueStep(prev, records[|records| - 1])
  }

  /** How many stdout records rescue `pathway`. */
  function RescueCount(records: seq<Record>, pathway: string): nat
    decreases |records|
  {
    if |records| == 0 then 0
    else RescueCount(records[..|records| - 1], pathway) + if records[|records| - 1] == Scored(pathway, Ok(true)) then 1 else 0
  }

  /**
   * After a successful stdout loop each pathway is flagged as often as it was
   * flagged on stderr less the records that rescued it, and never below zero.
   */
  lemma {:induction false} RescuedCount(flagged: seq<string>, records: seq<Record>, pathway: string)
    requires Rescued(flagged, records).Ok?
    ensures var before, rescues := multiset(flagged)[pathway], RescueCount(records, pathway);
      multiset(Rescued(flagged, records).value)[pathway] == if before >= rescues then before - rescues else 0
    decreases |records|
  {
    if |records| > 0 {
      RescuedCount(flagged, records[..|records| - 1], pathway);
    }
  }

  /** The stdout loop only ever un-flags: no pathway is flagged more often than on stderr. */
  lemma {:induction false} RescuedOnlyShrinks(flagged: seq<string>, records: seq<Record>)
    requires Rescued(flagged, records).Ok?
    ensures multiset(Rescued(flagged, records).value) <= multiset(flagged)
  {
    var after := Rescued(flagged, records).value;
    forall pathway ensures multiset(after)[pathway] <= multiset(flagged)[pathway] {
      RescuedCount(flagged, records, pathway);
    }
  }

  /** Once a stdout line has raised, the whole loop fails with that exception. */
  lemma {:induction false} RescuedErrorPersists(flagged: seq<string>, records: seq<Record>, n: nat)
    requires n <= |records|
    requires Rescued(flagged, records[..n]).Err?
    ensures Rescued(flagged, records) == Rescued(flagged, records[..n])
    decreases |records| - n
  {
    if n < |records| {
      assert records[..n + 1][..n] == records[..n];
      RescuedErrorPersists(flagged, records, n + 1);
    } else {
      assert records[..n] == records;
    }
  }

  /** The stdout loop that takes rescued pathways off `pathways_to_remove`. */
  method ReinstatePathways(cfg: XipeConfig, parseReal: string -> Option<real>, parseInt: string -> Option<int>,
                           flagged: seq<string>, stdout: string) returns (r: Result<seq<string>, XipeError>)
    requires |cfg.delimiter| > 0
    ensures r == Rescued(flagged, Records(cfg, parseReal, parseInt, Strings.Split(stdout, "\n")))
  {
    var lines := Strings.Split(stdout, "\n");
    ghost var records := Records(cfg, parseReal, parseInt, lines);
    var toRemove := flagged;
    var i := 0;
    while i < |lines|
      invariant 0 <= i <= |lines|
      invariant Rescued(flagged, records[..i]) == Ok(toRemove)
    {
      assert records[..i + 1][..i] == records[..i];
      assert records[..i + 1][i] == ReadRecord(cfg, parseReal, parseInt, lines[i], i);
      var data := Fields(cfg, lines[i]);
      if |data| == 2 && data[0] in toRemove {
        var verdict := Judge(cfg, parseReal, parseInt, data[1], i);
        if verdict.Err? {
          r := Err(verdict.error);
          RescuedErrorPersists(flagged, records, i + 1);
          return;
        }
        if verdict.value {
          toRemove := RemoveFirst(toRemove, data[0]);
        }
      }
      i := i + 1;
    }
    assert records[..i] == records;
    r := Ok(toRemove);
  }

  /** `for pathway in pathways_to_remove: del pathways_coverages[pathway]` */
  function Removed(coverages: map<string, real>, toRemove: seq<string>): Result<map<string, real>, XipeError>
    decreases |toRemove|
  {
    if |toRemove| == 0 then Ok(coverages)
    else
      match Removed(coverages, toRemove[..|toRemove| - 1])
      case Err(e) => Err(e)
      case Ok(prev) =>
        var pathway := toRemove[|toRemove| - 1];
        if pathway in prev then Ok(prev - {pathway}) else Err(MissingPathway(pathway))
  }

  /**
   * The deletions succeed exactly when the pathways to remove are distinct
   * and all in the map; the result is then the map without them, with the
   * surviving coverages unchanged.
   */
  lemma {:induction false} RemovedSpec(coverages: map<string, real>, toRemove: seq<string>)
    ensures Removed(coverages, toRemove).Ok? <==>
      Grouping.Distinct(toRemove) && forall i :: 0 <= i < |toRemove| ==> toRemove[i] in coverages
    ensures Removed(coverages, toRemove).Ok? ==>
      Removed(coverages, toRemove).value.Keys == coverages.Keys - (set p | p in toRemove) &&
      forall p :: p in Removed(coverages, toRemove).value ==> Removed(coverages, toRemove).value[p] == coverages[p]
    decreases |toRemove|
  {
    if |toRemove| > 0 {
      var prefix := toRemove[..|toRemove| - 1];
      var pathway := toRemove[|toRemove| - 1];
      RemovedSpec(coverages, prefix);
      assert toRemove == prefix + [pathway];
      assert (set p | p in toRemove) == (set p | p in prefix) + {pathway};
      if Grouping.Distinct(toRemove) {
        assert Grouping.Distinct(prefix) by {
          forall i, j | 0 <= i < j < |prefix| ensures prefix[i] != prefix[j] {
            assert prefix[i] == toRemove[i] && prefix[j] == toRemove[j];
          }
        }
      }
      if Removed(coverages, toRemove).Ok? {
        assert Grouping.Distinct(toRemove) by {
          forall i, j | 0 <= i < j < |toRemove| ensures toRemove[i] != toRemove[j] {
            if j == |toRemove| - 1 {
              assert toRemove[i] == prefix[i];
            } else {
              assert toRemove[i] == prefix[i] && toRemove[j] == prefix[j];
            }
          }
        }
      }
      if Grouping.Distinct(toRemove) && (forall i :: 0 <= i < |toRemove| ==> toRemove[i] in coverages) {
        assert forall i :: 0 <= i < |prefix| ==> prefix[i] in coverages by {
          forall i | 0 <= i < |prefix| ensures prefix[i] in coverages {
            assert prefix[i] == toRemove[i];
          }
        }
        assert pathway !in prefix by {
          forall i | 0 <= i < |prefix| ensures prefix[i] != pathway {
            assert prefix[i] == toRemove[i];
          }
        }
      }
    }
  }

  /** The deletion loop. */
  method RemovePathways(coverages: map<string, real>, toRemove: seq<string>) returns (r: Result<map<string, real>, XipeError>)
    ensures r == Removed(coverages, toRemove)
  {
    var remaining := coverages;
    var i := 0;
    while i < |toRemove|
      invariant 0 <= i <= |toRemove|
      invariant Removed(coverages, toRemove[..i]) == Ok(remaining)
    {
      assert toRemove[..i + 1][..i] == toRemove[..i];
      var pathway := toRemove[i];
      if pathway !in remaining {
        r := Err(MissingPathway(pathway));
        RemovedErrorPersists(coverages, toRemove, i + 1);
        return;
      }
      remaining := remaining - {pathway};
      i := i + 1;
    }
    assert toRemove[..i] == toRemove;
    r := Ok(remaining);
  }

  lemma {:induction false} RemovedErrorPersists(coverages: map<string, real>, toRemove: seq<string>, n: nat)
    requires n <= |toRemove|
    requires Removed(coverages, toRemove[..n]).Err?
    ensures Removed(coverages, toRemove) == Removed(coverages, toRemove[..n])
    decreases |toRemove| - n
  {
    if n < |toRemove| {
      assert toRemove[..n + 1][..n] == toRemove[..n];
      RemovedErrorPersists(coverages, toRemove, n + 1);
    } else {
      assert toRemove[..n] == toRemove;
    }
  }

  /** The whole filter on a coverage map, given xipe's stdout and stderr. */
  function XipeFilter(cfg: XipeConfig, parseReal: string -> Option<real>, parseInt: string -> Option<int>,
                      coverages: map<string, real>, stdout: string, stderr: string): Result<map<string, real>, XipeError>
    requires |cfg.delimiter| > 0
  {
    var flagged := Flagged(Flags(cfg, Strings.Split(stderr, "\n")));
    match Rescued(flagged, Records(cfg, parseReal, parseInt, Strings.Split(stdout, "\n")))
    case Err(e) => Err(e)
    case Ok(toRemove) => Removed(coverages, toRemove)
  }

  /**
   * A pathway no stderr line flags survives a successful filter with its
   * coverage; every pathway that survives keeps its coverage.
   */
  lemma {:induction false} XipeFilterKeeps(cfg: XipeConfig, parseReal: string -> Option<real>, parseInt: string -> Option<int>,
                        coverages: map<string, real>, stdout: string, stderr: string, pathway: string)
    requires |cfg.delimiter| > 0
    requires XipeFilter(cfg, parseReal, parseInt, coverages, stdout, stderr).Ok?
    ensures var kept := XipeFilter(cfg, parseReal, parseInt, coverages, stdout, stderr).value;
      (pathway in coverages && pathway !in Flagged(Flags(cfg, Strings.Split(stderr, "\n"))) ==> pathway in kept) &&
      (pathway in kept ==> pathway in coverages && kept[pathway] == coverages[pathway])
  {
    var flagged := Flagged(Flags(cfg, Strings.Split(stderr, "\n")));
    var records := Records(cfg, parseReal, parseInt, Strings.Split(stdout, "\n"));
    var toRemove := Rescued(flagged, records).value;
    RemovedSpec(coverages, toRemove);
    RescuedOnlyShrinks(flagged, records);
    if pathway !in flagged {
      assert multiset(flagged)[pathway] == 0;
      assert pathway !in toRemove;
    }
  }

  /** The coverage of every pathway of a store whose maps are all non-empty. */
  function StoreCoverages(items: PathwayStore.Store, median: real): map<string, real>
    requires forall p :: p in items ==> |items[p]| > 0
  {
    map p | p in items :: PathwayStatistics.Coverage(items[p], median)
  }

  lemma {:induction false} CoveragesAreStoreCoverages(coverages: map<string, real>, items: PathwayStore.Store, median: real)
    requires coverages.Keys == items.Keys && PathwayStatistics.CoveragesOf(coverages, items, median)
    ensures forall p :: p in items ==> |items[p]| > 0
    ensures coverages == StoreCoverages(items, median)
  {
    forall p | p in items ensures |items[p]| > 0 {
      assert p in coverages;
    }
  }

  /**
   * `pathways_coverage_by_bug`, with xipe's stdout and stderr as inputs and
   * `show` as `str` on floats: the store is backfilled in place, the xipe
   * input lists every pathway with its coverage, and the result is the
   * coverage map after the xipe filter.
   */
  method PathwaysCoverage(store: PathwayStatistics.BugStore, db: PathwayStatistics.PathwaysDatabase, median: real,
                          cfg: XipeConfig, show: real -> string,
                          parseReal: string -> Option<real>, parseInt: string -> Option<int>,
                          stdout: string, stderr: string)
    returns (xipeInput: seq<string>, r: Result<map<string, real>, XipeError>)
    requires |cfg.delimiter| > 0
    requires PathwayStatistics.Measurable(store.items, db)
    modifies store
    ensures store.items == PathwayStatistics.BackfillAll(old(store.items), db)
    ensures forall p :: p in store.items ==> |store.items[p]| > 0
    ensures exists order :: (PathwayStatistics.Enumerates(order, store.items.Keys) &&
      PathwayStatistics.XipeInputFor(xipeInput, order, StoreCoverages(store.items, median), cfg.delimiter, show))
    ensures r == XipeFilter(cfg, parseReal, parseInt, StoreCoverages(store.items, median), stdout, stderr)
  {
    var coverages;
    ghost var order;
    coverages, xipeInput, order := PathwayStatistics.PathwayCoverages(store, db, median, cfg.delimiter, show);
    CoveragesAreStoreCoverages(coverages, store.items, median);
    var flagged := FlagPathways(cfg, stderr);
    var toRemove := ReinstatePathways(cfg, parseReal, parseInt, flagged, stdout);
    if toRemove.Err? {
      r := Err(toRemove.error);
      return;
    }
    r := RemovePathways(coverages, toRemove.value);
  }
}
