/**
 * Reading MinPath's detail output (the `while line:` loop of
 * `identify_reactions_and_pathways_by_bug`). A line in which the configured
 * pathway pattern occurs names a pathway, which becomes the current one;
 * every other line names a reaction, and the current pathway is appended to
 * that reaction's list. MinPath itself is not modelled: its detail file is an
 * input, given as its lines.
 */
module MinPathDetail {
  import opened Wrappers
  import Strings

  /** The configured layout of the detail file: field delimiter and field positions. */
  datatype DetailFormat = DetailFormat(delimiter: string, pathwayIndex: nat, reactionIndex: nat)

  /**
   * The exceptions the loop can raise, with the 0-based number of the line:
   * a field index past the end of the split line (IndexError), or a reaction
   * line before any pathway line (`current_pathway` is still unbound).
   */
  datatype DetailError = MissingField(line: nat) | NoCurrentPathway(line: nat)

  /** The loop's variables: `current_pathway` (unbound at first) and `pathways`. */
  datatype ParseState = ParseState(current: Option<string>, pathways: map<string, seq<string>>)

  /**
   * What one line says: a pathway line carries the pathway field, any other
   * line the reaction field; `None` when the split line is too short for it.
   */
  datatype LineKind = PathwayLine(pathway: Option<string>) | ReactionLine(reaction: Option<string>)

  /** `pathways.get(reaction, [])` */
  function Lookup(pathways: map<string, seq<string>>, reaction: string): seq<string> {
    if reaction in pathways then pathways[reaction] else []
  }

  /** `line.strip().split(delimiter)` */
  function Fields(fmt: DetailFormat, line: string): seq<string>
    requires |fmt.delimiter| > 0
  {
    Strings.Split(Strings.Strip(line), fmt.delimiter)
  }

  /** The pattern is searched in the raw line; the fields come from the stripped line. */
  function Classify(fmt: DetailFormat, isHeader: string -> bool, line: string): LineKind
    requires |fmt.delimiter| > 0
  {
    var data := Fields(fmt, line);
    if isHeader(line) then
      PathwayLine(if fmt.pathwayIndex < |data| then Some(data[fmt.pathwayIndex]) else None)
    else
      ReactionLine(if fmt.reactionIndex < |data| then Some(data[fmt.reactionIndex]) else None)
  }

  function Kinds(fmt: DetailFormat, isHeader: string -> bool, lines: seq<string>): (kinds: seq<LineKind>)
    requires |fmt.delimiter| > 0
    ensures |kinds| == |lines|
  {
    seq(|lines|, i requires 0 <= i < |lines| => Classify(fmt, isHeader, lines[i]))
  }

  /** One iteration of the loop, on line number `n`. */
  function Step(st: ParseState, kind: LineKind, n: nat): Result<ParseState, DetailError> {
    match kind
    case PathwayLine(None) => Err(MissingField(n))
    case PathwayLine(Some(pathway)) => Ok(st.(current := Some(pathway)))
    case ReactionLine(None) => Err(MissingField(n))
    case ReactionLine(Some(reaction)) =>
      if st.current.None? then Err(NoCurrentPathway(n))
      else Ok(st.(pathways := st.pathways[reaction := Lookup(st.pathways, reaction) + [st.current.value]]))
  }

  /** The loop over all lines; the first exception ends it. */
  function Parse(kinds: seq<LineKind>): Result<ParseState, DetailError>
    decreases |kinds|
  {
    if |kinds| == 0 then Ok(ParseState(None, map[]))
    else
      match Parse(kinds[..|kinds| - 1])
      case Err(e) => Err(e)
      case Ok(st) => Step(st, kinds[|kinds| - 1], |kinds| - 1)
  }

  /** The pathway named by the last pathway line, if it has that field. */
  function LastPathway(kinds: seq<LineKind>): Option<string>
    decreases |kinds|
  {
    if |kinds| == 0 then None
    else
      match kinds[|kinds| - 1]
      case PathwayLine(pathway) => pathway
      case ReactionLine(_) => LastPathway(kinds[..|kinds| - 1])
  }

  /**
   * Independent reading of what the loop records for `reaction`: for every
   * reaction line naming it, in line order, the pathway of the nearest
   * pathway line above.
   */
  function AssignedPathways(kinds: seq<LineKind>, reaction: string): seq<string>
    decreases |kinds|
  {
    if |kinds| == 0 then []
    else
      var prefix := kinds[..|kinds| - 1];
      var prev := AssignedPathways(prefix, reaction);
      if kinds[|kinds| - 1] == ReactionLine(Some(reaction)) then
        prev + [match LastPathway(prefix) case Some(p) => p case None => ""]
      else prev
  }

  /** One successful step extends one reaction's list as the reference reading does. */
  lemma {:induction false} StepAssigned(kinds: seq<LineKind>, st: ParseState, reaction: string)
    requires |kinds| > 0
    requires st.current == LastPathway(kinds[..|kinds| - 1])
    requires Lookup(st.pathways, reaction) == AssignedPathways(kinds[..|kinds| - 1], reaction)
    requires Step(st, kinds[|kinds| - 1], |kinds| - 1).Ok?
    ensures Lookup(Step(st, kinds[|kinds| - 1], |kinds| - 1).value.pathways, reaction) == AssignedPathways(kinds, reaction)
  {
    var kind := kinds[|kinds| - 1];
    var prefix := kinds[..|kinds| - 1];
    var next := Step(st, kind, |kinds| - 1).value;
    assert kind.ReactionLine? ==> kind.reaction.Some? && st.current.Some?;
    assert kind.PathwayLine? ==> next.pathways == st.pathways;
    if kind == ReactionLine(Some(reaction)) {
      assert next.pathways[reaction] == Lookup(st.pathways, reaction) + [st.current.value];
      assert AssignedPathways(kinds, reaction) == AssignedPathways(prefix, reaction) + [st.current.value];
    } else {
      assert AssignedPathways(kinds, reaction) == AssignedPathways(prefix, reaction);
    }
  }

  /**
   * After a successful read, `current_pathway` is the pathway of the last
   * pathway line, and each reaction's list holds the pathways of the pathway
   * lines above its reaction lines, in line order.
   */
  lemma {:induction false} ParsedPathways(kinds: seq<LineKind>)
    requires Parse(kinds).Ok?
    ensures Parse(kinds).value.current == LastPathway(kinds)
    ensures forall reaction :: Lookup(Parse(kinds).value.pathways, reaction) == AssignedPathways(kinds, reaction)
    decreases |kinds|
  {
    if |kinds| > 0 {
      var prefix := kinds[..|kinds| - 1];
      ParsedPathways(prefix);
      var st := Parse(prefix).value;
      forall reaction
        ensures Lookup(Parse(kinds).value.pathways, reaction) == AssignedPathways(kinds, reaction)
      {
        StepAssigned(kinds, st, reaction);
      }
    }
  }

  /** Once a line has raised, the whole read fails with that line's exception. */
  lemma {:induction false} ErrorPersists(kinds: seq<LineKind>, n: nat)
    requires n <= |kinds|
    requires Parse(kinds[..n]).Err?
    ensures Parse(kinds).Err?
    ensures Parse(kinds).error == Parse(kinds[..n]).error
    decreases |kinds| - n
  {
    if n < |kinds| {
      assert kinds[..n + 1][..n] == kinds[..n];
      ErrorPersists(kinds, n + 1);
    } else {
      assert kinds[..n] == kinds;
    }
  }

  /** With no pathway line read yet, no pathway is current. */
  lemma {:induction false} NoPathwayYet(kinds: seq<LineKind>)
    requires forall k :: 0 <= k < |kinds| ==> kinds[k].ReactionLine?
    ensures Parse(kinds).Ok? ==> Parse(kinds).value.current.None?
    decreases |kinds|
  {
    if |kinds| > 0 {
      NoPathwayYet(kinds[..|kinds| - 1]);
    }
  }

  /** A reaction line before the first pathway line makes the read fail. */
  lemma {:induction false} ReactionBeforePathwayFails(fmt: DetailFormat, isHeader: string -> bool, lines: seq<string>, i: nat)
    requires |fmt.delimiter| > 0
    requires i < |lines| && !isHeader(lines[i])
    requires forall k :: 0 <= k < i ==> !isHeader(lines[k])
    ensures Parse(Kinds(fmt, isHeader, lines)).Err?
  {
    var kinds := Kinds(fmt, isHeader, lines);
    var prefix := kinds[..i];
    assert forall k :: 0 <= k < |prefix| ==> prefix[k].ReactionLine? by {
      forall k | 0 <= k < |prefix| ensures prefix[k].ReactionLine? {
        assert prefix[k] == Classify(fmt, isHeader, lines[k]);
      }
    }
    NoPathwayYet(prefix);
    assert kinds[..i + 1][..i] == prefix;
    assert kinds[..i + 1][i] == Classify(fmt, isHeader, lines[i]);
    ErrorPersists(kinds, i + 1);
  }

  /**
   * The reading loop. On success it returns the `pathways` dictionary:
   * reaction to the pathways MinPath listed it under.
   */
  method ReadDetail(fmt: DetailFormat, isHeader: string -> bool, lines: seq<string>)
    returns (r: Result<map<string, seq<string>>, DetailError>)
    requires |fmt.delimiter| > 0
    ensures r.Ok? <==> Parse(Kinds(fmt, isHeader, lines)).Ok?
    ensures r.Ok? ==> r.value == Parse(Kinds(fmt, isHeader, lines)).value.pathways
    ensures r.Err? ==> r.error == Parse(Kinds(fmt, isHeader, lines)).error
  {
    ghost var kinds := Kinds(fmt, isHeader, lines);
    var pathways: map<string, seq<string>> := map[];
    var current: Option<string> := None;
    var n := 0;
    while n < |lines|
      invariant 0 <= n <= |lines|
      invariant Parse(kinds[..n]) == Ok(ParseState(current, pathways))
    {
      var kind := Classify(fmt, isHeader, lines[n]);
      assert kinds[..n + 1][..n] == kinds[..n];
      assert kinds[..n + 1][n] == kind;
      match kind {
        case PathwayLine(pathway) =>
          if pathway.None? {
            r := Err(MissingField(n));
            ErrorPersists(kinds, n + 1);
            return;
          }
          current := pathway;
        case ReactionLine(reaction) =>
          if reaction.None? {
            r := Err(MissingField(n));
            ErrorPersists(kinds, n + 1);
            return;
          }
          if current.None? {
            r := Err(NoCurrentPathway(n));
            ErrorPersists(kinds, n + 1);
            return;
          }
          pathways := pathways[reaction.value := Lookup(pathways, reaction.value) + [current.value]];
      }
      n := n + 1;
    }
    assert kinds[..n] == kinds;
    r := Ok(pathways);
  }
}
