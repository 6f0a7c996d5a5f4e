/**
 * The few Python 2 string operations the core relies on: `str.strip()`,
 * `str.split(sep)` and the slice `s[1:-1]`.
 */
module Strings {

  /** The characters Python 2's `str.strip()` removes: space, \t, \n, \v, \f, \r. */
  predicate IsSpace(c: char) {
    c == ' ' || (9 <= c as int <= 13)
  }

  /** Drops leading whitespace. */
  function TrimLeft(s: string): (r: string)
    ensures |r| <= |s| && r == s[|s| - |r|..]
    ensures forall i :: 0 <= i < |s| - |r| ==> IsSpace(s[i])
    ensures |r| > 0 ==> !IsSpace(r[0])
    decreases |s|
  {
    if |s| > 0 && IsSpace(s[0]) then TrimLeft(s[1..]) else s
  }

  /** Drops trailing whitespace. */
  function TrimRight(s: string): (r: string)
    ensures |r| <= |s| && r == s[..|r|]
    ensures forall i :: |r| <= i < |s| ==> IsSpace(s[i])
    ensures |r| > 0 ==> !IsSpace(r[|r| - 1])
    decreases |s|
  {
    if |s| > 0 && IsSpace(s[|s| - 1]) then TrimRight(s[..|s| - 1]) else s
  }

  /** `r` occurs in `s` starting at position `a`. */
  predicate InfixAt(s: string, r: string, a: nat) {
    a + |r| <= |s| && s[a..a + |r|] == r
  }

  /**
   * Python's `s.strip()`: an infix of `s` that neither starts nor ends with
   * whitespace, with only whitespace cut off on either side.
   */
  function Strip(s: string): (r: string)
    ensures |r| > 0 ==> !IsSpace(r[0]) && !IsSpace(r[|r| - 1])
    ensures exists a: nat :: InfixAt(s, r, a) && (forall i :: 0 <= i < a ==> IsSpace(s[i]))
                         && (forall i :: a + |r| <= i < |s| ==> IsSpace(s[i]))
  {
    var l := TrimLeft(s);
    var r := TrimRight(l);
    InfixOfTrims(s, l, r);
    SpacesAfter(s, l, r);
    r
  }

  /** Stripping cuts only whitespace, on both sides: `r` sits in `s` at `|s| - |l|`. */
  lemma {:induction false} InfixOfTrims(s: string, l: string, r: string)
    requires |l| <= |s| && l == s[|s| - |l|..]
    requires |r| <= |l| && r == l[..|r|]
    ensures InfixAt(s, r, |s| - |l|)
  {
    var a := |s| - |l|;
    forall i | 0 <= i < |r| ensures s[a..a + |r|][i] == r[i] {
      assert r[i] == l[i] == s[a + i];
    }
  }

  lemma {:induction false} SpacesAfter(s: string, l: string, r: string)
    requires |l| <= |s| && l == s[|s| - |l|..] && |r| <= |l|
    requires forall i :: |r| <= i < |l| ==> IsSpace(l[i])
    ensures forall i :: |s| - |l| + |r| <= i < |s| ==> IsSpace(s[i])
  {
    var a := |s| - |l|;
    forall i | a + |r| <= i < |s| ensures IsSpace(s[i]) {
      assert s[i] == l[i - a];
    }
  }

  /** `sep` occurs in `s` at position `i`. */
  predicate OccursAt(s: string, sep: string, i: nat) {
    i + |sep| <= |s| && s[i..i + |sep|] == sep
  }

  /**
   * Python's `s.split(sep)` for a non-empty separator: fields between the
   * non-overlapping occurrences of `sep`, found left to right; never empty.
   */
  function Split(s: string, sep: string): (parts: seq<string>)
    requires |sep| > 0
    ensures |parts| >= 1
    decreases |s|
  {
    if |s| < |sep| then [s]
    else if OccursAt(s, sep, 0) then [""] + Split(s[|sep|..], sep)
    else
      var rest := Split(s[1..], sep);
      [[s[0]] + rest[0]] + rest[1..]
  }

  /** Python's `sep.join(parts)`. */
  function Join(parts: seq<string>, sep: string): string
    decreases |parts|
  {
    if |parts| == 0 then ""
    else if |parts| == 1 then parts[0]
    else parts[0] + sep + Join(parts[1..], sep)
  }

  /** Splitting and re-joining on the same separator gives back the text. */
  lemma {:induction false} JoinSplit(s: string, sep: string)
    requires |sep| > 0
    ensures Join(Split(s, sep), sep) == s
    decreases |s|
  {
    if |s| < |sep| {
    } else if OccursAt(s, sep, 0) {
      var rest := Split(s[|sep|..], sep);
      JoinSplit(s[|sep|..], sep);
      assert s == sep + s[|sep|..];
      assert Split(s, sep) == [""] + rest;
    } else {
      var rest := Split(s[1..], sep);
      JoinSplit(s[1..], sep);
      var parts := Split(s, sep);
      assert parts == [[s[0]] + rest[0]] + rest[1..];
      if |rest| == 1 {
        assert Join(parts, sep) == [s[0]] + rest[0];
      } else {
        assert parts[1..] == rest[1..];
        assert Join(rest, sep) == rest[0] + sep + Join(rest[1..], sep);
      }
      assert s == [s[0]] + s[1..];
    }
  }

  /**
   * The first field of `s.split(c)` for a one-character separator: the
   * longest prefix of `s` without `c`, which is all of `s` or is followed
   * by `c`.
   */
  lemma {:induction false} SplitFirstField(s: string, c: char)
    ensures var f := Split(s, [c])[0];
      f <= s && c !in f && (f == s || (|f| < |s| && s[|f|] == c))
    decreases |s|
  {
    if |s| > 0 {
      if OccursAt(s, [c], 0) {
        assert s[0..1] == [c];
      } else {
        assert s[0..1] == [s[0]];
        SplitFirstField(s[1..], c);
        var g := Split(s[1..], [c])[0];
        assert Split(s, [c])[0] == [s[0]] + g;
        assert s == [s[0]] + s[1..];
      }
    }
  }

  /** Python's slice `s[1:-1]`, which is empty for strings shorter than two. */
  function Inner(s: string): (r: string)
    ensures |s| >= 2 ==> s == [s[0]] + r + [s[|s| - 1]]
    ensures |s| < 2 ==> r == ""
  {
    if |s| >= 2 then s[1..|s| - 1] else ""
  }
}
