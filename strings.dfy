/**
 * Python's string operations used by the ingestion code: the `in` operator
 * on two strings (substring search), `str.split(sep)` with an explicit,
 * non-empty separator, and `sep.join(parts)`.
 */
module Strings {
  import opened Wrappers

  /** `p` occurs in `s` starting at index `i`. */
  ghost predicate OccursAt(s: string, p: string, i: int) {
    0 <= i && i + |p| <= |s| && s[i..i + |p|] == p
  }

  /** `p` is a substring of `s`. */
  ghost predicate Occurs(s: string, p: string) {
    exists i :: OccursAt(s, p, i)
  }

  /** An occurrence in `s[1..]` is an occurrence in `s` one place to the right, and back. */
  lemma OccursShift(s: string, p: string, i: nat)
    requires |s| > 0
    ensures OccursAt(s[1..], p, i) <==> OccursAt(s, p, i + 1)
  {
    if i + |p| <= |s| - 1 {
      assert s[1..][i..i + |p|] == s[i + 1..i + 1 + |p|];
    }
  }

  /** The leftmost index at which `p` occurs in `s`, or None (Python's `str.find`). */
  function IndexOf(s: string, p: string): (r: Option<nat>)
    ensures r.Some? ==> r.value + |p| <= |s|
    decreases |s|
  {
    if |p| <= |s| && s[..|p|] == p then Some(0)
    else if |s| == 0 then None
    else
      match IndexOf(s[1..], p)
      case None => None
      case Some(k) => Some(k + 1)
  }

  /**
   * IndexOf finds an occurrence, none to the left of it, and finds nothing
   * exactly when the pattern does not occur.
   */
  lemma {:induction false} IndexOfCorrect(s: string, p: string)
    ensures IndexOf(s, p).Some? ==> OccursAt(s, p, IndexOf(s, p).value)
    ensures IndexOf(s, p).Some? ==> forall j :: 0 <= j < IndexOf(s, p).value ==> !OccursAt(s, p, j)
    ensures IndexOf(s, p).None? <==> !Occurs(s, p)
    decreases |s|
  {
    if |p| <= |s| && s[..|p|] == p {
      assert OccursAt(s, p, 0);
    } else if |s| == 0 {
    } else {
      assert !OccursAt(s, p, 0) by {
        if |p| <= |s| {
          assert s[..|p|] == s[0..|p|];
        }
      }
      IndexOfCorrect(s[1..], p);
      match IndexOf(s[1..], p)
      case None =>
        forall i | OccursAt(s, p, i) ensures false {
          OccursShift(s, p, i - 1);
        }
      case Some(k) =>
        OccursShift(s, p, k);
        forall j | 1 <= j <= k ensures !OccursAt(s, p, j) {
          OccursShift(s, p, j - 1);
        }
    }
  }

  /** Python's `p in s` for two strings. */
  function Contains(s: string, p: string): (b: bool)
    ensures b <==> Occurs(s, p)
  {
    IndexOfCorrect(s, p);
    IndexOf(s, p).Some?
  }

  /**
   * Python's `s.split(sep)`: cut `s` at every occurrence of `sep`, scanning
   * left to right without overlap; empty pieces are kept.
   */
  function Split(s: string, sep: string): (chunks: seq<string>)
    requires |sep| > 0
    ensures |chunks| >= 1
    decreases |s|
  {
    match IndexOf(s, sep)
    case None => [s]
    case Some(i) => [s[..i]] + Split(s[i + |sep|..], sep)
  }

  /** Python's `sep.join(parts)`. */
  function Join(parts: seq<string>, sep: string): string {
    if |parts| == 0 then ""
    else if |parts| == 1 then parts[0]
    else parts[0] + sep + Join(parts[1..], sep)
  }

  /** Joining a piece in front of at least one more puts the separator between them. */
  lemma JoinCons(x: string, rest: seq<string>, sep: string)
    requires |rest| >= 1
    ensures Join([x] + rest, sep) == x + sep + Join(rest, sep)
  {
    assert ([x] + rest)[1..] == rest;
  }

  /** Joining the pieces of a split with the same separator gives back the text. */
  lemma {:induction false} JoinSplit(s: string, sep: string)
    requires |sep| > 0
    ensures Join(Split(s, sep), sep) == s
    decreases |s|
  {
    IndexOfCorrect(s, sep);
    var found := IndexOf(s, sep);
    if found.Some? {
      var i := found.value;
      var rest := s[i + |sep|..];
      SplitAt(s, i, sep);
      JoinSplit(rest, sep);
      JoinCons(s[..i], Split(rest, sep), sep);
      assert s[i..i + |sep|] == sep;
      SplitAround(s, i, |sep|);
    }
  }

  /** A sequence is its prefix, a middle slice and its suffix. */
  lemma SplitAround(s: string, i: nat, n: nat)
    requires i + n <= |s|
    ensures s == s[..i] + s[i..i + n] + s[i + n..]
  {
  }

  /** No piece of a split contains the separator. */
  lemma {:induction false} SplitChunksFree(s: string, sep: string)
    requires |sep| > 0
    ensures forall k :: 0 <= k < |Split(s, sep)| ==> !Occurs(Split(s, sep)[k], sep)
    decreases |s|
  {
    IndexOfCorrect(s, sep);
    match IndexOf(s, sep)
    case None =>
    case Some(i) =>
      var rest := s[i + |sep|..];
      SplitChunksFree(rest, sep);
      var head := s[..i];
      forall j | OccursAt(head, sep, j) ensures false {
        assert head[j..j + |sep|] == s[j..j + |sep|];
        assert OccursAt(s, sep, j);
      }
      assert Split(s, sep) == [head] + Split(rest, sep);
  }

  /** An occurrence with none to its left is the one IndexOf finds. */
  lemma IndexOfLeftmost(s: string, p: string, i: nat)
    requires OccursAt(s, p, i)
    requires forall j :: 0 <= j < i ==> !OccursAt(s, p, j)
    ensures IndexOf(s, p) == Some(i)
  {
    IndexOfCorrect(s, p);
  }

  /**
   * Two separators in a row leave an empty piece between them: when `sep`
   * first occurs in `a + sep` at its end, splitting `a + sep + sep + b` gives
   * `a`, then "", then the pieces of `b`.
   */
  lemma SplitKeepsEmptyChunk(a: string, b: string, sep: string)
    requires |sep| > 0
    requires forall j :: 0 <= j < |a| ==> !OccursAt(a + sep, sep, j)
    ensures Split(a + sep + sep + b, sep) == [a, ""] + Split(b, sep)
  {
    var s := a + sep + sep + b;
    DoubleBreakSlices(a, b, sep);
    FirstBreakAt(s, a, sep);
    SplitAt(s, |a|, sep);
    SplitAtStart(b, sep);
  }

  /** Helper: the slices of `a + sep + sep + b` around its first separator. */
  lemma DoubleBreakSlices(a: string, b: string, sep: string)
    ensures var s := a + sep + sep + b;
      |a| + |sep| <= |s| && s[..|a| + |sep|] == a + sep && s[..|a|] == a && s[|a| + |sep|..] == sep + b
  {
    var s := a + sep + sep + b;
    assert s == (a + sep) + (sep + b);
  }

  /** Helper: Split cuts at the first occurrence IndexOf finds. */
  lemma SplitAt(s: string, i: nat, sep: string)
    requires |sep| > 0 && IndexOf(s, sep) == Some(i)
    ensures i + |sep| <= |s|
    ensures Split(s, sep) == [s[..i]] + Split(s[i + |sep|..], sep)
  {
  }

  /** Helper: when `s` starts with `a + sep` and `sep` does not occur earlier, it is first found at `|a|`. */
  lemma FirstBreakAt(s: string, a: string, sep: string)
    requires |sep| > 0 && |a| + |sep| <= |s| && s[..|a| + |sep|] == a + sep
    requires forall j :: 0 <= j < |a| ==> !OccursAt(a + sep, sep, j)
    ensures IndexOf(s, sep) == Some(|a|)
  {
    var t := a + sep;
    var n := |t|;
    assert s[|a|..n] == s[..n][|a|..n] == t[|a|..n] == sep;
    assert OccursAt(s, sep, |a|);
    forall j | 0 <= j < |a| ensures !OccursAt(s, sep, j) {
      assert !OccursAt(t, sep, j);
      assert s[j..j + |sep|] == s[..n][j..j + |sep|];
    }
    IndexOfLeftmost(s, sep, |a|);
  }

  /** Helper: a text that starts with `sep` splits into "" and the pieces after it. */
  lemma SplitAtStart(b: string, sep: string)
    requires |sep| > 0
    ensures Split(sep + b, sep) == [""] + Split(b, sep)
  {
    var s := sep + b;
    assert s[..|sep|] == sep;
    assert IndexOf(s, sep) == Some(0);
    SplitAt(s, 0, sep);
    assert s[|sep|..] == b;
  }
}
