/** The parts of Go's `strings` package that the core relies on. Strings are byte strings. */
module Strings {
  import opened Wrappers

  /** `sep` occurs in `s` starting at index `i`. */
  predicate OccursAt(s: string, sep: string, i: int) {
    0 <= i && i + |sep| <= |s| && s[i..i + |sep|] == sep
  }

  predicate Contains(s: string, sep: string) {
    exists i :: 0 <= i <= |s| && OccursAt(s, sep, i)
  }

  /** A one-byte separator occurs exactly when that byte is in the string. */
  lemma ContainsChar(s: string, c: char)
    ensures Contains(s, [c]) <==> c in s
  {
    if c in s {
      var k :| 0 <= k < |s| && s[k] == c;
      assert s[k..k + 1] == [c];
      assert OccursAt(s, [c], k);
    }
    forall i | OccursAt(s, [c], i) ensures c in s {
      assert s[i..i + 1][0] == s[i];
    }
  }

  /** strings.HasPrefix */
  predicate HasPrefix(s: string, prefix: string) {
    |prefix| <= |s| && s[..|prefix|] == prefix
  }

  /** A string has a prefix exactly when it is that prefix followed by the rest. */
  lemma HasPrefixConcat(s: string, prefix: string, rest: string)
    ensures HasPrefix(prefix + rest, prefix)
    ensures HasPrefix(s, prefix) ==> s == prefix + s[|prefix|..]
  {
    assert (prefix + rest)[..|prefix|] == prefix;
  }

  /** An occurrence in `s[1..]` is an occurrence in `s`, one place later. */
  lemma OccursShift(s: string, sep: string, i: int)
    requires |s| > 0 && 0 <= i
    ensures OccursAt(s[1..], sep, i) <==> OccursAt(s, sep, i + 1)
  {
  }

  /** strings.Index: the first occurrence of `sep` in `s`, None for Go's -1. */
  function Index(s: string, sep: string): (r: Option<nat>)
    ensures r.Some? ==> OccursAt(s, sep, r.value)
    ensures r.Some? ==> forall j :: 0 <= j < r.value ==> !OccursAt(s, sep, j)
    ensures r.None? <==> !Contains(s, sep)
    decreases |s|
  {
    if |s| < |sep| then None
    else if s[..|sep|] == sep then Some(0)
    else
      match Index(s[1..], sep)
      case None =>
        assert forall j :: 0 < j <= |s| ==> !OccursAt(s, sep, j) by {
          forall j | 0 < j <= |s| ensures !OccursAt(s, sep, j) {
            OccursShift(s, sep, j - 1);
          }
        }
        None
      case Some(k) =>
        OccursShift(s, sep, k);
        assert forall j :: 0 < j < k + 1 ==> !OccursAt(s, sep, j) by {
          forall j | 0 < j < k + 1 ensures !OccursAt(s, sep, j) {
            OccursShift(s, sep, j - 1);
          }
        }
        Some(k + 1)
  }

  /** An occurrence with none before it is the one Index finds. */
  lemma FirstOccurrence(s: string, sep: string, i: nat)
    requires OccursAt(s, sep, i)
    requires forall j :: 0 <= j < i ==> !OccursAt(s, sep, j)
    ensures Index(s, sep) == Some(i)
  {
  }

  /** strings.SplitN(s, sep, 2): the text before the first `sep` and the text after it,
      or `s` alone when `sep` does not occur. */
  function SplitN2(s: string, sep: string): (r: seq<string>)
    requires |sep| > 0
    ensures |r| == 1 || |r| == 2
    ensures |r| == 1 <==> !Contains(s, sep)
    ensures |r| == 1 ==> r[0] == s
    ensures |r| == 2 ==> s == r[0] + sep + r[1] && OccursAt(s, sep, |r[0]|)
    ensures |r| == 2 ==> forall j :: 0 <= j < |r[0]| ==> !OccursAt(s, sep, j)
  {
    match Index(s, sep)
    case None => [s]
    case Some(i) =>
      assert s == s[..i] + sep + s[i + |sep|..];
      [s[..i], s[i + |sep|..]]
  }

  /** strings.Split: the pieces of `s` between the successive non-overlapping
      occurrences of `sep`, found left to right. */
  function Split(s: string, sep: string): (r: seq<string>)
    requires |sep| > 0
    ensures |r| >= 1
    decreases |s|
  {
    match Index(s, sep)
    case None => [s]
    case Some(i) => [s[..i]] + Split(s[i + |sep|..], sep)
  }

  /** Split leaves the string whole exactly when the separator does not occur. */
  lemma SplitWhole(s: string, sep: string)
    requires |sep| > 0
    ensures |Split(s, sep)| == 1 <==> !Contains(s, sep)
    ensures !Contains(s, sep) ==> Split(s, sep) == [s]
  {
    match Index(s, sep)
    case None =>
    case Some(i) =>
      assert |Split(s, sep)| == 1 + |Split(s[i + |sep|..], sep)|;
  }

  /** No piece of Split holds the separator. */
  lemma {:induction false} SplitPiecesFree(s: string, sep: string)
    requires |sep| > 0
    ensures forall k :: 0 <= k < |Split(s, sep)| ==> !Contains(Split(s, sep)[k], sep)
    decreases |s|
  {
    match Index(s, sep)
    case None =>
    case Some(i) =>
      var rest := s[i + |sep|..];
      SplitPiecesFree(rest, sep);
      PrefixBeforeFirst(s, sep, i);
      SplitStep(s, sep);
  }

  /** strings.Join */
  function Join(parts: seq<string>, sep: string): string {
    if |parts| == 0 then ""
    else if |parts| == 1 then parts[0]
    else parts[0] + sep + Join(parts[1..], sep)
  }

  /** The text before the first occurrence holds no occurrence of its own. */
  lemma PrefixBeforeFirst(s: string, sep: string, i: nat)
    requires |sep| > 0 && Index(s, sep) == Some(i)
    ensures !Contains(s[..i], sep)
  {
    forall j | OccursAt(s[..i], sep, j) ensures false {
      assert s[..i][j..j + |sep|] == s[j..j + |sep|];
      assert OccursAt(s, sep, j);
    }
  }

  lemma JoinCons(first: string, rest: seq<string>, sep: string)
    requires |rest| >= 1
    ensures Join([first] + rest, sep) == first + sep + Join(rest, sep)
  {
  }

  /** A string is the text before an occurrence, the separator, and the text after it. */
  lemma AroundOccurrence(s: string, sep: string, i: nat)
    requires OccursAt(s, sep, i)
    ensures s == s[..i] + sep + s[i + |sep|..]
  {
  }

  /** One step of Split. */
  lemma {:induction false} SplitStep(s: string, sep: string)
    requires |sep| > 0
    ensures Index(s, sep).None? ==> Split(s, sep) == [s]
    ensures Index(s, sep).Some? ==>
      var i := Index(s, sep).value;
      Split(s, sep) == [s[..i]] + Split(s[i + |sep|..], sep)
  {
  }

  /** Split loses nothing: joining the pieces with `sep` gives back `s`. */
  lemma {:induction false} JoinSplit(s: string, sep: string)
    requires |sep| > 0
    ensures Join(Split(s, sep), sep) == s
    decreases |s|
  {
    SplitStep(s, sep);
    var first := Index(s, sep);
    if first.Some? {
      var i := first.value;
      var rest := s[i + |sep|..];
      JoinSplit(rest, sep);
      JoinCons(s[..i], Split(rest, sep), sep);
      AroundOccurrence(s, sep, i);
    }
  }

  /** Piece 0 of SplitN(s, sep, 2) is a prefix of `s` free of `sep`, and it is either
      all of `s` or followed by `sep`. */
  lemma SplitN2FirstPiece(s: string, sep: string)
    requires |sep| > 0
    ensures var piece := SplitN2(s, sep)[0];
      HasPrefix(s, piece) && !Contains(piece, sep) && (piece == s || OccursAt(s, sep, |piece|))
  {
    match Index(s, sep)
    case None =>
    case Some(i) =>
      PrefixBeforeFirst(s, sep, i);
  }

  /** The first two pieces of Split agree with SplitN(s, sep, 2) up to the
      second occurrence: piece 1 is the text after the first `sep` up to the next one. */
  lemma {:induction false} SplitSecondPiece(s: string, sep: string, i: nat)
    requires |sep| > 0 && Index(s, sep) == Some(i)
    ensures |Split(s, sep)| >= 2
    ensures Split(s, sep)[0] == s[..i]
    ensures Split(s, sep)[1] == SplitN2(s[i + |sep|..], sep)[0]
  {
    var rest := s[i + |sep|..];
    SplitStep(s, sep);
    SplitStep(rest, sep);
    match Index(rest, sep)
    case None =>
      assert SplitN2(rest, sep)[0] == rest;
    case Some(k) =>
      assert SplitN2(rest, sep)[0] == rest[..k];
  }

  /** A one-byte separator that does not occur leaves the string whole. */
  lemma SplitCharFree(s: string, c: char)
    requires c !in s
    ensures Split(s, [c]) == [s]
  {
    ContainsChar(s, c);
  }

  /** Splitting on a byte that first occurs right after `a` gives `a`, then the pieces of the rest. */
  lemma SplitAfterFirst(a: string, c: char, rest: string)
    requires c !in a
    ensures Split(a + [c] + rest, [c]) == [a] + Split(rest, [c])
  {
    var s := a + [c] + rest;
    assert s[|a|..|a| + 1] == [c];
    assert OccursAt(s, [c], |a|);
    forall j | 0 <= j < |a| ensures !OccursAt(s, [c], j) {
      assert s[j..j + 1] == [s[j]];
      assert s[j] == a[j];
    }
    FirstOccurrence(s, [c], |a|);
    SplitStep(s, [c]);
    assert s[..|a|] == a;
    assert s[|a| + 1..] == rest;
  }

  /** Three pieces joined: the first, the separator, the second, the separator, the third. */
  lemma JoinThree(parts: seq<string>, sep: string)
    requires |parts| == 3
    ensures Join(parts, sep) == parts[0] + sep + parts[1] + sep + parts[2]
  {
    assert parts[1..][1..] == [parts[2]];
    assert Join(parts[1..], sep) == parts[1] + sep + parts[2];
  }
}
