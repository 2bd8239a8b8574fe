/**
  The Foundation string operations the client relies on: `contains(_:)` and
  `components(separatedBy:)` (with `.last`), over strings as sequences of Unicode scalars.
*/
module Strings {
  import opened Wrappers

  /** `sub` occurs in `s` at position `i`. */
  predicate OccursAt(s: string, sub: string, i: int) {
    0 <= i && i + |sub| <= |s| && s[i..i + |sub|] == sub
  }

  /** The first position at or after `from` where `sub` occurs in `s`, scanning left to right. */
  function FindFirst(s: string, sub: string, from: nat): (r: Option<nat>)
    decreases |s| - from
    ensures r.Some? ==> from <= r.value && OccursAt(s, sub, r.value)
    ensures r.Some? ==> forall j :: from <= j < r.value ==> !OccursAt(s, sub, j)
    ensures r.None? ==> forall j :: from <= j ==> !OccursAt(s, sub, j)
  {
    if from + |sub| > |s| then None
    else if s[from..from + |sub|] == sub then Some(from)
    else FindFirst(s, sub, from + 1)
  }

  /** `s.contains(sub)`: some position of `s` starts an occurrence of `sub`. */
  predicate Contains(s: string, sub: string)
    ensures Contains(s, sub) <==> exists i :: OccursAt(s, sub, i)
  {
    FindFirst(s, sub, 0).Some?
  }

  /**
    `s.components(separatedBy: sep)`: the pieces of `s` between the occurrences of `sep`
    found by a left-to-right scan (an occurrence is skipped when it overlaps the previous one).
  */
  function Components(s: string, sep: string): (parts: seq<string>)
    requires |sep| > 0
    decreases |s|
    ensures |parts| >= 1
  {
    match FindFirst(s, sep, 0)
    case None => [s]
    case Some(i) => [s[..i]] + Components(s[i + |sep|..], sep)
  }

  /** The inverse of `Components`: the pieces glued back together with the separator. */
  function Join(parts: seq<string>, sep: string): string
    requires |parts| >= 1
  {
    if |parts| == 1 then parts[0] else parts[0] + sep + Join(parts[1..], sep)
  }

  /**
    `s.components(separatedBy: sep).last`, which is never nil: a suffix of `s`, and all of `s`
    when `sep` does not occur in it.
  */
  function LastComponent(s: string, sep: string): (r: string)
    requires |sep| > 0
    ensures |r| <= |s| && s[|s| - |r|..] == r
    ensures !Contains(s, sep) ==> r == s
  {
    LastPieceIsSuffix(s, sep);
    var parts := Components(s, sep);
    parts[|parts| - 1]
  }

  /** One step of the split: the piece before the first separator, then the split of the rest. */
  lemma ComponentsSplit(s: string, sep: string) returns (i: nat)
    requires |sep| > 0 && Contains(s, sep)
    ensures i + |sep| <= |s| && s[i..] == sep + s[i + |sep|..]
    ensures Components(s, sep) == [s[..i]] + Components(s[i + |sep|..], sep)
  {
    i := FindFirst(s, sep, 0).value;
    assert s[i..] == s[i..i + |sep|] + s[i + |sep|..];
  }

  lemma ComponentsWhole(s: string, sep: string)
    requires |sep| > 0 && !Contains(s, sep)
    ensures Components(s, sep) == [s]
  {
  }

  /** The last piece of a split is a suffix of the string split. */
  lemma {:induction false} LastPieceIsSuffix(s: string, sep: string)
    requires |sep| > 0
    decreases |s|
    ensures var parts := Components(s, sep);
      |parts[|parts| - 1]| <= |s| && s[|s| - |parts[|parts| - 1]|..] == parts[|parts| - 1]
  {
    if Contains(s, sep) {
      var i := ComponentsSplit(s, sep);
      var rest := s[i + |sep|..];
      LastPieceIsSuffix(rest, sep);
      var tail := Components(rest, sep);
      SuffixOfSuffix(s, i + |sep|, tail[|tail| - 1]);
    } else {
      ComponentsWhole(s, sep);
    }
  }

  /** No proper suffix of `sep` is also a prefix of it, so two occurrences of `sep` never overlap. */
  ghost predicate Unbordered(sep: string) {
    forall k :: 0 < k < |sep| ==> sep[k..] != sep[..|sep| - k]
  }

  lemma FirstOccurrenceSplit(s: string, sep: string, i: nat)
    requires FindFirst(s, sep, 0) == Some(i)
    ensures s == s[..i] + sep + s[i + |sep|..]
  {
    assert s[i..i + |sep|] == sep;
    assert s == s[..i] + s[i..i + |sep|] + s[i + |sep|..];
  }

  /** Splitting and joining again gives back the original string. */
  lemma {:induction false} JoinComponents(s: string, sep: string)
    requires |sep| > 0
    ensures Join(Components(s, sep), sep) == s
    decreases |s|
  {
    match FindFirst(s, sep, 0)
    case None =>
    case Some(i) =>
      var rest := s[i + |sep|..];
      JoinComponents(rest, sep);
      var parts := Components(s, sep);
      assert parts[1..] == Components(rest, sep);
      FirstOccurrenceSplit(s, sep, i);
  }

  lemma PrefixBeforeFirstAvoids(s: string, sep: string, i: nat)
    requires |sep| > 0 && FindFirst(s, sep, 0) == Some(i)
    ensures !Contains(s[..i], sep)
  {
    forall j | OccursAt(s[..i], sep, j)
      ensures OccursAt(s, sep, j) && j < i
    {
      assert s[..i][j..j + |sep|] == s[j..j + |sep|];
    }
  }

  /** No component contains the separator. */
  lemma {:induction false} ComponentsAvoidSeparator(s: string, sep: string)
    requires |sep| > 0
    ensures forall k :: 0 <= k < |Components(s, sep)| ==> !Contains(Components(s, sep)[k], sep)
    decreases |s|
  {
    match FindFirst(s, sep, 0)
    case None =>
    case Some(i) =>
      var rest := s[i + |sep|..];
      ComponentsAvoidSeparator(rest, sep);
      PrefixBeforeFirstAvoids(s, sep, i);
      var parts := Components(s, sep);
      assert parts == [s[..i]] + Components(rest, sep);
  }

  lemma LastComponentStep(s: string, sep: string, i: nat)
    requires |sep| > 0 && FindFirst(s, sep, 0) == Some(i)
    ensures LastComponent(s, sep) == LastComponent(s[i + |sep|..], sep)
  {
    var tail := Components(s[i + |sep|..], sep);
    assert Components(s, sep) == [s[..i]] + tail;
  }

  lemma SuffixOfSuffix(s: string, k: nat, t: string)
    requires k <= |s| && |t| <= |s| - k && s[k..][|s| - k - |t|..] == t
    ensures s[|s| - |t|..] == t
  {
    assert s[k..][|s| - k - |t|..] == s[|s| - |t|..];
  }

  /** When `s` holds the separator, its last piece ends `s` right after an occurrence of it. */
  lemma {:induction false} LastComponentEndsString(s: string, sep: string)
    requires |sep| > 0 && Contains(s, sep)
    ensures var parts := Components(s, sep);
      |sep| + |parts[|parts| - 1]| <= |s| &&
      s[|s| - |parts[|parts| - 1]| - |sep|..] == sep + parts[|parts| - 1]
    decreases |s|
  {
    var i := ComponentsSplit(s, sep);
    var rest := s[i + |sep|..];
    var tail := Components(rest, sep);
    if Contains(rest, sep) {
      LastComponentEndsString(rest, sep);
      SuffixOfSuffix(s, i + |sep|, sep + tail[|tail| - 1]);
    } else {
      ComponentsWhole(rest, sep);
      SuffixOfSuffix(s, i, sep + rest);
    }
  }

  /**
    The last component is what follows the last separator found: it holds no separator, it is
    all of `s` when `s` holds none, and otherwise it ends `s` right after an occurrence of `sep`.
  */
  lemma LastComponentFacts(s: string, sep: string)
    requires |sep| > 0
    ensures !Contains(LastComponent(s, sep), sep)
    ensures !Contains(s, sep) ==> LastComponent(s, sep) == s
    ensures Contains(s, sep) ==>
      var r := LastComponent(s, sep);
      |sep| + |r| <= |s| && s[|s| - |r| - |sep|..] == sep + r
  {
    ComponentsAvoidSeparator(s, sep);
    if Contains(s, sep) {
      LastComponentEndsString(s, sep);
    }
  }

  /** Taking the last component twice is the same as taking it once. */
  lemma LastComponentIdempotent(s: string, sep: string)
    requires |sep| > 0
    ensures LastComponent(LastComponent(s, sep), sep) == LastComponent(s, sep)
  {
    LastComponentFacts(s, sep);
    LastComponentFacts(LastComponent(s, sep), sep);
  }

  /** A separator whose first character occurs nowhere else in it has no border. */
  lemma UniqueLeadIsUnbordered(sep: string)
    requires |sep| > 0
    requires forall k :: 0 < k < |sep| ==> sep[k] != sep[0]
    ensures Unbordered(sep)
  {
    forall k | 0 < k < |sep|
      ensures sep[k..] != sep[..|sep| - k]
    {
      assert sep[k..][0] == sep[k];
      assert sep[..|sep| - k][0] == sep[0];
    }
  }

  lemma OverlapIsBorder(s: string, sep: string, i: nat, j: nat)
    requires OccursAt(s, sep, i) && OccursAt(s, sep, j) && i < j < i + |sep|
    ensures sep[j - i..] == sep[..|sep| - (j - i)]
  {
    assert s[j..i + |sep|] == s[i..i + |sep|][j - i..];
    assert s[j..i + |sep|] == s[j..j + |sep|][..|sep| - (j - i)];
  }

  /** Two occurrences of an unbordered separator do not overlap. */
  lemma UnborderedOccurrencesApart(s: string, sep: string, i: nat, j: nat)
    requires Unbordered(sep)
    requires OccursAt(s, sep, i) && OccursAt(s, sep, j) && i < j
    ensures i + |sep| <= j
  {
    if j < i + |sep| {
      OverlapIsBorder(s, sep, i, j);
      assert false;
    }
  }

  /**
    For an unbordered separator, the last component is exactly the text after the last
    occurrence: whatever precedes `sep`, if `x` holds no separator the last component is `x`.
  */
  lemma {:induction false} LastComponentAfter(p: string, sep: string, x: string)
    requires |sep| > 0 && Unbordered(sep) && !Contains(x, sep)
    ensures LastComponent(p + sep + x, sep) == x
    decreases |p|
  {
    var s := p + sep + x;
    assert OccursAt(s, sep, |p|) by {
      assert s[|p|..|p| + |sep|] == sep;
    }
    var i := FindFirst(s, sep, 0).value;
    LastComponentStep(s, sep, i);
    if i == |p| {
      assert s[i + |sep|..] == x;
      LastComponentFacts(x, sep);
    } else {
      UnborderedOccurrencesApart(s, sep, i, |p|);
      var p' := p[i + |sep|..];
      assert s[i + |sep|..] == p' + sep + x;
      LastComponentAfter(p', sep, x);
    }
  }
}
