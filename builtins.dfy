/** The few JavaScript built-ins the page script relies on, stated over exact values:
    `Math.max(...xs)`, `Array.prototype.indexOf`, `String.prototype.split` with a
    non-empty string separator, and indexing an array past its end (which yields
    `undefined`, modelled as `None`). */
module Builtins {

  datatype Option<+T> = None | Some(value: T)

  /** `Math.max(...xs)` for a non-empty list of (non-NaN) numbers. */
  function Max(xs: seq<real>): (m: real)
    requires |xs| > 0
    ensures m in xs
    ensures forall i :: 0 <= i < |xs| ==> xs[i] <= m
  {
    if |xs| == 1 then xs[0]
    else
      var rest := Max(xs[1..]);
      if xs[0] >= rest then xs[0] else rest
  }

  /** `xs.indexOf(x)`: the first position holding `x` (strict equality), or -1. */
  function IndexOf(xs: seq<real>, x: real): (k: int)
    ensures -1 <= k < |xs|
    ensures k == -1 <==> x !in xs
    ensures 0 <= k ==> xs[k] == x && forall j :: 0 <= j < k ==> xs[j] != x
  {
    if |xs| == 0 then -1
    else if xs[0] == x then 0
    else
      var k := IndexOf(xs[1..], x);
      if k == -1 then -1 else k + 1
  }

  /** The separator `sep` appears in `s` starting at position `i`. */
  predicate OccursAt(s: string, sep: string, i: nat)
  {
    i + |sep| <= |s| && s[i..i + |sep|] == sep
  }

  /** `sep` occurs nowhere in `s`. */
  ghost predicate Avoids(s: string, sep: string)
  {
    forall i: nat :: !OccursAt(s, sep, i)
  }

  /** `sep` does not start anywhere in `s` before position `k`. */
  ghost predicate AbsentBefore(s: string, sep: string, k: nat)
  {
    forall i: nat :: i < k ==> !OccursAt(s, sep, i)
  }

  /** Dropping the first character shifts every later occurrence one place left. */
  lemma OccursShift(s: string, sep: string, i: nat)
    requires 0 < |s| && 0 < i
    ensures OccursAt(s, sep, i) <==> OccursAt(s[1..], sep, i - 1)
  {
    if i + |sep| <= |s| {
      assert s[1..][i - 1..i - 1 + |sep|] == s[i..i + |sep|];
    }
  }

  /** The search step inside `split`: the first position where `sep` starts in `s`,
      or -1 when it never does. */
  function Find(s: string, sep: string): (k: int)
    ensures -1 <= k <= |s|
    ensures k == -1 <==> Avoids(s, sep)
    ensures 0 <= k ==> OccursAt(s, sep, k) && AbsentBefore(s, sep, k)
  {
    if |s| < |sep| then
      -1
    else if s[..|sep|] == sep then
      assert OccursAt(s, sep, 0);
      0
    else
      var k := Find(s[1..], sep);
      assert !OccursAt(s, sep, 0);
      if k == -1 then
        assert Avoids(s, sep) by {
          forall i: nat | 0 < i ensures !OccursAt(s, sep, i) {
            OccursShift(s, sep, i);
          }
        }
        -1
      else
        OccursShift(s, sep, k + 1);
        assert AbsentBefore(s, sep, k + 1) by {
          forall i: nat | 0 < i < k + 1 ensures !OccursAt(s, sep, i) {
            OccursShift(s, sep, i);
          }
        }
        k + 1
  }

  /** `s.split(sep)` for a non-empty separator: the pieces between successive
      non-overlapping occurrences of `sep`, scanning from the left. */
  function Split(s: string, sep: string): (pieces: seq<string>)
    requires |sep| > 0
    ensures |pieces| >= 1
    decreases |s|
  {
    var k := Find(s, sep);
    if k == -1 then [s] else [s[..k]] + Split(s[k + |sep|..], sep)
  }

  /** `xs[n]` on a JavaScript array: `undefined` past the end. */
  function Element(xs: seq<string>, n: nat): (r: Option<string>)
    ensures r.Some? <==> n < |xs|
    ensures r.Some? ==> r.value == xs[n]
  {
    if n < |xs| then Some(xs[n]) else None
  }

  /** The pieces put back together with `sep` between them (`pieces.join(sep)`); used
      only to state what `Split` promises. */
  function Join(pieces: seq<string>, sep: string): string
    requires |pieces| >= 1
  {
    if |pieces| == 1 then pieces[0] else pieces[0] + sep + Join(pieces[1..], sep)
  }

  /** `Split` inverts `Join`: joining the pieces with `sep` restores `s`. */
  lemma {:induction false} SplitJoin(s: string, sep: string)
    requires |sep| > 0
    ensures Join(Split(s, sep), sep) == s
    decreases |s|
  {
    var k := Find(s, sep);
    if k != -1 {
      var head, rest := s[..k], s[k + |sep|..];
      var pieces := Split(s, sep);
      assert pieces == [head] + Split(rest, sep);
      assert pieces[0] == head && pieces[1..] == Split(rest, sep);
      SplitJoin(rest, sep);
      assert Join(pieces, sep) == head + sep + rest;
      assert s[k..k + |sep|] == sep;
      assert s == head + sep + rest;
    }
  }

  /** The text before the first occurrence of `sep` contains no `sep`. */
  lemma HeadAvoidsSeparator(s: string, sep: string, k: nat)
    requires |sep| > 0
    requires OccursAt(s, sep, k) && AbsentBefore(s, sep, k)
    ensures Avoids(s[..k], sep)
  {
    forall i: nat | OccursAt(s[..k], sep, i) ensures false {
      assert s[..k][i..i + |sep|] == s[i..i + |sep|];
      assert OccursAt(s, sep, i);
    }
  }

  /** No piece of a split contains `sep`. */
  lemma {:induction false} SplitPiecesAvoidSeparator(s: string, sep: string)
    requires |sep| > 0
    ensures forall j: nat :: j < |Split(s, sep)| ==> Avoids(Split(s, sep)[j], sep)
    decreases |s|
  {
    var k := Find(s, sep);
    if k != -1 {
      var rest := s[k + |sep|..];
      SplitPiecesAvoidSeparator(rest, sep);
      HeadAvoidsSeparator(s, sep, k);
      var pieces := Split(s, sep);
      assert pieces == [s[..k]] + Split(rest, sep);
      forall j: nat | 0 < j < |pieces| ensures Avoids(pieces[j], sep) {
        assert pieces[j] == Split(rest, sep)[j - 1];
      }
    }
  }

  /** A string that contains no occurrence of `sep` splits into itself alone. */
  lemma SplitWithoutSeparator(s: string, sep: string)
    requires |sep| > 0
    requires Avoids(s, sep)
    ensures Split(s, sep) == [s]
  {
  }

  /** The first piece of a split is the whole string exactly when the separator
      does not occur in it. */
  lemma FirstPiece(s: string, sep: string)
    requires |sep| > 0
    ensures Split(s, sep)[0] == s <==> Avoids(s, sep)
  {
    var k := Find(s, sep);
    if k != -1 {
      assert Split(s, sep)[0] == s[..k];
      assert k < |s| by { assert OccursAt(s, sep, k); }
      assert |s[..k]| != |s|;
    }
  }

  /** If `sep` first occurs right after `head`, splitting `head + sep + tail`
      gives `head` and then the pieces of `tail`. */
  lemma {:induction false} SplitAfterHead(head: string, sep: string, tail: string)
    requires |sep| > 0
    requires AbsentBefore(head + sep + tail, sep, |head|)
    ensures Split(head + sep + tail, sep) == [head] + Split(tail, sep)
  {
    var s := head + sep + tail;
    assert s[|head|..|head| + |sep|] == sep;
    assert OccursAt(s, sep, |head|);
    var k := Find(s, sep);
    assert k == |head|;
    assert s[..k] == head;
    assert s[k + |sep|..] == tail;
  }

  /** A string that lacks the first character of `sep` contains no occurrence of `sep`. */
  lemma AbsentLeadCharacter(s: string, sep: string)
    requires |sep| > 0 && sep[0] !in s
    ensures Avoids(s, sep)
  {
  }
}
