/** The few regular-expression shapes the services use, written as
    predicates on positions: word boundaries, words and phrases between
    boundaries, literal text at a position, and the first occurrence of a
    character. Word characters are the ASCII ones of `Text.IsWordChar`. */
module Patterns {
  import opened Wrappers
  import opened Text

  /** `\b` at position `k`: a word character on exactly one side. */
  predicate Boundary(s: string, k: nat) {
    (0 < k <= |s| && IsWordChar(s[k - 1])) != (k < |s| && IsWordChar(s[k]))
  }

  /** `w` occurs at position `p`. */
  predicate TextAt(s: string, p: nat, w: string) {
    p + |w| <= |s| && s[p..p + |w|] == w
  }

  /** `\bw\b` matches at position `p`. */
  predicate WordAt(s: string, p: nat, w: string) {
    TextAt(s, p, w) && Boundary(s, p) && Boundary(s, p + |w|)
  }

  /** `\b(w1|w2|...)\b` matches somewhere in `s`. */
  predicate HasWord(s: string, words: seq<string>) {
    exists p, i :: 0 <= p <= |s| && 0 <= i < |words| && WordAt(s, p, words[i])
  }

  /** The first position at or after `from` holding `c`. */
  function FindChar(s: string, c: char, from: nat): (r: Option<nat>)
    ensures r.Some? ==> from <= r.value < |s| && s[r.value] == c
    ensures r.Some? ==> forall k :: from <= k < r.value ==> s[k] != c
    ensures r.None? ==> forall k :: from <= k < |s| ==> s[k] != c
    decreases |s| - from
  {
    if from >= |s| then None
    else if s[from] == c then Some(from)
    else FindChar(s, c, from + 1)
  }

  /** Boundaries look only at the two neighbouring characters, so a match
      inside `s` is still one inside `a + s + b` when `a` ends and `b`
      starts with a non-word character (or is empty). */
  lemma BoundaryShift(a: string, s: string, b: string, k: nat)
    requires k <= |s|
    requires a == [] || !IsWordChar(a[|a| - 1])
    requires b == [] || !IsWordChar(b[0])
    ensures Boundary(a + s + b, |a| + k) == Boundary(s, k)
  {
    var t := a + s + b;
    if 0 < k {
      assert t[|a| + k - 1] == s[k - 1];
    }
    if k < |s| {
      assert t[|a| + k] == s[k];
    }
  }

  lemma WordAtShift(a: string, s: string, b: string, p: nat, w: string)
    requires WordAt(s, p, w)
    requires a == [] || !IsWordChar(a[|a| - 1])
    requires b == [] || !IsWordChar(b[0])
    ensures WordAt(a + s + b, |a| + p, w)
  {
    var t := a + s + b;
    var q := |a| + p;
    var inT, inS := t[q..q + |w|], s[p..p + |w|];
    forall j | 0 <= j < |w|
      ensures inT[j] == inS[j]
    {
      calc {
        inT[j];
        (a + s)[q + j];
        s[p + j];
      }
    }
    assert inT == inS;
    BoundaryShift(a, s, b, p);
    BoundaryShift(a, s, b, p + |w|);
  }

  /** A word found in `s` is found in `a + s + b` too. */
  lemma HasWordShift(a: string, s: string, b: string, words: seq<string>)
    requires HasWord(s, words)
    requires a == [] || !IsWordChar(a[|a| - 1])
    requires b == [] || !IsWordChar(b[0])
    ensures HasWord(a + s + b, words)
  {
    var p, i :| 0 <= p <= |s| && 0 <= i < |words| && WordAt(s, p, words[i]);
    WordAtShift(a, s, b, p, words[i]);
  }
}
