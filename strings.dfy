/**
 * The JavaScript string operations the scoring rules are built from, on strings
 * taken as sequences of Unicode scalar values (where this differs from
 * JavaScript's UTF-16 code units is listed in README's "Left out"): the `\s` character class, `toLowerCase`
 * (ASCII letters only), `slice(0, n)`, `includes`, `split(/\s+/)` and the
 * number of matches of a global literal pattern (`match(new RegExp(p, "g"))`).
 */
module Strings {

  /** A character of JavaScript's `\s` class: WhiteSpace and LineTerminator code points. */
  predicate IsSpace(c: char)
  {
    || c == '\t' || c == '\n' || c == '\U{000B}' || c == '\U{000C}' || c == '\r' || c == ' '
    || c == '\U{00A0}' || c == '\U{1680}' || ('\U{2000}' <= c <= '\U{200A}')
    || c == '\U{2028}' || c == '\U{2029}' || c == '\U{202F}' || c == '\U{205F}'
    || c == '\U{3000}' || c == '\U{FEFF}'
  }

  /** `toLowerCase` on one character, for the ASCII letters. */
  function LowerChar(c: char): (r: char)
    ensures 'A' <= c <= 'Z' ==> r as int == c as int + 32
    ensures !('A' <= c <= 'Z') ==> r == c
  {
    if 'A' <= c <= 'Z' then (c as int + 32) as char else c
  }

  /** `s.toLowerCase()`: every character lowered, the length kept. */
  function Lower(s: string): (r: string)
    ensures |r| == |s|
    ensures forall i :: 0 <= i < |s| ==> r[i] == LowerChar(s[i])
  {
    seq(|s|, i requires 0 <= i < |s| => LowerChar(s[i]))
  }

  /** Lowering commutes with taking a slice. */
  lemma LowerSlice(s: string, i: nat, j: nat)
    requires i <= j <= |s|
    ensures Lower(s[i..j]) == Lower(s)[i..j]
  {
  }

  /** `s.slice(0, n)`: the first `n` characters, or all of `s` when it is shorter. */
  function Take(s: string, n: nat): (r: string)
    ensures |r| == if |s| < n then |s| else n
    ensures r <= s
  {
    if |s| <= n then s else s[..n]
  }

  /** A copy of `p` starts at position `i` of `s`. */
  predicate OccursAt(s: string, p: string, i: nat)
  {
    i + |p| <= |s| && s[i..i + |p|] == p
  }

  /** `s.includes(p)`. */
  predicate Contains(s: string, p: string)
    ensures Contains(s, p) ==> |p| <= |s|
    decreases |s|
  {
    |p| <= |s| && (s[..|p|] == p || Contains(s[1..], p))
  }

  lemma OccursAtTail(s: string, p: string, i: nat)
    requires |s| > 0
    ensures OccursAt(s[1..], p, i) <==> OccursAt(s, p, i + 1)
  {
    if i + |p| <= |s| - 1 {
      assert s[1..][i..i + |p|] == s[i + 1..i + 1 + |p|];
    }
  }

  /** `includes` holds exactly when some position of `s` starts a copy of `p`. */
  lemma {:induction false} ContainsIff(s: string, p: string)
    ensures Contains(s, p) <==> exists i: nat :: OccursAt(s, p, i)
    decreases |s|
  {
    if |p| <= |s| {
      if s[..|p|] == p {
        assert OccursAt(s, p, 0);
      } else {
        ContainsIff(s[1..], p);
        if Contains(s, p) {
          var j: nat :| OccursAt(s[1..], p, j);
          OccursAtTail(s, p, j);
        }
        if exists i: nat :: OccursAt(s, p, i) {
          var i: nat :| OccursAt(s, p, i);
          OccursAtTail(s, p, i - 1);
        }
      }
    }
  }

  /** `includes` of a one-character string looks for that character anywhere. */
  lemma ContainsCharIff(s: string, c: char)
    ensures Contains(s, [c]) <==> exists i :: 0 <= i < |s| && s[i] == c
  {
    ContainsIff(s, [c]);
    if exists i :: 0 <= i < |s| && s[i] == c {
      var i :| 0 <= i < |s| && s[i] == c;
      assert OccursAt(s, [c], i);
    }
    if exists i: nat :: OccursAt(s, [c], i) {
      var i: nat :| OccursAt(s, [c], i);
      assert s[i..i + 1][0] == s[i];
    }
  }

  /** A copy of `p` within the first `n` characters of `s` is a copy within `s` that ends by `n`. */
  lemma ContainsTakeIff(s: string, p: string, n: nat)
    ensures Contains(Take(s, n), p) <==> exists i: nat :: i + |p| <= n && OccursAt(s, p, i)
  {
    var t := Take(s, n);
    ContainsIff(t, p);
    forall i: nat | i + |p| <= |t|
      ensures OccursAt(t, p, i) <==> OccursAt(s, p, i)
    {
      assert t[i..i + |p|] == s[i..i + |p|];
    }
    if exists i: nat :: i + |p| <= n && OccursAt(s, p, i) {
      var i: nat :| i + |p| <= n && OccursAt(s, p, i);
      assert OccursAt(t, p, i);
    }
  }

  // ---------------------------------------------------------------------------
  // Global literal matching

  /**
   * The number of matches a global search for the literal pattern `p` finds in
   * `s`: the search goes left to right and resumes right after each match, so
   * the matches never overlap.
   */
  function Occurrences(s: string, p: string): nat
    requires |p| > 0
    decreases |s|
  {
    if |s| < |p| then 0
    else if s[..|p|] == p then 1 + Occurrences(s[|p|..], p)
    else Occurrences(s[1..], p)
  }

  /** Non-overlapping matches fit in the string: `count * |p| <= |s|`. */
  lemma {:induction false} OccurrencesBound(s: string, p: string)
    requires |p| > 0
    ensures Occurrences(s, p) * |p| <= |s|
    decreases |s|
  {
    if |s| >= |p| {
      if s[..|p|] == p {
        var rest := Occurrences(s[|p|..], p);
        OccurrencesBound(s[|p|..], p);
        assert Occurrences(s, p) == rest + 1;
        assert (rest + 1) * |p| == rest * |p| + |p|;
        assert |s[|p|..]| == |s| - |p|;
      } else {
        OccurrencesBound(s[1..], p);
        assert Occurrences(s, p) == Occurrences(s[1..], p);
      }
    }
  }

  /** The search finds a match exactly when `p` occurs in `s`. */
  lemma {:induction false} OccurrencesPositive(s: string, p: string)
    requires |p| > 0
    ensures Occurrences(s, p) > 0 <==> Contains(s, p)
    decreases |s|
  {
    if |s| >= |p| && s[..|p|] != p {
      OccurrencesPositive(s[1..], p);
    }
  }

  /** The global search: one pass over `s`, skipping past each match. */
  method CountMatches(s: string, p: string) returns (n: nat)
    requires |p| > 0
    ensures n == Occurrences(s, p)
  {
    n := 0;
    var i := 0;
    while i + |p| <= |s|
      invariant i <= |s|
      invariant n + Occurrences(s[i..], p) == Occurrences(s, p)
    {
      assert s[i..][..|p|] == s[i..i + |p|];
      if s[i..i + |p|] == p {
        assert s[i..][|p|..] == s[i + |p|..];
        n := n + 1;
        i := i + |p|;
      } else {
        assert s[i..][1..] == s[i + 1..];
        i := i + 1;
      }
    }
  }

  // ---------------------------------------------------------------------------
  // split(/\s+/)

  /** The first whitespace position at or after `from`, or `|s|` when there is none. */
  function NextSpace(s: string, from: nat): (r: nat)
    requires from <= |s|
    ensures from <= r <= |s|
    ensures forall k :: from <= k < r ==> !IsSpace(s[k])
    ensures r < |s| ==> IsSpace(s[r])
    decreases |s| - from
  {
    if from == |s| || IsSpace(s[from]) then from else NextSpace(s, from + 1)
  }

  /** The end of the whitespace run that starts at `from`. */
  function SkipSpaces(s: string, from: nat): (r: nat)
    requires from <= |s|
    ensures from <= r <= |s|
    ensures forall k :: from <= k < r ==> IsSpace(s[k])
    ensures r < |s| ==> !IsSpace(s[r])
    decreases |s| - from
  {
    if from == |s| || !IsSpace(s[from]) then from else SkipSpaces(s, from + 1)
  }

  /**
   * `s.split(/\s+/)`: the pieces of `s` between its maximal whitespace runs. A
   * run at the start or at the end leaves an empty piece there, and the empty
   * string splits into one empty piece.
   */
  function Split(s: string): (r: seq<string>)
    ensures |r| >= 1
    decreases |s|
  {
    var i := NextSpace(s, 0);
    if i == |s| then [s] else [s[..i]] + Split(s[SkipSpaces(s, i)..])
  }

  /** Position `i` begins a maximal whitespace run. */
  predicate RunStart(s: string, i: nat)
    requires i < |s|
  {
    IsSpace(s[i]) && (i == 0 || !IsSpace(s[i - 1]))
  }

  /** The number of maximal whitespace runs that begin before position `k`. */
  function RunStarts(s: string, k: nat): nat
    requires k <= |s|
  {
    if k == 0 then 0 else RunStarts(s, k - 1) + (if RunStart(s, k - 1) then 1 else 0)
  }

  lemma {:induction false} NoRunsBefore(s: string, k: nat)
    requires k <= |s|
    requires forall m :: 0 <= m < k ==> !IsSpace(s[m])
    ensures RunStarts(s, k) == 0
  {
    if k > 0 {
      NoRunsBefore(s, k - 1);
    }
  }

  /** A prefix made of spaces-free text followed by one whitespace run holds one run start. */
  lemma {:induction false} OneRunBefore(s: string, i: nat, j: nat)
    requires i < j <= |s|
    requires forall m :: 0 <= m < i ==> !IsSpace(s[m])
    requires forall m :: i <= m < j ==> IsSpace(s[m])
    ensures RunStarts(s, j) == 1
  {
    if j == i + 1 {
      NoRunsBefore(s, i);
    } else {
      OneRunBefore(s, i, j - 1);
    }
  }

  /** Run starts of `s` after a non-space position `j` are the run starts of `s[j..]`. */
  lemma {:induction false} RunStartsShift(s: string, j: nat, k: nat)
    requires j <= k <= |s|
    requires j < |s| ==> !IsSpace(s[j])
    ensures RunStarts(s, k) == RunStarts(s, j) + RunStarts(s[j..], k - j)
  {
    if k > j {
      RunStartsShift(s, j, k - 1);
      assert s[j..][k - 1 - j] == s[k - 1];
      if k - 1 > j {
        assert s[j..][k - 2 - j] == s[k - 2];
      }
    }
  }

  /** `split(/\s+/).length` is one more than the number of maximal whitespace runs. */
  lemma {:induction false} SplitLength(s: string)
    ensures |Split(s)| == 1 + RunStarts(s, |s|)
    decreases |s|
  {
    var i := NextSpace(s, 0);
    if i == |s| {
      NoRunsBefore(s, |s|);
    } else {
      var j := SkipSpaces(s, i);
      SplitLength(s[j..]);
      OneRunBefore(s, i, j);
      RunStartsShift(s, j, |s|);
    }
  }

  /** No piece of the split holds whitespace. */
  lemma {:induction false} SplitPiecesHaveNoSpace(s: string)
    ensures forall k, m :: 0 <= k < |Split(s)| && 0 <= m < |Split(s)[k]| ==> !IsSpace(Split(s)[k][m])
    decreases |s|
  {
    var i := NextSpace(s, 0);
    if i < |s| {
      SplitPiecesHaveNoSpace(s[SkipSpaces(s, i)..]);
    }
  }

  /** Leading whitespace leaves an empty first piece. */
  lemma LeadingSpaceGivesEmptyPiece(s: string)
    requires |s| > 0 && IsSpace(s[0])
    ensures Split(s)[0] == []
  {
  }

  /** Trailing whitespace leaves an empty last piece. */
  lemma {:induction false} TrailingSpaceGivesEmptyPiece(s: string)
    requires |s| > 0 && IsSpace(s[|s| - 1])
    ensures Split(s)[|Split(s)| - 1] == []
    decreases |s|
  {
    var i := NextSpace(s, 0);
    var j := SkipSpaces(s, i);
    var rest := s[j..];
    if j < |s| {
      assert rest[|rest| - 1] == s[|s| - 1];
      TrailingSpaceGivesEmptyPiece(rest);
    } else {
      assert rest == [];
    }
  }

  /**
   * The word count `split(/\s+/).length`, computed in one pass that counts the
   * positions where a whitespace run begins.
   */
  method CountWords(s: string) returns (n: nat)
    ensures n == |Split(s)|
  {
    n := 1;
    var i := 0;
    var inRun := false;
    while i < |s|
      invariant i <= |s|
      invariant inRun == (0 < i && IsSpace(s[i - 1]))
      invariant n == 1 + RunStarts(s, i)
    {
      if IsSpace(s[i]) {
        if !inRun {
          n := n + 1;
        }
        inRun := true;
      } else {
        inRun := false;
      }
      i := i + 1;
    }
    SplitLength(s);
  }
}
