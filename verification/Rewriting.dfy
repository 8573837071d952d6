/** `replaceAll`: the first occurrence is rewritten, again and again, until nothing changes. */
module Rewriting {
  import opened Strings

  predicate At(s: string, t: string, i: nat) {
    i <= |s| && t <= s[i..]
  }

  ghost predicate Contains(s: string, t: string) {
    exists i: nat :: At(s, t, i)
  }

  /** The first occurrence at or after `i`, or -1. */
  function IndexFrom(s: string, t: string, i: nat): (r: int)
    requires i <= |s|
    ensures r == -1 || (i <= r && At(s, t, r))
    ensures forall j: nat | i <= j && (r == -1 || j < r) :: !At(s, t, j)
    decreases |s| - i
  {
    if t <= s[i..] then i
    else if i == |s| then -1
    else IndexFrom(s, t, i + 1)
  }

  function Index(s: string, t: string): int {
    IndexFrom(s, t, 0)
  }

  lemma IndexIsFirst(s: string, t: string)
    ensures -1 <= Index(s, t) && (Index(s, t) == -1 <==> !Contains(s, t))
    ensures Index(s, t) != -1 ==> At(s, t, Index(s, t))
    ensures forall j: nat | j < Index(s, t) :: !At(s, t, j)
  {
  }

  /** `indexOf`: a scan over the positions where the target still fits. */
  method IndexOf(s: string, t: string) returns (index: int)
    ensures index == -1 <==> !Contains(s, t)
    ensures index != -1 ==> 0 <= index && At(s, t, index) && forall j: nat | j < index :: !At(s, t, j)
    ensures index == Index(s, t)
  {
    var i := 0;
    while i <= |s| - |t|
      invariant 0 <= i
      invariant forall j: nat | j < i :: !At(s, t, j)
      invariant i <= |s| ==> Index(s, t) == IndexFrom(s, t, i)
      decreases |s| - |t| - i
    {
      if s[i..i + |t|] == t {
        assert At(s, t, i);
        return i;
      }
      i := i + 1;
    }
    IndexIsFirst(s, t);
    assert forall j: nat | i <= j :: !At(s, t, j);
    return -1;
  }

  /** One turn of the loop. */
  function Step(s: string, target: string, replacement: string): string {
    var i := Index(s, target);
    if i == -1 then s else s[..i] + replacement + s[i + |target|..]
  }

  /** The loop leaves after at most `n` rewriting turns. */
  predicate Stops(s: string, target: string, replacement: string, n: nat)
    decreases n
  {
    Step(s, target, replacement) == s || (n > 0 && Stops(Step(s, target, replacement), target, replacement, n - 1))
  }

  /** The value held after `n` turns, or earlier if the loop has left. */
  function After(s: string, target: string, replacement: string, n: nat): string
    decreases n
  {
    if Step(s, target, replacement) == s || n == 0 then s else After(Step(s, target, replacement), target, replacement, n - 1)
  }

  ghost predicate Halts(s: string, target: string, replacement: string) {
    exists n: nat :: Stops(s, target, replacement, n)
  }

  /** What the call returns; None if it never does. */
  ghost function Outcome(s: string, target: string, replacement: string): Option<string> {
    if Halts(s, target, replacement) then
      var n: nat :| Stops(s, target, replacement, n);
      Some(After(s, target, replacement, n))
    else None
  }

  /** The outcome does not depend on the bound that shows the loop leaves. */
  lemma {:induction false} SameOutcome(s: string, target: string, replacement: string, m: nat, n: nat)
    requires Stops(s, target, replacement, m) && Stops(s, target, replacement, n)
    ensures After(s, target, replacement, m) == After(s, target, replacement, n)
    decreases n
  {
    hide Step;
    if Step(s, target, replacement) != s {
      SameOutcome(Step(s, target, replacement), target, replacement, m - 1, n - 1);
    }
  }

  lemma OutcomeIs(s: string, target: string, replacement: string, n: nat)
    requires Stops(s, target, replacement, n)
    ensures Halts(s, target, replacement) && Outcome(s, target, replacement) == Some(After(s, target, replacement, n))
  {
    hide Stops, After;
    var m: nat :| Stops(s, target, replacement, m) && Outcome(s, target, replacement) == Some(After(s, target, replacement, m));
    SameOutcome(s, target, replacement, m, n);
  }

  lemma OutcomeStep(s: string, target: string, replacement: string)
    ensures Outcome(s, target, replacement) ==
            if Step(s, target, replacement) == s then Some(s) else Outcome(Step(s, target, replacement), target, replacement)
  {
    hide Step;
    var next := Step(s, target, replacement);
    if next == s {
      assert Stops(s, target, replacement, 0);
      OutcomeIs(s, target, replacement, 0);
    } else if Halts(next, target, replacement) {
      var n: nat :| Stops(next, target, replacement, n);
      assert Stops(s, target, replacement, n + 1);
      OutcomeIs(next, target, replacement, n);
      OutcomeIs(s, target, replacement, n + 1);
    } else if Halts(s, target, replacement) {
      var n: nat :| Stops(s, target, replacement, n);
      assert Stops(next, target, replacement, n - 1);
      assert false;
    }
  }

  /** `replaceAll`. It returns exactly where the loop halts, and then the outcome of the rewriting. */
  method RewriteAll(text: string, target: string, replacement: string) returns (s: string)
    requires Halts(text, target, replacement)
    ensures Outcome(text, target, replacement) == Some(s)
    ensures !Contains(s, target) || target == replacement
  {
    hide Outcome, Step, Stops, Contains, At, Index;
    s := text;
    ghost var n: nat :| Stops(s, target, replacement, n);
    while true
      invariant Stops(s, target, replacement, n)
      invariant Outcome(s, target, replacement) == Outcome(text, target, replacement)
      decreases n
    {
      var newS := s;
      var index := IndexOf(newS, target);
      StepIs(s, target, replacement, index);
      if index >= 0 {
        newS := newS[..index] + replacement + newS[index + |target|..];
      }
      OutcomeStep(s, target, replacement);
      if newS == s {
        break;
      }
      StopsStep(s, target, replacement, n);
      s := newS;
      n := n - 1;
    }
    FixedPoint(s, target, replacement);
  }

  lemma StepIs(s: string, target: string, replacement: string, index: int)
    requires index == Index(s, target)
    ensures index == -1 || (0 <= index && index + |target| <= |s|)
    ensures Step(s, target, replacement) == if index == -1 then s else s[..index] + replacement + s[index + |target|..]
  {
  }

  lemma StopsStep(s: string, target: string, replacement: string, n: nat)
    requires Stops(s, target, replacement, n) && Step(s, target, replacement) != s
    ensures n > 0 && Stops(Step(s, target, replacement), target, replacement, n - 1)
  {
    hide Step;
  }

  /** A turn changes nothing exactly if there is nothing to replace, or the replacement is the target itself. */
  lemma FixedPoint(s: string, target: string, replacement: string)
    ensures Step(s, target, replacement) == s <==> !Contains(s, target) || target == replacement
  {
    var i := Index(s, target);
    IndexIsFirst(s, target);
    if i != -1 {
      var a, c := s[..i], s[i + |target|..];
      assert s == a + target + c;
      if a + target + c == a + replacement + c {
        assert (a + target + c)[i..i + |target|] == target;
        assert (a + replacement + c)[i..i + |replacement|] == replacement;
      }
    }
  }

  /** Whenever the loop ends, nothing is left to replace. */
  lemma {:induction false} NothingLeft(s: string, target: string, replacement: string, n: nat)
    requires Stops(s, target, replacement, n) && target != replacement
    ensures !Contains(After(s, target, replacement, n), target)
    decreases n
  {
    hide Step;
    if Step(s, target, replacement) == s {
      FixedPoint(s, target, replacement);
    } else {
      NothingLeft(Step(s, target, replacement), target, replacement, n - 1);
    }
  }

  // When the loop ends, and when it does not.

  function Count(c: char, s: string): nat {
    if s == "" then 0 else (if s[0] == c then 1 else 0) + Count(c, s[1..])
  }

  lemma {:induction false} CountConcat(c: char, s: string, t: string)
    ensures Count(c, s + t) == Count(c, s) + Count(c, t)
  {
    if s == "" {
      assert s + t == t;
    } else {
      CountConcat(c, s[1..], t);
      assert (s + t)[0] == s[0] && (s + t)[1..] == s[1..] + t;
    }
  }

  lemma CountStep(c: char, s: string, target: string, replacement: string)
    ensures !Contains(s, target) ==> Step(s, target, replacement) == s
    ensures Contains(s, target) ==>
      Count(c, Step(s, target, replacement)) == Count(c, s) - Count(c, target) + Count(c, replacement)
  {
    hide Count;
    var i := Index(s, target);
    IndexIsFirst(s, target);
    if i != -1 {
      var a, b := s[..i], s[i + |target|..];
      assert s == a + target + b;
      CountConcat(c, a + target, b);
      CountConcat(c, a, target);
      CountConcat(c, a + replacement, b);
      CountConcat(c, a, replacement);
    }
  }

  /** If some character is rarer in the replacement than in the target, its count in the text runs down. */
  lemma {:induction false} RarerCharacterHalts(c: char, s: string, target: string, replacement: string)
    requires Count(c, replacement) < Count(c, target)
    ensures Stops(s, target, replacement, Count(c, s))
    decreases Count(c, s)
  {
    hide Count, Step;
    FixedPoint(s, target, replacement);
    CountStep(c, s, target, replacement);
    if Contains(s, target) {
      var next := Step(s, target, replacement);
      RarerCharacterHalts(c, next, target, replacement);
      MoreTurns(next, target, replacement, Count(c, next), Count(c, s) - 1);
    }
  }

  lemma {:induction false} MoreTurns(s: string, target: string, replacement: string, m: nat, n: nat)
    requires m <= n && Stops(s, target, replacement, m)
    ensures Stops(s, target, replacement, n)
    decreases m
  {
    hide Step;
    if Step(s, target, replacement) != s {
      MoreTurns(Step(s, target, replacement), target, replacement, m - 1, n - 1);
    }
  }

  /** A replacement that properly contains the target feeds the loop for ever. */
  lemma {:induction false} SelfFeedingNeverHalts(s: string, target: string, replacement: string, n: nat)
    requires Contains(s, target) && Contains(replacement, target) && replacement != target
    ensures !Stops(s, target, replacement, n)
    decreases n
  {
    FixedPoint(s, target, replacement);
    StepKeepsTarget(s, target, replacement);
    hide Step, Contains;
    if n == 0 {
    } else {
      SelfFeedingNeverHalts(Step(s, target, replacement), target, replacement, n - 1);
    }
  }

  lemma AtInside(a: string, x: string, b: string, t: string, j: nat)
    requires At(x, t, j)
    ensures At(a + x + b, t, |a| + j)
  {
    var s := a + x + b;
    assert s[|a|..] == x + b;
    assert s[|a| + j..] == (x + b)[j..] == x[j..] + b;
  }

  lemma StepKeepsTarget(s: string, target: string, replacement: string)
    requires Contains(s, target) && Contains(replacement, target)
    ensures Contains(Step(s, target, replacement), target)
  {
    hide IndexFrom, At;
    var i := Index(s, target);
    IndexIsFirst(s, target);
    var j: nat :| At(replacement, target, j);
    AtBounds(s, target, i);
    AtInside(s[..i], replacement, s[i + |target|..], target, j);
  }

  lemma AtBounds(s: string, t: string, i: nat)
    requires At(s, t, i)
    ensures i + |t| <= |s| && s == s[..i] + t + s[i + |t|..]
  {
  }

  // Replacements that cannot combine with the text around them.

  /** The last `k` characters of `x` are the first `k` of `y`. */
  predicate Overlap(x: string, y: string, k: nat) {
    k <= |x| && k <= |y| && x[|x| - k..] == y[..k]
  }

  /** No match can straddle a border of the replacement. */
  ghost predicate NoOverlap(target: string, replacement: string) {
    forall k | 0 < k < |target| :: !Overlap(target, replacement, k) && !Overlap(replacement, target, k)
  }

  /** Nor can a match swallow it. */
  ghost predicate Detached(target: string, replacement: string) {
    NoOverlap(target, replacement) && !Contains(target, replacement)
  }

  /** Where a match that starts before the end of a replacement can come from. */
  lemma MatchSources(a: string, target: string, replacement: string, c: string, j: nat)
    requires At(a + replacement + c, target, j) && j < |a| + |replacement|
    ensures || (j < |a| && At(a + target + c, target, j))
            || (exists k | 0 < k < |target| :: Overlap(target, replacement, k) || Overlap(replacement, target, k))
            || Contains(target, replacement)
            || Contains(replacement, target)
  {
    var s, n, r := a + replacement + c, |target|, |replacement|;
    AtBounds(s, target, j);
    assert s[j..j + n] == target;
    if j < |a| {
      if j + n <= |a| {
        assert a[j..j + n] == s[j..j + n];
        MatchBefore(a, target + c, target, j);
        assert a + (target + c) == a + target + c;
      } else if j + n <= |a| + r {
        var k := j + n - |a|;
        assert target[n - k..] == s[|a|..|a| + k] == replacement[..k];
        assert Overlap(target, replacement, k);
      } else {
        assert target[|a| - j..|a| - j + r] == s[|a|..|a| + r] == replacement;
        assert At(target, replacement, |a| - j);
      }
    } else {
      if j + n <= |a| + r {
        assert replacement[j - |a|..j - |a| + n] == s[j..j + n];
        assert At(replacement, target, j - |a|);
      } else {
        var k := |a| + r - j;
        assert target[..k] == s[j..j + k] == replacement[r - k..];
        assert Overlap(replacement, target, k);
      }
    }
  }

  /** No match starts before the end of the replacement just made. */
  lemma MatchesLieBeyond(a: string, target: string, replacement: string, c: string, j: nat)
    requires Detached(target, replacement) && !Contains(replacement, target)
    requires forall i: nat | i < |a| :: !At(a + target + c, target, i)
    requires j < |a| + |replacement|
    ensures !At(a + replacement + c, target, j)
  {
    hide At, Contains, Overlap;
    if At(a + replacement + c, target, j) {
      MatchSources(a, target, replacement, c, j);
      assert false;
    }
  }

  lemma MatchBefore(a: string, b: string, t: string, j: nat)
    requires j + |t| <= |a| && a[j..j + |t|] == t
    ensures At(a + b, t, j)
  {
    assert (a + b)[j..][..|t|] == a[j..j + |t|];
  }

  /** A single pass copies a part in which no match starts. */
  lemma {:induction false} ReplaceAllSkips(x: string, c: string, target: string, replacement: string)
    requires target != ""
    requires forall i: nat | i < |x| :: !At(x + c, target, i)
    ensures ReplaceAll(x + c, target, replacement) == x + ReplaceAll(c, target, replacement)
  {
    if x == "" {
      assert x + c == c;
    } else {
      var s := x + c;
      assert s[1..] == x[1..] + c;
      assert !At(s, target, 0);
      forall i: nat | i < |x[1..]| ensures !At(x[1..] + c, target, i) {
        assert !At(s, target, i + 1);
        assert s[i + 1..] == s[1..][i..];
      }
      ReplaceAllSkips(x[1..], c, target, replacement);
    }
  }

  function Remaining(s: string, target: string): nat {
    if Index(s, target) == -1 then 0 else |s| - Index(s, target)
  }

  /** The loop, which searches the whole text anew each time, does what one pass from the left does. */
  lemma {:induction false} DetachedIsSinglePass(s: string, target: string, replacement: string)
    requires target != "" && Detached(target, replacement) && !Contains(replacement, target)
    ensures Stops(s, target, replacement, Remaining(s, target))
    ensures After(s, target, replacement, Remaining(s, target)) == ReplaceAll(s, target, replacement)
    decreases Remaining(s, target)
  {
    hide At, Contains, Detached, ReplaceAll, Step, Index;
    FixedPoint(s, target, replacement);
    IndexIsFirst(s, target);
    if !Contains(s, target) {
      NoMatchNoChange(s, target, replacement);
    } else {
      NothingInItself(target, replacement);
      var next := Step(s, target, replacement);
      DetachedStep(s, target, replacement);
      DetachedIsSinglePass(next, target, replacement);
      MoreTurns(next, target, replacement, Remaining(next, target), Remaining(s, target) - 1);
      SameOutcome(next, target, replacement, Remaining(next, target), Remaining(s, target) - 1);
    }
  }

  lemma NoMatchNoChange(s: string, target: string, replacement: string)
    requires target != "" && !Contains(s, target)
    ensures ReplaceAll(s, target, replacement) == s
  {
    assert s + "" == s;
    ReplaceAllSkips(s, "", target, replacement);
    assert ReplaceAll("", target, replacement) == "";
  }

  lemma NothingInItself(target: string, replacement: string)
    requires !Contains(replacement, target)
    ensures replacement != target
  {
    if replacement == target { assert At(replacement, target, 0); }
  }

  lemma DetachedStep(s: string, target: string, replacement: string)
    requires target != "" && Detached(target, replacement) && !Contains(replacement, target) && Contains(s, target)
    ensures var next := Step(s, target, replacement);
      && Remaining(next, target) < Remaining(s, target)
      && ReplaceAll(next, target, replacement) == ReplaceAll(s, target, replacement)
  {
    hide At, Contains, Detached, ReplaceAll, IndexFrom;
    var i := Index(s, target);
    IndexIsFirst(s, target);
    AtBounds(s, target, i);
    var a, c := s[..i], s[i + |target|..];
    var next := a + replacement + c;
    assert s == a + target + c;
    IndexIsFirst(next, target);
    forall j: nat | j < |a + replacement| ensures !At(next, target, j) {
      MatchesLieBeyond(a, target, replacement, c, j);
    }
    ReplaceAllSkips(a + replacement, c, target, replacement);
    assert a + (target + c) == s;
    ReplaceAllSkips(a, target + c, target, replacement);
    ReplaceAllAtStart(target, c, replacement);
  }

  lemma ReplaceAllAtStart(target: string, c: string, replacement: string)
    requires target != ""
    ensures ReplaceAll(target + c, target, replacement) == replacement + ReplaceAll(c, target, replacement)
  {
    assert (target + c)[..|target|] == target && (target + c)[|target|..] == c;
  }

  /** For a detached replacement free of the target the call returns what a single pass makes of the text. */
  lemma DetachedOutcome(s: string, target: string, replacement: string)
    requires target != "" && Detached(target, replacement) && !Contains(replacement, target)
    ensures Outcome(s, target, replacement) == Some(ReplaceAll(s, target, replacement))
  {
    hide Contains, Detached, ReplaceAll, Stops, Remaining;
    DetachedIsSinglePass(s, target, replacement);
    OutcomeIs(s, target, replacement, Remaining(s, target));
  }

  /** A replacement shorter than the target uses up the text. */
  lemma {:induction false} ShorterHalts(s: string, target: string, replacement: string)
    requires |replacement| < |target|
    ensures Stops(s, target, replacement, |s|)
    decreases |s|
  {
    var next := Step(s, target, replacement);
    StepIs(s, target, replacement, Index(s, target));
    hide Step, Index;
    if next != s {
      ShorterHalts(next, target, replacement);
      MoreTurns(next, target, replacement, |next|, |s| - 1);
    }
  }

  lemma PieceIsShorter(target: string, replacement: string)
    requires Contains(target, replacement)
    ensures |replacement| < |target| || replacement == target
  {
    var i: nat :| At(target, replacement, i);
    AtBounds(target, replacement, i);
  }

  /**
   * Exactly when the call returns, for any replacement whose ends cannot overlap a match: the empty one and the
   * pieces of the target included.
   */
  lemma HaltsIff(s: string, target: string, replacement: string)
    requires NoOverlap(target, replacement)
    ensures Halts(s, target, replacement) <==>
            !Contains(s, target) || replacement == target || !Contains(replacement, target)
  {
    hide Contains, NoOverlap, Stops, Remaining;
    if !Contains(s, target) || replacement == target {
      FixedPoint(s, target, replacement);
      StopsAtOnce(s, target, replacement);
    } else if Contains(replacement, target) {
      forall n: nat ensures !Stops(s, target, replacement, n) {
        SelfFeedingNeverHalts(s, target, replacement, n);
      }
    } else if Contains(target, replacement) {
      PieceIsShorter(target, replacement);
      ShorterHalts(s, target, replacement);
    } else {
      EmptyIsAPiece(target, replacement);
      DetachedIsSinglePass(s, target, replacement);
    }
  }

  lemma EmptyIsAPiece(target: string, replacement: string)
    ensures target == "" ==> Contains(replacement, target)
  {
    if target == "" { assert At(replacement, target, 0); }
  }

  lemma StopsAtOnce(s: string, target: string, replacement: string)
    requires Step(s, target, replacement) == s
    ensures Halts(s, target, replacement)
  {
    hide Step;
    assert Stops(s, target, replacement, 0);
  }
}
