/** The final score of a match: among its results, sorted stably by descending result type
    (a missing type counting as 0), the first one with both point values, shown as "a:b";
    "vs" when there is none. */
module Scores {
  import opened Basics
  import opened Text
  import opened Models
  import opened Sorting

  function Rank(r: MatchResult): int {
    r.resultTypeId.GetOr(0)
  }

  /** The sort key of `sortedByDescending { it.resultTypeId ?: 0 }`. */
  function DescendingRank(r: MatchResult): int {
    -Rank(r)
  }

  predicate Complete(r: MatchResult) {
    r.pointsTeam1.Some? && r.pointsTeam2.Some?
  }

  /** `firstOrNull { it.pointsTeam1 != null && it.pointsTeam2 != null }`. */
  function FirstComplete(rs: seq<MatchResult>): (r: Option<MatchResult>)
    ensures r.Some? ==> exists i :: (0 <= i < |rs| && rs[i] == r.value && Complete(rs[i])
      && forall j :: 0 <= j < i ==> !Complete(rs[j]))
    ensures r.None? <==> forall i :: 0 <= i < |rs| ==> !Complete(rs[i])
  {
    if |rs| == 0 then None
    else if Complete(rs[0]) then Some(rs[0])
    else
      var r := FirstComplete(rs[1..]);
      assert forall j :: 1 <= j < |rs| ==> rs[j] == rs[1..][j - 1];
      if r.Some? then
        var k :| 0 <= k < |rs[1..]| && rs[1..][k] == r.value && Complete(rs[1..][k])
          && forall j :: 0 <= j < k ==> !Complete(rs[1..][j]);
        assert rs[k + 1] == r.value;
        r
      else r
  }

  /** The result `finalScore` picks: sort, then take the first complete one. */
  function FinalResult(results: Option<seq<MatchResult>>): (r: Option<MatchResult>)
    ensures results.None? ==> r.None?
    ensures results.Some? ==> (r.None? <==> forall i :: 0 <= i < |results.value| ==> !Complete(results.value[i]))
    ensures r.Some? ==> results.Some? && r.value in results.value && Complete(r.value)
  {
    match results
    case None => None
    case Some(rs) =>
      var sorted := SortBy(rs, DescendingRank);
      SameElements(sorted, rs);
      FirstComplete(sorted)
  }

  /** The reference choice, without sorting: the complete result of highest rank, the earliest
      one among equal ranks. */
  function BestComplete(rs: seq<MatchResult>): Option<MatchResult> {
    if |rs| == 0 then None
    else
      var rest := BestComplete(rs[1..]);
      if Complete(rs[0]) && (rest.None? || Rank(rs[0]) >= Rank(rest.value)) then Some(rs[0]) else rest
  }

  /** The reference choice finds nothing exactly when no result is complete. */
  lemma {:induction false} BestCompleteNone(rs: seq<MatchResult>)
    ensures BestComplete(rs).None? <==> forall i :: 0 <= i < |rs| ==> !Complete(rs[i])
  {
    if |rs| > 0 {
      BestCompleteNone(rs[1..]);
      assert forall j :: 1 <= j < |rs| ==> rs[j] == rs[1..][j - 1];
    }
  }

  /** `rs[i]` is complete, no complete result has a higher rank, and no earlier complete result
      has the same rank. */
  ghost predicate HighestEarliest(rs: seq<MatchResult>, i: int) {
    && 0 <= i < |rs|
    && Complete(rs[i])
    && (forall j :: 0 <= j < |rs| && Complete(rs[j]) ==> Rank(rs[j]) <= Rank(rs[i]))
    && (forall j :: 0 <= j < i && Complete(rs[j]) ==> Rank(rs[j]) < Rank(rs[i]))
  }

  /** A complete head that no later complete result outranks is the choice. */
  lemma HeadIsHighestEarliest(rs: seq<MatchResult>)
    requires |rs| > 0 && Complete(rs[0])
    requires forall j :: 1 <= j < |rs| && Complete(rs[j]) ==> Rank(rs[j]) <= Rank(rs[0])
    ensures HighestEarliest(rs, 0)
  {
  }

  /** The choice among the later results stays the choice when the head does not beat it. */
  lemma LaterIsHighestEarliest(rs: seq<MatchResult>, k: int)
    requires |rs| > 0 && HighestEarliest(rs[1..], k)
    requires !(Complete(rs[0]) && Rank(rs[0]) >= Rank(rs[k + 1]))
    ensures HighestEarliest(rs, k + 1)
  {
    assert forall j :: 1 <= j < |rs| ==> rs[j] == rs[1..][j - 1];
  }

  /** What the reference choice is: a complete result whose rank no complete result exceeds and
      that no earlier complete result equals; nothing exactly when no result is complete. */
  lemma {:induction false} BestCompleteIsHighestEarliest(rs: seq<MatchResult>)
    ensures BestComplete(rs).None? <==> forall i :: 0 <= i < |rs| ==> !Complete(rs[i])
    ensures BestComplete(rs).Some? ==>
      exists i :: HighestEarliest(rs, i) && rs[i] == BestComplete(rs).value
  {
    BestCompleteNone(rs);
    if |rs| > 0 {
      var rest := rs[1..];
      BestCompleteIsHighestEarliest(rest);
      BestCompleteNone(rest);
      var b := BestComplete(rest);
      if Complete(rs[0]) && (b.None? || Rank(rs[0]) >= Rank(b.value)) {
        forall j | 1 <= j < |rs| && Complete(rs[j])
          ensures Rank(rs[j]) <= Rank(rs[0])
        {
          assert rs[j] == rest[j - 1];
          if b.Some? {
            var k :| HighestEarliest(rest, k) && rest[k] == b.value;
          }
        }
        HeadIsHighestEarliest(rs);
      } else if b.Some? {
        var k :| HighestEarliest(rest, k) && rest[k] == b.value;
        assert rs[k + 1] == rest[k];
        LaterIsHighestEarliest(rs, k);
      }
    }
  }

  lemma {:induction false} FirstCompleteOfInsert(x: MatchResult, s: seq<MatchResult>)
    requires SortedBy(s, DescendingRank)
    ensures var b := FirstComplete(s);
      FirstComplete(Insert(x, s, DescendingRank))
        == if Complete(x) && (b.None? || Rank(x) >= Rank(b.value)) then Some(x) else b
    decreases |s|
  {
    var r := Insert(x, s, DescendingRank);
    if |s| == 0 || DescendingRank(x) <= DescendingRank(s[0]) {
      assert r == [x] + s;
      assert r[1..] == s;
      var b := FirstComplete(s);
      if b.Some? {
        var k :| 0 <= k < |s| && s[k] == b.value && Complete(s[k]) && forall j :: 0 <= j < k ==> !Complete(s[j]);
        assert DescendingRank(s[0]) <= DescendingRank(s[k]) || k == 0;
        assert Rank(x) >= Rank(b.value);
      }
      if !Complete(x) {
        assert FirstComplete(r) == FirstComplete(r[1..]);
      }
    } else {
      var rest := Insert(x, s[1..], DescendingRank);
      assert r == [s[0]] + rest;
      assert r[1..] == rest;
      FirstCompleteOfInsert(x, s[1..]);
    }
  }

  /** Sorting by descending type and taking the first complete result is the reference choice. */
  lemma {:induction false} FinalResultIsBest(rs: seq<MatchResult>)
    ensures FinalResult(Some(rs)) == BestComplete(rs)
    decreases |rs|
  {
    if |rs| > 0 {
      FinalResultIsBest(rs[1..]);
      FirstCompleteOfInsert(rs[0], SortBy(rs[1..], DescendingRank));
    }
  }

  /** `"${a}:${b}"`. */
  function ScoreLabel(a: int, b: int): string {
    IntToDecimal(a) + ":" + IntToDecimal(b)
  }

  const NoScore := "vs"

  /** `finalScore(match) ?: "vs"`. */
  function FinalScore(results: Option<seq<MatchResult>>): (s: string)
    ensures FinalResult(results).None? ==> s == NoScore
    ensures FinalResult(results).Some? ==>
      s == ScoreLabel(FinalResult(results).value.pointsTeam1.value, FinalResult(results).value.pointsTeam2.value)
  {
    match FinalResult(results)
    case Some(r) => ScoreLabel(r.pointsTeam1.value, r.pointsTeam2.value)
    case None => NoScore
  }

  /** A score label determines both point values, and is never the "vs" placeholder. */
  lemma ScoreLabelUnambiguous(a: int, b: int, c: int, d: int)
    ensures ScoreLabel(a, b) == ScoreLabel(c, d) ==> a == c && b == d
    ensures ScoreLabel(a, b) != NoScore
  {
    if ScoreLabel(a, b) == ScoreLabel(c, d) {
      SplitAtSeparator(':', IntToDecimal(a), IntToDecimal(b), IntToDecimal(c), IntToDecimal(d));
      IntToDecimalInjective(a, c);
      IntToDecimalInjective(b, d);
    }
    assert ScoreLabel(a, b)[0] != 'v';
  }

  /** Two complete results of types 1 and 3: the type-3 points are shown, whatever their order. */
  lemma HigherTypeWins(p1: int, p2: int, q1: int, q2: int)
    ensures var low := MatchResult(Some(1), Some(p1), Some(p2));
      var high := MatchResult(Some(3), Some(q1), Some(q2));
      FinalScore(Some([low, high])) == ScoreLabel(q1, q2)
      && FinalScore(Some([high, low])) == ScoreLabel(q1, q2)
  {
    var low := MatchResult(Some(1), Some(p1), Some(p2));
    var high := MatchResult(Some(3), Some(q1), Some(q2));
    hide SortBy, ScoreLabel;
    FinalResultIsBest([low, high]);
    FinalResultIsBest([high, low]);
  }
}
