/** The student's attempt block: attempts used, the gate without a role
    check, and the best percentage (src/components/assessment/student-attempt.tsx). */
module StudentAttempt {
  import opened Wrappers

  /** An attempt row; a missing percentage is read as 0. */
  datatype Attempt = Attempt(id: string, percentage: Option<real>)

  function Pct(a: Attempt): real {
    a.percentage.GetOr(0.0)
  }

  /** `attemptsUsed`: every loaded attempt (the query already selects this
      student's attempts). */
  function AttemptsUsed(attempts: seq<Attempt>): nat {
    |attempts|
  }

  /** `canAttempt`: no limit, or fewer attempts than the limit; no role check. */
  function CanAttempt(attemptLimit: Option<int>, attemptsUsed: nat): (ok: bool)
    ensures attemptLimit.None? ==> ok
    ensures attemptLimit.Some? ==> (ok <==> attemptsUsed < attemptLimit.value)
  {
    attemptLimit.None? || attemptsUsed < attemptLimit.value
  }

  /** `Math.max(...attempts.map(a => a.percentage ?? 0))` over a non-empty list. */
  function MaxPct(attempts: seq<Attempt>): (m: real)
    requires attempts != []
    ensures forall i :: 0 <= i < |attempts| ==> Pct(attempts[i]) <= m
    ensures exists i :: 0 <= i < |attempts| && Pct(attempts[i]) == m
  {
    if |attempts| == 1 then Pct(attempts[0])
    else
      var rest := MaxPct(attempts[1..]);
      assert forall i :: 1 <= i < |attempts| ==> attempts[i] == attempts[1..][i - 1];
      if Pct(attempts[0]) >= rest then Pct(attempts[0])
      else
        var j :| 0 <= j < |attempts[1..]| && Pct(attempts[1..][j]) == rest;
        assert Pct(attempts[j + 1]) == rest;
        rest
  }

  /** `bestScore`: null without attempts, else the largest defaulted percentage. */
  function BestScore(attempts: seq<Attempt>): (best: Option<real>)
    ensures best.None? <==> attempts == []
    ensures best.Some? ==> forall i :: 0 <= i < |attempts| ==> Pct(attempts[i]) <= best.value
    ensures best.Some? ==> exists i :: 0 <= i < |attempts| && Pct(attempts[i]) == best.value
  {
    if |attempts| > 0 then Some(MaxPct(attempts)) else None
  }

  /** The "Best score" line is rendered only when there is a best score. */
  function ShowsBestScore(attempts: seq<Attempt>): (shown: bool)
    ensures shown <==> attempts != []
  {
    BestScore(attempts).Some?
  }

  /** The best score is the only value that is both an upper bound and attained. */
  lemma BestScoreUnique(attempts: seq<Attempt>, m: real)
    requires forall i :: 0 <= i < |attempts| ==> Pct(attempts[i]) <= m
    requires exists i :: 0 <= i < |attempts| && Pct(attempts[i]) == m
    ensures BestScore(attempts) == Some(m)
  {
    var i :| 0 <= i < |attempts| && Pct(attempts[i]) == m;
    var b := BestScore(attempts).value;
    var j :| 0 <= j < |attempts| && Pct(attempts[j]) == b;
    assert Pct(attempts[i]) <= b && Pct(attempts[j]) <= m;
  }
}
