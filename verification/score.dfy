/** Scoring of a judged submission: the case loop of `Process` in
    `internal/hnieoj/processor/processor.go`. */
module Score {
  import opened Basics

  const ACCEPTED: int := 0

  datatype Kind = ACM | OI | Other

  /** A checker may give its own score. */
  datatype RunResult = RunResult(status: int, score: Option<int>)

  function Clamp(v: int, low: int, high: int): int {
    if v < low then low else if v > high then high else v
  }

  /** `caseMaxScore`: the full score divided among the cases, the remainder going to the first ones. */
  function CaseMax(ioScore: int, total: int, i: int): (m: int) {
    if total <= 0 || ioScore <= 0 then 0
    else ioScore / total + if i < ioScore % total then 1 else 0
  }

  /** `caseScore` of the processor. */
  function CaseScore(kind: Kind, ioScore: int, total: int, i: int, r: RunResult): (s: int) {
    if r.score.Some? then Clamp(r.score.value, 0, CaseMax(ioScore, total, i))
    else
      var plain := if r.status != ACCEPTED || total <= 0 || ioScore <= 0 then 0 else CaseMax(ioScore, total, i);
      if kind == ACM && r.status != ACCEPTED then 0 else plain
  }

  /** The maxima of the first `n` of `total` cases. */
  function MaxSum(ioScore: int, total: int, n: nat): int {
    if n == 0 then 0 else MaxSum(ioScore, total, n - 1) + CaseMax(ioScore, total, n - 1)
  }

  lemma {:induction false} MaxSumClosed(ioScore: int, total: int, n: nat)
    requires total > 0 && ioScore > 0 && n <= total
    ensures var r := ioScore % total;
            MaxSum(ioScore, total, n) == n * (ioScore / total) + if n < r then n else r
  {
    if n > 0 {
      MaxSumClosed(ioScore, total, n - 1);
      assert n * (ioScore / total) == (n - 1) * (ioScore / total) + ioScore / total;
    }
  }

  /** The per-case maxima add up to exactly the full score and differ by at most one. */
  lemma MaximaShareFullScore(ioScore: int, total: int)
    requires total > 0 && ioScore > 0
    ensures MaxSum(ioScore, total, total) == ioScore
    ensures forall i, j | 0 <= i < total && 0 <= j < total :: -1 <= CaseMax(ioScore, total, i) - CaseMax(ioScore, total, j) <= 1
  {
    MaxSumClosed(ioScore, total, total);
    assert total * (ioScore / total) + ioScore % total == ioScore;
  }

  /** One case's maximum: its share, and one more for the first cases while the remainder lasts. */
  lemma CaseMaxMeaning(ioScore: int, total: int, i: int)
    ensures total <= 0 || ioScore <= 0 ==> CaseMax(ioScore, total, i) == 0
    ensures total > 0 && ioScore > 0 && 0 <= i < total ==>
              var m := CaseMax(ioScore, total, i);
              && m * total - total < ioScore < m * total + total
              && (i > 0 ==> CaseMax(ioScore, total, i - 1) >= m)
  {
    if total > 0 && ioScore > 0 {
      var q, r := ioScore / total, ioScore % total;
      assert ioScore == q * total + r;
      assert (q + 1) * total == q * total + total;
    }
  }

  lemma CaseScoreBounds(kind: Kind, ioScore: int, total: int, i: int, r: RunResult)
    ensures 0 <= CaseScore(kind, ioScore, total, i, r) <= CaseMax(ioScore, total, i)
  {
    if total > 0 && ioScore > 0 {
      assert ioScore / total >= 0;
    }
  }

  /** A checker's score counts as far as it fits the case; otherwise a case earns all or nothing. */
  lemma CaseScoreMeaning(kind: Kind, ioScore: int, total: int, i: int, r: RunResult)
    requires total > 0
    ensures r.score.None? ==>
              CaseScore(kind, ioScore, total, i, r) == if r.status == ACCEPTED then CaseMax(ioScore, total, i) else 0
    ensures r.score.Some? && r.score.value < 0 ==> CaseScore(kind, ioScore, total, i, r) == 0
    ensures r.score.Some? && 0 <= r.score.value <= CaseMax(ioScore, total, i) ==> CaseScore(kind, ioScore, total, i, r) == r.score.value
    ensures r.score.Some? && r.score.value > CaseMax(ioScore, total, i) ==> CaseScore(kind, ioScore, total, i, r) == CaseMax(ioScore, total, i)
  {
    CaseScoreBounds(kind, ioScore, total, i, r);
  }

  function Earned(kind: Kind, ioScore: int, results: seq<RunResult>, n: nat): int
    requires n <= |results|
  {
    if n == 0 then 0
    else Earned(kind, ioScore, results, n - 1) + CaseScore(kind, ioScore, |results|, n - 1, results[n - 1])
  }

  /** Every one of the first `n` cases earned all it could. */
  ghost predicate Perfect(kind: Kind, ioScore: int, results: seq<RunResult>, n: nat)
    requires n <= |results|
  {
    forall i | 0 <= i < n :: CaseScore(kind, ioScore, |results|, i, results[i]) == CaseMax(ioScore, |results|, i)
  }

  lemma {:induction false} EarnedWithin(kind: Kind, ioScore: int, results: seq<RunResult>, n: nat)
    requires n <= |results|
    ensures 0 <= Earned(kind, ioScore, results, n) <= MaxSum(ioScore, |results|, n)
    ensures Earned(kind, ioScore, results, n) == MaxSum(ioScore, |results|, n) <==> Perfect(kind, ioScore, results, n)
  {
    if n > 0 {
      EarnedWithin(kind, ioScore, results, n - 1);
      CaseScoreBounds(kind, ioScore, |results|, n - 1, results[n - 1]);
    }
  }

  /** A submission accepted on every case without checker scores earns exactly the full score. */
  lemma AcceptedEverywhereEarnsFullScore(kind: Kind, ioScore: int, results: seq<RunResult>)
    requires ioScore > 0 && |results| > 0
    requires forall i | 0 <= i < |results| :: results[i] == RunResult(ACCEPTED, None)
    ensures Earned(kind, ioScore, results, |results|) == ioScore
  {
    forall i | 0 <= i < |results| ensures CaseScore(kind, ioScore, |results|, i, results[i]) == CaseMax(ioScore, |results|, i) {
      CaseScoreMeaning(kind, ioScore, |results|, i, results[i]);
    }
    EarnedWithin(kind, ioScore, results, |results|);
    MaximaShareFullScore(ioScore, |results|);
  }

  /** The case loop and the final adjustment.  The accumulated score stays within the full score and reaches it
      exactly when every case got its maximum; an OI submission that reaches it is accepted. */
  method Judge(kind: Kind, ioScore: int, results: seq<RunResult>) returns (status: int, score: int, earned: int)
    ensures earned == Earned(kind, ioScore, results, |results|)
    ensures ioScore > 0 && |results| > 0 ==> 0 <= earned <= ioScore
    ensures ioScore > 0 && |results| > 0 ==> (earned == ioScore <==> Perfect(kind, ioScore, results, |results|))
    ensures status == ACCEPTED <==>
              (forall i | 0 <= i < |results| :: results[i].status == ACCEPTED) || (kind == OI && earned >= ioScore)
    ensures status != ACCEPTED ==>
              exists i :: 0 <= i < |results| && status == results[i].status && forall j | 0 <= j < i :: results[j].status == ACCEPTED
    ensures score == if kind == ACM && (forall i | 0 <= i < |results| :: results[i].status == ACCEPTED) then ioScore else earned
  {
    status, score := ACCEPTED, 0;
    var total := |results|;
    for i := 0 to total
      invariant score == Earned(kind, ioScore, results, i)
      invariant status == ACCEPTED <==> forall j | 0 <= j < i :: results[j].status == ACCEPTED
      invariant status != ACCEPTED ==>
                  exists k :: 0 <= k < i && status == results[k].status && forall j | 0 <= j < k :: results[j].status == ACCEPTED
    {
      var r := results[i];
      if r.status != ACCEPTED && status == ACCEPTED { status := r.status; }
      score := score + CaseScore(kind, ioScore, total, i, r);
    }
    earned := score;
    EarnedWithin(kind, ioScore, results, total);
    if ioScore > 0 && total > 0 { MaximaShareFullScore(ioScore, total); }
    if kind == ACM && status == ACCEPTED { score := ioScore; }
    if kind == OI && score >= ioScore { status := ACCEPTED; }
  }
}
