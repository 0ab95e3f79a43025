/** OI and IOI scoring of one cell: best score, or last score in strict mode. */
module Oi {
  import opened Types
  import opened Cell

  /** OIStrategy.Apply. */
  function Apply(ev: SubmissionEvent, prev: Option<ScoreEntry>, st: Settings): ScoreEntry {
    var e := CloneOrNew(prev, ev);
    var e := e.(attemptCount := e.attemptCount + 1);
    if st.strictLast || ev.score > e.displayScore then
      e.(displayScore := ev.score, bestSubmitTime := ev.submitTime, accepted := e.accepted || ev.score > 0)
    else e
  }

  function Fold(u: ID, p: ID, runs: seq<Judged>, start: Time, freeze: Option<Time>,
      st: Settings): (e: Option<ScoreEntry>)
    ensures e.None? <==> runs == []
  {
    if runs == [] then None
    else
      var n := |runs| - 1;
      Some(Apply(EventOf(u, p, runs[n], start, freeze), Fold(u, p, runs[..n], start, freeze, st), st))
  }

  /** `r` earned the displayed score: the last result in strict mode, otherwise the first of the
      best positive ones. */
  predicate Earns(runs: seq<Judged>, i: int, st: Settings) {
    && 0 <= i < |runs|
    && if st.strictLast then i == |runs| - 1
       else
         && runs[i].score > 0
         && (forall j :: 0 <= j < i ==> runs[j].score < runs[i].score)
         && (forall j :: i < j < |runs| ==> runs[j].score <= runs[i].score)
  }

  ghost predicate EarnedBy(e: ScoreEntry, runs: seq<Judged>, st: Settings) {
    exists i :: Earns(runs, i, st) && e.displayScore == runs[i].score && e.bestSubmitTime == runs[i].submitTime
  }

  /** What an OI cell shows after these results: a score that some result earned (or none yet), and
      a cell once solved stays solved. */
  ghost predicate Describes(e: ScoreEntry, runs: seq<Judged>, st: Settings) {
    && e.attemptCount == |runs|
    && (e.accepted <==> exists i :: 0 <= i < |runs| && runs[i].score > 0)
    && (EarnedBy(e, runs, st) || (e.displayScore == 0 && e.bestSubmitTime == ZERO_TIME && !e.accepted &&
        (st.strictLast ==> runs == [])))
  }

  lemma ApplyDescribes(ev: SubmissionEvent, prev: Option<ScoreEntry>, runs: seq<Judged>, r: Judged, st: Settings)
    requires Describes(CloneOrNew(prev, ev), runs, st)
    requires ev.score == r.score && ev.submitTime == r.submitTime
    ensures Describes(Apply(ev, prev, st), runs + [r], st)
  {
    var was, e, all := CloneOrNew(prev, ev), Apply(ev, prev, st), runs + [r];
    var n := |runs|;
    assert all[n] == r && forall i :: 0 <= i < n ==> all[i] == runs[i];
    if e.accepted && r.score <= 0 {
      var i :| 0 <= i < n && runs[i].score > 0;
      assert all[i].score > 0;
    }
    if st.strictLast || r.score > was.displayScore {
      if !st.strictLast && EarnedBy(was, runs, st) {
        var i :| Earns(runs, i, st) && was.displayScore == runs[i].score;
      }
      assert Earns(all, n, st);
    } else if EarnedBy(was, runs, st) {
      var i :| Earns(runs, i, st) && was.displayScore == runs[i].score && was.bestSubmitTime == runs[i].submitTime;
      assert Earns(all, i, st);
    }
  }

  lemma {:induction false} FoldScores(u: ID, p: ID, runs: seq<Judged>, start: Time, freeze: Option<Time>, st: Settings)
    requires runs != []
    ensures Describes(Fold(u, p, runs, start, freeze, st).value, runs, st)
  {
    var n := |runs| - 1;
    if n > 0 {
      FoldScores(u, p, runs[..n], start, freeze, st);
    }
    ApplyDescribes(EventOf(u, p, runs[n], start, freeze), Fold(u, p, runs[..n], start, freeze, st), runs[..n], runs[n],
        st);
    assert runs[..n] + [runs[n]] == runs;
  }

  /** The earning result is unique, so a described cell shows one score. */
  lemma EarnsUnique(runs: seq<Judged>, i: int, j: int, st: Settings)
    requires Earns(runs, i, st) && Earns(runs, j, st)
    ensures i == j
  {
  }
}
