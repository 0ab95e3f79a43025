/** From one test case's execution to the submission's verdict: status mapping and aggregation. */
module Verdict {
  import opened Types

  datatype CaseResult = CaseResult(id: ID, group: ID, status: Status, score: int, time: int, mem: int)

  /** The documented order, least severe first. */
  const SEVERITY := [Accepted, WrongAnswer, RE, MLE, TLE, SE]

  /** Every status outside the order ranks below Accepted. */
  function Priority(s: Status): (r: nat)
    ensures forall i :: 0 <= i < 6 ==> (s == SEVERITY[i] <==> r == i + 1)
    ensures r <= 6 && (r > 0 <==> s in SEVERITY)
  {
    match s
    case SE => 6
    case TLE => 5
    case MLE => 4
    case RE => 3
    case WrongAnswer => 2
    case Accepted => 1
    case _ => 0
  }

  predicate Ranked(s: Status) {
    Priority(s) > 0
  }

  /** `w` is the status of a worst result, Accepted being the best there is. */
  predicate IsWorst(results: seq<CaseResult>, w: Status) {
    && Ranked(w)
    && (w == Accepted || exists i :: 0 <= i < |results| && results[i].status == w)
    && forall i :: 0 <= i < |results| ==> Priority(results[i].status) <= Priority(w)
  }

  function Total(results: seq<CaseResult>): int {
    if results == [] then 0 else Total(results[..|results| - 1]) + results[|results| - 1].score
  }

  /** The contract of aggregation: no result at all is a system error. */
  predicate IsAggregate(results: seq<CaseResult>, scored: bool, status: Status, score: int) {
    && (if results == [] then status == SE else IsWorst(results, status))
    && score == if scored then Total(results) else 0
  }

  method Aggregate(results: seq<CaseResult>, scored: bool) returns (status: Status, score: int)
    ensures IsAggregate(results, scored, status, score)
  {
    if |results| == 0 {
      return SE, 0;
    }
    score := 0;
    var worst := Accepted;
    for i := 0 to |results|
      invariant IsWorst(results[..i], worst)
      invariant score == if scored then Total(results[..i]) else 0
    {
      assert results[..i + 1][..i] == results[..i];
      if Priority(results[i].status) > Priority(worst) {
        worst := results[i].status;
        assert results[..i + 1][i].status == worst;
      } else if worst != Accepted {
        ghost var k :| 0 <= k < i && results[..i][k].status == worst;
        assert results[..i + 1][k].status == worst;
      }
      if scored {
        score := score + results[i].score;
      }
    }
    assert results[..|results|] == results;
    status := worst;
  }

  lemma {:induction false} WorstUnique(a: seq<CaseResult>, b: seq<CaseResult>, v: Status, w: Status)
    requires IsWorst(a, v) && IsWorst(b, w) && multiset(a) == multiset(b)
    ensures v == w
  {
    WorstDominates(a, b, v, w);
    WorstDominates(b, a, w, v);
  }

  lemma {:induction false} WorstDominates(a: seq<CaseResult>, b: seq<CaseResult>, v: Status, w: Status)
    requires IsWorst(a, v) && IsWorst(b, w) && multiset(a) == multiset(b)
    ensures Priority(v) <= Priority(w)
  {
    if v != Accepted {
      var i :| 0 <= i < |a| && a[i].status == v;
      assert a[i] in multiset(b);
      var k :| 0 <= k < |b| && b[k] == a[i];
    }
  }

  lemma {:induction false} TotalAppend(a: seq<CaseResult>, b: seq<CaseResult>)
    ensures Total(a + b) == Total(a) + Total(b)
  {
    if b == [] {
      assert a + b == a;
    } else {
      var n := |b| - 1;
      assert (a + b)[..|a + b| - 1] == a + b[..n];
      TotalAppend(a, b[..n]);
    }
  }

  lemma {:induction false} TotalPermute(a: seq<CaseResult>, b: seq<CaseResult>)
    requires multiset(a) == multiset(b)
    ensures Total(a) == Total(b)
  {
    if a == [] {
      assert |multiset(b)| == 0;
    } else {
      var n := |a| - 1;
      assert a == a[..n] + [a[n]];
      assert a[n] in multiset(b);
      var k :| 0 <= k < |b| && b[k] == a[n];
      assert multiset(a) == multiset(a[..n]) + multiset{a[n]};
      TotalRemove(b, k);
      TotalPermute(a[..n], b[..k] + b[k + 1..]);
    }
  }

  lemma {:induction false} TotalRemove(b: seq<CaseResult>, k: nat)
    requires k < |b|
    ensures multiset(b[..k] + b[k + 1..]) == multiset(b) - multiset{b[k]}
    ensures Total(b) == Total(b[..k] + b[k + 1..]) + b[k].score
  {
    assert b == b[..k] + [b[k]] + b[k + 1..];
    TotalAppend(b[..k], b[k + 1..]);
    TotalAppend(b[..k] + [b[k]], b[k + 1..]);
    TotalAppend(b[..k], [b[k]]);
  }

  /** The aggregated pair does not depend on the order in which the test cases were judged. */
  lemma {:induction false} AggregateOrderFree(
      a: seq<CaseResult>, b: seq<CaseResult>, scored: bool, v: Status, w: Status, m: int, n: int)
    requires multiset(a) == multiset(b) && IsAggregate(a, scored, v, m) && IsAggregate(b, scored, w, n)
    ensures v == w && m == n
  {
    assert |a| == |multiset(a)| == |multiset(b)| == |b|;
    if a != [] { WorstUnique(a, b, v, w); }
    TotalPermute(a, b);
  }

  /** The aggregate is Accepted exactly for a non-empty list in which every result is Accepted or
      carries a status the priority order does not know. */
  lemma {:induction false} AcceptedIff(results: seq<CaseResult>, scored: bool, status: Status, score: int)
    requires IsAggregate(results, scored, status, score)
    ensures status == Accepted <==>
              results != [] && forall i :: 0 <= i < |results| ==>
                  results[i].status == Accepted || !Ranked(results[i].status)
  {
    if results != [] && status != Accepted {
      var i :| 0 <= i < |results| && results[i].status == status;
      assert Ranked(results[i].status);
    }
  }

  /** An Accepted aggregate hides a result that was not accepted exactly when some result's status is
      outside the priority order. */
  lemma {:induction false} AcceptedSoundIff(results: seq<CaseResult>, scored: bool, status: Status, score: int)
    requires IsAggregate(results, scored, status, score) && status == Accepted
    ensures (forall i :: 0 <= i < |results| ==> results[i].status == Accepted)
       <==> (forall i :: 0 <= i < |results| ==> Ranked(results[i].status))
  {
    AcceptedIff(results, scored, status, score);
  }

  /** A lone Compile Error result, were an orchestrator to return one, aggregates to Accepted. */
  lemma {:induction false} UnrankedCounterexample()
    ensures IsAggregate([CaseResult(1, 1, CE, 0, 0, 0)], true, Accepted, 0)
  {
    assert Total([CaseResult(1, 1, CE, 0, 0, 0)]) == 0 by {
      assert [CaseResult(1, 1, CE, 0, 0, 0)][..0] == [];
    }
  }

  // ------------------------------------------------------------------ one standard test case

  datatype ExecStatus = ExecOK | ExecTLE | ExecWallTLE | ExecMLE | ExecRE | ExecSCViol | ExecSE | ExecOther

  function ExecStatusToSubmission(s: ExecStatus): (r: Status)
    ensures Ranked(r) && r != Accepted && r != WrongAnswer
    ensures r == TLE <==> s == ExecTLE || s == ExecWallTLE
    ensures (r == MLE <==> s == ExecMLE) && (r == SE <==> s == ExecSE)
  {
    match s
    case ExecTLE => TLE
    case ExecWallTLE => TLE
    case ExecMLE => MLE
    case ExecRE => RE
    case ExecSCViol => RE
    case ExecSE => SE
    case _ => RE
  }

  datatype TestCase = TestCase(id: ID, group: ID, ordinal: int, input: string, output: string, score: int)

  /** What judging one test case did; a nil dereference or a sandbox crash is a panic. */
  datatype CaseRun = Judged(status: Status, score: int, time: int, mem: int) | RunError | RunPanics

  /** What the file system and the sandbox answered: `None` is an error from that call. */
  datatype Sandboxed = Sandboxed(inputOpens: bool, exec: Option<(ExecStatus, int, int)>, got: seq<string>,
      expected: Option<seq<string>>)

  /** The case's full score is earned exactly by an Accepted verdict, which needs a clean exit and
      equal tokens; nothing else earns any. */
  function RunStandard(tc: TestCase, e: Sandboxed): (r: CaseRun)
    ensures !r.RunPanics? && (r.Judged? ==> e.exec.Some?)
    ensures r.Judged? ==> Ranked(r.status) && r.score == if r.status == Accepted then tc.score else 0
    ensures r.Judged? && r.status == Accepted <==>
              e.inputOpens && e.exec.Some? && e.exec.value.0 == ExecOK && e.expected == Some(e.got)
    ensures r.Judged? ==> (e.exec.value.0 == ExecOK <==> r.status == Accepted || r.status == WrongAnswer)
    ensures r.Judged? && e.exec.value.0 != ExecOK ==> r.status == ExecStatusToSubmission(e.exec.value.0)
    ensures r.Judged? ==> r.time == e.exec.value.1 && r.mem == e.exec.value.2
    ensures r.RunError? <==> !e.inputOpens || e.exec.None? || (e.exec.value.0 == ExecOK && e.expected.None?)
  {
    if !e.inputOpens || e.exec.None? then RunError
    else
      var (status, time, mem) := e.exec.value;
      if status != ExecOK then Judged(ExecStatusToSubmission(status), 0, time, mem)
      else if e.expected.None? then RunError
      else if e.got == e.expected.value then Judged(Accepted, tc.score, time, mem)
      else Judged(WrongAnswer, 0, time, mem)
  }
}
