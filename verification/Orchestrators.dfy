/** The orchestrators that judge one test case with a checker, an interactor or a group of processes,
    and what every registered orchestrator can answer. */
module Orchestrators {
  import opened Types
  import opened Verdict

  datatype JudgeKind = StandardJudge | SpecialJudge | InteractiveJudge | CommunicationJudge | UnknownJudge

  /** How one sandboxed process ended. */
  datatype Exec = Exec(status: ExecStatus, time: int, mem: int)

  /** What a checker, interactor or grader wrote: the first line of its stderr, trimmed and with the
      letter case normalised, and the integer read behind its keyword (0 if none). */
  datatype Said = Said(line: string, points: int)

  predicate HasPrefix(s: string, p: string) {
    |p| <= |s| && s[..|p|] == p
  }

  /** The checker's line starts with "ok". */
  predicate SaysOk(said: Said) {
    HasPrefix(said.line, "ok")
  }

  /** parseCheckerOutput: only "ok" and "points n" accept, for one point and n points; "fail" is a fault
      of the checker; anything else is a wrong answer. */
  function ParseChecker(said: Said, x: Exec): (r: CaseRun)
    ensures r.Judged? && r.time == x.time && r.mem == x.mem
    ensures r.status == Accepted <==> SaysOk(said) || HasPrefix(said.line, "points ")
    ensures r.status == SE <==> HasPrefix(said.line, "fail")
    ensures r.status == Accepted || r.status == SE || r.status == WrongAnswer
    ensures r.score == if SaysOk(said) then 1 else if HasPrefix(said.line, "points ") then said.points else 0
  {
    Keywords(said.line);
    if HasPrefix(said.line, "ok") then Judged(Accepted, 1, x.time, x.mem)
    else if HasPrefix(said.line, "points ") then Judged(Accepted, said.points, x.time, x.mem)
    else if HasPrefix(said.line, "fail") then Judged(SE, 0, x.time, x.mem)
    else Judged(WrongAnswer, 0, x.time, x.mem)
  }

  /** No line starts with two of the checker's keywords. */
  lemma {:induction false} Keywords(line: string)
    ensures !(HasPrefix(line, "ok") && HasPrefix(line, "points "))
    ensures !(HasPrefix(line, "ok") && HasPrefix(line, "fail"))
    ensures !(HasPrefix(line, "points ") && HasPrefix(line, "fail"))
  {
    assert "ok"[0] == 'o' && "points "[0] == 'p' && "fail"[0] == 'f';
    assert HasPrefix(line, "ok") ==> line[0] == line[..2][0];
    assert HasPrefix(line, "points ") ==> line[0] == line[..7][0];
    assert HasPrefix(line, "fail") ==> line[0] == line[..4][0];
  }

  /** The contestant's process was stopped or failed. */
  predicate Violated(s: ExecStatus) {
    s != ExecOK && s != ExecOther
  }

  /** DefaultVerdictParser: a resource violation of the contestant outranks the interactor's word; without
      one "AC" earns one point, "PC n" earns n, and anything else is a wrong answer. */
  function ParseInteractor(said: Said, x: Exec): (r: CaseRun)
    ensures r.Judged? && Ranked(r.status)
    ensures Violated(x.status) ==> r.status == ExecStatusToSubmission(x.status) && r.score == 0
    ensures !Violated(x.status) ==>
              && (r.status == Accepted <==> said.line == "AC" || HasPrefix(said.line, "PC "))
              && (r.status == Accepted || r.status == WrongAnswer)
              && r.score == if said.line == "AC" then 1 else if HasPrefix(said.line, "PC ") then said.points else 0
    ensures x.status != ExecSE ==> r.time == x.time && r.mem == x.mem
  {
    match x.status
    case ExecTLE => Judged(TLE, 0, x.time, x.mem)
    case ExecWallTLE => Judged(TLE, 0, x.time, x.mem)
    case ExecMLE => Judged(MLE, 0, x.time, x.mem)
    case ExecRE => Judged(RE, 0, x.time, x.mem)
    case ExecSCViol => Judged(RE, 0, x.time, x.mem)
    case ExecSE => Judged(SE, 0, 0, 0)
    case _ =>
      if said.line == "AC" then Judged(Accepted, 1, x.time, x.mem)
      else if HasPrefix(said.line, "PC ") then Judged(Accepted, said.points, x.time, x.mem)
      else Judged(WrongAnswer, 0, x.time, x.mem)
  }

  /** Classes of equally severe outcomes, mildest first; the two time limits are equally severe. */
  const MILDEST_FIRST: seq<set<ExecStatus>> :=
    [{ExecOK, ExecOther}, {ExecRE}, {ExecTLE, ExecWallTLE}, {ExecMLE}, {ExecSCViol}, {ExecSE}]

  function Severity(s: ExecStatus): (r: nat)
    ensures r < 6 && forall i :: 0 <= i < 6 ==> (s in MILDEST_FIRST[i] <==> r == i)
  {
    match s
    case ExecRE => 1
    case ExecWallTLE => 2
    case ExecTLE => 2
    case ExecMLE => 3
    case ExecSCViol => 4
    case ExecSE => 5
    case _ => 0
  }

  /** `w` is the first of the most severe results. */
  predicate IsWorstProcess(xs: seq<Exec>, w: Exec) {
    exists i :: 0 <= i < |xs| && xs[i] == w
             && (forall j :: 0 <= j < |xs| ==> Severity(xs[j].status) <= Severity(w.status))
             && (forall j :: 0 <= j < i ==> Severity(xs[j].status) < Severity(w.status))
  }

  method WorstProcess(xs: seq<Exec>) returns (w: Exec)
    requires xs != []
    ensures IsWorstProcess(xs, w)
  {
    w := xs[0];
    ghost var at := 0;
    for k := 1 to |xs|
      invariant 0 <= at < k && xs[at] == w
      invariant forall j :: 0 <= j < k ==> Severity(xs[j].status) <= Severity(w.status)
      invariant forall j :: 0 <= j < at ==> Severity(xs[j].status) < Severity(w.status)
    {
      if Severity(xs[k].status) > Severity(w.status) {
        w := xs[k];
        at := k;
      }
    }
  }

  // ------------------------------------------------------------------ the four orchestrators

  /** Special judging: `None` is an error executing, `tempOk` tells whether the output file could be
      written. An execution that is not OK keeps its mapped status whatever the checker would say. */
  function RunSpecial(configured: bool, inputOpens: bool, exec: Option<Exec>, tempOk: bool, said: Said): (r: CaseRun)
    ensures !r.RunPanics?
    ensures r.RunError? <==> !configured || !inputOpens || exec.None? || (exec.value.status == ExecOK && !tempOk)
    ensures r.Judged? ==> exec.Some? && r.time == exec.value.time && r.mem == exec.value.mem
    ensures r.Judged? && exec.value.status != ExecOK ==>
              r.status == ExecStatusToSubmission(exec.value.status) && r.score == 0
    ensures r.Judged? && exec.value.status == ExecOK ==>
              && (r.status == Accepted <==> SaysOk(said) || HasPrefix(said.line, "points "))
              && (r.status == SE <==> HasPrefix(said.line, "fail"))
              && (r.status == Accepted || r.status == SE || r.status == WrongAnswer)
              && r.score == if SaysOk(said) then 1 else if HasPrefix(said.line, "points ") then said.points else 0
  {
    if !configured || !inputOpens || exec.None? then RunError
    else if exec.value.status != ExecOK then
      Judged(ExecStatusToSubmission(exec.value.status), 0, exec.value.time, exec.value.mem)
    else if !tempOk then RunError
    else ParseChecker(said, exec.value)
  }

  /** Interactive judging. */
  function RunInteractive(configured: bool, inputOpens: bool, exec: Option<Exec>, said: Said): (r: CaseRun)
    ensures !r.RunPanics?
    ensures r.RunError? <==> !configured || !inputOpens || exec.None?
    ensures r.Judged? ==> exec.Some? && (Violated(exec.value.status) ==>
              r.status == ExecStatusToSubmission(exec.value.status))
    ensures r.Judged? ==>
              (r.status == Accepted <==>
                !Violated(exec.value.status) && (said.line == "AC" || HasPrefix(said.line, "PC ")))
  {
    if !configured || !inputOpens || exec.None? then RunError else ParseInteractor(said, exec.value)
  }

  /** Communication judging of a non-empty group, given its most severe process. */
  ghost predicate IsCommunication(configured: bool, group: Option<seq<Exec>>, said: Said, r: CaseRun) {
    if !configured || group.None? then r == RunError
    else exists w :: IsWorstProcess(group.value, w) && r == ParseInteractor(said, w)
  }

  /** `r` is something the orchestrator registered for this kind can do to this case. Any of them may
      also panic; no orchestrator is registered for an unknown kind. */
  ghost predicate Orchestrated(k: JudgeKind, c: TestCase, r: CaseRun) {
    || r.RunPanics?
    || match k
       case StandardJudge => exists e :: r == RunStandard(c, e)
       case SpecialJudge => exists conf, opens, exec, temp, said :: r == RunSpecial(conf, opens, exec, temp, said)
       case InteractiveJudge => exists conf, opens, exec, said :: r == RunInteractive(conf, opens, exec, said)
       case CommunicationJudge => exists conf, group, said :: IsCommunication(conf, group, said, r)
       case UnknownJudge => false
  }

  /** No orchestrator ever answers with a status outside the priority order, and none awards anything
      to a case that is not Accepted. */
  lemma {:induction false} OrchestratedRanked(k: JudgeKind, c: TestCase, r: CaseRun)
    requires Orchestrated(k, c, r) && r.Judged?
    ensures Ranked(r.status) && (r.status != Accepted ==> r.score == 0)
  {
    match k {
      case StandardJudge =>
        var e :| r == RunStandard(c, e);
      case SpecialJudge =>
        var conf, opens, exec, temp, said :| r == RunSpecial(conf, opens, exec, temp, said);
      case InteractiveJudge =>
        var conf, opens, exec, said :| r == RunInteractive(conf, opens, exec, said);
      case CommunicationJudge =>
        var conf, group, said :| IsCommunication(conf, group, said, r);
    }
  }

  /** A communication case is Accepted only if no process of the group was stopped or failed. */
  lemma {:induction false} GroupAcceptedNeedsAll(xs: seq<Exec>, said: Said, r: CaseRun)
    requires IsCommunication(true, Some(xs), said, r) && r.Judged? && r.status == Accepted
    ensures forall i :: 0 <= i < |xs| ==> xs[i].status == ExecOK || xs[i].status == ExecOther
  {
    var w :| IsWorstProcess(xs, w) && r == ParseInteractor(said, w);
    forall i | 0 <= i < |xs| ensures Severity(xs[i].status) == 0 {
      assert Severity(xs[i].status) <= Severity(w.status);
    }
  }
}
