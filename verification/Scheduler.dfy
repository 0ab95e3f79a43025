/** The judge pipeline for one delivered task: stages, deferred clean-up, panic recovery, publication. */
module Scheduler {
  import opened Types
  import opened Verdict
  import opened Orchestrators
  import opened ScoreSplit

  datatype Task = Task(id: ID, submission: ID, user: ID, problem: ID, kind: JudgeKind, cases: seq<TestCase>)

  datatype Message = Message(task: ID, submission: ID, user: ID, problem: ID, status: Status, score: int,
                             time: int, mem: int, results: seq<CaseResult>)

  datatype Call = Succeeds | Fails | Panics
  datatype Compile = Compiled | Rejected | CompilerFails | CompilerPanics

  /** What everything outside the scheduler answers while one task is handled. The task's context is
      live at the checkpoints before `expireAt` and expired from it on; checkpoint i precedes test
      case i, and the publication after the last case is checkpoint |runs|. A call that does not
      succeed appends nothing, and publishing on an expired context fails. */
  datatype Env = Env(mkdir: Call, prepare: Call, fetch: Call, compile: Compile, runs: seq<CaseRun>,
                     expireAt: nat, publish: Call, release: Call, cleanup: Call, fallback: Call, recovery: Call)

  /** An orchestrator is registered for every kind but the unknown one. */
  predicate Registered(t: Task) {
    t.kind != UnknownJudge
  }

  datatype Outcome = Done | Error | Panicked

  function OutcomeOf(c: Call): Outcome {
    match c case Succeeds => Done case Fails => Error case Panics => Panicked
  }

  function MessageOf(t: Task, status: Status, score: int, time: int, mem: int, results: seq<CaseResult>): Message {
    Message(t.id, t.submission, t.user, t.problem, status, score, time, mem, results)
  }

  function SystemError(t: Task): Message {
    MessageOf(t, SE, 0, 0, 0, [])
  }

  /** The row recorded for one judged case; an orchestrator error is a System Error on that case. */
  function RowOf(c: TestCase, r: CaseRun): CaseResult {
    if r.Judged? then CaseResult(c.id, c.group, r.status, r.score, r.time, r.mem)
    else CaseResult(c.id, c.group, SE, 0, 0, 0)
  }

  function Rows(cs: seq<TestCase>, runs: seq<CaseRun>): (rs: seq<CaseResult>)
    requires |cs| == |runs|
    ensures |rs| == |cs| && forall i :: 0 <= i < |cs| ==> rs[i] == RowOf(cs[i], runs[i])
  {
    seq(|cs|, i requires 0 <= i < |cs| => RowOf(cs[i], runs[i]))
  }

  /** `m` is the largest of zero and the values of the judged runs. */
  predicate IsPeak(runs: seq<CaseRun>, pick: CaseRun -> int, m: int) {
    && m >= 0
    && (forall i :: 0 <= i < |runs| && runs[i].Judged? ==> pick(runs[i]) <= m)
    && (m == 0 || exists i :: 0 <= i < |runs| && runs[i].Judged? && pick(runs[i]) == m)
  }

  const TimeOf: CaseRun -> int := (r: CaseRun) => if r.Judged? then r.time else 0
  const MemOf: CaseRun -> int := (r: CaseRun) => if r.Judged? then r.mem else 0

  // ------------------------------------------------------------------ when a verdict gets out

  predicate Ready(e: Env) {
    e.mkdir.Succeeds? && e.prepare.Succeeds? && e.fetch.Succeeds?
  }

  /** The pipeline's own publication succeeds: every stage does, no case panics, and the global
      deadline has not passed by then, so no case was skipped either. */
  predicate Publishes(t: Task, e: Env) {
    && Ready(e) && e.publish.Succeeds?
    && (|| (e.compile.Rejected? && 0 < e.expireAt)
        || (e.compile.Compiled? && Registered(t) && |t.cases| < e.expireAt
            && forall i :: 0 <= i < |e.runs| ==> !e.runs[i].RunPanics?))
  }

  /** Releasing the session or removing the work directory panics. */
  predicate CleanupPanics(e: Env) {
    e.mkdir.Succeeds? && ((e.prepare.Succeeds? && e.release.Panics?) || e.cleanup.Panics?)
  }

  /** A case that is reached before the deadline panics. */
  predicate CasePanics(e: Env) {
    exists i :: 0 <= i < |e.runs| && i < e.expireAt && e.runs[i].RunPanics?
  }

  /** One of the stages after preparation panics. */
  predicate StagesPanic(t: Task, e: Env) {
    || e.fetch.Panics?
    || (e.fetch.Succeeds? &&
        (|| e.compile.CompilerPanics?
         || (e.compile.Rejected? && e.publish.Panics?)
         || (e.compile.Compiled? && Registered(t) && (CasePanics(e) || e.publish.Panics?))))
  }

  predicate PipelinePanics(t: Task, e: Env) {
    || e.mkdir.Panics?
    || (e.mkdir.Succeeds? && (e.prepare.Panics? || (e.prepare.Succeeds? && StagesPanic(t, e))))
    || CleanupPanics(e)
  }

  /** The verdict a task deserves: Compile Error, or the aggregate over every one of its cases. */
  predicate IsVerdict(t: Task, e: Env, m: Message)
    requires |e.runs| == |t.cases|
  {
    && m == MessageOf(t, m.status, m.score, m.time, m.mem, m.results)
    && if e.compile.Rejected? then m == MessageOf(t, CE, 0, 0, 0, [])
       else
         && m.results == Rows(t.cases, e.runs)
         && IsAggregate(m.results, Registered(t), m.status, m.score)
         && IsPeak(e.runs, TimeOf, m.time) && IsPeak(e.runs, MemOf, m.mem)
  }

  // ------------------------------------------------------------------ the pipeline

  lemma {:induction false} PeakStep(runs: seq<CaseRun>, pick: CaseRun -> int, m: int, i: nat)
    requires i < |runs| && IsPeak(runs[..i], pick, m)
    ensures IsPeak(runs[..i + 1], pick, if runs[i].Judged? && pick(runs[i]) > m then pick(runs[i]) else m)
  {
    var m' := if runs[i].Judged? && pick(runs[i]) > m then pick(runs[i]) else m;
    assert runs[..i + 1][i] == runs[i];
    if m' == m && m != 0 {
      var k :| 0 <= k < i && runs[..i][k].Judged? && pick(runs[..i][k]) == m;
      assert runs[..i + 1][k] == runs[k];
    }
  }

  lemma {:induction false} RowsStep(cs: seq<TestCase>, runs: seq<CaseRun>, i: nat)
    requires i < |cs| == |runs|
    ensures Rows(cs[..i + 1], runs[..i + 1]) == Rows(cs[..i], runs[..i]) + [RowOf(cs[i], runs[i])]
  {
  }

  /** Stage 2: the cases in order, until one panics or the deadline passes. */
  method RunCases(t: Task, e: Env) returns (panicked: bool, rows: seq<CaseResult>, time: int, mem: int)
    requires |e.runs| == |t.cases|
    ensures !panicked ==> |rows| <= |t.cases| && rows == Rows(t.cases[..|rows|], e.runs[..|rows|])
    ensures !panicked ==> IsPeak(e.runs[..|rows|], TimeOf, time) && IsPeak(e.runs[..|rows|], MemOf, mem)
    ensures !panicked ==> |rows| == |t.cases| || |rows| >= e.expireAt
    ensures !panicked ==> forall i :: 0 <= i < |rows| ==> !e.runs[i].RunPanics?
    ensures panicked <==> CasePanics(e)
  {
    panicked, rows, time, mem := false, [], 0, 0;
    for i := 0 to |t.cases|
      invariant |rows| == i && rows == Rows(t.cases[..i], e.runs[..i])
      invariant IsPeak(e.runs[..i], TimeOf, time) && IsPeak(e.runs[..i], MemOf, mem)
      invariant forall k :: 0 <= k < i ==> !e.runs[k].RunPanics?
    {
      if i >= e.expireAt {
        return;
      }
      if e.runs[i].RunPanics? {
        panicked := true;
        return;
      }
      PeakStep(e.runs, TimeOf, time, i);
      PeakStep(e.runs, MemOf, mem, i);
      RowsStep(t.cases, e.runs, i);
      if e.runs[i].Judged? {
        if e.runs[i].time > time {
          time := e.runs[i].time;
        }
        if e.runs[i].mem > mem {
          mem := e.runs[i].mem;
        }
      }
      rows := rows + [RowOf(t.cases[i], e.runs[i])];
    }
  }

  method PublishResult(m: Message, expired: bool, call: Call) returns (o: Outcome, appended: seq<Message>)
    ensures appended == if !expired && call.Succeeds? then [m] else []
    ensures o.Done? <==> appended == [m]
    ensures o.Panicked? <==> call.Panics?
  {
    if call.Panics? {
      return Panicked, [];
    }
    if expired || call.Fails? {
      return Error, [];
    }
    return Done, [m];
  }

  /** The stages after the session is prepared. */
  method RunStages(t: Task, e: Env) returns (o: Outcome, appended: seq<Message>)
    requires e.mkdir.Succeeds? && e.prepare.Succeeds? && |e.runs| == |t.cases|
    ensures Publishes(t, e) <==> o.Done?
    ensures o.Panicked? <==> StagesPanic(t, e)
    ensures Publishes(t, e) ==> |appended| == 1 && IsVerdict(t, e, appended[0])
    ensures !Publishes(t, e) ==> appended == []
  {
    if !e.fetch.Succeeds? {
      return OutcomeOf(e.fetch), [];
    }
    if e.compile.CompilerPanics? {
      return Panicked, [];
    }
    if e.compile.CompilerFails? {
      return Error, [];
    }
    if e.compile.Rejected? {
      o, appended := PublishResult(MessageOf(t, CE, 0, 0, 0, []), e.expireAt == 0, e.publish);
      return;
    }
    if !Registered(t) {
      return Error, [];
    }
    var panicked, rows, time, mem := RunCases(t, e);
    if panicked {
      return Panicked, [];
    }
    var status, score := Aggregate(rows, Registered(t));
    o, appended := PublishResult(MessageOf(t, status, score, time, mem, rows), |t.cases| >= e.expireAt, e.publish);
    assert t.cases[..|t.cases|] == t.cases && e.runs[..|e.runs|] == e.runs;
  }

  /** runStateMachine: the deferred release and removal run on every path, panics included. */
  method RunStateMachine(t: Task, e: Env) returns (o: Outcome, appended: seq<Message>)
    requires |e.runs| == |t.cases|
    ensures Publishes(t, e) ==> |appended| == 1 && IsVerdict(t, e, appended[0])
    ensures !Publishes(t, e) ==> appended == []
    ensures o.Done? <==> Publishes(t, e) && !CleanupPanics(e)
    ensures o.Panicked? <==> PipelinePanics(t, e)
  {
    if !e.mkdir.Succeeds? {
      return OutcomeOf(e.mkdir), [];
    }
    if !e.prepare.Succeeds? {
      o, appended := OutcomeOf(e.prepare), [];
    } else {
      o, appended := RunStages(t, e);
      if e.release.Panics? {
        o := Panicked;
      }
    }
    if e.cleanup.Panics? {
      o := Panicked;
    }
  }

  /** How one delivery ends: acknowledged, or with a panic escaping the recovery handler. */
  datatype Delivery = Acked | Crashed

  /** The pipeline neither finished nor panicked. */
  predicate PipelineFails(t: Task, e: Env) {
    !PipelinePanics(t, e) && !Publishes(t, e)
  }

  /** The recovery handler runs: the pipeline panicked, or publishing its error did. */
  predicate Recovers(t: Task, e: Env) {
    PipelinePanics(t, e) || (PipelineFails(t, e) && e.fallback.Panics?)
  }

  /** A System Error goes out. */
  predicate ErrorPublished(t: Task, e: Env) {
    (PipelineFails(t, e) && e.fallback.Succeeds?) || (Recovers(t, e) && e.recovery.Succeeds?)
  }

  /** What handling a well-formed task does: the pipeline's own verdict exactly when it Publishes, then
      a System Error exactly when the publication that error or panic leads to succeeds. The worker
      goes down exactly when publishing from inside the recovery handler panics. */
  predicate Handled(t: Task, e: Env, d: Delivery, appended: seq<Message>)
    requires |e.runs| == |t.cases|
  {
    && (d == Crashed <==> Recovers(t, e) && e.recovery.Panics?)
    && (Publishes(t, e) ==> appended != [] && IsVerdict(t, e, appended[0]))
    && appended[if Publishes(t, e) then 1 else 0..] == (if ErrorPublished(t, e) then [SystemError(t)] else [])
  }

  /** A malformed payload is acknowledged and discarded. */
  method HandleMessage(payload: Option<Task>, e: Env) returns (d: Delivery, appended: seq<Message>)
    requires payload.Some? ==> |e.runs| == |payload.value.cases|
    ensures payload.None? ==> d == Acked && appended == []
    ensures payload.Some? ==> Handled(payload.value, e, d, appended)
  {
    if payload.None? {
      return Acked, [];
    }
    var t := payload.value;
    var o;
    o, appended := RunStateMachine(t, e);
    var more: seq<Message> := [];
    if o.Error? {
      o, more := PublishResult(SystemError(t), false, e.fallback);
      appended := appended + more;
    }
    d := Acked;
    if o.Panicked? {
      o, more := PublishResult(SystemError(t), false, e.recovery);
      appended := appended + more;
      if o.Panicked? {
        d := Crashed;
      }
    }
  }

  // ------------------------------------------------------------------ what a delivery promises

  /** Every delivery yields exactly one result, unless the one publication that was to report a failure
      did not succeed, or a verdict went out and clean-up then panicked. When System Errors can be
      published, the worker survives and only the second exception remains. */
  lemma {:induction false} OneResult(t: Task, e: Env, d: Delivery, appended: seq<Message>)
    requires |e.runs| == |t.cases| && Handled(t, e, d, appended)
    ensures |appended| <= 2
    ensures |appended| == 0 <==> !Publishes(t, e) && !ErrorPublished(t, e)
    ensures |appended| == 2 <==> Publishes(t, e) && CleanupPanics(e) && e.recovery.Succeeds?
    ensures e.fallback.Succeeds? && e.recovery.Succeeds? ==>
              d == Acked && 1 <= |appended| && (|appended| == 1 <==> !(Publishes(t, e) && CleanupPanics(e)))
  {
    assert appended[0..] == appended;
  }

  /** Both results do go out for some answers of the sandbox, whatever the task. */
  lemma {:induction false} TwoResultsPossible(t: Task) returns (e: Env)
    ensures |e.runs| == |t.cases| && e.fallback.Succeeds? && e.recovery.Succeeds?
    ensures forall d, appended :: Handled(t, e, d, appended) ==> |appended| == 2 && appended[1] == SystemError(t)
  {
    e := Env(Succeeds, Succeeds, Succeeds, Rejected, seq(|t.cases|, _ => RunError), 1,
             Succeeds, Panics, Succeeds, Succeeds, Succeeds);
    forall d, appended | Handled(t, e, d, appended) ensures |appended| == 2 && appended[1] == SystemError(t) {
      assert appended[1..] == [SystemError(t)];
      assert appended[1] == appended[1..][0];
    }
  }

  /** Every run is something the task's orchestrator can do. */
  ghost predicate OrchestratedRuns(t: Task, e: Env)
    requires |e.runs| == |t.cases|
  {
    forall i :: 0 <= i < |t.cases| ==> Orchestrated(t.kind, t.cases[i], e.runs[i])
  }

  /** Accepted is published only for a task with at least one case, after every case ran, in time, with
      a verdict of its own that is Accepted or outside the priority order. */
  lemma {:induction false} AcceptedRanThrough(t: Task, e: Env, d: Delivery, appended: seq<Message>, m: Message)
    requires |e.runs| == |t.cases| && Handled(t, e, d, appended) && m in appended && m.status == Accepted
    ensures Publishes(t, e) && m == appended[0] && t.cases != [] && |t.cases| < e.expireAt &&
              m.results == Rows(t.cases, e.runs)
    ensures forall i :: 0 <= i < |t.cases| ==>
              e.runs[i].Judged? && (e.runs[i].status == Accepted || !Ranked(e.runs[i].status))
  {
    PublishedAre(t, e, d, appended, m);
    AcceptedIff(m.results, Registered(t), m.status, m.score);
    forall i | 0 <= i < |t.cases| ensures e.runs[i].Judged? && m.results[i].status == e.runs[i].status {
      assert m.results[i] == RowOf(t.cases[i], e.runs[i]);
      assert m.results[i].status == Accepted || !Ranked(m.results[i].status);
    }
  }

  /** Accepted is sound: it is published only if every test case of a non-empty task ran, in time, and
      was itself Accepted, whichever orchestrator judged it. */
  lemma {:induction false} AcceptedIsSound(t: Task, e: Env, d: Delivery, appended: seq<Message>, m: Message)
    requires |e.runs| == |t.cases| && OrchestratedRuns(t, e)
    requires Handled(t, e, d, appended) && m in appended && m.status == Accepted
    ensures m == appended[0] && t.cases != [] && |t.cases| < e.expireAt && |m.results| == |t.cases|
    ensures forall i :: 0 <= i < |t.cases| ==>
              e.runs[i].Judged? && e.runs[i].status == Accepted && m.results[i] == RowOf(t.cases[i], e.runs[i])
  {
    AcceptedRanThrough(t, e, d, appended, m);
    forall i | 0 <= i < |t.cases| ensures e.runs[i].status == Accepted {
      OrchestratedRanked(t.kind, t.cases[i], e.runs[i]);
    }
  }

  /** And it is complete: a task whose pipeline publishes and whose cases were all Accepted is. */
  lemma {:induction false} AllAcceptedIsAccepted(t: Task, e: Env, d: Delivery, appended: seq<Message>)
    requires |e.runs| == |t.cases| && Handled(t, e, d, appended) && Publishes(t, e) && !e.compile.Rejected? &&
               t.cases != []
    requires forall i :: 0 <= i < |t.cases| ==> e.runs[i].Judged? && e.runs[i].status == Accepted
    ensures appended[0].status == Accepted
  {
    var m := appended[0];
    AcceptedIff(m.results, Registered(t), m.status, m.score);
    forall i | 0 <= i < |t.cases| ensures m.results[i].status == Accepted {
      assert m.results[i] == RowOf(t.cases[i], e.runs[i]);
    }
  }

  /** Every known kind of judging does get its verdict out: when nothing fails or panics and the last case
      ends before the deadline, the first message is the verdict. For an unknown kind nothing but a System
      Error follows a successful compilation. */
  lemma {:induction false} JudgedIfKnown(t: Task, e: Env, d: Delivery, appended: seq<Message>)
    requires |e.runs| == |t.cases| && Handled(t, e, d, appended) && e.compile.Compiled?
    ensures t.kind == UnknownJudge ==> forall m :: m in appended ==> m == SystemError(t)
    ensures && t.kind in {StandardJudge, SpecialJudge, InteractiveJudge, CommunicationJudge}
            && e.mkdir.Succeeds? && e.prepare.Succeeds? && e.fetch.Succeeds? && e.publish.Succeeds?
            && |t.cases| < e.expireAt && (forall i :: 0 <= i < |e.runs| ==> !e.runs[i].RunPanics?)
            ==> appended != [] && IsVerdict(t, e, appended[0])
  {
    forall m | m in appended && t.kind == UnknownJudge ensures m == SystemError(t) {
      PublishedAre(t, e, d, appended, m);
    }
  }

  /** A deadline that passes while cases are being judged never lets a partial verdict out. */
  lemma {:induction false} DeadlineMeansSystemError(t: Task, e: Env, d: Delivery, appended: seq<Message>)
    requires |e.runs| == |t.cases| && Handled(t, e, d, appended)
    requires e.expireAt <= |t.cases| && !e.compile.Rejected?
    ensures forall m :: m in appended ==> m == SystemError(t)
  {
    assert appended[0..] == appended;
  }

  // ------------------------------------------------------------------ what a message says

  /** Whatever is published names the task it was handed and its submission, user and problem. A System
      Error carries nothing else, a Compile Error neither; otherwise there is one row per case, in order,
      under the case's own id and group, with what its own run answered: status, score, time and memory,
      or a System Error if the orchestrator failed. The message's time and memory are the largest of the
      answered ones. */
  lemma {:induction false} MessageNames(t: Task, e: Env, d: Delivery, appended: seq<Message>, m: Message)
    requires |e.runs| == |t.cases| && Handled(t, e, d, appended) && m in appended
    ensures m.task == t.id && m.submission == t.submission && m.user == t.user && m.problem == t.problem
    ensures m != appended[0] || !Publishes(t, e) ==> m.status == SE && m.score == 0 && m.results == []
    ensures m == appended[0] && Publishes(t, e) && e.compile.Rejected? ==>
              m.status == CE && m.score == 0 && m.results == []
    ensures m == appended[0] && Publishes(t, e) && !e.compile.Rejected? ==>
              && |m.results| == |t.cases|
              && (m.time == 0 || exists i :: 0 <= i < |e.runs| && e.runs[i].Judged? && e.runs[i].time == m.time)
              && (m.mem == 0 || exists i :: 0 <= i < |e.runs| && e.runs[i].Judged? && e.runs[i].mem == m.mem)
    ensures m == appended[0] && Publishes(t, e) && !e.compile.Rejected? ==>
              forall i :: 0 <= i < |t.cases| ==>
                && m.results[i].id == t.cases[i].id && m.results[i].group == t.cases[i].group
                && (e.runs[i].Judged? ==>
                      && m.results[i].status == e.runs[i].status && m.results[i].score == e.runs[i].score
                      && m.results[i].time == e.runs[i].time <= m.time && m.results[i].mem == e.runs[i].mem <= m.mem)
                && (e.runs[i].RunError? ==> m.results[i].status == SE && m.results[i].score == 0)
  {
    PublishedAre(t, e, d, appended, m);
    if m == appended[0] && Publishes(t, e) && !e.compile.Rejected? {
      forall i | 0 <= i < |t.cases| ensures m.results[i] == RowOf(t.cases[i], e.runs[i]) { }
      forall i | 0 <= i < |t.cases| && e.runs[i].Judged? ensures e.runs[i].time <= m.time && e.runs[i].mem <= m.mem {
        assert TimeOf(e.runs[i]) <= m.time && MemOf(e.runs[i]) <= m.mem;
      }
    }
  }

  // ------------------------------------------------------------------ scores

  /** Score conservation for standard judging, from the archive to the published result. */
  lemma {:induction false} PublishedScore(t: Task, e: Env, d: Delivery, appended: seq<Message>, m: Message, total: nat)
    requires |e.runs| == |t.cases| && Handled(t, e, d, appended) && m in appended
    requires t.kind == StandardJudge && OrchestratedRuns(t, e) && FairSplit(t.cases, total)
    ensures 0 <= m.score <= total
    ensures m.status == Accepted ==> m.score == total
    ensures total >= |t.cases| && t.cases != [] && m.score == total ==> m.status == Accepted
  {
    PublishedAre(t, e, d, appended, m);
    if m != SystemError(t) && !e.compile.Rejected? {
      StandardRows(t, e);
      ScoreConserved(t.cases, m.results, total, m.status, m.score);
    }
  }

  /** Only the verdict and the System Error are ever published. */
  lemma {:induction false} PublishedAre(t: Task, e: Env, d: Delivery, appended: seq<Message>, m: Message)
    requires |e.runs| == |t.cases| && Handled(t, e, d, appended) && m in appended
    ensures m == SystemError(t) || (Publishes(t, e) && appended != [] && m == appended[0] && IsVerdict(t, e, m))
  {
    var k := if Publishes(t, e) then 1 else 0;
    assert appended == appended[..k] + appended[k..];
  }

  lemma {:induction false} StandardRows(t: Task, e: Env)
    requires |e.runs| == |t.cases| && t.kind == StandardJudge && OrchestratedRuns(t, e)
    ensures Standard(t.cases, Rows(t.cases, e.runs))
  {
    var rows := Rows(t.cases, e.runs);
    forall i | 0 <= i < |t.cases|
      ensures Ranked(rows[i].status) && rows[i].score == if rows[i].status == Accepted then t.cases[i].score else 0
    {
      assert Orchestrated(t.kind, t.cases[i], e.runs[i]);
      if e.runs[i].Judged? {
        var s :| e.runs[i] == RunStandard(t.cases[i], s);
      }
      assert rows[i] == RowOf(t.cases[i], e.runs[i]);
    }
  }

  lemma {:induction false} OnesSum(rs: seq<CaseResult>)
    requires forall i :: 0 <= i < |rs| ==> rs[i].score == 1
    ensures Total(rs) == |rs|
  {
    if rs != [] { OnesSum(rs[..|rs| - 1]); }
  }

  /** A task whose every case was Accepted with one point scores the number of its cases, which is the
      full score exactly when the problem's score happens to be that number. */
  lemma {:induction false} OnePointEach(t: Task, e: Env, d: Delivery, appended: seq<Message>, total: nat)
    requires |e.runs| == |t.cases| && Handled(t, e, d, appended) && Publishes(t, e)
    requires e.compile.Compiled? && t.cases != [] && FairSplit(t.cases, total)
    requires forall i :: 0 <= i < |t.cases| ==>
               e.runs[i].Judged? && e.runs[i].status == Accepted && e.runs[i].score == 1
    ensures appended[0].status == Accepted && appended[0].score == |t.cases|
    ensures appended[0].score == total <==> total == |t.cases|
  {
    AllAcceptedIsAccepted(t, e, d, appended);
    var m := appended[0];
    forall i | 0 <= i < |m.results| ensures m.results[i].score == 1 {
      assert m.results[i] == RowOf(t.cases[i], e.runs[i]);
    }
    OnesSum(m.results);
  }

  /** A checker's "ok" is worth one point, not the case's share. */
  lemma {:induction false} CheckerScore(
      t: Task, e: Env, d: Delivery, appended: seq<Message>, said: seq<Said>, xs: seq<Exec>, total: nat)
    requires |e.runs| == |said| == |xs| == |t.cases| && Handled(t, e, d, appended) && Publishes(t, e)
    requires t.kind == SpecialJudge && e.compile.Compiled? && t.cases != [] && FairSplit(t.cases, total)
    requires forall i :: 0 <= i < |t.cases| ==> SaysOk(said[i]) && e.runs[i] == ParseChecker(said[i], xs[i])
    ensures appended[0].status == Accepted && appended[0].score == |t.cases|
    ensures appended[0].score == total <==> total == |t.cases|
  {
    OnePointEach(t, e, d, appended, total);
  }

  /** Nor is an interactor's or grader's "AC", whatever the case's score. */
  lemma {:induction false} InteractorScore(
      t: Task, e: Env, d: Delivery, appended: seq<Message>, said: seq<Said>, xs: seq<Exec>, total: nat)
    requires |e.runs| == |said| == |xs| == |t.cases| && Handled(t, e, d, appended) && Publishes(t, e)
    requires (t.kind == InteractiveJudge || t.kind == CommunicationJudge) && e.compile.Compiled? && t.cases != []
    requires FairSplit(t.cases, total)
    requires forall i :: 0 <= i < |t.cases| ==>
               said[i].line == "AC" && Severity(xs[i].status) == 0 && e.runs[i] == ParseInteractor(said[i], xs[i])
    ensures appended[0].status == Accepted && appended[0].score == |t.cases|
    ensures appended[0].score == total <==> total == |t.cases|
  {
    OnePointEach(t, e, d, appended, total);
  }
}
