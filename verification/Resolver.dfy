/** The event-feed export: a second encoding of the scoring rule, compared with the live board. */
module Resolver {
  import opened Types
  import opened Cell
  import opened Freeze

  datatype FeedSubmission = FeedSubmission(id: ID, userID: ID, problemID: ID, status: Status, createdAt: Time)

  datatype XmlRun = XmlRun(id: ID, problem: ID, team: ID, result: string, solved: bool, penalty: bool, time: int)

  datatype JudgementType = JudgementType(acronym: string, solved: bool, penalty: bool)

  /** The verdicts the feed knows, and what it calls them. */
  const VERDICTS := [Accepted, WrongAnswer, TLE, MLE, RE, CE]
  const ACRONYMS := ["AC", "WA", "TLE", "MLE", "RTE", "CE"]

  /** (acronym, counts as penalty, is a judged verdict). */
  function MapResult(s: Status, ceNoPenalty: bool): (r: (string, bool, bool))
    ensures forall i :: 0 <= i < 6 ==> (s == VERDICTS[i] <==> r.0 == ACRONYMS[i])
    ensures r.2 <==> s in VERDICTS
    ensures r.1 <==> s in VERDICTS && s != Accepted && !(s == CE && ceNoPenalty)
  {
    assert |"AC"| == |"WA"| == |"CE"| == 2 && |"TLE"| == |"MLE"| == |"RTE"| == 3;
    assert "AC"[0] == 'A' && "WA"[0] == 'W' && "CE"[0] == 'C' && "TLE"[0] == 'T' && "MLE"[0] == 'M' && "RTE"[0] == 'R';
    match s
    case Accepted => ("AC", false, true)
    case WrongAnswer => ("WA", true, true)
    case TLE => ("TLE", true, true)
    case MLE => ("MLE", true, true)
    case RE => ("RTE", true, true)
    case CE => ("CE", !ceNoPenalty, true)
    case _ => ("", false, false)
  }

  predicate IsVerdict(s: Status) {
    s in {Accepted, WrongAnswer, TLE, MLE, RE, CE}
  }

  function JudgementTypes(ceNoPenalty: bool): seq<JudgementType> {
    [JudgementType("AC", true, false),
     JudgementType("WA", false, true),
     JudgementType("TLE", false, true),
     JudgementType("MLE", false, true),
     JudgementType("RTE", false, true),
     JudgementType("CE", false, !ceNoPenalty)]
  }

  /** Every exported acronym resolves to exactly one judgement type, with the run's own flags. */
  lemma AcronymsResolve(s: Status, ceNoPenalty: bool)
    requires IsVerdict(s)
    ensures var (a, counts, judged) := MapResult(s, ceNoPenalty);
            && judged
            && exists i :: 0 <= i < 6
                 && JudgementTypes(ceNoPenalty)[i] == JudgementType(a, s == Accepted, counts && s != Accepted)
                 && forall j :: 0 <= j < 6 && j != i ==> JudgementTypes(ceNoPenalty)[j].acronym != a
  {
    var t := JudgementTypes(ceNoPenalty);
    assert |"AC"| == |"WA"| == |"CE"| == 2 && |"TLE"| == |"MLE"| == |"RTE"| == 3;
    assert "AC"[0] == 'A' && "WA"[0] == 'W' && "CE"[0] == 'C' && "TLE"[0] == 'T' && "MLE"[0] == 'M' && "RTE"[0] == 'R';
    var i := match s case Accepted => 0 case WrongAnswer => 1 case TLE => 2 case MLE => 3 case RE => 4 case _ => 5;
    var m := MapResult(s, ceNoPenalty);
    assert t[i] == JudgementType(m.0, s == Accepted, m.1 && s != Accepted);
  }

  /** One exported run, unless the submission is skipped. */
  function ExportOne(s: FeedSubmission, start: Time, end: Time, st: Settings): Option<XmlRun> {
    var (acronym, counts, judged) := MapResult(s.status, st.ceNoPenalty);
    if !judged then None
    else if end != ZERO_TIME && s.createdAt > end then None
    else
      var solved := s.status == Accepted;
      var elapsed := s.createdAt - start;
      Some(XmlRun(s.id, s.problemID, s.userID, acronym, solved, counts && !solved, if elapsed < 0 then 0 else elapsed))
  }

  function Export(subs: seq<FeedSubmission>, start: Time, end: Time, st: Settings): seq<XmlRun> {
    if subs == [] then []
    else
      var n := |subs| - 1;
      var x := ExportOne(subs[n], start, end, st);
      Export(subs[..n], start, end, st) + if x.Some? then [x.value] else []
  }

  /** The run loop of buildEventFeed. */
  method BuildRuns(subs: seq<FeedSubmission>, start: Time, end: Time, st: Settings) returns (runs: seq<XmlRun>)
    ensures runs == Export(subs, start, end, st)
  {
    runs := [];
    for i := 0 to |subs|
      invariant runs == Export(subs[..i], start, end, st)
    {
      var s := subs[i];
      assert subs[..i + 1][..i] == subs[..i];
      var (acronym, counts, judged) := MapResult(s.status, st.ceNoPenalty);
      if !judged {
        continue;
      }
      var elapsed := s.createdAt - start;
      if elapsed < 0 {
        elapsed := 0;
      }
      if end != ZERO_TIME && s.createdAt > end {
        continue;
      }
      var solved := s.status == Accepted;
      runs := runs + [XmlRun(s.id, s.problemID, s.userID, acronym, solved, counts && !solved, elapsed)];
    }
    assert subs[..|subs|] == subs;
  }

  // ------------------------------------------------------------------ scoring the exported runs

  function TeamRuns(runs: seq<XmlRun>, u: ID, p: ID): seq<XmlRun> {
    if runs == [] then []
    else
      var n := |runs| - 1;
      TeamRuns(runs[..n], u, p) + if runs[n].team == u && runs[n].problem == p then [runs[n]] else []
  }

  /** A reader of the feed: the first solved run, and the earlier runs flagged as penalised. */
  datatype Tally = Tally(solvedAt: Option<int>, flags: int)

  function Read(t: Tally, solved: bool, penalty: bool, time: int): Tally {
    if t.solvedAt.Some? then t
    else if solved then t.(solvedAt := Some(time))
    else t.(flags := t.flags + if penalty then 1 else 0)
  }

  function ReadAll(xs: seq<XmlRun>): Tally {
    if xs == [] then Tally(None, 0)
    else
      var x := xs[|xs| - 1];
      Read(ReadAll(xs[..|xs| - 1]), x.solved, x.penalty, x.time)
  }

  /** (solved, penalty): minutes of the first solved run plus a penalty per earlier run so flagged. */
  function ScoreFeed(xs: seq<XmlRun>, st: Settings): (bool, int) {
    match ReadAll(xs)
    case Tally(Some(t), flags) => (true, SolveCost(t, 0, flags, st))
    case Tally(None, _) => (false, 0)
  }

  /** The cell's submissions as the live board receives them. */
  function CellRuns(subs: seq<FeedSubmission>, u: ID, p: ID): seq<Judged> {
    if subs == [] then []
    else
      var n := |subs| - 1;
      CellRuns(subs[..n], u, p)
      + if subs[n].userID == u && subs[n].problemID == p then [Judged(subs[n].status, 0, subs[n].createdAt)] else []
  }

  /** Results the export drops but the live board counts as wrong attempts, such as SystemError. */
  function Unjudged(runs: seq<Judged>): (c: nat)
    ensures c <= |runs|
  {
    if runs == [] then 0
    else Unjudged(runs[..|runs| - 1]) + if IsVerdict(runs[|runs| - 1].status) then 0 else 1
  }

  /** Submissions after the contest's end do not belong on the exported board. */
  predicate Late(r: Judged, end: Time) {
    end != ZERO_TIME && r.submitTime > end
  }

  /** A submission before the start is exported as if made at the start. */
  function AtStart(r: Judged, start: Time): Judged {
    if r.submitTime < start then r.(submitTime := start) else r
  }

  /** The runs that the export lets a reader see. */
  function Clamp(runs: seq<Judged>, start: Time, end: Time): seq<Judged> {
    if runs == [] then []
    else
      var n := |runs| - 1;
      Clamp(runs[..n], start, end) + if Late(runs[n], end) then [] else [AtStart(runs[n], start)]
  }

  /** The tally that a cell's own runs call for. */
  function RuleTally(runs: seq<Judged>, start: Time, st: Settings): Tally {
    var at := SolvedAt(runs);
    Tally(if at.Some? then Some(at.value - start) else None, Penalised(runs, st) - Unjudged(runs[..FirstAC(runs)]))
  }

  lemma {:induction false} RuleTallyStep(runs: seq<Judged>, r: Judged, start: Time, st: Settings)
    ensures RuleTally(runs + [r], start, st) ==
              if IsVerdict(r.status) then
                Read(RuleTally(runs, start, st), r.status == Accepted, MapResult(r.status, st.ceNoPenalty).1,
                    r.submitTime - start)
              else RuleTally(runs, start, st)
  {
    FirstACAppend(runs, r, st);
    assert (runs + [r])[..|runs|] == runs;
  }

  lemma TeamRunsStep(xs: seq<XmlRun>, x: XmlRun, u: ID, p: ID)
    ensures TeamRuns(xs + [x], u, p) == TeamRuns(xs, u, p) + if x.team == u && x.problem == p then [x] else []
  {
    assert (xs + [x])[..|xs|] == xs;
  }

  lemma ReadAllStep(xs: seq<XmlRun>, x: XmlRun)
    ensures ReadAll(xs + [x]) == Read(ReadAll(xs), x.solved, x.penalty, x.time)
  {
    assert (xs + [x])[..|xs|] == xs;
  }

  /** What the export says of one submission. */
  lemma {:induction false} ExportedRun(s: FeedSubmission, start: Time, end: Time, st: Settings)
    ensures var x, r := ExportOne(s, start, end, st), Judged(s.status, 0, s.createdAt);
            && (x.Some? <==> IsVerdict(s.status) && !Late(r, end))
            && (x.Some? ==> x.value.id == s.id && x.value.team == s.userID && x.value.problem == s.problemID
                            && (forall i :: 0 <= i < 6 && s.status == VERDICTS[i] ==> x.value.result == ACRONYMS[i])
                            && x.value.time == AtStart(r, start).submitTime - start
                            && x.value.solved == (s.status == Accepted)
                            && x.value.penalty == (MapResult(s.status, st.ceNoPenalty).1 && s.status != Accepted))
  {
  }

  lemma {:induction false} ReadVerdict(xs: seq<XmlRun>, y: XmlRun, runs: seq<Judged>, r: Judged, start: Time,
      st: Settings)
    requires ReadAll(xs) == RuleTally(runs, start, st) && IsVerdict(r.status) && y.time == r.submitTime - start
    requires y.solved == (r.status == Accepted) &&
               y.penalty == (MapResult(r.status, st.ceNoPenalty).1 && r.status != Accepted)
    ensures ReadAll(xs + [y]) == RuleTally(runs + [r], start, st)
  {
    ReadAllStep(xs, y);
    RuleTallyStep(runs, r, start, st);
  }

  lemma {:induction false} ExportStep(
      xs: seq<XmlRun>, runs: seq<Judged>, s: FeedSubmission, u: ID, p: ID, start: Time, end: Time, st: Settings)
    requires ReadAll(TeamRuns(xs, u, p)) == RuleTally(runs, start, st)
    requires s.userID == u && s.problemID == p
    ensures var x, r := ExportOne(s, start, end, st), Judged(s.status, 0, s.createdAt);
            ReadAll(TeamRuns(xs + if x.Some? then [x.value] else [], u, p))
            == RuleTally(runs + if Late(r, end) then [] else [AtStart(r, start)], start, st)
  {
    var x, r := ExportOne(s, start, end, st), Judged(s.status, 0, s.createdAt);
    ExportedRun(s, start, end, st);
    if x.Some? {
      TeamRunsStep(xs, x.value, u, p);
      ReadVerdict(TeamRuns(xs, u, p), x.value, runs, AtStart(r, start), start, st);
    } else {
      assert xs + [] == xs && runs + [] == runs;
      if !Late(r, end) { RuleTallyStep(runs, AtStart(r, start), start, st); }
    }
  }

  /** A reader of a team's exported runs finds the first AC and the penalised runs among those the export
      lets it see, whatever the submissions. */
  lemma {:induction false} ExportTally(subs: seq<FeedSubmission>, u: ID, p: ID, start: Time, end: Time, st: Settings)
    ensures ReadAll(TeamRuns(Export(subs, start, end, st), u, p))
         == RuleTally(Clamp(CellRuns(subs, u, p), start, end), start, st)
  {
    if subs != [] {
      var n := |subs| - 1;
      var s, before := subs[n], CellRuns(subs[..n], u, p);
      var prior, x := Export(subs[..n], start, end, st), ExportOne(s, start, end, st);
      ExportTally(subs[..n], u, p, start, end, st);
      if s.userID == u && s.problemID == p {
        ExportStep(prior, Clamp(before, start, end), s, u, p, start, end, st);
        ClampAppend(before, Judged(s.status, 0, s.createdAt), start, end);
      } else {
        assert CellRuns(subs, u, p) == before;
        OtherExport(prior, s, u, p, start, end, st);
      }
    }
  }

  lemma {:induction false} ClampAppend(runs: seq<Judged>, r: Judged, start: Time, end: Time)
    ensures Clamp(runs + [r], start, end) == Clamp(runs, start, end) + if Late(r, end) then [] else [AtStart(r, start)]
  {
    assert (runs + [r])[..|runs|] == runs;
  }

  lemma {:induction false} OtherExport(xs: seq<XmlRun>, s: FeedSubmission, u: ID, p: ID, start: Time, end: Time,
      st: Settings)
    requires s.userID != u || s.problemID != p
    ensures var x := ExportOne(s, start, end, st);
            TeamRuns(xs + if x.Some? then [x.value] else [], u, p) == TeamRuns(xs, u, p)
  {
    var x := ExportOne(s, start, end, st);
    if x.Some? {
      TeamRunsStep(xs, x.value, u, p);
      assert TeamRuns(xs, u, p) + [] == TeamRuns(xs, u, p);
    } else {
      assert xs + [] == xs;
    }
  }
}
