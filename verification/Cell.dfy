/** One (user, problem) cell of an ICPC scoreboard: the freeze and reveal state machine. */
module Cell {
  import opened Types

  datatype SubmissionEvent = SubmissionEvent(
    userID: ID, problemID: ID, status: Status, score: int,
    submitTime: Time, contestStart: Time, freezeTime: Option<Time>)

  datatype FrozenSubmission = FrozenSubmission(status: Status, submitTime: Time)

  datatype ScoreEntry = ScoreEntry(
    userID: ID, problemID: ID,
    accepted: bool, displayScore: int, penalty: int,
    attemptCount: int, wrongAttemptCount: int, bestSubmitTime: Time,
    frozenAttempts: int, isPending: bool, frozenResults: seq<FrozenSubmission>,
    isFirstBlood: bool)

  function CloneOrNew(prev: Option<ScoreEntry>, ev: SubmissionEvent): ScoreEntry {
    match prev
    case Some(e) => e
    case None => ScoreEntry(ev.userID, ev.problemID, false, 0, 0, 0, 0, ZERO_TIME, 0, false, [], false)
  }

  predicate IsPostFreeze(t: Time, freeze: Option<Time>) {
    freeze.Some? && !(t < freeze.value)
  }

  predicate IgnoreCE(s: Status, st: Settings) {
    s == CE && st.ceNoPenalty
  }

  /** Penalty of a problem solved at `t` after `wrong` penalised attempts. */
  function SolveCost(t: Time, start: Time, wrong: int, st: Settings): int {
    Minutes(t - start) + wrong * st.penaltyMinutes
  }

  /** ICPCStrategy.Apply. */
  function Apply(ev: SubmissionEvent, prev: Option<ScoreEntry>, st: Settings): ScoreEntry {
    var e := CloneOrNew(prev, ev);
    if e.accepted then e
    else if IsPostFreeze(ev.submitTime, ev.freezeTime) then
      e.(frozenAttempts := e.frozenAttempts + 1,
         isPending := true,
         frozenResults := e.frozenResults + [FrozenSubmission(ev.status, ev.submitTime)])
    else
      var e := e.(attemptCount := e.attemptCount + 1);
      if ev.status == Accepted then
        e.(accepted := true, displayScore := 1, isPending := false,
           frozenAttempts := 0, frozenResults := [], bestSubmitTime := ev.submitTime,
           penalty := SolveCost(ev.submitTime, ev.contestStart, e.wrongAttemptCount, st))
      else if IgnoreCE(ev.status, st) then e
      else e.(wrongAttemptCount := e.wrongAttemptCount + 1)
  }

  /** ICPCStrategy.RevealNext; the second component reports whether an AC was revealed. */
  function RevealNext(entry: ScoreEntry, start: Time, st: Settings): (ScoreEntry, bool) {
    if entry.frozenResults == [] then (entry, false)
    else
      var frozen := entry.frozenResults[0];
      var left := entry.frozenAttempts - 1;
      var e := entry.(frozenResults := entry.frozenResults[1..],
                      frozenAttempts := if left <= 0 then 0 else left,
                      isPending := if left <= 0 then false else entry.isPending);
      if frozen.status == Accepted then
        (e.(accepted := true, displayScore := 1, isPending := false,
            frozenAttempts := 0, frozenResults := [], bestSubmitTime := frozen.submitTime,
            penalty := SolveCost(frozen.submitTime, start, e.wrongAttemptCount, st)),
         true)
      else
        (e.(wrongAttemptCount := e.wrongAttemptCount + 1, attemptCount := e.attemptCount + 1), false)
  }

  /** The reveal loop of rebuildSnapshot. */
  function RevealAll(e: ScoreEntry, start: Time, st: Settings): ScoreEntry
    decreases |e.frozenResults|
  {
    if e.frozenResults == [] then e else RevealAll(RevealNext(e, start, st).0, start, st)
  }

  method Reveal(entry: ScoreEntry, start: Time, st: Settings) returns (e: ScoreEntry)
    ensures e == RevealAll(entry, start, st)
    ensures e.frozenResults == []
  {
    e := entry;
    while |e.frozenResults| > 0
      invariant RevealAll(e, start, st) == RevealAll(entry, start, st)
      decreases |e.frozenResults|
    {
      e := RevealNext(e, start, st).0;
    }
  }

  // ------------------------------------------------------------------ histories of one cell

  /** A judged submission of one cell. */
  datatype Judged = Judged(status: Status, score: int, submitTime: Time)

  function EventOf(u: ID, p: ID, r: Judged, start: Time, freeze: Option<Time>): SubmissionEvent {
    SubmissionEvent(u, p, r.status, r.score, r.submitTime, start, freeze)
  }

  /** The stored entry after the results `runs` arrived in this order. */
  function Fold(u: ID, p: ID, runs: seq<Judged>, start: Time, freeze: Option<Time>,
      st: Settings): (e: Option<ScoreEntry>)
    ensures e.None? <==> runs == []
  {
    if runs == [] then None
    else
      var n := |runs| - 1;
      Some(Apply(EventOf(u, p, runs[n], start, freeze), Fold(u, p, runs[..n], start, freeze, st), st))
  }

  /** The results submitted before the freeze, respectively from the freeze on, in arrival order. */
  function Visible(runs: seq<Judged>, freeze: Option<Time>): seq<Judged> {
    if runs == [] then []
    else
      var n := |runs| - 1;
      Visible(runs[..n], freeze) + if IsPostFreeze(runs[n].submitTime, freeze) then [] else [runs[n]]
  }

  function Hidden(runs: seq<Judged>, freeze: Option<Time>): seq<Judged> {
    if runs == [] then []
    else
      var n := |runs| - 1;
      Hidden(runs[..n], freeze) + if IsPostFreeze(runs[n].submitTime, freeze) then [runs[n]] else []
  }

  // ------------------------------------------------------------------ the public ICPC rule

  /** Position of the first accepted run, |runs| if there is none. */
  function FirstAC(runs: seq<Judged>): (k: nat)
    ensures k <= |runs|
    ensures forall i :: 0 <= i < k ==> runs[i].status != Accepted
    ensures k < |runs| ==> runs[k].status == Accepted
  {
    if runs == [] then 0
    else if runs[0].status == Accepted then 0
    else 1 + FirstAC(runs[1..])
  }

  /** Number of runs that are exempt compile errors. */
  function Exempt(runs: seq<Judged>, st: Settings): (c: nat)
    ensures c <= |runs|
  {
    if runs == [] then 0
    else Exempt(runs[..|runs| - 1], st) + if IgnoreCE(runs[|runs| - 1].status, st) then 1 else 0
  }

  /** What the rule says of a cell: whole minutes of the first AC plus a penalty for every
      penalised rejection before it. */
  datatype Score = Score(solved: bool, wrong: nat, penalty: int, time: Time)

  function IcpcRule(runs: seq<Judged>, start: Time, st: Settings): Score {
    ScoreOf(SolvedAt(runs), Penalised(runs, st), start, st)
  }

  function SolvedAt(runs: seq<Judged>): Option<Time> {
    var k := FirstAC(runs);
    if k < |runs| then Some(runs[k].submitTime) else None
  }

  /** Rejections before the first AC that cost a penalty. */
  function Penalised(runs: seq<Judged>, st: Settings): nat {
    var k := FirstAC(runs);
    k - Exempt(runs[..k], st)
  }

  function ScoreOf(solvedAt: Option<Time>, wrong: nat, start: Time, st: Settings): Score {
    match solvedAt
    case Some(t) => Score(true, wrong, SolveCost(t, start, wrong, st), t)
    case None => Score(false, wrong, 0, ZERO_TIME)
  }

  function Frozen(runs: seq<Judged>): seq<FrozenSubmission> {
    seq(|runs|, i requires 0 <= i < |runs| => FrozenSubmission(runs[i].status, runs[i].submitTime))
  }

  /** The entry that a cell with these visible and hidden results must hold, without reference to Apply. */
  function Closed(u: ID, p: ID, vis: seq<Judged>, hid: seq<Judged>, start: Time, st: Settings): ScoreEntry {
    var s := IcpcRule(vis, start, st);
    if s.solved then
      ScoreEntry(u, p, true, 1, s.penalty, FirstAC(vis) + 1, s.wrong, s.time, 0, false, [], false)
    else
      ScoreEntry(u, p, false, 0, 0, |vis|, s.wrong, ZERO_TIME, |hid|, hid != [], Frozen(hid), false)
  }

  lemma FirstACUnique(runs: seq<Judged>, k: nat)
    requires k <= |runs|
    requires forall i :: 0 <= i < k ==> runs[i].status != Accepted
    requires k < |runs| ==> runs[k].status == Accepted
    ensures FirstAC(runs) == k
  {
    if k < |runs| && runs[0].status != Accepted {
      FirstACUnique(runs[1..], k - 1);
    }
  }

  lemma {:induction false} ExemptAppend(a: seq<Judged>, b: seq<Judged>, st: Settings)
    ensures Exempt(a + b, st) == Exempt(a, st) + Exempt(b, st)
  {
    if b == [] {
      assert a + b == a;
    } else {
      assert (a + b)[..|a + b| - 1] == a + b[..|b| - 1];
      ExemptAppend(a, b[..|b| - 1], st);
    }
  }

  /** First AC and exempt count when one more run arrives. */
  lemma {:induction false} FirstACAppend(runs: seq<Judged>, r: Judged, st: Settings)
    ensures var k, all := FirstAC(runs), runs + [r];
            if k < |runs| then FirstAC(all) == k && all[..k] == runs[..k]
            else
              && FirstAC(all) == (if r.status == Accepted then k else k + 1)
              && all[..k] == runs[..k] == runs && all[..k + 1] == all
              && Exempt(all, st) == Exempt(runs, st) + if IgnoreCE(r.status, st) then 1 else 0
  {
    var k, all := FirstAC(runs), runs + [r];
    if k < |runs| {
      FirstACUnique(all, k);
    } else {
      FirstACUnique(all, if r.status == Accepted then k else k + 1);
      assert all[..|runs|] == runs;
    }
  }

  /** The rule when one more run arrives. */
  lemma {:induction false} RuleAppend(runs: seq<Judged>, r: Judged, start: Time, st: Settings)
    ensures var s, s' := IcpcRule(runs, start, st), IcpcRule(runs + [r], start, st);
            && FirstAC(runs + [r]) == FirstAC(runs) + (if !s.solved && r.status != Accepted then 1 else 0)
            && s.solved == (FirstAC(runs) < |runs|) && s'.solved == (s.solved || r.status == Accepted)
            && (s.solved ==> s' == s)
            && (!s.solved && r.status == Accepted ==> s' == ScoreOf(Some(r.submitTime), s.wrong, start, st))
            && (!s.solved && r.status != Accepted ==>
                  s' == ScoreOf(None, s.wrong + (if IgnoreCE(r.status, st) then 0 else 1), start, st))
  {
    FirstACAppend(runs, r, st);
  }

  lemma {:induction false} ApplyHidden(
      ev: SubmissionEvent, prev: Option<ScoreEntry>, u: ID, p: ID, vis: seq<Judged>, hid: seq<Judged>,
      r: Judged, start: Time, freeze: Option<Time>, st: Settings)
    requires CloneOrNew(prev, ev) == Closed(u, p, vis, hid, start, st)
    requires ev == EventOf(u, p, r, start, freeze) && IsPostFreeze(r.submitTime, freeze)
    ensures Apply(ev, prev, st) == Closed(u, p, vis, hid + [r], start, st)
  {
    assert Frozen(hid + [r]) == Frozen(hid) + [FrozenSubmission(r.status, r.submitTime)];
  }

  lemma {:induction false} ApplyVisible(
      ev: SubmissionEvent, prev: Option<ScoreEntry>, u: ID, p: ID, vis: seq<Judged>, hid: seq<Judged>,
      r: Judged, start: Time, freeze: Option<Time>, st: Settings)
    requires CloneOrNew(prev, ev) == Closed(u, p, vis, hid, start, st)
    requires ev == EventOf(u, p, r, start, freeze) && !IsPostFreeze(r.submitTime, freeze)
    ensures Apply(ev, prev, st) == Closed(u, p, vis + [r], hid, start, st)
  {
    RuleAppend(vis, r, start, st);
    var k := FirstAC(vis);
    if k == |vis| && r.status == Accepted {
      assert IcpcRule(vis + [r], start, st).wrong == IcpcRule(vis, start, st).wrong;
    }
  }

  /** Every stored entry has the closed form: freezing separates the visible results, scored by
      the public rule, from the hidden ones, kept verbatim and in order. */
  lemma {:induction false} FoldIsClosed(u: ID, p: ID, runs: seq<Judged>, start: Time, freeze: Option<Time>,
      st: Settings)
    requires runs != []
    ensures Fold(u, p, runs, start, freeze, st)
         == Some(Closed(u, p, Visible(runs, freeze), Hidden(runs, freeze), start, st))
  {
    var n := |runs| - 1;
    var r, before := runs[n], runs[..n];
    var ev, prev := EventOf(u, p, r, start, freeze), Fold(u, p, before, start, freeze, st);
    var vis, hid := Visible(before, freeze), Hidden(before, freeze);
    if before != [] {
      FoldIsClosed(u, p, before, start, freeze, st);
    } else {
      assert Frozen([]) == [];
    }
    if IsPostFreeze(r.submitTime, freeze) {
      assert Visible(runs, freeze) == vis;
      ApplyHidden(ev, prev, u, p, vis, hid, r, start, freeze, st);
    } else {
      assert Hidden(runs, freeze) == hid;
      ApplyVisible(ev, prev, u, p, vis, hid, r, start, freeze, st);
    }
  }

  /** Hidden results as runs again. */
  function Thaw(fs: seq<FrozenSubmission>): (runs: seq<Judged>)
    ensures |runs| == |fs|
    ensures forall i :: 0 <= i < |fs| ==> runs[i] == Judged(fs[i].status, 0, fs[i].submitTime)
  {
    seq(|fs|, i requires 0 <= i < |fs| => Judged(fs[i].status, 0, fs[i].submitTime))
  }

  /** The invariant of every stored entry that the reveal loop relies on. */
  predicate CellInv(e: ScoreEntry) {
    && e.frozenAttempts == |e.frozenResults|
    && (e.isPending <==> e.frozenResults != [])
    && (e.accepted ==> e.frozenResults == [])
  }

  /** The cell after `k` replayed rejections, each counted, and possibly an AC at the given instant. */
  function Replayed(e: ScoreEntry, k: nat, solvedAt: Option<Time>, start: Time, st: Settings): ScoreEntry {
    var w := e.wrongAttemptCount + k;
    var r := e.(frozenAttempts := 0, isPending := false, frozenResults := [],
                wrongAttemptCount := w, attemptCount := e.attemptCount + k);
    match solvedAt
    case Some(t) => r.(accepted := true, displayScore := 1, bestSubmitTime := t, penalty := SolveCost(t, start, w, st))
    case None => r
  }

  /** Revealing a pending cell replays its hidden results up to the first AC, and counts every
      rejection before it, exempt or not. */
  lemma {:induction false} RevealAllClosed(e: ScoreEntry, start: Time, st: Settings)
    requires CellInv(e) && !e.accepted
    ensures var k := FirstAC(Thaw(e.frozenResults));
            RevealAll(e, start, st)
            == Replayed(e, k, if k < |e.frozenResults| then Some(e.frozenResults[k].submitTime) else None, start, st)
    decreases |e.frozenResults|
  {
    if e.frozenResults != [] {
      var n := RevealNext(e, start, st).0;
      if !n.accepted {
        RevealAllClosed(n, start, st);
        assert Thaw(e.frozenResults)[1..] == Thaw(n.frozenResults);
        var k := FirstAC(Thaw(n.frozenResults));
        assert FirstAC(Thaw(e.frozenResults)) == 1 + k;
        ReplayStep(e, k, if k < |n.frozenResults| then Some(n.frozenResults[k].submitTime) else None, start, st);
      } else {
        assert FirstAC(Thaw(e.frozenResults)) == 0;
        assert RevealAll(n, start, st) == n;
      }
    }
  }

  lemma {:induction false} ReplayStep(e: ScoreEntry, k: nat, at: Option<Time>, start: Time, st: Settings)
    requires CellInv(e) && !e.accepted && e.frozenResults != [] && e.frozenResults[0].status != Accepted
    ensures Replayed(RevealNext(e, start, st).0, k, at, start, st) == Replayed(e, 1 + k, at, start, st)
    ensures CellInv(RevealNext(e, start, st).0)
  {
  }

  lemma {:induction false} FoldKeepsCellInv(u: ID, p: ID, runs: seq<Judged>, start: Time, freeze: Option<Time>,
      st: Settings)
    requires runs != []
    ensures CellInv(Fold(u, p, runs, start, freeze, st).value)
  {
    FoldIsClosed(u, p, runs, start, freeze, st);
  }

  // ------------------------------------------------------------------ whole minutes and the freeze boundary

  /** `m` whole minutes of 60 seconds, in nanoseconds, fit into the span `d`, counted toward zero. */
  predicate WholeMinutes(m: int, d: int) {
    if d >= 0 then m * 60_000_000_000 <= d < (m + 1) * 60_000_000_000
    else (m - 1) * 60_000_000_000 < d <= m * 60_000_000_000
  }

  lemma {:induction false} CostIsWhole(t: Time, start: Time, wrong: int, st: Settings)
    ensures WholeMinutes(SolveCost(t, start, wrong, st) - wrong * st.penaltyMinutes, t - start)
  {
    var d := t - start;
    assert d >= 0 ==> MINUTE * (d / MINUTE) <= d < MINUTE * (d / MINUTE) + MINUTE;
    assert d < 0 ==> MINUTE * (-d / MINUTE) <= -d < MINUTE * (-d / MINUTE) + MINUTE;
  }

  /** An AC before the freeze solves the cell at its own instant, for the whole minutes since the start
      plus a penalty for each wrong attempt so far. */
  lemma {:induction false} AcceptedCost(ev: SubmissionEvent, prev: Option<ScoreEntry>, st: Settings)
    requires prev.Some? ==> !prev.value.accepted
    requires ev.status == Accepted && (ev.freezeTime.Some? ==> ev.submitTime < ev.freezeTime.value)
    ensures var e := Apply(ev, prev, st);
            && e.accepted && e.bestSubmitTime == ev.submitTime
            && e.wrongAttemptCount == (if prev.Some? then prev.value.wrongAttemptCount else 0)
            && WholeMinutes(e.penalty - e.wrongAttemptCount * st.penaltyMinutes, ev.submitTime - ev.contestStart)
  {
    CostIsWhole(ev.submitTime, ev.contestStart, Apply(ev, prev, st).wrongAttemptCount, st);
  }

  /** So does the reveal of a hidden AC, at the instant it was submitted. */
  lemma {:induction false} RevealedCost(e: ScoreEntry, start: Time, st: Settings)
    requires e.frozenResults != [] && e.frozenResults[0].status == Accepted
    ensures var r := RevealNext(e, start, st).0;
            && RevealNext(e, start, st).1 && r.accepted && r.bestSubmitTime == e.frozenResults[0].submitTime
            && r.wrongAttemptCount == e.wrongAttemptCount
            && WholeMinutes(r.penalty - r.wrongAttemptCount * st.penaltyMinutes, e.frozenResults[0].submitTime - start)
  {
    CostIsWhole(e.frozenResults[0].submitTime, start, e.wrongAttemptCount, st);
  }

  /** The rule itself, on a solved cell: whole minutes of the first AC and a penalty for each run before it
      that is not an exempt compile error. */
  lemma {:induction false} RuleCost(runs: seq<Judged>, start: Time, st: Settings) returns (k: nat)
    requires IcpcRule(runs, start, st).solved
    ensures k < |runs| && runs[k].status == Accepted && forall i :: 0 <= i < k ==> runs[i].status != Accepted
    ensures var s := IcpcRule(runs, start, st);
            && s.time == runs[k].submitTime
            && s.wrong == k - CompileErrors(runs[..k], st)
            && WholeMinutes(s.penalty - s.wrong * st.penaltyMinutes, runs[k].submitTime - start)
  {
    k := FirstAC(runs);
    ExemptAre(runs[..k], st);
    CostIsWhole(runs[k].submitTime, start, Penalised(runs, st), st);
  }

  /** The compile errors among the runs, if the contest exempts them. */
  function CompileErrors(runs: seq<Judged>, st: Settings): nat {
    if runs == [] then 0
    else CompileErrors(runs[..|runs| - 1], st) + if runs[|runs| - 1].status == CE && st.ceNoPenalty then 1 else 0
  }

  lemma {:induction false} ExemptAre(runs: seq<Judged>, st: Settings)
    ensures Exempt(runs, st) == CompileErrors(runs, st)
  {
    if runs != [] { ExemptAre(runs[..|runs| - 1], st); }
  }

  /** A result submitted at or after the freeze is hidden, whatever it is, and one submitted before it is
      not; a solved cell takes no notice of either. */
  lemma {:induction false} HiddenIff(ev: SubmissionEvent, prev: Option<ScoreEntry>, st: Settings)
    requires prev.Some? ==> !prev.value.accepted
    ensures var e, was := Apply(ev, prev, st), if prev.Some? then prev.value.frozenResults else [];
            if ev.freezeTime.Some? && ev.freezeTime.value <= ev.submitTime then
              && e.frozenResults == was + [FrozenSubmission(ev.status, ev.submitTime)] && e.isPending && !e.accepted
              && (prev.Some? ==> e.wrongAttemptCount == prev.value.wrongAttemptCount && e.penalty == prev.value.penalty)
            else e.frozenResults == if ev.status == Accepted then [] else was
  {
  }

  /** Before the freeze every rejection costs an attempt, except a compile error when those are exempt. */
  lemma {:induction false} WrongIff(ev: SubmissionEvent, prev: Option<ScoreEntry>, st: Settings)
    requires prev.Some? ==> !prev.value.accepted
    requires ev.status != Accepted && (ev.freezeTime.Some? ==> ev.submitTime < ev.freezeTime.value)
    ensures var e := Apply(ev, prev, st);
            && !e.accepted
            && e.wrongAttemptCount == (if prev.Some? then prev.value.wrongAttemptCount else 0)
                                      + (if ev.status == CE && st.ceNoPenalty then 0 else 1)
  {
  }
}
