/** What freezing a cell and revealing it later does to its score. */
module Freeze {
  import opened Types
  import opened Cell

  /** What the board shows of a cell once nothing is pending. */
  predicate SameDisplay(a: ScoreEntry, b: ScoreEntry) {
    && a.accepted == b.accepted
    && a.displayScore == b.displayScore
    && a.penalty == b.penalty
    && a.wrongAttemptCount == b.wrongAttemptCount
    && a.bestSubmitTime == b.bestSubmitTime
  }

  /** The revealed cell `shown` displays the score `s`, but for `extra` wrong attempts too many. */
  predicate Shows(shown: ScoreEntry, s: Score, extra: nat, st: Settings) {
    && shown.accepted == s.solved && shown.displayScore == (if s.solved then 1 else 0)
    && shown.bestSubmitTime == s.time
    && shown.wrongAttemptCount == s.wrong + extra
    && shown.penalty == s.penalty + (if s.solved then extra * st.penaltyMinutes else 0)
    && shown.frozenResults == [] && shown.frozenAttempts == 0 && !shown.isPending
  }

  /** Exempt compile errors that the reveal loop replays before it stops: those hidden before the
      first hidden AC, unless the cell was already solved before the freeze. */
  function ReplayedExempt(runs: seq<Judged>, freeze: Option<Time>, st: Settings): nat {
    var vis, hid := Visible(runs, freeze), Hidden(runs, freeze);
    if FirstAC(vis) < |vis| then 0 else Exempt(hid[..FirstAC(hid)], st)
  }

  lemma NoFreezeHidesNothing(runs: seq<Judged>)
    ensures Visible(runs, None) == runs && Hidden(runs, None) == []
  {
    if runs != [] {
      NoFreezeHidesNothing(runs[..|runs| - 1]);
    }
  }

  /** Never freezing a cell scores it by the public rule. */
  lemma {:induction false} UnfrozenFollowsRule(u: ID, p: ID, runs: seq<Judged>, start: Time, st: Settings)
    requires runs != []
    ensures var e, s := Fold(u, p, runs, start, None, st).value, IcpcRule(runs, start, st);
            && e.accepted == s.solved && e.displayScore == (if s.solved then 1 else 0)
            && e.penalty == s.penalty && e.wrongAttemptCount == s.wrong && e.bestSubmitTime == s.time
            && e.attemptCount == FirstAC(runs) + (if s.solved then 1 else 0)
            && e.frozenResults == [] && !e.isPending
  {
    FoldIsClosed(u, p, runs, start, None, st);
    NoFreezeHidesNothing(runs);
    assert Frozen([]) == [];
  }

  /** The first AC of visible results followed by hidden ones. */
  lemma {:induction false} FirstACConcat(vis: seq<Judged>, hid: seq<Judged>, st: Settings)
    ensures var k, h, all := FirstAC(vis), FirstAC(hid), vis + hid;
            if k < |vis| then FirstAC(all) == k && all[..k] == vis[..k]
            else
              && FirstAC(all) == k + h
              && Exempt(all[..k + h], st) == Exempt(vis[..k], st) + Exempt(hid[..h], st)
              && (h < |hid| ==> all[k + h] == hid[h])
  {
    var k, h, all := FirstAC(vis), FirstAC(hid), vis + hid;
    if k < |vis| {
      FirstACUnique(all, k);
      assert all[..k] == vis[..k];
    } else {
      FirstACUnique(all, k + h);
      assert all[..k + h] == vis[..k] + hid[..h];
      ExemptAppend(vis[..k], hid[..h], st);
    }
  }

  lemma {:induction false} ThawFrozen(hid: seq<Judged>)
    ensures FirstAC(Thaw(Frozen(hid))) == FirstAC(hid)
  {
    FirstACUnique(Thaw(Frozen(hid)), FirstAC(hid));
  }

  lemma CostOfExtra(t: Time, start: Time, wrong: int, extra: int, st: Settings)
    ensures SolveCost(t, start, wrong + extra, st) == SolveCost(t, start, wrong, st) + extra * st.penaltyMinutes
  {
  }

  lemma {:induction false} PartsConcat(vis: seq<Judged>, hid: seq<Judged>, st: Settings)
    ensures SolvedAt(vis + hid) == if SolvedAt(vis).Some? then SolvedAt(vis) else SolvedAt(hid)
    ensures Penalised(vis + hid, st) == Penalised(vis, st) + if SolvedAt(vis).Some? then 0 else Penalised(hid, st)
  {
    FirstACConcat(vis, hid, st);
  }

  /** The rule on visible results followed by hidden ones. */
  lemma {:induction false} RuleConcat(vis: seq<Judged>, hid: seq<Judged>, start: Time, st: Settings)
    ensures IcpcRule(vis + hid, start, st) ==
              if SolvedAt(vis).Some? then IcpcRule(vis, start, st)
              else ScoreOf(SolvedAt(hid), Penalised(vis, st) + Penalised(hid, st), start, st)
  {
    PartsConcat(vis, hid, st);
  }

  /** Revealing a pending cell that has shown nothing but wrong attempts so far. */
  lemma {:induction false} RevealedPending(e: ScoreEntry, hid: seq<Judged>, start: Time, st: Settings)
    requires CellInv(e) && !e.accepted && e.frozenResults == Frozen(hid)
    requires e.displayScore == 0 && e.penalty == 0 && e.bestSubmitTime == ZERO_TIME && e.wrongAttemptCount >= 0
    ensures var h := FirstAC(hid);
            var extra := Exempt(hid[..h], st);
            Shows(RevealAll(e, start, st), ScoreOf(SolvedAt(hid), e.wrongAttemptCount + Penalised(hid, st), start, st),
                extra, st)
  {
    RevealAllClosed(e, start, st);
    ThawFrozen(hid);
    var h := FirstAC(hid);
    if h < |hid| {
      var extra := Exempt(hid[..h], st);
      CostOfExtra(hid[h].submitTime, start, e.wrongAttemptCount + (h - extra), extra, st);
    }
  }

  lemma {:induction false} RevealedClosed(u: ID, p: ID, vis: seq<Judged>, hid: seq<Judged>, start: Time, st: Settings)
    ensures var shown := RevealAll(Closed(u, p, vis, hid, start, st), start, st);
            var s := IcpcRule(vis + hid, start, st);
            var extra := if FirstAC(vis) < |vis| then 0 else Exempt(hid[..FirstAC(hid)], st);
            Shows(shown, s, extra, st)
  {
    var e := Closed(u, p, vis, hid, start, st);
    RuleConcat(vis, hid, start, st);
    if !e.accepted {
      RevealedPending(e, hid, start, st);
    }
  }

  /** A fully revealed cell against the public rule on its visible results followed by its hidden ones. */
  lemma {:induction false} RevealedFollowsRule(u: ID, p: ID, runs: seq<Judged>, start: Time, freeze: Option<Time>,
      st: Settings)
    requires runs != []
    ensures var shown := RevealAll(Fold(u, p, runs, start, freeze, st).value, start, st);
            var s := IcpcRule(Visible(runs, freeze) + Hidden(runs, freeze), start, st);
            Shows(shown, s, ReplayedExempt(runs, freeze, st), st)
  {
    FoldIsClosed(u, p, runs, start, freeze, st);
    RevealedClosed(u, p, Visible(runs, freeze), Hidden(runs, freeze), start, st);
  }

  /** Freezing a cell and revealing everything, against never having frozen it, for every arrival
      order: the verdict, the display score and the solving instant always agree; each replayed
      exempt compile error adds one wrong attempt (and its penalty when the cell ends up solved),
      because the reveal does not consult the compile-error policy. So the two displays agree
      exactly when none is replayed. */
  lemma {:induction false} FreezeThenReveal(u: ID, p: ID, runs: seq<Judged>, start: Time, freeze: Option<Time>,
      st: Settings)
    requires runs != []
    ensures Visible(runs, freeze) + Hidden(runs, freeze) != []
    ensures var shown := RevealAll(Fold(u, p, runs, start, freeze, st).value, start, st);
            var plain := Fold(u, p, Visible(runs, freeze) + Hidden(runs, freeze), start, None, st).value;
            var extra := ReplayedExempt(runs, freeze, st);
            && shown.accepted == plain.accepted
            && shown.displayScore == plain.displayScore
            && shown.bestSubmitTime == plain.bestSubmitTime
            && shown.wrongAttemptCount == plain.wrongAttemptCount + extra
            && shown.penalty == plain.penalty + (if plain.accepted then extra * st.penaltyMinutes else 0)
            && (SameDisplay(shown, plain) <==> extra == 0)
  {
    PartitionSize(runs, freeze);
    RevealedFollowsRule(u, p, runs, start, freeze, st);
    UnfrozenFollowsRule(u, p, Visible(runs, freeze) + Hidden(runs, freeze), start, st);
  }

  lemma PartitionSize(runs: seq<Judged>, freeze: Option<Time>)
    ensures |Visible(runs, freeze)| + |Hidden(runs, freeze)| == |runs|
  {
  }

  /** A frozen exempt CE before a frozen AC: shown with one wrong attempt more than without a freeze. */
  lemma FreezeThenRevealCounterexample()
    ensures var st := Settings(20, true, false);
            var runs := [Judged(CE, 0, 61 * MINUTE), Judged(Accepted, 0, 70 * MINUTE)];
            && RevealAll(Fold(1, 2, runs, 0, Some(60 * MINUTE), st).value, 0, st).penalty == 90
            && Fold(1, 2, runs, 0, None, st).value.penalty == 70
  {
    var st := Settings(20, true, false);
    var ce, ac := Judged(CE, 0, 61 * MINUTE), Judged(Accepted, 0, 70 * MINUTE);
    assert [ce, ac][..1] == [ce] && [ce][..0] == [];
    var freeze := Some(60 * MINUTE);
    var f1 := Apply(EventOf(1, 2, ce, 0, freeze), None, st);
    assert Fold(1, 2, [ce], 0, freeze, st) == Some(f1);
    var f2 := Apply(EventOf(1, 2, ac, 0, freeze), Some(f1), st);
    assert f2.frozenResults == [FrozenSubmission(CE, 61 * MINUTE), FrozenSubmission(Accepted, 70 * MINUTE)];
    var r1 := RevealNext(f2, 0, st).0;
    assert r1.frozenResults == [FrozenSubmission(Accepted, 70 * MINUTE)];
    assert RevealAll(f2, 0, st) == RevealAll(RevealNext(r1, 0, st).0, 0, st) == RevealNext(r1, 0, st).0;
    assert Fold(1, 2, [ce], 0, None, st) == Some(Apply(EventOf(1, 2, ce, 0, None), None, st));
  }

  /** Two histories that differ at most in the verdicts and scores of results hidden by the freeze. */
  predicate SameUpToHidden(a: seq<Judged>, b: seq<Judged>, freeze: Option<Time>) {
    && |a| == |b|
    && forall i :: 0 <= i < |a| ==>
         && a[i].submitTime == b[i].submitTime
         && (!IsPostFreeze(a[i].submitTime, freeze) ==> a[i] == b[i])
  }

  /** An entry with the hidden verdicts erased. */
  function Mask(e: ScoreEntry): ScoreEntry {
    e.(frozenResults := [])
  }

  lemma ApplyMasked(a: SubmissionEvent, b: SubmissionEvent, prevA: Option<ScoreEntry>, prevB: Option<ScoreEntry>,
      st: Settings)
    requires prevA.Some? <==> prevB.Some?
    requires prevA.Some? ==> Mask(prevA.value) == Mask(prevB.value)
    requires b == a.(status := b.status, score := b.score)
    requires !IsPostFreeze(a.submitTime, a.freezeTime) ==> a == b
    ensures Mask(Apply(a, prevA, st)) == Mask(Apply(b, prevB, st))
  {
    assert Mask(CloneOrNew(prevA, a)) == Mask(CloneOrNew(prevB, b));
  }

  /** Hidden verdicts never reach a stored entry, except inside the frozen results themselves. */
  lemma {:induction false} HiddenVerdictsStayHidden(u: ID, p: ID, a: seq<Judged>, b: seq<Judged>, start: Time,
      freeze: Option<Time>, st: Settings)
    requires SameUpToHidden(a, b, freeze) && a != []
    ensures Mask(Fold(u, p, a, start, freeze, st).value) == Mask(Fold(u, p, b, start, freeze, st).value)
  {
    var n := |a| - 1;
    assert SameUpToHidden(a[..n], b[..n], freeze);
    if n > 0 {
      HiddenVerdictsStayHidden(u, p, a[..n], b[..n], start, freeze, st);
    }
    ApplyMasked(EventOf(u, p, a[n], start, freeze), EventOf(u, p, b[n], start, freeze),
                Fold(u, p, a[..n], start, freeze, st), Fold(u, p, b[..n], start, freeze, st), st);
  }
}
