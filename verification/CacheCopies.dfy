/** What a refresh does to the extraction it found on disk. */
module CacheCopies {
  import opened Types
  import opened CacheModel
  import opened CacheFlight
  import opened CacheRuns

  /** The call is past its refresh. */
  predicate Left(f: Flight, t: Tid) {
    t in f.threads && (f.threads[t].Closing? || f.threads[t].Returned?)
  }

  /** While call `t` refreshes `p`, having found `dir` there: as long as it has not removed the old copy,
      that copy is in place unchanged; afterwards there is none until the new one is renamed into
      place. */
  predicate Copy(s: State, t: Tid, p: ID, dir: Dir, removed: bool) {
    || Left(s.f, t)
    || (&& InFlight(s.f, t) && s.f.threads[t].job.p == p
        && (if !removed then p in s.d.dirs && s.d.dirs[p] == dir
            else (s.f.threads[t].phase.AtRename? || s.f.threads[t].phase.AtPublish?)
                 && (p !in s.d.dirs || s.f.threads[t].phase == AtPublish(true))))
  }

  lemma {:induction false} OwnCopyStep(s: State, step: Step, p: ID, dir: Dir, removed: bool)
    requires Enabled(s, step) && IsMove(step) && Copy(s, step.t, p, dir, removed)
    ensures Copy(Next(s, step), step.t, p, dir, removed || (step.RemoveOld? && step.ok))
  {
    var j, ph := MovesOnly(s, step);
    match step {
      case RemoveOld(t, ok) =>
      case Rename(t, ok, cleaned) =>
      case _ =>
    }
  }

  lemma {:induction false} OtherProblem(f: Flight, t: Tid, u: Tid)
    requires FlightInv(f) && InFlight(f, t) && InFlight(f, u) && t != u
    ensures f.threads[t].job.p != f.threads[u].job.p
  {
    assert PcInv(f, t) && PcInv(f, u);
  }

  /** Another call's refresh concerns another problem. */
  lemma {:induction false} OtherCopyStep(s: State, step: Step, t: Tid, p: ID, dir: Dir, removed: bool)
    requires FlightInv(s.f) && Copy(s, t, p, dir, removed) && Enabled(s, step) && IsMove(step) && step.t != t
    ensures Copy(Next(s, step), t, p, dir, removed)
  {
    var j, ph := MovesOnly(s, step);
    if InFlight(s.f, t) {
      OtherProblem(s.f, t, step.t);
      OneDirectory(s, step, p);
    }
  }

  /** A refresh step changes no directory but its own problem's. */
  lemma {:induction false} OneDirectory(s: State, step: Step, p: ID)
    requires Enabled(s, step) && IsMove(step) && s.f.threads[step.t].Refreshing? && s.f.threads[step.t].job.p != p
    ensures p in Next(s, step).d.dirs <==> p in s.d.dirs
    ensures p in s.d.dirs ==> Next(s, step).d.dirs[p] == s.d.dirs[p]
  {
  }

  /** Steps outside refreshes neither move a refresh on nor touch its directory. */
  lemma {:induction false} OutsideCopyStep(s: State, step: Step, t: Tid, p: ID, dir: Dir, removed: bool)
    requires Copy(s, t, p, dir, removed) && Enabled(s, step) && !IsMove(step) && !step.Restart? && step != Delete(p)
    ensures Copy(Next(s, step), t, p, dir, removed)
  {
    var n := Next(s, step);
    assert p in n.d.dirs <==> p in s.d.dirs;
    assert p in s.d.dirs ==> n.d.dirs[p] == s.d.dirs[p];
    assert t in n.f.threads && (n.f.threads[t] == s.f.threads[t] || Left(n.f, t));
  }

  lemma {:induction false} CopyStep(s: State, step: Step, t: Tid, p: ID, dir: Dir, removed: bool)
    requires FlightInv(s.f) && Copy(s, t, p, dir, removed) && Enabled(s, step) && !step.Restart? && step != Delete(p)
    ensures Copy(Next(s, step), t, p, dir, removed || step == RemoveOld(t, true))
  {
    if !IsMove(step) {
      OutsideCopyStep(s, step, t, p, dir, removed);
    } else if step.t == t {
      OwnCopyStep(s, step, p, dir, removed);
    } else {
      OtherCopyStep(s, step, t, p, dir, removed);
    }
  }

  /** Call `t` removed the old copy somewhere in steps i to k. */
  predicate Removed(steps: seq<Step>, t: Tid, i: nat, k: nat) {
    exists m :: i <= m < k && m < |steps| && steps[m] == RemoveOld(t, true)
  }

  /** Call `t` is refreshing `p` and there is an extraction on disk. */
  predicate Refreshes(s: State, t: Tid, p: ID) {
    InFlight(s.f, t) && s.f.threads[t].job.p == p && p in s.d.dirs
  }

  /** Neither a crash nor a background deletion of `p` interferes. */
  predicate Undisturbed(steps: seq<Step>, p: ID, i: nat, k: nat) {
    forall m :: i <= m < k && m < |steps| ==> !steps[m].Restart? && steps[m] != Delete(p)
  }

  lemma {:induction false} CopyNext(trace: seq<State>, steps: seq<Step>, k: nat, t: Tid, p: ID, dir: Dir, removed: bool)
    requires IsRun(trace, steps) && k < |steps| && !steps[k].Restart? && steps[k] != Delete(p)
    requires Copy(trace[k], t, p, dir, removed)
    ensures Copy(trace[k + 1], t, p, dir, removed || steps[k] == RemoveOld(t, true))
  {
    RunStructure(trace, steps, k);
    CopyStep(trace[k], steps[k], t, p, dir, removed);
  }

  lemma {:induction false} CopyAlong(trace: seq<State>, steps: seq<Step>, i: nat, k: nat, t: Tid, p: ID, dir: Dir)
    requires IsRun(trace, steps) && i <= k < |trace| && Undisturbed(steps, p, i, k) && Copy(trace[i], t, p, dir, false)
    ensures Copy(trace[k], t, p, dir, Removed(steps, t, i, k))
    decreases k
  {
    if i < k {
      CopyAlong(trace, steps, i, k - 1, t, p, dir);
      CopyNext(trace, steps, k - 1, t, p, dir, Removed(steps, t, i, k - 1));
      RemovedStep(steps, t, i, k);
    }
  }

  lemma {:induction false} RemovedStep(steps: seq<Step>, t: Tid, i: nat, k: nat)
    requires i < k <= |steps|
    ensures Removed(steps, t, i, k) <==> Removed(steps, t, i, k - 1) || steps[k - 1] == RemoveOld(t, true)
  {
  }

  /** Over every run in which neither a crash nor a background deletion interferes: a refresh that found
      an extraction and fails leaves it unchanged if and only if it had not yet removed it, and
      otherwise leaves none. */
  lemma {:induction false} FailedRefreshKeepsCopyIff(trace: seq<State>, steps: seq<Step>, i: nat, k: nat, t: Tid, p: ID)
    requires IsRun(trace, steps) && i <= k < |trace| && Refreshes(trace[i], t, p) && Undisturbed(steps, p, i, k)
    requires At(trace[k].f, t, AtPublish(false))
    ensures (p in trace[k].d.dirs && trace[k].d.dirs[p] == trace[i].d.dirs[p]) <==> !Removed(steps, t, i, k)
    ensures Removed(steps, t, i, k) ==> p !in trace[k].d.dirs
  {
    CopyAlong(trace, steps, i, k, t, p, trace[i].d.dirs[p]);
  }
}
