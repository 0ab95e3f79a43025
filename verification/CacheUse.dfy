/** What happens to a directory after it was returned, while its caller works in it. */
module CacheUse {
  import opened Types
  import opened CacheModel
  import opened CacheLru
  import opened CacheFlight
  import opened CacheSound
  import opened CacheRuns
  import opened CacheSchedule

  /** The caller of `t` works in the directory of `p`, and found content there. */
  predicate Uses(f: Flight, t: Tid, p: ID) {
    && t in f.threads && f.threads[t].Returned? && f.threads[t].p == p && f.threads[t].out.Ok? && f.threads[t].open
    && f.threads[t].content.Some?
  }

  ghost predicate InUse(f: Flight, p: ID) {
    exists t :: Uses(f, t, p)
  }

  /** Every caller still finds what was there when its call returned. */
  ghost predicate Undisturbed(s: State) {
    forall t, p :: Uses(s.f, t, p) ==> DiskContent(s.d, p) == s.f.threads[t].content
  }

  /** A background deletion, or the removal of the old directory by a refresh, hits a directory in use. */
  ghost predicate Disturbs(s: State, step: Step) {
    (step.Delete? && InUse(s.f, step.p)) || (Replaces(s, step) && InUse(s.f, s.f.threads[step.t].job.p))
  }

  /** A caller works in the directory until it finishes, short of a crash. */
  lemma {:induction false} OpenUntilFinish(s: State, step: Step, t: Tid)
    requires Enabled(s, step) && !step.Restart? && t in s.f.threads && s.f.threads[t].Returned?
    ensures Next(s, step).f.threads[t] == s.f.threads[t].(open := s.f.threads[t].open && step != Finish(t))
  {
  }

  /** Only those two steps take a directory off the disk, and only a rename puts one there. */
  lemma {:induction false} DirectoryStays(s: State, step: Step, p: ID)
    requires Enabled(s, step) && p in s.d.dirs
    requires step != Delete(p) && !(Replaces(s, step) && s.f.threads[step.t].job.p == p)
    ensures DiskContent(Next(s, step).d, p) == DiskContent(s.d, p)
  {
    match step {
      case RemoveOld(_, _) =>
      case Rename(_, _, _) =>
      case Delete(_) =>
      case _ =>
    }
  }

  /** A caller that starts to work in a directory was promised it, and has just found its content there. */
  lemma {:induction false} UsersStep(s: State, step: Step, t: Tid, p: ID)
    requires FlightInv(s.f) && Enabled(s, step) && Uses(Next(s, step).f, t, p)
    ensures var n := Next(s, step);
            || (Uses(s.f, t, p) && s.f.threads[t].content == n.f.threads[t].content)
            || (Owed(s.f, t, p) && n.d == s.d && n.x == s.x && n.f.threads[t].content == DiskContent(s.d, p))
  {
    if IsMove(step) {
      var j, ph := MovesOnly(s, step);
    } else if step.Wake? || step.Leave? || step.Close? {
      assert PcInv(s.f, step.t);
    }
  }

  lemma {:induction false} KeptUndisturbed(s: State, step: Step)
    requires FlightInv(s.f) && Undisturbed(s) && Enabled(s, step) && !Disturbs(s, step)
    ensures Undisturbed(Next(s, step))
  {
    var n := Next(s, step);
    forall t, p | Uses(n.f, t, p) ensures DiskContent(n.d, p) == n.f.threads[t].content {
      UsersStep(s, step, t, p);
      if Uses(s.f, t, p) {
        assert InUse(s.f, p);
        DirectoryStays(s, step, p);
      }
    }
  }

  /** A step takes a directory away from under a caller that works in it if and only if it is a deletion
      or a replacement of a directory in use. */
  lemma {:induction false} DisturbedIff(s: State, step: Step)
    requires FlightInv(s.f) && Undisturbed(s) && Enabled(s, step)
    ensures Undisturbed(Next(s, step)) <==> !Disturbs(s, step)
  {
    var n := Next(s, step);
    if Disturbs(s, step) {
      var p := if step.Delete? then step.p else s.f.threads[step.t].job.p;
      var t :| Uses(s.f, t, p);
      assert Uses(n.f, t, p) && DiskContent(n.d, p) == None;
    } else {
      KeptUndisturbed(s, step);
    }
  }

  // ------------------------------------------------------------------ a condition on the schedule

  /** Besides being timely, no publication evicts and no refresh replaces a problem in use. */
  ghost predicate Patient(s: State, step: Step)
    requires Enabled(s, step)
  {
    && Timely(s, step)
    && (step.Publish? ==> forall p :: p in EvictedBy(s, step.t) ==> !InUse(s.f, p))
    && (Replaces(s, step) ==> !InUse(s.f, s.f.threads[step.t].job.p))
  }

  /** No directory pending deletion is in use. */
  ghost predicate Calm(s: State) {
    forall p :: p in s.x.pending ==> !InUse(s.f, p)
  }

  lemma {:induction false} CalmKept(s: State, step: Step)
    requires Structure(s) && Quiet(s) && Calm(s) && Enabled(s, step) && Patient(s, step)
    ensures Calm(Next(s, step))
  {
    var n := Next(s, step);
    forall p, t | p in n.x.pending ensures !Uses(n.f, t, p) {
      if Uses(n.f, t, p) {
        UsersStep(s, step, t, p);
        PendingStep(s, step, p);
        assert if Uses(s.f, t, p) then InUse(s.f, p) else Awaited(s.f, p);
      }
    }
  }

  /** A problem becomes pending only by being evicted, or by pruning after a crash. */
  lemma {:induction false} PendingStep(s: State, step: Step, p: ID)
    requires Structure(s) && Enabled(s, step) && p in Next(s, step).x.pending
    ensures p in s.x.pending || (step.Publish? && p in EvictedBy(s, step.t)) || step.Restart?
  {
    if step.Publish? {
      EvictedPending(PromoteEvicts(s.l, EntryOf(s, s.f.threads[step.t].job), s.max));
    }
  }

  ghost predicate PatientRun(trace: seq<State>, steps: seq<Step>) {
    IsRun(trace, steps) && forall k :: 0 <= k < |steps| ==> Patient(trace[k], steps[k])
  }

  lemma {:induction false} RunPatient(trace: seq<State>, steps: seq<Step>, i: nat)
    requires PatientRun(trace, steps) && i < |trace|
    ensures Calm(trace[i]) && Undisturbed(trace[i])
  {
    if i > 0 {
      RunPatient(trace, steps, i - 1);
      RunStructure(trace, steps, i - 1);
      RunTimely(trace, steps, i - 1);
      PatientStep(trace[i - 1], steps[i - 1]);
    }
  }

  lemma {:induction false} PatientStep(s: State, step: Step)
    requires Structure(s) && Quiet(s) && Calm(s) && Undisturbed(s) && Enabled(s, step) && Patient(s, step)
    ensures Calm(Next(s, step)) && Undisturbed(Next(s, step))
  {
    CalmKept(s, step);
    DisturbedIff(s, step);
  }

  /** On every patient schedule, from the moment a call returns until its caller is done, the directory
      holds what was current in the store at a moment of the refresh that validated it. */
  lemma {:induction false} UserSeesValidatedContent(trace: seq<State>, steps: seq<Step>, i: nat, t: Tid, p: ID)
    requires PatientRun(trace, steps) && i < |trace| && Uses(trace[i].f, t, p)
    ensures var r := trace[i].f.threads[t];
            Seen(trace[i].w, p, r.out.began, r.out.stat, DiskContent(trace[i].d, p))
  {
    RunPatient(trace, steps, i);
    TimelyReturnsCurrentContent(trace, steps, i, t);
  }
}
