/** Schedules under which background deletions are harmless, and what goes wrong under the others. */
module CacheSchedule {
  import opened Types
  import opened CacheModel
  import opened CacheLru
  import opened CacheFlight
  import opened CacheDisk
  import opened CacheSound
  import opened CacheRuns

  // ------------------------------------------------------------------ a condition on the schedule

  /** The problems a publication evicts. */
  function EvictedBy(s: State, t: Tid): set<ID>
    requires t in s.f.threads && s.f.threads[t].Refreshing? && s.f.threads[t].phase.AtPublish?
  {
    if s.f.threads[t].phase.ok then Ids(PromoteEvicts(s.l, EntryOf(s, s.f.threads[t].job), s.max)) else {}
  }

  /** What the locks and the callers can see: the object does not change between a refresh's Stat and its
      download, no problem is requested while its deletion is pending, and none is evicted or replaced
      while it is being refreshed or a call that was promised it has not returned. */
  ghost predicate Timely(s: State, step: Step)
    requires Enabled(s, step)
  {
    && (step.Upload? && step.p in s.f.inProgress ==>
          !At(s.f, s.f.inProgress[step.p], AtReadTag) && !At(s.f, s.f.inProgress[step.p], AtFetch))
    && (step.Call? ==> step.p !in s.x.pending)
    && (step.Publish? ==> forall p :: p in EvictedBy(s, step.t) ==> p !in s.f.inProgress && !Awaited(s.f, p))
    && (Replaces(s, step) ==> !Awaited(s.f, s.f.threads[step.t].job.p))
  }

  /** No problem whose deletion is pending is listed, being refreshed, or promised to a call. */
  ghost predicate Quiet(s: State) {
    forall p :: p in s.x.pending ==> p !in s.l.index && p !in s.f.inProgress && !Awaited(s.f, p)
  }

  /** A publication promises its own problem, and nothing else. */
  lemma {:induction false} PublishAwaited(s: State, t: Tid, u: Tid, p: ID)
    requires FlightInv(s.f) && Enabled(s, Publish(t)) && p != s.f.threads[t].job.p
    ensures Owed(Next(s, Publish(t)).f, u, p) ==> Owed(s.f, u, p)
  {
    assert PcInv(s.f, t);
    if u in s.f.threads { assert PcInv(s.f, u); }
  }

  lemma {:induction false} PublishQuiet(s: State, t: Tid)
    requires Structure(s) && Quiet(s) && Enabled(s, Publish(t)) && Timely(s, Publish(t))
    ensures Quiet(Next(s, Publish(t)))
  {
    var n := Next(s, Publish(t));
    forall p | p in n.x.pending ensures p !in n.l.index && p !in n.f.inProgress && !Awaited(n.f, p) {
      PublishPending(s, t, p);
      forall u ensures !Owed(n.f, u, p) { PublishAwaited(s, t, u, p); }
    }
  }

  /** What is pending after a publication was pending before or is evicted, is not listed, and is not the
      published problem. */
  lemma {:induction false} PublishPending(s: State, t: Tid, p: ID)
    requires Structure(s) && Quiet(s) && Enabled(s, Publish(t)) && p in Next(s, Publish(t)).x.pending
    ensures p in s.x.pending || p in EvictedBy(s, t)
    ensures p !in Next(s, Publish(t)).l.index && p != s.f.threads[t].job.p
  {
    var e := EntryOf(s, s.f.threads[t].job);
    assert PcInv(s.f, t);
    EvictedPending(PromoteEvicts(s.l, e, s.max));
    PromotedOk(s.l, e, s.max);
  }

  lemma {:induction false} RestartQuiet(s: State, order: seq<ID>)
    requires s.max >= 1 && Enabled(s, Restart(order))
    ensures Quiet(Next(s, Restart(order)))
  {
    var l := Found(order);
    EvictedPending(Evicted(l, s.max));
    SplitFacts(l, s.max, 0);
  }

  lemma {:induction false} MoveQuiet(s: State, step: Step)
    requires Quiet(s) && Enabled(s, step) && IsMove(step)
    ensures Quiet(Next(s, step))
  {
    var n := Next(s, step);
    MovesKeepIndex(s, step);
    var j, ph := MovesOnly(s, step);
    assert n.x == s.x;
    forall p, u | p in n.x.pending ensures !Owed(n.f, u, p) { assert Owed(n.f, u, p) ==> Owed(s.f, u, p); }
  }

  /** A call promises a problem only by hitting it in the list. */
  lemma {:induction false} CallQuiet(s: State, t: Tid, p: ID)
    requires FlightInv(s.f) && Quiet(s) && Enabled(s, Call(t, p)) && Timely(s, Call(t, p))
    ensures Quiet(Next(s, Call(t, p)))
  {
    var n := Next(s, Call(t, p));
    if p in s.f.inProgress { assert PcInv(s.f, s.f.inProgress[p]); }
    forall q, u | q in n.x.pending ensures !Owed(n.f, u, q) {
      if u in s.f.threads { assert PcInv(s.f, u); }
      if u != t && Owed(n.f, u, q) { assert Owed(s.f, u, q); }
    }
  }

  /** The other steps list and promise nothing, and hand nothing to deletion. */
  lemma {:induction false} OthersQuiet(s: State, step: Step)
    requires FlightInv(s.f) && Quiet(s) && Enabled(s, step) && !IsMove(step) && !step.Publish? && !step.Restart? &&
               !step.Call?
    ensures Quiet(Next(s, step))
  {
    var n := Next(s, step);
    OthersKeepAccounts(s, step);
    forall p, u | p in n.x.pending ensures !Owed(n.f, u, p) { OthersPromise(s, step, u, p); }
  }

  lemma {:induction false} OthersPromise(s: State, step: Step, u: Tid, p: ID)
    requires FlightInv(s.f) && Enabled(s, step)
    requires !IsMove(step) && !step.Publish? && !step.Restart? && !step.Call?
    ensures Owed(Next(s, step).f, u, p) ==> Owed(s.f, u, p)
  {
    if step.Close? { assert PcInv(s.f, step.t); }
  }

  lemma {:induction false} QuietKept(s: State, step: Step)
    requires Structure(s) && Quiet(s) && Enabled(s, step) && Timely(s, step)
    ensures Quiet(Next(s, step))
  {
    if IsMove(step) {
      MoveQuiet(s, step);
    } else if step.Publish? {
      PublishQuiet(s, step.t);
    } else if step.Restart? {
      RestartQuiet(s, step.order);
    } else if step.Call? {
      CallQuiet(s, step.t, step.p);
    } else {
      OthersQuiet(s, step);
    }
  }

  /** So no deletion ever fires under a directory that is relied upon. */
  lemma {:induction false} TimelyIsCareful(s: State, step: Step)
    requires Structure(s) && Quiet(s) && Enabled(s, step) && Timely(s, step)
    ensures Careful(s, step)
  {
    forall e | e in s.l.lru ensures e.p in s.l.index { ListedOnce(s.l.lru, Tick(s), e); }
  }

  ghost predicate TimelyRun(trace: seq<State>, steps: seq<Step>) {
    IsRun(trace, steps) && forall k :: 0 <= k < |steps| ==> Timely(trace[k], steps[k])
  }

  lemma {:induction false} RunTimely(trace: seq<State>, steps: seq<Step>, i: nat)
    requires TimelyRun(trace, steps) && i < |trace|
    ensures Quiet(trace[i]) && Sound(trace[i])
  {
    if i > 0 {
      RunTimely(trace, steps, i - 1);
      RunStructure(trace, steps, i - 1);
      TimelyIsCareful(trace[i - 1], steps[i - 1]);
      QuietKept(trace[i - 1], steps[i - 1]);
      SoundKept(trace[i - 1], steps[i - 1]);
    }
  }

  /** On every timely schedule, what was in the directory when a call returned it without error was, at a
      moment of the refresh that validated it, the content current in the store. */
  lemma {:induction false} TimelyReturnsCurrentContent(trace: seq<State>, steps: seq<Step>, i: nat, t: Tid)
    requires TimelyRun(trace, steps) && i < |trace|
    requires t in trace[i].f.threads && trace[i].f.threads[t].Returned? && trace[i].f.threads[t].out.Ok?
    ensures var r := trace[i].f.threads[t];
            Seen(trace[i].w, r.p, r.out.began, r.out.stat, r.content)
  {
    RunTimely(trace, steps, i);
    assert ThreadSound(trace[i], t);
  }

  // ------------------------------------------------------------------ when a deletion does harm

  /** The steps lead from `s` to `n` without a further mishap. */
  ghost predicate CarefulPath(s: State, steps: seq<Step>, n: State)
    decreases steps
  {
    if steps == [] then n == s
    else Enabled(s, steps[0]) && Careful(s, steps[0]) && CarefulPath(Next(s, steps[0]), steps[1..], n)
  }

  /** Call `t` was handed, as a success, a directory that is not there. */
  predicate ServedNothing(f: Flight, t: Tid) {
    t in f.threads && f.threads[t].Returned? && f.threads[t].out.Ok? && f.threads[t].content == None
  }

  predicate ServesContent(s: State) {
    forall t :: t in s.f.threads ==> !ServedNothing(s.f, t)
  }

  /** And none ever will be, as long as no further deletion or upload interferes. */
  ghost predicate AlwaysServes(s: State) {
    forall steps: seq<Step>, n: State :: CarefulPath(s, steps, n) ==> ServesContent(n)
  }

  lemma {:induction false} PathServes(s: State, steps: seq<Step>, n: State)
    requires Structure(s) && Sound(s) && CarefulPath(s, steps, n)
    ensures ServesContent(n)
    decreases steps
  {
    if steps == [] {
      forall t | t in s.f.threads ensures !ServedNothing(s.f, t) { assert ThreadSound(s, t); }
    } else {
      StructureKept(s, steps[0]);
      SoundKept(s, steps[0]);
      PathServes(Next(s, steps[0]), steps[1..], n);
    }
  }

  lemma {:induction false} FreshTid(used: set<Tid>) returns (t: Tid)
    ensures forall u :: u in used ==> u < t
  {
    t := 0;
    var todo := used;
    while todo != {}
      invariant todo <= used && forall u :: u in used && u !in todo ==> u < t
      decreases |todo|
    {
      SomeMember(todo);
      var u :| u in todo;
      todo := todo - {u};
      t := if u < t then t else u + 1;
    }
  }

  /** A listed, fresh entry: the very next call is handed the missing directory. */
  lemma {:induction false} RacyDeleteServesNothing(s: State, p: ID, t: Tid)
    requires Structure(s) && p in s.x.pending && t !in s.f.threads && Hit(s, p)
    ensures var n := Next(s, Delete(p));
            && Enabled(n, Call(t, p)) && Enabled(Next(n, Call(t, p)), Leave(t))
            && ServedNothing(Next(Next(n, Call(t, p)), Leave(t)).f, t)
  {
    var n := Next(s, Delete(p));
    assert Hit(n, p);
    assert Next(n, Call(t, p)).f.threads[t].Leaving?;
  }

  /** A refresh that has validated or landed the directory: it publishes the missing directory itself. */
  lemma {:induction false} RacyDeletePublishesNothing(s: State, t: Tid)
    requires FlightInv(s.f) && At(s.f, t, AtPublish(true)) && s.f.threads[t].job.p !in s.d.dirs
    ensures Enabled(s, Publish(t)) && Enabled(Next(s, Publish(t)), Close(t))
    ensures ServedNothing(Next(Next(s, Publish(t)), Close(t)).f, t)
  {
    assert PcInv(s.f, t);
  }

  /** A call that was promised the directory and has not returned: it, or the owner of the slot it waits
      on, returns the missing directory at once. */
  lemma {:induction false} RacyDeleteReturnsNothing(s: State, t: Tid, p: ID) returns (step: Step)
    requires FlightInv(s.f) && Owed(s.f, t, p) && p !in s.d.dirs
    ensures step.Leave? || step.Wake? || step.Close?
    ensures Enabled(s, step) && ServedNothing(Next(s, step).f, step.t)
  {
    assert PcInv(s.f, t);
    var pc := s.f.threads[t];
    if pc.Leaving? {
      step := Leave(t);
    } else if pc.Closing? {
      step := Close(t);
    } else {
      assert SlotInv(s.f, pc.slot);
      if s.f.slots[pc.slot].done {
        step := Wake(t);
      } else {
        assert PcInv(s.f, pc.slot);
        step := Close(pc.slot);
      }
    }
  }

  lemma {:induction false} OneStepPath(s: State, a: Step)
    requires Enabled(s, a) && Careful(s, a)
    ensures CarefulPath(s, [a], Next(s, a))
  {
    assert [a][1..] == [];
  }

  lemma {:induction false} StepOnPath(s: State, a: Step, rest: seq<Step>, n: State)
    requires Enabled(s, a) && Careful(s, a) && CarefulPath(Next(s, a), rest, n)
    ensures CarefulPath(s, [a] + rest, n)
  {
    assert ([a] + rest)[1..] == rest;
  }

  lemma {:induction false} PublishingServesNothing(s: State, t: Tid) returns (steps: seq<Step>, n: State)
    requires FlightInv(s.f) && At(s.f, t, AtPublish(true)) && s.f.threads[t].job.p !in s.d.dirs
    ensures CarefulPath(s, steps, n) && !ServesContent(n)
  {
    RacyDeletePublishesNothing(s, t);
    var m := Next(s, Publish(t));
    n := Next(m, Close(t));
    OneStepPath(m, Close(t));
    StepOnPath(s, Publish(t), [Close(t)], n);
    steps := [Publish(t)] + [Close(t)];
  }

  /** Firing a deletion under a directory that is relied upon makes some continuation hand out nothing. */
  lemma {:induction false} ReliedDeleteHarms(s: State, p: ID) returns (steps: seq<Step>, n: State)
    requires Structure(s) && p in s.x.pending && Relied(s, p)
    ensures CarefulPath(Next(s, Delete(p)), steps, n) && !ServesContent(n)
  {
    var d := Next(s, Delete(p));
    StructureKept(s, Delete(p));
    if e :| e in s.l.lru && e.p == p && Fresh(s.w.now, e) {
      ListedOnce(s.l.lru, Tick(s), e);
      var t := FreshTid(s.f.threads.Keys);
      RacyDeleteServesNothing(s, p, t);
      var h := Next(d, Call(t, p));
      n := Next(h, Leave(t));
      OneStepPath(h, Leave(t));
      StepOnPath(d, Call(t, p), [Leave(t)], n);
      steps := [Call(t, p)] + [Leave(t)];
    } else if t :| Owed(s.f, t, p) {
      var step := RacyDeleteReturnsNothing(d, t, p);
      OneStepPath(d, step);
      steps, n := [step], Next(d, step);
    } else {
      var t := s.f.inProgress[p];
      assert PcInv(s.f, t);
      if At(s.f, t, AtPublish(true)) {
        steps, n := PublishingServesNothing(d, t);
      } else {
        var v := Next(d, Validate(t));
        StructureKept(d, Validate(t));
        var rest;
        rest, n := PublishingServesNothing(v, t);
        StepOnPath(d, Validate(t), rest, n);
        steps := [Validate(t)] + rest;
      }
    }
  }

  /** A pending deletion may fire exactly when nothing relies on the directory: then, and only then, no
      careful continuation ever hands out a missing directory. */
  lemma {:induction false} DeleteSafeIff(s: State, p: ID)
    requires Structure(s) && Sound(s) && p in s.x.pending
    ensures !Relied(s, p) <==> AlwaysServes(Next(s, Delete(p)))
  {
    var d := Next(s, Delete(p));
    if Relied(s, p) {
      var path, end := ReliedDeleteHarms(s, p);
      assert CarefulPath(d, path, end);
    } else {
      EnvironmentSound(s, Delete(p));
      StructureKept(s, Delete(p));
      forall steps, n | CarefulPath(d, steps, n) ensures ServesContent(n) { PathServes(d, steps, n); }
    }
  }
}
