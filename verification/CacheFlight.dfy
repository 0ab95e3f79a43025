/** Single flight: at most one refresh per problem, and every waiter gets its downloader's result. */
module CacheFlight {
  import opened Types
  import opened CacheModel

  predicate InFlight(f: Flight, t: Tid) {
    t in f.threads && f.threads[t].Refreshing?
  }

  /** What a call's position says about the slots and the in-progress table. */
  predicate PcInv(f: Flight, t: Tid)
    requires t in f.threads
  {
    match f.threads[t]
    case Refreshing(j, _) =>
      j.p in f.inProgress && f.inProgress[j.p] == t && t in f.slots && f.slots[t] == Slot(j.p, None, false)
    case Closing(p) => t in f.slots && f.slots[t].p == p && f.slots[t].result.Some? && !f.slots[t].done
    case Waiting(p, u) => u in f.slots && f.slots[u].p == p
    case Leaving(p, out) => t !in f.slots
    case Returned(p, out, None, _, _) => t !in f.slots
    case Returned(p, out, Some(u), _, _) => u in f.slots && f.slots[u] == Slot(p, Some(out), true)
  }

  /** Every slot belongs to a call that is still refreshing, about to close it, or has closed it. */
  predicate SlotInv(f: Flight, u: Tid)
    requires u in f.slots
  {
    && u in f.threads
    && (f.slots[u].result.None? ==> f.threads[u].Refreshing?)
    && (f.slots[u].result.Some? && !f.slots[u].done ==> f.threads[u].Closing?)
    && (f.slots[u].done ==> f.slots[u].result.Some? && f.threads[u].Returned?)
  }

  /** `inProgress` holds exactly the problems with an active downloader, and names it. */
  predicate FlightInv(f: Flight) {
    && (forall p :: p in f.inProgress ==> InFlight(f, f.inProgress[p]) && f.threads[f.inProgress[p]].job.p == p)
    && (forall t :: t in f.threads ==> PcInv(f, t))
    && (forall u :: u in f.slots ==> SlotInv(f, u))
  }

  /** At most one refresh per problem is active. */
  lemma SingleFlight(f: Flight, t: Tid, u: Tid)
    requires FlightInv(f) && InFlight(f, t) && InFlight(f, u) && f.threads[t].job.p == f.threads[u].job.p
    ensures t == u
  {
    assert PcInv(f, t) && PcInv(f, u);
  }

  /** A waiter's slot is either still being refreshed, about to be closed by its owner, or closed and
      then the waiter can return the owner's result at once. */
  lemma NoLostWaiter(s: State, t: Tid)
    requires FlightInv(s.f) && t in s.f.threads && s.f.threads[t].Waiting?
    ensures var u := s.f.threads[t].slot;
            u in s.f.threads && (s.f.threads[u].Refreshing? || s.f.threads[u].Closing? || Enabled(s, Wake(t)))
  {
    var u := s.f.threads[t].slot;
    assert PcInv(s.f, t);
    assert SlotInv(s.f, u);
  }

  lemma {:induction false} MoveKeepsFlight(f: Flight, t: Tid, j: Job, ph: Phase)
    requires FlightInv(f) && InFlight(f, t) && f.threads[t].job.p == j.p
    ensures FlightInv(Goto(f, t, Refreshing(j, ph)))
  {
    var n := Goto(f, t, Refreshing(j, ph));
    assert PcInv(f, t);
    forall u | u in n.threads ensures PcInv(n, u) { if u != t { assert PcInv(f, u); } }
    forall u | u in n.slots ensures SlotInv(n, u) { assert SlotInv(f, u); }
  }

  /** A call that needs no slot of its own: a hit, or joining the downloader of its problem. */
  lemma {:induction false} JoinKeepsFlight(f: Flight, t: Tid, pc: Pc)
    requires FlightInv(f) && t !in f.threads
    requires pc.Leaving? || (pc.Waiting? && pc.slot in f.slots && f.slots[pc.slot].p == pc.p)
    ensures FlightInv(Goto(f, t, pc))
  {
    var n := Goto(f, t, pc);
    forall u | u in f.slots ensures u != t && SlotInv(n, u) { assert SlotInv(f, u); }
    forall u | u in f.threads ensures PcInv(n, u) { assert PcInv(f, u); }
    assert PcInv(n, t);
  }

  lemma {:induction false} CallKeepsFlight(s: State, t: Tid, p: ID)
    requires FlightInv(s.f) && t !in s.f.threads
    ensures FlightInv(DoCall(s, t, p).f)
  {
    var f, n := s.f, DoCall(s, t, p).f;
    if n.threads[t].Refreshing? {
      forall u | u in f.slots ensures u != t && SlotInv(n, u) { assert SlotInv(f, u); }
      forall u | u in f.threads ensures PcInv(n, u) { assert PcInv(f, u); }
    } else {
      if p in f.inProgress { assert PcInv(f, f.inProgress[p]); }
      JoinKeepsFlight(f, t, n.threads[t]);
    }
  }

  /** A call that is not refreshing moves on, in accordance with the slots. */
  lemma {:induction false} StandKeepsFlight(f: Flight, t: Tid, pc: Pc)
    requires FlightInv(f) && t in f.threads && !f.threads[t].Refreshing? && PcInv(Goto(f, t, pc), t)
    requires t in f.slots ==> SlotInv(Goto(f, t, pc), t)
    ensures FlightInv(Goto(f, t, pc))
  {
    var n := Goto(f, t, pc);
    forall v | v in n.threads && v != t ensures PcInv(n, v) { assert PcInv(f, v); }
    forall v | v in n.slots && v != t ensures SlotInv(n, v) { assert SlotInv(f, v); }
    forall q | q in n.inProgress ensures InFlight(n, n.inProgress[q]) && n.threads[n.inProgress[q]].job.p == q {
      assert InFlight(f, f.inProgress[q]);
    }
  }

  lemma {:induction false} WakeKeepsFlight(s: State, t: Tid)
    requires FlightInv(s.f) && Enabled(s, Wake(t))
    ensures FlightInv(Effect(s, Wake(t)).f)
  {
    var pc := s.f.threads[t];
    var out := s.f.slots[pc.slot].result.value;
    assert PcInv(s.f, t);
    if t in s.f.slots { assert SlotInv(s.f, t); }
    StandKeepsFlight(s.f, t, Back(s.d, pc.p, out, Some(pc.slot)));
  }

  lemma {:induction false} LeaveKeepsFlight(s: State, t: Tid)
    requires FlightInv(s.f) && Enabled(s, Leave(t))
    ensures FlightInv(Effect(s, Leave(t)).f)
  {
    assert PcInv(s.f, t);
    StandKeepsFlight(s.f, t, Back(s.d, s.f.threads[t].p, s.f.threads[t].out, None));
  }

  lemma {:induction false} FinishKeepsFlight(s: State, t: Tid)
    requires FlightInv(s.f) && Enabled(s, Finish(t))
    ensures FlightInv(Effect(s, Finish(t)).f)
  {
    assert PcInv(s.f, t);
    if t in s.f.slots { assert SlotInv(s.f, t); }
    StandKeepsFlight(s.f, t, s.f.threads[t].(open := false));
  }

  lemma {:induction false} PublishKeepsFlight(s: State, t: Tid)
    requires FlightInv(s.f) && Enabled(s, Publish(t))
    ensures FlightInv(Effect(s, Publish(t)).f)
  {
    var f, n := s.f, Effect(s, Publish(t)).f;
    assert PcInv(f, t);
    forall u | u in n.slots ensures SlotInv(n, u) { assert SlotInv(f, u); }
    forall u | u in n.threads ensures PcInv(n, u) { assert PcInv(f, u); }
  }

  lemma {:induction false} CloseKeepsFlight(s: State, t: Tid)
    requires FlightInv(s.f) && Enabled(s, Close(t))
    ensures FlightInv(Effect(s, Close(t)).f)
  {
    var f, n := s.f, Effect(s, Close(t)).f;
    assert PcInv(f, t);
    forall u | u in n.slots ensures SlotInv(n, u) { assert SlotInv(f, u); }
    forall u | u in n.threads ensures PcInv(n, u) { assert PcInv(f, u); }
  }

  /** The steps inside a refresh that only move its thread. */
  predicate IsMove(step: Step) {
    step.Stat? || step.ReadTag? || step.Validate? || step.Fetch? || step.Stage? || step.Extract? || step.WriteTag?
    || step.RemoveOld? || step.Rename?
  }

  /** They stay on the same problem, in the same call, and never leave the publishing phase. */
  lemma {:induction false} MovesOnly(s: State, step: Step) returns (j: Job, ph: Phase)
    requires Enabled(s, step) && IsMove(step)
    ensures InFlight(s.f, step.t) && !s.f.threads[step.t].phase.AtPublish? && j.p == s.f.threads[step.t].job.p
    ensures Effect(s, step).f == Goto(s.f, step.t, Refreshing(j, ph))
  {
    var pc := Effect(s, step).f.threads[step.t];
    j, ph := pc.job, pc.phase;
  }

  lemma {:induction false} FlightKept(s: State, step: Step)
    requires FlightInv(s.f) && Enabled(s, step)
    ensures FlightInv(Next(s, step).f)
  {
    if IsMove(step) {
      var j, ph := MovesOnly(s, step);
      MoveKeepsFlight(s.f, step.t, j, ph);
    } else {
      match step {
        case Call(t, p) => CallKeepsFlight(s, t, p);
        case Wake(t) => WakeKeepsFlight(s, t);
        case Leave(t) => LeaveKeepsFlight(s, t);
        case Finish(t) => FinishKeepsFlight(s, t);
        case Publish(t) => PublishKeepsFlight(s, t);
        case Close(t) => CloseKeepsFlight(s, t);
        case _ =>
      }
    }
  }

  /** A published result never changes (short of a crash), so every waiter that joined a slot returns
      what its downloader published. */
  lemma {:induction false} ResultsStable(s: State, step: Step, u: Tid)
    requires FlightInv(s.f) && Enabled(s, step) && !step.Restart? && u in s.f.slots && s.f.slots[u].result.Some?
    ensures u in Next(s, step).f.slots && Next(s, step).f.slots[u].result == s.f.slots[u].result
  {
    assert SlotInv(s.f, u);
    if IsMove(step) {
      var j, ph := MovesOnly(s, step);
    } else if step.Publish? {
      assert PcInv(s.f, step.t);
    }
  }
}
