/** Safety of the testcase cache over every run. */
module CacheRuns {
  import opened Types
  import opened CacheModel
  import opened CacheLru
  import opened CacheFlight
  import opened CacheDisk
  import opened CacheSound

  /** The structural invariants, which need no assumption. */
  ghost predicate Structure(s: State) {
    LruInv(s) && FlightInv(s.f) && DiskInv(s) && AccountInv(s)
  }

  lemma {:induction false} StructureKept(s: State, step: Step)
    requires Structure(s) && Enabled(s, step)
    ensures Structure(Next(s, step))
  {
    LruKept(s, step);
    FlightKept(s, step);
    DiskKept(s, step);
    AccountKept(s, step);
  }

  lemma {:induction false} ListedOnce(lru: seq<Entry>, tick: int, e: Entry)
    requires Ordered(lru, tick) && e in lru
    ensures Pos(lru, e.p) < |lru| && lru[Pos(lru, e.p)] == e && e.p in Ids(lru)
  {
    var i :| 0 <= i < |lru| && lru[i] == e;
    var k := Pos(lru, e.p);
    assert k <= i;
  }

  predicate Hit(s: State, p: ID) {
    var k := Pos(s.l.lru, p);
    p in s.l.index && k < |s.l.lru| && Fresh(s.w.now, s.l.lru[k])
  }

  /** A fast-path hit only moves its entry to the front. */
  lemma {:induction false} HitEntries(s: State, p: ID, e: Entry)
    requires LruInv(s) && Sound(s) && Hit(s, p)
    requires e in ToFront(s.l.lru, s.l.lru[Pos(s.l.lru, p)].(lastUse := Tick(s)))
    ensures EntrySound(s.w, s.d, e)
    ensures exists e0 :: e0 in s.l.lru && e0.p == e.p && e0.validatedAt == e.validatedAt
  {
    var k := Pos(s.l.lru, p);
    ToFrontMembers(s.l.lru, s.l.lru[k].(lastUse := Tick(s)));
    assert EntrySound(s.w, s.d, s.l.lru[k]);
    if e in s.l.lru { assert EntrySound(s.w, s.d, e); }
  }

  lemma {:induction false} HitSound(s: State, t: Tid, p: ID)
    requires LruInv(s) && FlightInv(s.f) && Sound(s) && t !in s.f.threads && Hit(s, p)
    ensures Sound(Next(s, Call(t, p)))
  {
    var n, k := Next(s, Call(t, p)), Pos(s.l.lru, p);
    NextExtends(s, Call(t, p));
    assert EntrySound(s.w, s.d, s.l.lru[k]);
    forall e | e in n.l.lru
      ensures EntrySound(n.w, n.d, e)
      ensures exists e0 :: e0 in s.l.lru && e0.p == e.p && e0.validatedAt == e.validatedAt
    {
      HitEntries(s, p, e);
    }
    forall u | u in n.f.threads ensures ThreadSound(n, u) {
      if u != t { ThreadStays(s, n, u); }
    }
    SoundFromParts(s, n);
  }

  lemma {:induction false} MissSound(s: State, t: Tid, p: ID)
    requires LruInv(s) && FlightInv(s.f) && Sound(s) && t !in s.f.threads && !Hit(s, p)
    ensures Sound(Next(s, Call(t, p)))
  {
    var n := Next(s, Call(t, p));
    NextExtends(s, Call(t, p));
    assert n.l == s.l && n.d == s.d;
    forall e | e in n.l.lru ensures EntrySound(n.w, n.d, e) { assert EntrySound(s.w, s.d, e); }
    forall e | e in s.l.lru && e.p == p ensures !Fresh(s.w.now, e) { ListedOnce(s.l.lru, Tick(s), e); }
    forall u | u in n.f.threads ensures ThreadSound(n, u) {
      if u != t { ThreadStays(s, n, u); }
    }
    SoundFromParts(s, n);
  }

  /** The list after a publication: the published problem in front, the others as they were. */
  lemma {:induction false} PublishEntries(s: State, t: Tid)
    requires LruInv(s) && FlightInv(s.f) && Sound(s) && Enabled(s, Publish(t))
    ensures forall e :: e in Next(s, Publish(t)).l.lru ==>
              EntrySound(Next(s, Publish(t)).w, s.d, e) && (e.p != s.f.threads[t].job.p ==> e in s.l.lru)
  {
    var n, j, ok := Next(s, Publish(t)), s.f.threads[t].job, s.f.threads[t].phase.ok;
    NextExtends(s, Publish(t));
    assert ThreadSound(s, t);
    forall e | e in n.l.lru ensures EntrySound(n.w, n.d, e) && (e.p != j.p ==> e in s.l.lru) {
      if ok {
        ToFrontMembers(s.l.lru, EntryOf(s, j));
        assert e in ToFront(s.l.lru, EntryOf(s, j));
      }
      if e in s.l.lru { assert EntrySound(s.w, s.d, e); }
    }
  }

  /** A call that waits for the publication is owed what the downloader has just put in place. */
  lemma {:induction false} PublishThread(s: State, t: Tid, u: Tid)
    requires LruInv(s) && FlightInv(s.f) && Sound(s) && Enabled(s, Publish(t)) && u in s.f.threads
    ensures ThreadSound(Next(s, Publish(t)), u)
  {
    var n := Next(s, Publish(t));
    NextExtends(s, Publish(t));
    PublishEntries(s, t);
    assert ThreadSound(s, t) && PcInv(s.f, t) && ThreadSound(s, u) && PcInv(s.f, u);
    if u != t && !(s.f.threads[u].Waiting? && s.f.threads[u].slot == t) {
      ThreadStays(s, n, u);
    }
  }

  lemma {:induction false} PublishSound(s: State, t: Tid)
    requires LruInv(s) && FlightInv(s.f) && DiskInv(s) && Sound(s) && Enabled(s, Publish(t))
    ensures Sound(Next(s, Publish(t)))
  {
    var n := Next(s, Publish(t));
    NextExtends(s, Publish(t));
    PublishEntries(s, t);
    forall u | u in n.f.threads ensures ThreadSound(n, u) { PublishThread(s, t, u); }
    SoundFromParts(s, n);
  }

  /** The steps by which one call returns or finishes touch neither the list nor the disk. */
  lemma {:induction false} ReturnSound(s: State, step: Step)
    requires FlightInv(s.f) && Sound(s) && Enabled(s, step) &&
               (step.Leave? || step.Wake? || step.Close? || step.Finish?)
    ensures Sound(Next(s, step))
  {
    var n, t := Next(s, step), step.t;
    NextExtends(s, step);
    assert n.l == s.l && n.d == s.d && n.f.inProgress == s.f.inProgress;
    assert PcInv(s.f, t) && ThreadSound(s, t);
    forall e | e in n.l.lru ensures EntrySound(n.w, n.d, e) { assert EntrySound(s.w, s.d, e); }
    forall v | v in n.f.threads ensures ThreadSound(n, v) {
      if v != t {
        assert Decided(n.f, v) == Decided(s.f, v);
        ThreadStays(s, n, v);
      }
    }
    SoundFromParts(s, n);
  }

  lemma {:induction false} RestartSound(s: State, order: seq<ID>)
    requires FlightInv(s.f) && Sound(s) && Enabled(s, Restart(order))
    ensures Sound(Next(s, Restart(order)))
  {
    var n := Next(s, Restart(order));
    NextExtends(s, Restart(order));
    assert forall e :: e in n.l.lru ==> e in Found(order);
    SoundFromParts(s, n);
  }

  /** Time, uploads, and deletions nobody relies on. */
  lemma {:induction false} EnvironmentSound(s: State, step: Step)
    requires LruInv(s) && FlightInv(s.f) && Sound(s) && Enabled(s, step) && Careful(s, step)
    requires step.Pass? || step.Upload? || step.Delete? || step.DeleteFails?
    ensures Sound(Next(s, step))
  {
    var n := Next(s, step);
    NextExtends(s, step);
    assert n.l == s.l && n.f == s.f;
    assert forall q :: !(step.Delete? && q == step.p) ==> DiskContent(n.d, q) == DiskContent(s.d, q);
    forall e | e in n.l.lru ensures EntrySound(n.w, n.d, e) { assert EntrySound(s.w, s.d, e); }
    forall t | t in n.f.threads ensures ThreadSound(n, t) {
      if InFlight(s.f, t) { assert PcInv(s.f, t); }
      forall q | Owed(s.f, t, q) ensures DiskContent(n.d, q) == DiskContent(s.d, q) { }
      ThreadStays(s, n, t);
    }
    SoundFromParts(s, n);
  }

  lemma {:induction false} SoundKept(s: State, step: Step)
    requires LruInv(s) && FlightInv(s.f) && DiskInv(s) && Sound(s) && Enabled(s, step) && Careful(s, step)
    ensures Sound(Next(s, step))
  {
    if IsMove(step) {
      MoveSound(s, step);
    } else {
      match step {
        case Call(t, p) => if Hit(s, p) { HitSound(s, t, p); } else { MissSound(s, t, p); }
        case Leave(t) => ReturnSound(s, step);
        case Wake(t) => ReturnSound(s, step);
        case Publish(t) => PublishSound(s, t);
        case Close(t) => ReturnSound(s, step);
        case Finish(t) => ReturnSound(s, step);
        case Restart(order) => RestartSound(s, order);
        case _ => EnvironmentSound(s, step);
      }
    }
  }

  // ------------------------------------------------------------------ whole runs

  /** In every state of every run, crashes and failures included: list and index in bijection within
      capacity and in order of last use; one refresh per problem; directories absent or complete and
      all accounted for. */
  lemma {:induction false} RunStructure(trace: seq<State>, steps: seq<Step>, i: nat)
    requires IsRun(trace, steps) && i < |trace|
    ensures Structure(trace[i])
  {
    if i > 0 {
      RunStructure(trace, steps, i - 1);
      StructureKept(trace[i - 1], steps[i - 1]);
    }
  }

  /** In every interleaving at most one refresh per problem is active, and it is the registered one. */
  lemma {:induction false} RunSingleFlight(trace: seq<State>, steps: seq<Step>, i: nat, t: Tid, u: Tid)
    requires IsRun(trace, steps) && i < |trace|
    requires InFlight(trace[i].f, t) && InFlight(trace[i].f, u) &&
               trace[i].f.threads[t].job.p == trace[i].f.threads[u].job.p
    ensures t == u && trace[i].f.threads[t].job.p in trace[i].f.inProgress &&
              trace[i].f.inProgress[trace[i].f.threads[t].job.p] == t
  {
    RunStructure(trace, steps, i);
    SingleFlight(trace[i].f, t, u);
    assert PcInv(trace[i].f, t);
  }

  /** In every state of every run the directories on disk are bounded. */
  lemma {:induction false} RunDirectories(trace: seq<State>, steps: seq<Step>, i: nat)
    requires IsRun(trace, steps) && i < |trace|
    ensures var s := trace[i]; |s.d.dirs| <= s.max + |s.f.inProgress| + |s.x.pending| + |s.x.leaked|
  {
    RunStructure(trace, steps, i);
    DirectoriesBounded(trace[i]);
  }

  /** Where a call that joined slot `u` can stand: still waiting on it, or back from it. */
  predicate Joined(f: Flight, t: Tid, p: ID, u: Tid) {
    && t in f.threads
    && (|| f.threads[t] == Waiting(p, u)
        || (f.threads[t].Returned? && f.threads[t].p == p && f.threads[t].joined == Some(u)))
  }

  lemma {:induction false} JoinedStep(s: State, step: Step, t: Tid, p: ID, u: Tid)
    requires Enabled(s, step) && !step.Restart? && Joined(s.f, t, p, u)
    ensures Joined(Next(s, step).f, t, p, u)
  {
    if IsMove(step) {
      var j, ph := MovesOnly(s, step);
    }
  }

  lemma {:induction false} StaysJoined(trace: seq<State>, steps: seq<Step>, i: nat, j: nat, t: Tid, p: ID, u: Tid)
    requires IsRun(trace, steps) && i <= j < |trace| && Joined(trace[i].f, t, p, u)
    requires forall k :: i <= k < j ==> !steps[k].Restart?
    ensures Joined(trace[j].f, t, p, u)
    decreases j
  {
    if i < j {
      StaysJoined(trace, steps, i, j - 1, t, p, u);
      JoinedStep(trace[j - 1], steps[j - 1], t, p, u);
    }
  }

  /** A call that joined a downloader returns, if it returns before a crash, exactly the outcome that
      this downloader published and returns itself. */
  lemma {:induction false} WaiterGetsItsDownload(trace: seq<State>, steps: seq<Step>, i: nat, j: nat, t: Tid, p: ID,
      u: Tid)
    requires IsRun(trace, steps) && i <= j < |trace|
    requires t in trace[i].f.threads && trace[i].f.threads[t] == Waiting(p, u)
    requires forall k :: i <= k < j ==> !steps[k].Restart?
    ensures t in trace[j].f.threads && (trace[j].f.threads[t] == Waiting(p, u) || trace[j].f.threads[t].Returned?)
    ensures trace[j].f.threads[t].Returned? ==>
              && u in trace[j].f.slots && trace[j].f.slots[u] == Slot(p, Some(trace[j].f.threads[t].out), true)
              && u in trace[j].f.threads && ReturnedAs(trace[j].f.threads[u], p, trace[j].f.threads[t].out, u)
  {
    StaysJoined(trace, steps, i, j, t, p, u);
    if trace[j].f.threads[t].Returned? {
      RunStructure(trace, steps, j);
      assert PcInv(trace[j].f, t) && SlotInv(trace[j].f, u);
      OwnerReturned(trace, steps, j, u);
    }
  }

  /** The call is back with the outcome of slot `u`. */
  predicate ReturnedAs(pc: Pc, p: ID, out: Outcome, u: Tid) {
    pc.Returned? && pc.p == p && pc.out == out && pc.joined == Some(u)
  }

  /** The owner of a closed slot returned its own result. */
  lemma {:induction false} OwnerReturned(trace: seq<State>, steps: seq<Step>, i: nat, u: Tid)
    requires IsRun(trace, steps) && i < |trace| && u in trace[i].f.slots && trace[i].f.slots[u].done
    ensures u in trace[i].f.threads && trace[i].f.slots[u].result.Some?
    ensures ReturnedAs(trace[i].f.threads[u], trace[i].f.slots[u].p, trace[i].f.slots[u].result.value, u)
  {
    if i > 0 {
      RunStructure(trace, steps, i - 1);
      OwnerStep(trace[i - 1], steps[i - 1], u);
      if u in trace[i - 1].f.slots && trace[i - 1].f.slots[u].done {
        OwnerReturned(trace, steps, i - 1, u);
      }
    }
  }

  lemma {:induction false} OwnerStep(s: State, step: Step, u: Tid)
    requires FlightInv(s.f) && Enabled(s, step) && u in Next(s, step).f.slots && Next(s, step).f.slots[u].done
    ensures var n := Next(s, step).f;
            && u in n.threads
            && if u in s.f.slots && s.f.slots[u].done then
                 n.slots[u] == s.f.slots[u] &&
                     (n.threads[u] == s.f.threads[u] || n.threads[u] == s.f.threads[u].(open := false))
               else n.slots[u].result.Some? && ReturnedAs(n.threads[u], n.slots[u].p, n.slots[u].result.value, u)
  {
    if u in s.f.slots { assert SlotInv(s.f, u); }
    if IsMove(step) {
      var j, ph := MovesOnly(s, step);
    } else if step.Publish? || step.Close? || step.Wake? || step.Leave? {
      assert PcInv(s.f, step.t);
    }
  }

  /** In every state of every careful run the cache is sound. */
  lemma {:induction false} RunSound(trace: seq<State>, steps: seq<Step>, i: nat)
    requires IsRun(trace, steps) && i < |trace|
    requires forall k :: 0 <= k < |steps| ==> Careful(trace[k], steps[k])
    ensures Sound(trace[i])
  {
    if i > 0 {
      RunSound(trace, steps, i - 1);
      RunStructure(trace, steps, i - 1);
      SoundKept(trace[i - 1], steps[i - 1]);
    }
  }

  /** Whatever was in the directory when a call returned it without error was, at a moment of the refresh
      that validated it, the content current in the store. */
  lemma {:induction false} ReturnsCurrentContent(trace: seq<State>, steps: seq<Step>, i: nat, t: Tid)
    requires IsRun(trace, steps) && i < |trace|
    requires forall k :: 0 <= k < |steps| ==> Careful(trace[k], steps[k])
    requires t in trace[i].f.threads && trace[i].f.threads[t].Returned? && trace[i].f.threads[t].out.Ok?
    ensures var r := trace[i].f.threads[t];
            Seen(trace[i].w, r.p, r.out.began, r.out.stat, r.content)
  {
    RunSound(trace, steps, i);
    assert ThreadSound(trace[i], t);
  }

  /** A fast-path hit comes less than ETAG_TTL after the validation, which itself came no earlier than
      the moment the store was consulted. */
  lemma {:induction false} FastPathIsRecent(s: State, t: Tid, p: ID)
    requires Sound(s) && Enabled(s, Call(t, p)) && Effect(s, Call(t, p)).f.threads[t].Leaving?
    ensures Hit(s, p)
    ensures var e := s.l.lru[Pos(s.l.lru, p)];
            && Seen(s.w, p, e.began, e.stat, DiskContent(s.d, p))
            && s.w.hist[e.stat].now <= e.validatedAt <= s.w.now < e.validatedAt + ETAG_TTL
  {
    var e := s.l.lru[Pos(s.l.lru, p)];
    assert EntrySound(s.w, s.d, e);
  }
}
