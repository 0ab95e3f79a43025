/** The cache agrees with the store: what EnsureTestcases hands out was current when it was validated. */
module CacheSound {
  import opened Types
  import opened CacheModel
  import opened CacheLru
  import opened CacheFlight
  import opened CacheDisk

  /** Content `c` of problem `p` was current in the store at moment `stat`, not before `began`. */
  predicate Seen(w: World, p: ID, began: nat, stat: nat, c: Option<Etag>) {
    && began <= stat < |w.hist|
    && p in w.hist[stat].store && c == Some(w.hist[stat].store[p])
  }

  /** A call that was told `out` finds `c` in the directory. */
  predicate Good(w: World, p: ID, out: Outcome, c: Option<Etag>) {
    out.Ok? ==> Seen(w, p, out.began, out.stat, c)
  }

  /** What has been decided for a call that has not returned yet. */
  function Decided(f: Flight, t: Tid): Option<Outcome>
    requires t in f.threads
  {
    match f.threads[t]
    case Leaving(p, out) => Some(out)
    case Closing(p) => if t in f.slots then f.slots[t].result else None
    case Waiting(p, u) => if u in f.slots then f.slots[u].result else None
    case _ => None
  }

  /** Call `t` is about to be handed the directory of `p`. */
  predicate Owed(f: Flight, t: Tid, p: ID) {
    && t in f.threads && (f.threads[t].Leaving? || f.threads[t].Closing? || f.threads[t].Waiting?)
    && f.threads[t].p == p && Decided(f, t).Some? && Decided(f, t).value.Ok?
  }

  ghost predicate Awaited(f: Flight, p: ID) {
    exists t :: Owed(f, t, p)
  }

  /** A directory that the fast path would hand out holds what the last validation saw. */
  predicate EntrySound(w: World, d: Disk, e: Entry) {
    Fresh(w.now, e) ==>
      Seen(w, e.p, e.began, e.stat, DiskContent(d, e.p)) && w.hist[e.stat].now <= e.validatedAt <= w.now
  }

  predicate JobSound(w: World, d: Disk, j: Job, ph: Phase) {
    && j.began < |w.hist|
    && (ph != AtStat && ph != AtPublish(false) ==>
          Seen(w, j.p, j.began, j.stat, Some(j.remote)) && w.hist[j.stat].now <= w.now)
    && ((ph == AtReadTag || ph == AtFetch) && j.p in w.store ==> w.store[j.p] == j.remote)
    && (ph in {AtStage, AtExtract, AtWriteTag, AtRemoveOld, AtRename} ==> j.zip == j.remote)
    && (ph == AtValidate || ph == AtPublish(true) ==> DiskContent(d, j.p) == Some(j.remote))
  }

  /** While a problem is being refreshed, and until its directory is in place, no fast path serves it. */
  predicate StaleWhile(s: State, j: Job, ph: Phase) {
    ph != AtPublish(true) ==> forall e :: e in s.l.lru && e.p == j.p ==> !Fresh(s.w.now, e)
  }

  predicate ThreadSound(s: State, t: Tid)
    requires t in s.f.threads
  {
    match s.f.threads[t]
    case Refreshing(j, ph) => JobSound(s.w, s.d, j, ph) && StaleWhile(s, j, ph)
    case Returned(p, out, _, c, _) => Good(s.w, p, out, c)
    case Leaving(p, out) => Good(s.w, p, out, DiskContent(s.d, p))
    case Closing(p) => Decided(s.f, t).Some? ==> Good(s.w, p, Decided(s.f, t).value, DiskContent(s.d, p))
    case Waiting(p, _) => Decided(s.f, t).Some? ==> Good(s.w, p, Decided(s.f, t).value, DiskContent(s.d, p))
  }

  predicate Tagged(d: Disk) {
    forall p :: p in d.dirs ==> d.dirs[p].tag == d.dirs[p].content
  }

  ghost predicate Sound(s: State) {
    && s.w.now >= ETAG_TTL
    && Tagged(s.d)
    && (forall e :: e in s.l.lru ==> EntrySound(s.w, s.d, e))
    && (forall t :: t in s.f.threads ==> ThreadSound(s, t))
  }

  // ------------------------------------------------------------------ the assumptions

  /** Some fast path, pending publication or call about to return counts on the directory of `p`. */
  ghost predicate Relied(s: State, p: ID) {
    || (exists e :: e in s.l.lru && e.p == p && Fresh(s.w.now, e))
    || (p in s.f.inProgress && (At(s.f, s.f.inProgress[p], AtValidate) || At(s.f, s.f.inProgress[p], AtPublish(true))))
    || Awaited(s.f, p)
  }

  /** The object does not change between a refresh's Stat and its download, a pending deletion does not
      fire while its directory is relied upon, and a refresh does not replace a directory that a call
      is about to be handed. */
  ghost predicate Careful(s: State, step: Step) {
    && (step.Upload? && step.p in s.f.inProgress ==>
          !At(s.f, s.f.inProgress[step.p], AtReadTag) && !At(s.f, s.f.inProgress[step.p], AtFetch))
    && (step.Delete? ==> !Relied(s, step.p))
    && (Replaces(s, step) ==> !Awaited(s.f, s.f.threads[step.t].job.p))
  }

  /** A refresh removes the old directory. */
  predicate Replaces(s: State, step: Step) {
    step.RemoveOld? && step.ok && At(s.f, step.t, AtRemoveOld)
  }

  // ------------------------------------------------------------------ preservation

  /** Later worlds only add history. */
  predicate Extends(w: World, n: World) {
    && w.now <= n.now && |w.hist| <= |n.hist|
    && forall i :: 0 <= i < |w.hist| ==> n.hist[i] == w.hist[i]
  }

  lemma {:induction false} NextExtends(s: State, step: Step)
    requires Enabled(s, step)
    ensures Extends(s.w, Next(s, step).w) && Tick(Next(s, step)) == Tick(s) + 1
    ensures !step.Upload? ==> Next(s, step).w.store == s.w.store
    ensures Next(s, step).w.hist[Tick(s)] == Moment(Next(s, step).w.now, Next(s, step).w.store)
    ensures !step.Pass? ==> Next(s, step).w.now == s.w.now
  {
    HistoryUntouched(s, step);
    match step {
      case Pass(_) =>
      case Upload(_, _) =>
      case _ => assert Effect(s, step).w == s.w;
    }
  }

  /** A thread or slot that a step leaves alone stays sound if its problem's directory, store object
      and list entries do. */
  lemma {:induction false} ThreadStays(s: State, n: State, t: Tid)
    requires t in s.f.threads && t in n.f.threads && n.f.threads[t] == s.f.threads[t] && ThreadSound(s, t)
    requires Extends(s.w, n.w)
    requires InFlight(s.f, t) ==>
               var j, ph := s.f.threads[t].job, s.f.threads[t].phase;
               && (ph == AtValidate || ph == AtPublish(true) ==> DiskContent(n.d, j.p) == DiskContent(s.d, j.p))
               && (ph == AtReadTag || ph == AtFetch ==> j.p in n.w.store ==>
                   j.p in s.w.store && n.w.store[j.p] == s.w.store[j.p])
               && (forall e :: e in n.l.lru && e.p == j.p ==>
                     exists e0 :: e0 in s.l.lru && e0.p == j.p && e0.validatedAt == e.validatedAt)
    requires Decided(n.f, t) == Decided(s.f, t)
    requires forall p :: Owed(s.f, t, p) ==> DiskContent(n.d, p) == DiskContent(s.d, p)
    ensures ThreadSound(n, t)
  {
  }

  /** What it takes for the whole state to stay sound when at most the job `p` of thread `t` moved. */
  lemma {:induction false} SoundFromParts(s: State, n: State)
    requires Sound(s) && FlightInv(s.f) && Extends(s.w, n.w) && Tagged(n.d)
    requires forall e :: e in n.l.lru ==> EntrySound(n.w, n.d, e)
    requires forall t :: t in n.f.threads ==> ThreadSound(n, t)
    ensures Sound(n)
  {
  }

  // -- steps inside a refresh

  lemma {:induction false} MoveFrame(s: State, step: Step)
    requires Enabled(s, step) && IsMove(step)
    ensures var p := s.f.threads[step.t].job.p;
            forall q :: q != p ==> DiskContent(Effect(s, step).d, q) == DiskContent(s.d, q)
    ensures !step.Validate? ==> Effect(s, step).l == s.l
    ensures Effect(s, step).f.slots == s.f.slots && Effect(s, step).f.inProgress == s.f.inProgress
  {
  }

  /** Where the moving refresh stands after its step. */
  lemma {:induction false} OwnJobSound(s: State, step: Step)
    requires LruInv(s) && FlightInv(s.f) && DiskInv(s) && Sound(s) && Enabled(s, step) && IsMove(step)
    ensures var pc := Effect(s, step).f.threads[step.t];
            pc.Refreshing? && JobSound(Next(s, step).w, Effect(s, step).d, pc.job, pc.phase)
  {
    NextExtends(s, step);
    assert InFlight(s.f, step.t) && ThreadSound(s, step.t);
    assert StageInv(s.d, s.f.threads[step.t].job, s.f.threads[step.t].phase);
    if step.Stat? || step.ReadTag? || step.Validate? {
      ValidatingJobSound(s, step);
    } else {
      DownloadingJobSound(s, step);
    }
  }

  lemma {:induction false} ValidatingJobSound(s: State, step: Step)
    requires Enabled(s, step) && (step.Stat? || step.ReadTag? || step.Validate?)
    requires ThreadSound(s, step.t) && Tagged(s.d) && Extends(s.w, Next(s, step).w) &&
               Next(s, step).w.store == s.w.store
    requires Tick(Next(s, step)) == Tick(s) + 1 &&
               Next(s, step).w.hist[Tick(s)] == Moment(Next(s, step).w.now, s.w.store)
    ensures var pc := Effect(s, step).f.threads[step.t];
            pc.Refreshing? && JobSound(Next(s, step).w, Effect(s, step).d, pc.job, pc.phase)
  {
    var j := s.f.threads[step.t].job;
    if step.ReadTag? && j.p in s.d.dirs { assert s.d.dirs[j.p].tag == s.d.dirs[j.p].content; }
  }

  lemma {:induction false} DownloadingJobSound(s: State, step: Step)
    requires Enabled(s, step) && IsMove(step) && !step.Stat? && !step.ReadTag? && !step.Validate?
    requires ThreadSound(s, step.t) && Extends(s.w, Next(s, step).w) && Next(s, step).w.store == s.w.store
    requires s.f.threads[step.t].Refreshing? && StageInv(s.d, s.f.threads[step.t].job, s.f.threads[step.t].phase)
    ensures var pc := Effect(s, step).f.threads[step.t];
            pc.Refreshing? && JobSound(Next(s, step).w, Effect(s, step).d, pc.job, pc.phase)
  {
  }

  lemma {:induction false} MoveTagged(s: State, step: Step)
    requires FlightInv(s.f) && DiskInv(s) && Sound(s) && Enabled(s, step) && IsMove(step)
    ensures Tagged(Effect(s, step).d)
  {
    assert ThreadSound(s, step.t);
    assert InFlight(s.f, step.t);
    match step {
      case Rename(t, ok, _) => assert StageInv(s.d, s.f.threads[t].job, AtRename);
      case _ =>
    }
  }

  /** The list entries after a move: the refreshed problem's own entry is stale, or just validated. */
  lemma {:induction false} MoveEntries(s: State, step: Step, e: Entry)
    requires LruInv(s) && FlightInv(s.f) && DiskInv(s) && Sound(s) && Enabled(s, step) && IsMove(step)
    requires e in Effect(s, step).l.lru
    ensures EntrySound(Next(s, step).w, Effect(s, step).d, e)
    ensures e.p != s.f.threads[step.t].job.p ==> e in s.l.lru
    ensures e.p == s.f.threads[step.t].job.p && !step.Validate? ==> !Fresh(s.w.now, e)
  {
    var t := step.t;
    var j := s.f.threads[t].job;
    NextExtends(s, step);
    MoveFrame(s, step);
    assert ThreadSound(s, t);
    if step.Validate? {
      var k := Pos(s.l.lru, j.p);
      if j.p in s.l.index && k < |s.l.lru| {
        var e' := s.l.lru[k].(validatedAt := s.w.now, began := j.began, stat := j.stat, lastUse := Tick(s));
        ToFrontMembers(s.l.lru, e');
        if e != e' { assert EntrySound(s.w, s.d, e); }
      } else {
        assert EntrySound(s.w, s.d, e);
        assert Effect(s, step).d == s.d;
      }
    } else {
      assert EntrySound(s.w, s.d, e);
    }
  }

  /** A move leaves the directory of an owed problem alone: a rename needs it gone, and a careful removal
      spares it. */
  lemma {:induction false} OwedUntouched(s: State, step: Step, t: Tid, p: ID)
    requires Sound(s) && Enabled(s, step) && IsMove(step) && Careful(s, step) && Owed(s.f, t, p)
    ensures DiskContent(Effect(s, step).d, p) == DiskContent(s.d, p)
  {
    assert ThreadSound(s, t);
    assert DiskContent(s.d, p).Some?;
    if !Replaces(s, step) { PresentUntouched(s, step, p); }
  }

  /** Apart from the removal of the old directory, a refresh leaves every directory on disk alone. */
  lemma {:induction false} PresentUntouched(s: State, step: Step, p: ID)
    requires Enabled(s, step) && IsMove(step) && !Replaces(s, step) && p in s.d.dirs
    ensures DiskContent(Effect(s, step).d, p) == DiskContent(s.d, p)
  {
    match step {
      case RemoveOld(_, _) =>
      case Rename(_, _, _) =>
      case _ =>
    }
  }

  lemma {:induction false} MoveSound(s: State, step: Step)
    requires LruInv(s) && FlightInv(s.f) && DiskInv(s) && Sound(s) && Enabled(s, step) && IsMove(step) &&
               Careful(s, step)
    ensures Sound(Next(s, step))
  {
    var n, t := Next(s, step), step.t;
    var j, ph := MovesOnly(s, step);
    NextExtends(s, step);
    MoveFrame(s, step);
    MoveTagged(s, step);
    OwnJobSound(s, step);
    forall e | e in n.l.lru ensures EntrySound(n.w, n.d, e) { MoveEntries(s, step, e); }
    forall u | u in n.f.threads ensures ThreadSound(n, u) {
      if u == t {
        forall e | e in n.l.lru && e.p == j.p && ph != AtPublish(true) ensures !Fresh(n.w.now, e) {
          MoveEntries(s, step, e);
        }
      } else {
        OtherThreadSound(s, step, u);
      }
    }
    SoundFromParts(s, n);
  }

  lemma {:induction false} OtherThreadSound(s: State, step: Step, u: Tid)
    requires LruInv(s) && FlightInv(s.f) && DiskInv(s) && Sound(s) && Enabled(s, step) && IsMove(step) &&
               Careful(s, step)
    requires u in s.f.threads && u != step.t
    ensures u in Next(s, step).f.threads && ThreadSound(Next(s, step), u)
  {
    var n := Next(s, step);
    var j, ph := MovesOnly(s, step);
    NextExtends(s, step);
    MoveFrame(s, step);
    assert ThreadSound(s, u);
    if InFlight(s.f, u) {
      assert PcInv(s.f, u) && PcInv(s.f, step.t);
      forall e | e in n.l.lru && e.p == s.f.threads[u].job.p ensures e in s.l.lru { MoveEntries(s, step, e); }
    }
    forall p | Owed(s.f, u, p) ensures DiskContent(n.d, p) == DiskContent(s.d, p) { OwedUntouched(s, step, u, p); }
    ThreadStays(s, n, u);
  }
}
