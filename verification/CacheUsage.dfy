/** The cache's order of use and its time-to-live, read off the steps of the run alone. */
module CacheUsage {
  import opened Types
  import opened CacheModel
  import opened CacheLru
  import opened CacheFlight
  import opened CacheSound
  import opened CacheRuns

  /** The step is a fast-path hit on `p`. */
  predicate Hits(s: State, step: Step, p: ID)
    requires Enabled(s, step)
  {
    step.Call? && step.p == p && Next(s, step).f.threads[step.t].Leaving?
  }

  /** The step confirms that the cached `p` is current: its refresh finds the ETag matching while `p` is
      listed, or succeeds. */
  predicate Confirms(s: State, step: Step, p: ID)
    requires Enabled(s, step)
  {
    || (step.Validate? && s.f.threads[step.t].job.p == p && p in s.l.index)
    || (step.Publish? && s.f.threads[step.t].job.p == p && s.f.threads[step.t].phase.ok)
  }

  /** The last step before `i`, and since the last restart, that used `p`; -1 if there is none. */
  function LastUse(trace: seq<State>, steps: seq<Step>, i: nat, p: ID): int
    requires IsRun(trace, steps) && i <= |steps|
  {
    if i == 0 || steps[i - 1].Restart? then -1
    else if Hits(trace[i - 1], steps[i - 1], p) || Confirms(trace[i - 1], steps[i - 1], p) then i - 1
    else LastUse(trace, steps, i - 1, p)
  }

  /** When `p` was last confirmed since the last restart. */
  function ConfirmedAt(trace: seq<State>, steps: seq<Step>, i: nat, p: ID): Option<Time>
    requires IsRun(trace, steps) && i <= |steps|
  {
    if i == 0 || steps[i - 1].Restart? then None
    else if Confirms(trace[i - 1], steps[i - 1], p) then Some(trace[i - 1].w.now)
    else ConfirmedAt(trace, steps, i - 1, p)
  }

  // ------------------------------------------------------------------ one step

  /** How an entry after a step came about. */
  predicate Carried(s: State, step: Step, e: Entry)
    requires Enabled(s, step)
  {
    if step.Restart? then e.lastUse < 0 && e.validatedAt == ZERO_TIME
    else if Confirms(s, step, e.p) then e.lastUse == Tick(s) && e.validatedAt == s.w.now
    else if Hits(s, step, e.p) then
      e.lastUse == Tick(s) && exists was :: was in s.l.lru && was.p == e.p && was.validatedAt == e.validatedAt
    else e in s.l.lru
  }

  lemma {:induction false} CallCarries(s: State, t: Tid, p: ID, e: Entry)
    requires LruInv(s) && Enabled(s, Call(t, p)) && e in Next(s, Call(t, p)).l.lru
    ensures Carried(s, Call(t, p), e)
  {
    if Hit(s, p) {
      var was := s.l.lru[Pos(s.l.lru, p)];
      ToFrontMembers(s.l.lru, was.(lastUse := Tick(s)));
      assert was in s.l.lru && was.p == p;
    }
  }

  lemma {:induction false} ValidateCarries(s: State, t: Tid, e: Entry)
    requires LruInv(s) && Enabled(s, Validate(t)) && e in Next(s, Validate(t)).l.lru
    ensures Carried(s, Validate(t), e)
  {
    var j := s.f.threads[t].job;
    var k := Pos(s.l.lru, j.p);
    if j.p in s.l.index {
      ListedThere(s.l.lru, j.p);
      var moved := s.l.lru[k].(validatedAt := s.w.now, began := j.began, stat := j.stat, lastUse := Tick(s));
      ToFrontMembers(s.l.lru, moved);
    } else {
      assert forall a :: 0 <= a < |s.l.lru| ==> s.l.lru[a].p in Ids(s.l.lru);
    }
  }

  lemma {:induction false} ListedThere(lru: seq<Entry>, p: ID)
    requires p in Ids(lru)
    ensures Pos(lru, p) < |lru|
  {
    var i :| 0 <= i < |lru| && lru[i].p == p;
  }

  lemma {:induction false} PublishCarries(s: State, t: Tid, e: Entry)
    requires LruInv(s) && Enabled(s, Publish(t)) && e in Next(s, Publish(t)).l.lru
    ensures Carried(s, Publish(t), e)
  {
    var j := s.f.threads[t].job;
    if s.f.threads[t].phase.ok {
      ToFrontMembers(s.l.lru, EntryOf(s, j));
      assert e in ToFront(s.l.lru, EntryOf(s, j));
    }
  }

  lemma {:induction false} StepCarries(s: State, step: Step, e: Entry)
    requires LruInv(s) && Enabled(s, step) && e in Next(s, step).l.lru
    ensures Carried(s, step, e)
  {
    match step {
      case Call(t, p) => CallCarries(s, t, p, e);
      case Validate(t) => ValidateCarries(s, t, e);
      case Publish(t) => PublishCarries(s, t, e);
      case Restart(order) => assert e in Found(order);
      case _ => ListUntouched(s, step);
    }
  }

  // ------------------------------------------------------------------ whole runs

  /** The entry's stamps are what the steps say. */
  predicate Stamped(trace: seq<State>, steps: seq<Step>, i: nat, e: Entry)
    requires IsRun(trace, steps) && i <= |steps|
  {
    && (if LastUse(trace, steps, i, e.p) >= 0 then e.lastUse == LastUse(trace, steps, i, e.p) + 1 else e.lastUse < 0)
    && e.validatedAt == (match ConfirmedAt(trace, steps, i, e.p) case Some(at) => at case None => ZERO_TIME)
  }

  predicate AllStamped(trace: seq<State>, steps: seq<Step>, i: nat)
    requires IsRun(trace, steps) && i < |trace|
  {
    forall e :: e in trace[i].l.lru ==> Stamped(trace, steps, i, e)
  }

  lemma {:induction false} RunClock(trace: seq<State>, steps: seq<Step>, i: nat)
    requires IsRun(trace, steps) && i < |trace|
    ensures Tick(trace[i]) == i + 1 && trace[i].w.now >= ETAG_TTL
  {
    if i > 0 {
      RunClock(trace, steps, i - 1);
      NextExtends(trace[i - 1], steps[i - 1]);
      assert trace[i] == Next(trace[i - 1], steps[i - 1]);
    }
  }

  lemma {:induction false} RunStamped(trace: seq<State>, steps: seq<Step>, i: nat)
    requires IsRun(trace, steps) && i < |trace|
    ensures AllStamped(trace, steps, i)
  {
    if i > 0 {
      RunStamped(trace, steps, i - 1);
      RunStructure(trace, steps, i - 1);
      RunClock(trace, steps, i - 1);
      assert trace[i] == Next(trace[i - 1], steps[i - 1]);
      forall e | e in trace[i].l.lru ensures Stamped(trace, steps, i, e) {
        StepCarries(trace[i - 1], steps[i - 1], e);
        StampedStep(trace, steps, i, e);
      }
    }
  }

  lemma {:induction false} StampedStep(trace: seq<State>, steps: seq<Step>, i: nat, e: Entry)
    requires IsRun(trace, steps) && 0 < i < |trace| && Tick(trace[i - 1]) == i
    requires Enabled(trace[i - 1], steps[i - 1]) && Carried(trace[i - 1], steps[i - 1], e)
    requires AllStamped(trace, steps, i - 1)
    ensures Stamped(trace, steps, i, e)
  {
  }

  /** Over every run, failures and restarts included: the list holds the problems used since the last
      restart in decreasing order of their last use, and after them those only found by pruning. */
  lemma {:induction false} RunUseOrder(trace: seq<State>, steps: seq<Step>, i: nat, a: nat, b: nat)
    requires IsRun(trace, steps) && i < |trace| && a < b < |trace[i].l.lru|
    ensures var ua, ub := LastUse(trace, steps, i, trace[i].l.lru[a].p), LastUse(trace, steps, i, trace[i].l.lru[b].p);
            ua > ub || ua == ub == -1
  {
    RunStamped(trace, steps, i);
    RunStructure(trace, steps, i);
    var x, y := trace[i].l.lru[a], trace[i].l.lru[b];
    assert Stamped(trace, steps, i, x) && Stamped(trace, steps, i, y);
    assert x.lastUse > y.lastUse;
    LastUseRange(trace, steps, i, y.p);
    LastUseRange(trace, steps, i, x.p);
  }

  lemma {:induction false} LastUseRange(trace: seq<State>, steps: seq<Step>, i: nat, p: ID)
    requires IsRun(trace, steps) && i <= |steps|
    ensures -1 <= LastUse(trace, steps, i, p) < i
  {
    if i > 0 { LastUseRange(trace, steps, i - 1, p); }
  }

  /** A publication that drops a problem from the index drops the least recently used one: every problem
      that stays, other than the published one, was used later, or neither was used since the restart. */
  lemma {:induction false} EvictsLeastRecentlyUsed(trace: seq<State>, steps: seq<Step>, i: nat, t: Tid, gone: ID,
      kept: ID)
    requires IsRun(trace, steps) && i < |steps| && steps[i] == Publish(t)
    requires gone in trace[i].l.index && gone !in trace[i + 1].l.index
    requires kept in trace[i].l.index && kept in trace[i + 1].l.index && kept != trace[i].f.threads[t].job.p
    ensures var ug, uk := LastUse(trace, steps, i, gone), LastUse(trace, steps, i, kept);
            uk > ug || uk == ug == -1
  {
    RunStructure(trace, steps, i);
    var a, b := EvictionOrder(trace[i], t, gone, kept);
    RunUseOrder(trace, steps, i, a, b);
  }

  /** What a publication keeps stands before what it drops. */
  lemma {:induction false} EvictionOrder(s: State, t: Tid, gone: ID, kept: ID) returns (a: nat, b: nat)
    requires LruInv(s) && Enabled(s, Publish(t)) && gone in s.l.index && gone !in Next(s, Publish(t)).l.index
    requires kept in s.l.index && kept in Next(s, Publish(t)).l.index && kept != s.f.threads[t].job.p
    ensures a < b < |s.l.lru| && s.l.lru[a].p == kept && s.l.lru[b].p == gone
  {
    a :| 0 <= a < |s.l.lru| && s.l.lru[a].p == kept;
    b :| 0 <= b < |s.l.lru| && s.l.lru[b].p == gone;
    PromotionOrder(s.l, EntryOf(s, s.f.threads[t].job), s.max, a, b);
  }

  lemma {:induction false} PromotionOrder(l: Lists, e: Entry, max: nat, a: nat, b: nat)
    requires OkLists(l, max, e.lastUse) && a < |l.lru| && b < |l.lru|
    requires l.lru[a].p in Promoted(l, e, max).index && l.lru[b].p !in Promoted(l, e, max).index &&
               l.lru[b].p in l.index
    ensures a < b
  {
    var front := ToFront(l.lru, e);
    Drops(l, e, max, l.lru[a].p, l.lru[b].p);
    InFront(l.lru, e, a);
    InFront(l.lru, e, b);
    ToFrontOrdered(l.lru, e);
    CutAt(front, Min(|front|, max), a + 1, b + 1);
  }

  /** A promotion drops a problem only when it inserts a new one: then the back part of the list. */
  lemma {:induction false} Drops(l: Lists, e: Entry, max: nat, kept: ID, gone: ID)
    requires Ids(l.lru) == l.index && gone in l.index
    requires kept in Promoted(l, e, max).index && gone !in Promoted(l, e, max).index
    ensures var front := ToFront(l.lru, e);
            && e.p !in Ids(l.lru)
            && kept !in Ids(front[Min(|front|, max)..]) && gone in Ids(front[Min(|front|, max)..])
  {
  }

  /** An insertion moves everything back by one place. */
  lemma {:induction false} InFront(lru: seq<Entry>, e: Entry, i: nat)
    requires e.p !in Ids(lru) && i < |lru|
    ensures i + 1 < |ToFront(lru, e)| && ToFront(lru, e)[i + 1] == lru[i]
  {
    NotListed(lru, e.p);
  }

  /** Of a list cut in two, what is not in the back part stands before what is. */
  lemma {:induction false} CutAt(l: seq<Entry>, n: nat, x: nat, y: nat)
    requires n <= |l| && x < |l| && y < |l| && forall i, j :: 0 <= i < j < |l| ==> l[i].p != l[j].p
    requires l[x].p !in Ids(l[n..]) && l[y].p in Ids(l[n..])
    ensures x < n <= y
  {
    assert forall i :: 0 <= i < |l[n..]| ==> l[n..][i].p in Ids(l[n..]) && l[n..][i] == l[n + i];
    forall i | n <= i < |l| ensures l[i].p in Ids(l[n..]) { assert l[n..][i - n] == l[i]; }
    var k :| 0 <= k < |l[n..]| && l[n..][k].p == l[y].p;
    assert l[n + k].p == l[y].p;
  }

  lemma {:induction false} NotListed(lru: seq<Entry>, p: ID)
    requires p !in Ids(lru)
    ensures Pos(lru, p) == |lru|
  {
    assert forall i :: 0 <= i < |lru| ==> lru[i].p in Ids(lru);
  }

  /** A call takes the fast path if and only if the problem is listed and was confirmed, since the last
      restart, less than the time-to-live ago. */
  lemma {:induction false} FastPathIff(trace: seq<State>, steps: seq<Step>, i: nat, t: Tid, p: ID)
    requires IsRun(trace, steps) && i < |steps| && steps[i] == Call(t, p)
    ensures trace[i + 1].f.threads[t].Leaving? <==>
              && p in trace[i].l.index && ConfirmedAt(trace, steps, i, p).Some?
              && trace[i].w.now - ConfirmedAt(trace, steps, i, p).value < 5 * 60_000_000_000
  {
    assert trace[i + 1] == Next(trace[i], steps[i]);
    RunStructure(trace, steps, i);
    RunStamped(trace, steps, i);
    RunClock(trace, steps, i);
    if p in trace[i].l.index {
      ListedThere(trace[i].l.lru, p);
      assert Stamped(trace, steps, i, trace[i].l.lru[Pos(trace[i].l.lru, p)]);
    }
  }

  /** Reading the tag in a sound state, a refresh goes on to download exactly if the directory does not hold
      what the store held when it was asked. */
  lemma {:induction false} DownloadsIff(s: State, t: Tid)
    requires FlightInv(s.f) && Sound(s) && Enabled(s, ReadTag(t))
    ensures var j := s.f.threads[t].job;
            At(Next(s, ReadTag(t)).f, t, AtFetch) <==> DiskContent(s.d, j.p) != Some(s.w.hist[j.stat].store[j.p])
    ensures At(Next(s, ReadTag(t)).f, t, AtFetch) || At(Next(s, ReadTag(t)).f, t, AtValidate)
  {
    assert ThreadSound(s, t);
    var p := s.f.threads[t].job.p;
    if p in s.d.dirs { assert s.d.dirs[p].tag == s.d.dirs[p].content; }
  }
}
