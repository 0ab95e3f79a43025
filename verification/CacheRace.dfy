/** Concrete runs of the testcase cache from a cold start that break its documented promises. */
module CacheRace {
  import opened Types
  import opened CacheModel
  import opened CacheFlight
  import opened CacheSchedule
  import CacheUse

  /** A run under construction. */
  datatype Run = Run(trace: seq<State>, steps: seq<Step>)

  predicate Valid(r: Run) {
    IsRun(r.trace, r.steps)
  }

  function Now(r: Run): State
    requires Valid(r)
  {
    r.trace[|r.steps|]
  }

  lemma {:induction false} Extends(r: Run, b: Step)
    requires Valid(r) && Enabled(Now(r), b)
    ensures IsRun(r.trace + [Next(Now(r), b)], r.steps + [b])
  {
    var trace, steps := r.trace + [Next(Now(r), b)], r.steps + [b];
    forall i | 0 <= i < |steps| ensures Enabled(trace[i], steps[i]) && trace[i + 1] == Next(trace[i], steps[i]) {
      if i < |r.steps| { assert trace[i] == r.trace[i] && trace[i + 1] == r.trace[i + 1] && steps[i] == r.steps[i]; }
    }
  }

  /** One more step. */
  function Do(r: Run, b: Step): (n: Run)
    requires Valid(r) && Enabled(Now(r), b)
    ensures Valid(n) && Now(n) == Next(Now(r), b) && n.steps == r.steps + [b] && n.trace == r.trace + [Now(n)]
    ensures Obeys(r) && Polite(Now(r), b) ==> Obeys(n)
  {
    Extends(r, b);
    Run(r.trace + [Next(Now(r), b)], r.steps + [b])
  }

  /** The step requests no problem whose deletion is pending, and changes nothing in the store. */
  predicate Polite(s: State, step: Step) {
    (step.Call? ==> step.p !in s.x.pending) && !step.Upload?
  }

  /** Every deletion finishes before its problem is requested again, and the store never changes. */
  predicate Obeys(r: Run)
    requires Valid(r)
  {
    forall k :: 0 <= k < |r.steps| ==> Polite(r.trace[k], r.steps[k])
  }

  // ------------------------------------------------------------------ a download without mishap

  const PHASES := [AtStat, AtReadTag, AtFetch, AtStage, AtExtract, AtWriteTag, AtRemoveOld, AtRename, AtPublish(true)]

  function StepAt(i: nat, t: Tid): (step: Step)
    requires i < 8
    ensures !step.Call? && !step.Upload?
  {
    [Stat(t, true), ReadTag(t), Fetch(t, true), Stage(t, true), Extract(t, true, true), WriteTag(t, true, true),
     RemoveOld(t, true), Rename(t, true, true)][i]
  }

  /** Call `t` has done `i` steps of downloading problem `p`, and nothing else happened since `s0`. */
  predicate Downloading(s0: State, s: State, t: Tid, p: ID, etag: Etag, i: nat) {
    && i < 9 && s.max == s0.max && s.l == s0.l && s.x == s0.x && s.w.now == s0.w.now && s.w.store == s0.w.store
    && s.f.inProgress == s0.f.inProgress[p := t] && s.f.slots == s0.f.slots[t := Slot(p, None, false)]
    && At(s.f, t, PHASES[i]) && s.f.threads == s0.f.threads[t := s.f.threads[t]]
    && (var j := s.f.threads[t].job;
        j.p == p && (i > 0 ==> j.remote == etag) && (i > 2 ==> j.zip == etag))
    && s.d.dirs == DirsAt(s0, p, etag, i)
    && (i == 5 ==> p in s.d.staging && s.d.staging[p].content == Some(etag))
    && (i == 6 || i == 7 ==> p in s.d.staging && s.d.staging[p] == Dir(Some(etag), Some(etag)))
  }

  function DirsAt(s0: State, p: ID, etag: Etag, i: nat): map<ID, Dir> {
    if i < 7 then s0.d.dirs else if i == 7 then s0.d.dirs - {p} else s0.d.dirs[p := Dir(Some(etag), Some(etag))]
  }

  /** A call for `p` has to download it: it is not fresh, nobody is at it, and the store has moved on. */
  predicate Due(s: State, p: ID) {
    var k := Pos(s.l.lru, p);
    && !(p in s.l.index && k < |s.l.lru| && Fresh(s.w.now, s.l.lru[k]))
    && p !in s.f.inProgress && p in s.w.store && DiskTag(s.d, p) != Some(s.w.store[p])
  }

  lemma {:induction false} DownloadStep(s0: State, s: State, t: Tid, p: ID, i: nat)
    requires i < 8 && Due(s0, p) && Downloading(s0, s, t, p, s0.w.store[p], i)
    ensures Enabled(s, StepAt(i, t)) && Downloading(s0, Next(s, StepAt(i, t)), t, p, s0.w.store[p], i + 1)
  {
    if i < 4 {
      EarlyStep(s0, s, t, p, s0.w.store[p], i);
    } else if i < 6 {
      MiddleStep(s0, s, t, p, s0.w.store[p], i);
    } else {
      LateStep(s0, s, t, p, s0.w.store[p], i);
    }
  }

  lemma {:induction false} EarlyStep(s0: State, s: State, t: Tid, p: ID, etag: Etag, i: nat)
    requires i < 4 && Due(s0, p) && etag == s0.w.store[p] && Downloading(s0, s, t, p, etag, i)
    ensures Enabled(s, StepAt(i, t)) && Downloading(s0, Next(s, StepAt(i, t)), t, p, etag, i + 1)
  {
  }

  lemma {:induction false} MiddleStep(s0: State, s: State, t: Tid, p: ID, etag: Etag, i: nat)
    requires 4 <= i < 6 && Downloading(s0, s, t, p, etag, i)
    ensures Enabled(s, StepAt(i, t)) && Downloading(s0, Next(s, StepAt(i, t)), t, p, etag, i + 1)
  {
  }

  lemma {:induction false} LateStep(s0: State, s: State, t: Tid, p: ID, etag: Etag, i: nat)
    requires 6 <= i < 8 && Downloading(s0, s, t, p, etag, i)
    ensures Enabled(s, StepAt(i, t)) && Downloading(s0, Next(s, StepAt(i, t)), t, p, etag, i + 1)
  {
    var d := Dir(Some(etag), Some(etag));
    assert (s0.d.dirs - {p})[p := d] == s0.d.dirs[p := d];
  }

  lemma {:induction false} StartDownload(s: State, t: Tid, p: ID)
    requires t !in s.f.threads && Due(s, p)
    ensures Enabled(s, Call(t, p)) && Downloading(s, Next(s, Call(t, p)), t, p, s.w.store[p], 0)
  {
  }

  lemma {:induction false} Download(r: Run, t: Tid, p: ID, i: nat) returns (n: Run)
    requires Valid(r) && t !in Now(r).f.threads && Due(Now(r), p) && i < 9
    ensures Valid(n) && Downloading(Now(r), Now(n), t, p, Now(r).w.store[p], i)
    ensures |n.trace| == |r.trace| + 1 + i && n.trace[|r.trace|] == Next(Now(r), Call(t, p))
    ensures Obeys(r) && p !in Now(r).x.pending ==> Obeys(n)
    decreases i
  {
    if i == 0 {
      StartDownload(Now(r), t, p);
      n := Do(r, Call(t, p));
    } else {
      var m := Download(r, t, p, i - 1);
      n := DownloadOn(Now(r), m, t, p, i - 1);
      assert n.trace[|r.trace|] == m.trace[|r.trace|];
    }
  }

  lemma {:induction false} DownloadOn(s0: State, m: Run, t: Tid, p: ID, i: nat) returns (n: Run)
    requires Valid(m) && i < 8 && Due(s0, p) && Downloading(s0, Now(m), t, p, s0.w.store[p], i)
    ensures Valid(n) && Downloading(s0, Now(n), t, p, s0.w.store[p], i + 1)
    ensures |n.trace| == |m.trace| + 1 && n.trace[..|m.trace|] == m.trace && (Obeys(m) ==> Obeys(n))
  {
    DownloadStep(s0, Now(m), t, p, i);
    n := Do(m, StepAt(i, t));
  }

  // ------------------------------------------------------------------ one problem cached

  /** A cold cache of one, and two problems in the store. */
  function Cold(): State {
    var store := map[1 := 10, 2 := 20];
    State(1, World(ETAG_TTL, store, [Moment(ETAG_TTL, store)]), Lists([], {}), Flight(map[], map[], map[]),
          Disk(map[], map[]), Trash(multiset{}, {}))
  }

  /** Only problem 1 is cached. */
  predicate OneCached(s: State) {
    && s.max == 1 && s.w.store == map[1 := 10, 2 := 20]
    && |s.l.lru| == 1 && s.l.lru[0].p == 1 && s.l.index == {1} && s.l.lru[0].validatedAt == s.w.now
    && s.f.inProgress == map[] && s.f.threads.Keys == {99} && s.d.dirs == map[1 := Dir(Some(10), Some(10))]
    && s.x.pending == multiset{}
  }

  lemma {:induction false} ReachCached() returns (r: Run)
    ensures Valid(r) && Obeys(r) && OneCached(Now(r))
  {
    var m := Download(Run([Cold()], []), 99, 1, 8);
    PublishFirst(Now(m));
    r := Do(m, Publish(99));
  }

  lemma {:induction false} PublishFirst(s: State)
    requires Downloading(Cold(), s, 99, 1, 10, 8)
    ensures Enabled(s, Publish(99)) && OneCached(Next(s, Publish(99)))
  {
    InsertFirst(EntryOf(s, s.f.threads[99].job));
    assert Next(s, Publish(99)).l == Lists([EntryOf(s, s.f.threads[99].job)], {1});
  }

  lemma {:induction false} InsertFirst(e: Entry)
    ensures Promoted(Lists([], {}), e, 1) == Lists([e], {e.p}) && PromoteEvicts(Lists([], {}), e, 1) == []
  {
    assert ToFront([], e) == [e];
    assert Kept([e], 1) == [e] && Evicted([e], 1) == [];
    assert Ids([]) == {};
  }

  // ------------------------------------------------------------------ a failing rename

  /** From a cold start: problem 1 is cached, its archive replaced, and the refresh that notices fails at
      its very last step. The refresh found an extraction, ends in failure, and leaves none. */
  lemma {:induction false} FailedRenameLosesCopy() returns (r: Run, i: nat)
    ensures Valid(r) && i < |r.trace| && InFlight(r.trace[i].f, 100) && r.trace[i].f.threads[100].job.p == 1
    ensures 1 in r.trace[i].d.dirs && At(Now(r).f, 100, AtPublish(false)) && 1 !in Now(r).d.dirs
  {
    var a := ReachCached();
    var b := Do(a, Upload(1, 11));
    var c := Do(b, Pass(ETAG_TTL));
    assert Pos(Now(c).l.lru, 1) == 0;
    i := |c.trace|;
    StartDownload(Now(c), 100, 1);
    var d := Download(c, 100, 1, 7);
    r := Do(d, Rename(100, false, true));
    assert r.trace[i] == d.trace[i];
  }

  // ------------------------------------------------------------------ eviction during a refresh

  /** Call 100 refreshes problem 1 and its ETag has just matched. */
  predicate OneMatched(s: State) {
    && s.max == 1 && s.w.store == map[1 := 10, 2 := 20]
    && |s.l.lru| == 1 && s.l.lru[0].p == 1 && s.l.index == {1}
    && s.f.inProgress == map[1 := 100] && s.f.threads.Keys == {99, 100} && 100 in s.f.slots
    && At(s.f, 100, AtValidate) && s.f.threads[100].job.p == 1 && s.d.dirs == map[1 := Dir(Some(10), Some(10))]
    && s.x.pending == multiset{}
  }

  lemma {:induction false} ReachMatched() returns (r: Run)
    ensures Valid(r) && Obeys(r) && OneMatched(Now(r))
  {
    var a := ReachCached();
    MatchOne(Now(a));
    var b := Do(a, Pass(ETAG_TTL));
    var c := Do(b, Call(100, 1));
    var d := Do(c, Stat(100, true));
    r := Do(d, ReadTag(100));
  }

  lemma {:induction false} MatchOne(s: State)
    requires OneCached(s)
    ensures var b := Next(s, Pass(ETAG_TTL));
            && 1 !in b.x.pending && Enabled(b, Call(100, 1)) && Enabled(Next(b, Call(100, 1)), Stat(100, true))
            && (var d := Next(Next(b, Call(100, 1)), Stat(100, true));
                Enabled(d, ReadTag(100)) && OneMatched(Next(d, ReadTag(100))))
  {
    var b := Next(s, Pass(ETAG_TTL));
    assert Pos(b.l.lru, 1) == 0;
    var c := Next(b, Call(100, 1));
    assert At(c.f, 100, AtStat) && c.f.threads[100].job.p == 1;
  }

  /** Problem 1 is on disk but not listed, its deletion is pending, and call 100 refreshes it. */
  predicate OneInFlight(s: State, ph: Phase) {
    && s.max == 1 && |s.l.lru| == 1 && s.l.lru[0].p == 2 && s.l.index == {2}
    && s.x.pending == multiset{1} && At(s.f, 100, ph) && s.f.threads[100].job.p == 1
    && 100 in s.f.slots && 300 !in s.f.threads && s.d.dirs.Keys == {1, 2}
  }

  /** From a cold start, a run reaches the moment before problem 2 is published while problem 1 is
      being revalidated; nothing is pending yet. */
  lemma {:induction false} ReachBrink() returns (r: Run)
    ensures Valid(r) && Obeys(r) && Enabled(Now(r), Publish(200)) && OneInFlight(Next(Now(r), Publish(200)), AtValidate)
    ensures 1 in Now(r).f.inProgress && Now(r).x.pending == multiset{}
  {
    var m := ReachMatched();
    assert Pos(Now(m).l.lru, 2) == 1;
    r := Download(m, 200, 2, 8);
    PublishTwo(Now(m), Now(r));
  }

  lemma {:induction false} PublishTwo(m: State, n: State)
    requires OneMatched(m) && Downloading(m, n, 200, 2, 20, 8)
    ensures Enabled(n, Publish(200)) && OneInFlight(Next(n, Publish(200)), AtValidate)
  {
    assert n.l == Lists([n.l.lru[0]], {n.l.lru[0].p});
    InsertEvicts(n.l.lru[0], EntryOf(n, n.f.threads[200].job));
    assert n.f.threads[100] == m.f.threads[100];
  }

  lemma {:induction false} ValidateOne(s: State)
    requires OneInFlight(s, AtValidate)
    ensures Enabled(s, Validate(100)) && OneInFlight(Next(s, Validate(100)), AtPublish(true))
  {
  }

  /** Problem 1 is listed and fresh, and its deletion is pending. */
  predicate OneFresh(s: State) {
    && |s.l.lru| == 1 && s.l.lru[0].p == 1 && s.l.index == {1} && Fresh(s.w.now, s.l.lru[0])
    && 300 !in s.f.threads && s.x.pending == multiset{1, 2}
  }

  lemma {:induction false} PublishOne(s: State)
    requires OneInFlight(s, AtPublish(true))
    ensures Enabled(s, Publish(100)) && OneFresh(Next(s, Publish(100)))
  {
    assert s.l == Lists([s.l.lru[0]], {s.l.lru[0].p});
    InsertEvicts(s.l.lru[0], EntryOf(s, s.f.threads[100].job));
  }

  lemma {:induction false} DeleteOne(s: State)
    requires OneFresh(s)
    ensures Enabled(s, Delete(1)) && 1 !in Next(s, Delete(1)).x.pending && Enabled(Next(s, Delete(1)), Call(300, 1))
    ensures var n := Next(Next(s, Delete(1)), Call(300, 1));
              Enabled(n, Leave(300)) && ServedNothing(Next(n, Leave(300)).f, 300)
  {
    var n := Next(s, Delete(1));
    assert Pos(n.l.lru, 1) == 0;
  }

  /** Inserting into a full cache of one evicts the other entry. */
  lemma {:induction false} InsertEvicts(a: Entry, e: Entry)
    requires a.p != e.p
    ensures Promoted(Lists([a], {a.p}), e, 1) == Lists([e], {e.p})
    ensures multiset(IdSeq(PromoteEvicts(Lists([a], {a.p}), e, 1))) == multiset{a.p}
  {
    var l := ToFront([a], e);
    assert Pos([a], e.p) == 1;
    assert l == [e, a];
    assert Evicted(l, 1) == [a] && Kept(l, 1) == [e];
    assert Ids([a]) == {a.p} by { assert [a][0].p == a.p; }
    assert IdSeq([a]) == [a.p];
  }

  /** From a cold start more than maxEntries directories can be on disk. */
  lemma {:induction false} ExceedsCapacity() returns (r: Run)
    ensures Valid(r) && Obeys(r) && |Now(r).d.dirs| == 2 && Now(r).max == 1
  {
    var b := ReachBrink();
    r := Do(b, Publish(200));
    assert Now(r).d.dirs.Keys == {1, 2};
  }

  /** It is not enough that deletions finish before the problem is requested again. There is a run from a
      cold start in which they do, and in which the store never changes, whose part `b` leads to a state
      in which 1 is being revalidated and nothing is pending. Then 2 is published, which evicts 1; 1 is
      not requested again until its deletion has run; and the call after that is handed a missing
      directory. */
  lemma {:induction false} EvictedWhileInFlight() returns (b: Run, r: Run)
    ensures Valid(b) && 1 in Now(b).f.inProgress && Now(b).x.pending == multiset{}
    ensures Valid(r) && Obeys(r) && ServedNothing(Now(r).f, 300)
    ensures r.steps == b.steps + ([Publish(200), Validate(100), Publish(100)] + [Delete(1), Call(300, 1), Leave(300)])
    ensures r.trace[|b.steps|] == Now(b) && r.trace[|b.steps| + 1].x.pending == multiset{1}
  {
    b := ReachBrink();
    var p := PublishBoth(b);
    r := DeleteAndCall(p);
    assert r.trace[|b.steps|] == p.trace[|b.steps|];
    assert r.trace[|b.steps| + 1] == p.trace[|b.steps| + 1];
    Concatenated(b.steps, [Publish(200), Validate(100), Publish(100)], [Delete(1), Call(300, 1), Leave(300)]);
  }

  lemma {:induction false} Concatenated(a: seq<Step>, b: seq<Step>, c: seq<Step>)
    ensures (a + b) + c == a + (b + c)
  {
  }

  lemma {:induction false} DeleteAndCall(p: Run) returns (r: Run)
    requires Valid(p) && Obeys(p) && OneFresh(Now(p))
    ensures Valid(r) && Obeys(r) && r.steps == p.steps + [Delete(1), Call(300, 1), Leave(300)] &&
              ServedNothing(Now(r).f, 300)
    ensures r.trace[..|p.trace|] == p.trace
  {
    DeleteOne(Now(p));
    var d := Do(p, Delete(1));
    var c := Do(d, Call(300, 1));
    r := Do(c, Leave(300));
  }

  lemma {:induction false} PublishBoth(b: Run) returns (r: Run)
    requires Valid(b) && Obeys(b) && Enabled(Now(b), Publish(200)) &&
               OneInFlight(Next(Now(b), Publish(200)), AtValidate)
    ensures Valid(r) && Obeys(r) && OneFresh(Now(r)) && r.steps == b.steps + [Publish(200), Validate(100), Publish(100)]
    ensures r.trace[|b.steps|] == Now(b) && r.trace[|b.steps| + 1].x.pending == multiset{1}
  {
    var p := Do(b, Publish(200));
    ValidateOne(Now(p));
    var v := Do(p, Validate(100));
    PublishOne(Now(v));
    r := Do(v, Publish(100));
    assert r.trace[|b.steps|] == b.trace[|b.steps|];
  }

  // ------------------------------------------------------------------ eviction before a waiter returns

  /** Problem 1 is cached; call 99 downloaded it and has returned, call 98 joined and has not. */
  predicate OneOwed(s: State) {
    && s.max == 1 && s.w.store == map[1 := 10, 2 := 20]
    && |s.l.lru| == 1 && s.l.lru[0].p == 1 && s.l.index == {1} && s.f.inProgress == map[]
    && s.l.lru[0].validatedAt == s.w.now && s.f.threads.Keys == {98, 99} && s.f.threads[98] == Waiting(1, 99)
    && s.f.threads[99].Returned? && s.f.threads[99].p == 1 && s.f.threads[99].out.Ok? && s.f.threads[99].open
    && s.f.threads[99].content == Some(10)
    && 99 in s.f.slots && s.f.slots[99].done && s.f.slots[99].result == Some(s.f.threads[99].out)
    && s.d.dirs == map[1 := Dir(Some(10), Some(10))] && s.x.pending == multiset{}
  }

  /** Call 99 is about to publish problem 1, and call 98 has joined it. */
  predicate OneJoined(s: State) {
    && s.max == 1 && s.w.store == map[1 := 10, 2 := 20] && s.l == Lists([], {}) && s.x.pending == multiset{}
    && s.f.inProgress == map[1 := 99] && s.f.threads.Keys == {98, 99} && s.f.threads[98] == Waiting(1, 99)
    && At(s.f, 99, AtPublish(true)) && s.f.threads[99].job.p == 1
    && 99 in s.f.slots && s.f.slots[99] == Slot(1, None, false) && s.d.dirs == map[1 := Dir(Some(10), Some(10))]
  }

  lemma {:induction false} Join(s: State)
    requires Downloading(Cold(), s, 99, 1, 10, 8)
    ensures Enabled(s, Call(98, 1)) && OneJoined(Next(s, Call(98, 1)))
  {
    assert Pos(s.l.lru, 1) == 0;
  }

  lemma {:induction false} PublishJoined(a: State)
    requires OneJoined(a)
    ensures Enabled(a, Publish(99)) && Enabled(Next(a, Publish(99)), Close(99)) &&
              OneOwed(Next(Next(a, Publish(99)), Close(99)))
  {
    var e := EntryOf(a, a.f.threads[99].job);
    InsertFirst(e);
    assert Next(a, Publish(99)).l == Lists([e], {1});
  }

  lemma {:induction false} ReachOwed() returns (r: Run)
    ensures Valid(r) && Obeys(r) && OneOwed(Now(r))
  {
    var a := Download(Run([Cold()], []), 99, 1, 8);
    Join(Now(a));
    PublishJoined(Next(Now(a), Call(98, 1)));
    r := JoinOn(a);
  }

  lemma {:induction false} JoinOn(a: Run) returns (r: Run)
    requires Valid(a) && Obeys(a) && Enabled(Now(a), Call(98, 1)) && 1 !in Now(a).x.pending
    requires Enabled(Next(Now(a), Call(98, 1)), Publish(99)) &&
               Enabled(Next(Next(Now(a), Call(98, 1)), Publish(99)), Close(99))
    ensures Valid(r) && Obeys(r) && Now(r) == Next(Next(Next(Now(a), Call(98, 1)), Publish(99)), Close(99))
  {
    var b := Do(a, Call(98, 1));
    var c := Do(b, Publish(99));
    r := Do(c, Close(99));
  }

  /** Problem 2 has replaced it in the list. */
  predicate OneOwedEvicted(s: State) {
    && s.x.pending == multiset{1} && s.f.threads.Keys == {98, 99, 200} && s.f.threads[98] == Waiting(1, 99)
    && s.f.threads[99].Returned? && s.f.threads[99].p == 1 && s.f.threads[99].out.Ok? && s.f.threads[99].open
    && s.f.threads[99].content == Some(10)
    && 99 in s.f.slots && s.f.slots[99].done && s.f.slots[99].result == Some(s.f.threads[99].out)
    && 1 in s.d.dirs && s.d.dirs[1].content == Some(10)
  }

  lemma {:induction false} EvictOwed(m: State, n: State)
    requires OneOwed(m) && Downloading(m, n, 200, 2, 20, 8)
    ensures Enabled(n, Publish(200)) && OneOwedEvicted(Next(n, Publish(200)))
    ensures 1 !in n.f.inProgress && n.x.pending == multiset{} && EvictedBy(n, 200) == {1}
  {
    assert n.l == Lists([n.l.lru[0]], {n.l.lru[0].p});
    var e := EntryOf(n, n.f.threads[200].job);
    InsertEvicts(n.l.lru[0], e);
    assert PromoteEvicts(n.l, e, 1) == [n.l.lru[0]];
    assert Ids([n.l.lru[0]]) == {1} by { assert [n.l.lru[0]][0].p == 1; }
  }

  /** A run up to the eviction of problem 1, which nobody is refreshing then. */
  lemma {:induction false} ReachOwedEvicted() returns (b: Run, r: Run)
    ensures Valid(b) && 1 !in Now(b).f.inProgress && Now(b).x.pending == multiset{}
    ensures Enabled(Now(b), Publish(200)) && EvictedBy(Now(b), 200) == {1}
    ensures Valid(r) && Obeys(r) && OneOwedEvicted(Now(r)) && r.steps == b.steps + [Publish(200)]
    ensures r.trace[|b.steps|] == Now(b)
  {
    var m := ReachOwed();
    assert Pos(Now(m).l.lru, 2) == 1;
    b := Download(m, 200, 2, 8);
    EvictOwed(Now(m), Now(b));
    r := Do(b, Publish(200));
  }

  /** Nor is it enough that, besides, no problem is evicted while it is being refreshed. There is a run
      from a cold start in which every deletion finishes before its problem is requested again and the
      store never changes, whose part `b` leads to a state in which nobody is refreshing problem 1 and
      nothing is pending. Then 2 is published, which evicts exactly 1; but a call that joined the download
      of 1 has not returned yet, and is then handed a missing directory. */
  lemma {:induction false} EvictedBeforeWaiterReturns() returns (b: Run, r: Run)
    ensures Valid(b) && 1 !in Now(b).f.inProgress && Now(b).x.pending == multiset{}
    ensures Enabled(Now(b), Publish(200)) && EvictedBy(Now(b), 200) == {1}
    ensures Valid(r) && Obeys(r) && r.steps == b.steps + ([Publish(200)] + [Delete(1), Wake(98)])
    ensures r.trace[|b.steps|] == Now(b) && ServedNothing(Now(r).f, 98)
  {
    var a;
    b, a := ReachOwedEvicted();
    r := DeleteAndWake(a);
    assert r.trace[|b.steps|] == a.trace[|b.steps|];
    Concatenated(b.steps, [Publish(200)], [Delete(1), Wake(98)]);
  }

  lemma {:induction false} DeleteAndWake(a: Run) returns (r: Run)
    requires Valid(a) && Obeys(a) && OneOwedEvicted(Now(a))
    ensures Valid(r) && Obeys(r) && r.steps == a.steps + [Delete(1), Wake(98)] && r.trace[..|a.trace|] == a.trace
    ensures ServedNothing(Now(r).f, 98)
  {
    var d := Do(a, Delete(1));
    r := Do(d, Wake(98));
  }

  /** Nor that no problem is evicted while it is in use at all: a refresh that finds a new archive takes
      the directory away just as well. On this run nothing is ever evicted. */
  lemma {:induction false} ReplacedBeforeWaiterReturns() returns (r: Run)
    ensures Valid(r) && Now(r).x.pending == multiset{} && ServedNothing(Now(r).f, 98)
  {
    var a := ReachOwed();
    var b := Do(a, Upload(1, 11));
    var c := Do(b, Pass(ETAG_TTL));
    assert Pos(Now(c).l.lru, 1) == 0;
    var d := Download(c, 100, 1, 7);
    assert Now(d).f.threads[98] == Waiting(1, 99);
    r := Do(d, Wake(98));
  }

  /** And once a call has returned nothing protects the directory its caller works in: on the same run
      call 99 still uses problem 1 when its directory goes. */
  lemma {:induction false} TakenFromUser() returns (r: Run)
    ensures Valid(r) && Obeys(r) && CacheUse.Uses(Now(r).f, 99, 1) && 1 !in Now(r).d.dirs
    ensures Now(r).f.threads[99].content == Some(10)
  {
    var b, a := ReachOwedEvicted();
    r := Do(a, Delete(1));
  }
}
