/** Staged extraction is failure-safe, and every directory on disk is accounted for. */
module CacheDisk {
  import opened Types
  import opened CacheModel
  import opened CacheLru
  import opened CacheFlight

  /** A complete extraction carrying its .etag. */
  predicate Complete(d: Dir) {
    d.content.Some? && d.tag.Some?
  }

  /** How far the staging directory of a running refresh has come. */
  predicate StageInv(d: Disk, j: Job, ph: Phase) {
    match ph
    case AtExtract => j.p in d.staging
    case AtWriteTag => j.p in d.staging && d.staging[j.p].content == Some(j.zip)
    case AtRemoveOld => j.p in d.staging && d.staging[j.p] == Dir(Some(j.zip), Some(j.remote))
    case AtRename => j.p in d.staging && d.staging[j.p] == Dir(Some(j.zip), Some(j.remote))
    case _ => true
  }

  /** At every step boundary, so also after a crash, a problem directory is absent or complete. */
  ghost predicate DiskInv(s: State) {
    && (forall p :: p in s.d.dirs ==> Complete(s.d.dirs[p]))
    && (forall t :: InFlight(s.f, t) ==> StageInv(s.d, s.f.threads[t].job, s.f.threads[t].phase))
  }

  /** The refresh that moved left its staging directory as its next step expects it. */
  lemma {:induction false} StageStep(s: State, step: Step)
    requires DiskInv(s) && Enabled(s, step) && IsMove(step)
    ensures InFlight(Effect(s, step).f, step.t)
    ensures var pc := Effect(s, step).f.threads[step.t]; StageInv(Effect(s, step).d, pc.job, pc.phase)
  {
    var pc := s.f.threads[step.t];
    assert InFlight(s.f, step.t);
    assert StageInv(s.d, pc.job, pc.phase);
    match step {
      case Extract(_, _, _) =>
      case WriteTag(_, _, _) =>
      case RemoveOld(_, _) =>
      case _ =>
    }
  }

  lemma {:induction false} MoveKeepsDisk(s: State, step: Step)
    requires FlightInv(s.f) && DiskInv(s) && Enabled(s, step) && IsMove(step)
    ensures DiskInv(Next(s, step))
  {
    var n, t := Next(s, step), step.t;
    var j, ph := MovesOnly(s, step);
    assert PcInv(s.f, t) && StageInv(s.d, s.f.threads[t].job, s.f.threads[t].phase);
    StageStep(s, step);
    assert forall q :: q != j.p && q in s.d.staging ==> q in n.d.staging && n.d.staging[q] == s.d.staging[q];
    forall u | InFlight(n.f, u) ensures StageInv(n.d, n.f.threads[u].job, n.f.threads[u].phase) {
      if u != t {
        assert PcInv(s.f, u);
        assert StageInv(s.d, s.f.threads[u].job, s.f.threads[u].phase);
      }
    }
  }

  lemma {:induction false} DiskKept(s: State, step: Step)
    requires FlightInv(s.f) && DiskInv(s) && Enabled(s, step)
    ensures DiskInv(Next(s, step))
  {
    if IsMove(step) {
      MoveKeepsDisk(s, step);
    } else {
      var n := Next(s, step);
      StagingUntouched(s, step);
      forall u | InFlight(n.f, u) ensures StageInv(n.d, n.f.threads[u].job, n.f.threads[u].phase) {
        if InFlight(s.f, u) && n.f.threads[u] == s.f.threads[u] {
          assert StageInv(s.d, s.f.threads[u].job, s.f.threads[u].phase);
        }
      }
    }
  }

  /** Outside a refresh nothing is staged, and directories only disappear. */
  lemma {:induction false} StagingUntouched(s: State, step: Step)
    requires Enabled(s, step) && !IsMove(step)
    ensures Next(s, step).d.staging == s.d.staging
    ensures forall p :: p in Next(s, step).d.dirs ==> p in s.d.dirs && Next(s, step).d.dirs[p] == s.d.dirs[p]
    ensures forall t :: InFlight(Next(s, step).f, t) ==>
              (InFlight(s.f, t) && Next(s, step).f.threads[t] == s.f.threads[t]) ||
                  Next(s, step).f.threads[t].phase == AtStat
  {
  }

  // ------------------------------------------------------------------ accounting

  /** A refresh has put the directory in place and is about to publish it. */
  predicate Landing(f: Flight, p: ID) {
    p in f.inProgress && At(f, f.inProgress[p], AtPublish(true))
  }

  /** Every problem directory is indexed, in flight, pending deletion, or its deletion failed. */
  predicate Accounted(s: State, p: ID) {
    p in s.l.index || p in s.x.pending || p in s.x.leaked || Landing(s.f, p)
  }

  predicate AccountInv(s: State) {
    forall p :: p in s.d.dirs ==> Accounted(s, p)
  }

  lemma {:induction false} PublishAccounts(s: State, t: Tid)
    requires LruInv(s) && FlightInv(s.f) && AccountInv(s) && Enabled(s, Publish(t))
    ensures AccountInv(Next(s, Publish(t)))
  {
    forall p | p in s.d.dirs ensures Accounted(Next(s, Publish(t)), p) {
      assert Accounted(s, p);
      if Landing(s.f, p) { LandingPublished(s, t, p); } else { ListedPublished(s, t, p); }
    }
  }

  lemma {:induction false} LandingPublished(s: State, t: Tid, p: ID)
    requires LruInv(s) && FlightInv(s.f) && Enabled(s, Publish(t)) && Landing(s.f, p)
    ensures Accounted(Next(s, Publish(t)), p)
  {
    var u := s.f.inProgress[p];
    assert PcInv(s.f, t) && PcInv(s.f, u);
    if u == t {
      PromotionAccounts(s.l, EntryOf(s, s.f.threads[t].job), s.max);
    } else {
      assert Landing(Next(s, Publish(t)).f, p);
    }
  }

  lemma {:induction false} ListedPublished(s: State, t: Tid, p: ID)
    requires LruInv(s) && Enabled(s, Publish(t)) && (p in s.l.index || p in s.x.pending || p in s.x.leaked)
    ensures Accounted(Next(s, Publish(t)), p)
  {
    var e := EntryOf(s, s.f.threads[t].job);
    PromotionAccounts(s.l, e, s.max);
    if p in s.l.index && s.f.threads[t].phase.ok {
      assert p in Promoted(s.l, e, s.max).index || p in multiset(IdSeq(PromoteEvicts(s.l, e, s.max)));
    }
  }

  /** Promotion indexes the promoted problem, and hands to deletion whatever leaves the index. */
  lemma {:induction false} PromotionAccounts(l: Lists, e: Entry, max: nat)
    requires max >= 1 && OkLists(l, max, e.lastUse)
    ensures e.p in Promoted(l, e, max).index
    ensures forall p :: p in l.index ==>
              p in Promoted(l, e, max).index || p in multiset(IdSeq(PromoteEvicts(l, e, max)))
  {
    EvictedPending(Evicted(ToFront(l.lru, e), max));
    PromotedOk(l, e, max);
  }

  lemma {:induction false} RestartAccounts(s: State, order: seq<ID>)
    requires Enabled(s, Restart(order))
    ensures AccountInv(Next(s, Restart(order)))
  {
    EvictedPending(Evicted(Found(order), s.max));
    var n := Next(s, Restart(order));
    forall p | p in s.d.dirs ensures Accounted(n, p) {
      RestartLists(order, s.max, p);
    }
  }

  lemma {:induction false} RestartLists(order: seq<ID>, max: nat, p: ID)
    requires p in order
    ensures p in Ids(Kept(Found(order), max)) || p in Ids(Evicted(Found(order), max))
  {
    var l := Found(order);
    var k := Min(|l|, max);
    var i :| 0 <= i < |order| && order[i] == p;
    if i < k {
      assert Kept(l, max)[i].p == p;
    } else {
      assert Evicted(l, max)[i - k].p == p;
    }
  }

  lemma {:induction false} MoveAccounts(s: State, step: Step)
    requires LruInv(s) && FlightInv(s.f) && AccountInv(s) && Enabled(s, step) && IsMove(step)
    ensures AccountInv(Next(s, step))
  {
    var n, t := Next(s, step), step.t;
    var j, ph := MovesOnly(s, step);
    assert PcInv(s.f, t);
    EffectOk(s, step);
    MovesKeepIndex(s, step);
    forall p | p in n.d.dirs ensures Accounted(n, p) {
      if p in s.d.dirs {
        assert Accounted(s, p);
        if Landing(s.f, p) { assert s.f.inProgress[p] != t; }
      }
    }
  }

  lemma {:induction false} MovesKeepIndex(s: State, step: Step)
    requires Enabled(s, step) && IsMove(step)
    ensures var n := Next(s, step);
            n.l.index == s.l.index && n.x == s.x && n.f.inProgress == s.f.inProgress
            && forall p :: p in n.d.dirs && p !in s.d.dirs ==>
                 p == s.f.threads[step.t].job.p && n.f.threads[step.t].phase == AtPublish(true)
  {
  }

  lemma {:induction false} AccountKept(s: State, step: Step)
    requires LruInv(s) && FlightInv(s.f) && AccountInv(s) && Enabled(s, step)
    ensures AccountInv(Next(s, step))
  {
    if IsMove(step) {
      MoveAccounts(s, step);
    } else if step.Publish? {
      PublishAccounts(s, step.t);
    } else if step.Restart? {
      RestartAccounts(s, step.order);
    } else {
      var n := Next(s, step);
      OthersKeepAccounts(s, step);
      forall p | p in n.d.dirs ensures Accounted(n, p) {
        assert Accounted(s, p);
        if Landing(s.f, p) {
          assert PcInv(s.f, s.f.inProgress[p]);
          assert Landing(n.f, p);
        }
      }
    }
  }

  lemma {:induction false} OthersKeepAccounts(s: State, step: Step)
    requires Enabled(s, step) && !IsMove(step) && !step.Publish? && !step.Restart?
    ensures var n := Effect(s, step);
            && n.l.index == s.l.index
            && (forall p :: p in n.d.dirs ==>
                p in s.d.dirs && (p in s.x.pending ==> p in n.x.pending || p in n.x.leaked))
            && (forall p :: p in s.x.leaked ==> p in n.x.leaked)
    ensures var f, g := s.f, Effect(s, step).f;
            && (forall p :: p in f.inProgress ==> p in g.inProgress && g.inProgress[p] == f.inProgress[p])
            && (forall t :: InFlight(f, t) ==> InFlight(g, t) && g.threads[t] == f.threads[t])
  {
    match step {
      case Call(t, p) =>
      case Wake(t) =>
      case Close(t) =>
      case Delete(p) =>
      case DeleteFails(p) =>
      case _ =>
    }
  }

  lemma {:induction false} IdsSize(l: seq<Entry>)
    ensures |Ids(l)| <= |l|
  {
    if l != [] {
      var n := |l| - 1;
      IdsSize(l[..n]);
      assert Ids(l) == Ids(l[..n]) + {l[n].p};
    }
  }

  lemma {:induction false} SupportSize(m: multiset<ID>, a: set<ID>)
    requires forall p :: p in a ==> p in m
    ensures |a| <= |m|
    decreases |a|
  {
    if a != {} {
      SomeMember(a);
      var p :| p in a;
      SupportSize(m - multiset{p}[p := m[p]], a - {p});
    }
  }

  /** So the directories on disk number at most capacity + in flight + pending + failed deletions. */
  lemma {:induction false} DirectoriesBounded(s: State)
    requires LruInv(s) && AccountInv(s)
    ensures |s.d.dirs| <= s.max + |s.f.inProgress| + |s.x.pending| + |s.x.leaked|
  {
    var on := s.d.dirs.Keys;
    var a := on * s.l.index;
    var b := on * s.f.inProgress.Keys;
    var c := set p | p in on && p in s.x.pending;
    var d := on * s.x.leaked;
    forall p | p in on ensures p in a + b + c + d { assert Accounted(s, p); }
    assert on == a + b + c + d;
    IdsSize(s.l.lru);
    SubsetSize(a, s.l.index);
    SubsetSize(b, s.f.inProgress.Keys);
    SubsetSize(d, s.x.leaked);
    SupportSize(s.x.pending, c);
    UnionCard(a, b);
    UnionCard(a + b, c);
    UnionCard(a + b + c, d);
  }

  /** Directories of listed problems, and the others. */
  function Listed(s: State): set<ID> {
    set p | p in s.d.dirs && p in s.l.index
  }

  function Stray(s: State): set<ID> {
    set p | p in s.d.dirs && p !in s.l.index
  }

  /** The documented bound of maxEntries directories, exactly: a directory outside the index is one that
      is landing, pending deletion or left by a failed deletion. Without any the bound holds; with a
      full list on disk a single one breaks it; in general they must fit in the room the list leaves. */
  lemma {:induction false} CapacityIff(s: State)
    requires LruInv(s) && AccountInv(s)
    ensures forall p :: p in Stray(s) ==> p in s.x.pending || p in s.x.leaked || Landing(s.f, p)
    ensures |s.d.dirs| == |Listed(s)| + |Stray(s)| && |Listed(s)| <= s.max
    ensures |s.d.dirs| <= s.max <==> |Stray(s)| <= s.max - |Listed(s)|
    ensures Stray(s) == {} ==> |s.d.dirs| <= s.max
    ensures |Listed(s)| == s.max ==> (|s.d.dirs| <= s.max <==> Stray(s) == {})
  {
    forall p | p in Stray(s) ensures p in s.x.pending || p in s.x.leaked || Landing(s.f, p) { assert Accounted(s, p); }
    assert s.d.dirs.Keys == Listed(s) + Stray(s) && Listed(s) !! Stray(s);
    IdsSize(s.l.lru);
    SubsetSize(Listed(s), s.l.index);
  }

  lemma {:induction false} UnionCard(a: set<ID>, b: set<ID>)
    ensures |a + b| <= |a| + |b|
  {
    assert a + b == a + (b - a);
    SubsetSize(b - a, b);
  }
}
