/** Structure of the cache's list and index, single flight and the directories on disk. */
module CacheLru {
  import opened Types
  import opened CacheModel

  /** No problem twice, most recently used first, all used before `tick`. */
  predicate Ordered(lru: seq<Entry>, tick: int) {
    && (forall i, j :: 0 <= i < j < |lru| ==> lru[i].p != lru[j].p && lru[i].lastUse > lru[j].lastUse)
    && (forall i :: 0 <= i < |lru| ==> lru[i].lastUse < tick)
  }

  /** List and index are in bijection, within capacity, in order of last use. */
  predicate OkLists(l: Lists, max: nat, tick: int) {
    Ordered(l.lru, tick) && Ids(l.lru) == l.index && |l.lru| <= max
  }

  predicate LruInv(s: State) {
    s.max >= 1 && OkLists(s.l, s.max, Tick(s))
  }

  /** Removing a problem keeps the others, in place. */
  lemma {:induction false} WithoutAt(lru: seq<Entry>, p: ID)
    ensures var k, w := Pos(lru, p), Without(lru, p);
            && |w| == (if k < |lru| then |lru| - 1 else |lru|)
            && forall i :: 0 <= i < |w| ==> w[i] == lru[if i < k then i else i + 1]
  {
  }

  lemma {:induction false} WithoutOrdered(lru: seq<Entry>, p: ID, tick: int)
    requires Ordered(lru, tick)
    ensures Ordered(Without(lru, p), tick) && forall i :: 0 <= i < |Without(lru, p)| ==> Without(lru, p)[i].p != p
  {
    var k, w := Pos(lru, p), Without(lru, p);
    WithoutAt(lru, p);
    forall i | 0 <= i < |w| ensures w[i].p != p && w[i].lastUse < tick {
      if i >= k { assert lru[k].p == p && lru[k].p != lru[i + 1].p; }
    }
  }

  lemma {:induction false} WithoutMembers(lru: seq<Entry>, p: ID)
    ensures forall x :: x in Without(lru, p) ==> x in lru
    ensures forall x :: x in lru && x.p != p ==> x in Without(lru, p)
  {
    var k, w := Pos(lru, p), Without(lru, p);
    if k < |lru| {
      assert lru == lru[..k] + [lru[k]] + lru[k + 1..];
    }
  }

  lemma {:induction false} ToFrontOrdered(lru: seq<Entry>, e: Entry)
    requires Ordered(lru, e.lastUse)
    ensures Ordered(ToFront(lru, e), e.lastUse + 1)
  {
    WithoutOrdered(lru, e.p, e.lastUse);
    var w, l := Without(lru, e.p), ToFront(lru, e);
    assert l[0] == e && forall i :: 1 <= i < |l| ==> l[i] == w[i - 1];
  }

  lemma {:induction false} IdsAre(lru: seq<Entry>, p: ID)
    ensures p in Ids(lru) <==> exists x :: x in lru && x.p == p
  {
    if p in Ids(lru) {
      var i :| 0 <= i < |lru| && lru[i].p == p;
      assert lru[i] in lru;
    }
  }

  lemma {:induction false} ToFrontIds(lru: seq<Entry>, e: Entry)
    ensures |ToFront(lru, e)| == |lru| + if e.p in Ids(lru) then 0 else 1
    ensures Ids(ToFront(lru, e)) == Ids(lru) + {e.p}
  {
    var k, l := Pos(lru, e.p), ToFront(lru, e);
    assert e.p in Ids(lru) <==> k < |lru| by { if k < |lru| { assert lru[k].p in Ids(lru); } }
    WithoutMembers(lru, e.p);
    forall p ensures p in Ids(l) <==> p in Ids(lru) + {e.p} {
      IdsAre(l, p);
      IdsAre(lru, p);
      assert e in l;
    }
  }

  /** What is in the list after a move or insertion at the front. */
  lemma {:induction false} ToFrontMembers(lru: seq<Entry>, e: Entry)
    requires Ordered(lru, e.lastUse)
    ensures forall x :: x in ToFront(lru, e) ==> x == e || (x in lru && x.p != e.p)
    ensures forall x :: x in lru && x.p != e.p ==> x in ToFront(lru, e)
  {
    WithoutOrdered(lru, e.p, e.lastUse);
    WithoutMembers(lru, e.p);
  }

  lemma {:induction false} SplitFacts(lru: seq<Entry>, max: nat, tick: int)
    requires Ordered(lru, tick)
    ensures Ordered(Kept(lru, max), tick) && |Kept(lru, max)| <= max
    ensures Ids(Kept(lru, max)) == Ids(lru) - Ids(Evicted(lru, max))
  {
    var n := Min(|lru|, max);
    var k, g := lru[..n], lru[n..];
    assert forall i :: 0 <= i < |g| ==> g[i] == lru[n + i];
    forall x | x in Ids(lru) ensures x in Ids(k) || x in Ids(g) {
      var i :| 0 <= i < |lru| && lru[i].p == x;
      assert if i < n then k[i].p == x else g[i - n].p == x;
    }
  }

  lemma {:induction false} EvictedPending(gone: seq<Entry>)
    ensures forall p :: p in Ids(gone) <==> p in multiset(IdSeq(gone))
  {
    forall p | p in Ids(gone) ensures p in multiset(IdSeq(gone)) {
      var i :| 0 <= i < |gone| && gone[i].p == p;
      assert IdSeq(gone)[i] == p;
    }
    forall p | p in multiset(IdSeq(gone)) ensures p in Ids(gone) {
      assert p in IdSeq(gone);
      var i :| 0 <= i < |gone| && IdSeq(gone)[i] == p;
    }
  }

  lemma {:induction false} PromotedOk(l: Lists, e: Entry, max: nat)
    requires max >= 1 && OkLists(l, max, e.lastUse)
    ensures OkLists(Promoted(l, e, max), max, e.lastUse + 1)
    ensures Promoted(l, e, max).lru != [] && Promoted(l, e, max).lru[0] == e && e.p in Promoted(l, e, max).index
  {
    ToFrontOrdered(l.lru, e);
    ToFrontIds(l.lru, e);
    SplitFacts(ToFront(l.lru, e), max, e.lastUse + 1);
    var n := Promoted(l, e, max);
    assert n.lru[0] == e;
  }

  lemma {:induction false} TouchedOk(l: Lists, k: nat, e: Entry, max: nat)
    requires k < |l.lru| && l.lru[k].p == e.p && OkLists(l, max, e.lastUse)
    ensures OkLists(l.(lru := ToFront(l.lru, e)), max, e.lastUse + 1)
  {
    ToFrontOrdered(l.lru, e);
    ToFrontIds(l.lru, e);
  }

  lemma {:induction false} RestartOk(order: seq<ID>, max: nat)
    requires forall i, j :: 0 <= i < j < |order| ==> order[i] != order[j]
    ensures Ordered(Kept(Found(order), max), 0) && |Kept(Found(order), max)| <= max
  {
    SplitFacts(Found(order), max, 0);
  }

  lemma {:induction false} CallOk(s: State, t: Tid, p: ID)
    requires LruInv(s)
    ensures OkLists(DoCall(s, t, p).l, s.max, Tick(s) + 1)
  {
    var k := Pos(s.l.lru, p);
    if k < |s.l.lru| { TouchedOk(s.l, k, s.l.lru[k].(lastUse := Tick(s)), s.max); }
  }

  lemma {:induction false} ValidatedOk(s: State, j: Job)
    requires LruInv(s)
    ensures OkLists(Validated(s, j), s.max, Tick(s) + 1)
  {
    var k := Pos(s.l.lru, j.p);
    if k < |s.l.lru| {
      TouchedOk(s.l, k, s.l.lru[k].(validatedAt := s.w.now, began := j.began, stat := j.stat, lastUse := Tick(s)),
          s.max);
    }
  }

  lemma {:induction false} EffectOk(s: State, step: Step)
    requires LruInv(s) && Enabled(s, step)
    ensures OkLists(Effect(s, step).l, s.max, Tick(s) + 1)
  {
    match step {
      case Call(t, p) => CallOk(s, t, p);
      case Validate(t) => ValidatedOk(s, s.f.threads[t].job);
      case Publish(t) => PromotedOk(s.l, EntryOf(s, s.f.threads[t].job), s.max);
      case Restart(order) => RestartOk(order, s.max);
      case _ => ListUntouched(s, step);
    }
  }

  /** No step touches the history or the capacity. */
  lemma {:induction false} HistoryUntouched(s: State, step: Step)
    requires Enabled(s, step)
    ensures Effect(s, step).w.hist == s.w.hist && Effect(s, step).max == s.max
  {
  }

  /** The list and index keep their structure through every step. */
  lemma {:induction false} LruKept(s: State, step: Step)
    requires LruInv(s) && Enabled(s, step)
    ensures LruInv(Next(s, step))
  {
    EffectOk(s, step);
    HistoryUntouched(s, step);
  }

  /** The other steps do not touch the list or the index. */
  lemma {:induction false} ListUntouched(s: State, step: Step)
    requires Enabled(s, step) && !step.Call? && !step.Validate? && !step.Publish? && !step.Restart?
    ensures Effect(s, step).l == s.l
  {
  }

  /** Publishing a problem never evicts it, and leaves it most recently used. */
  lemma {:induction false} PublishedIsFirst(s: State, t: Tid)
    requires LruInv(s) && Enabled(s, Publish(t)) && At(s.f, t, AtPublish(true))
    ensures var l := Next(s, Publish(t)).l; l.lru != [] && l.lru[0].p == s.f.threads[t].job.p && l.lru[0].p in l.index
  {
    PromotedOk(s.l, EntryOf(s, s.f.threads[t].job), s.max);
  }
}
