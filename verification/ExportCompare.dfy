/** The event feed against the live board, for every order in which results arrive. */
module ExportCompare {
  import opened Types
  import opened Cell
  import opened Freeze
  import opened Resolver

  predicate Chronological(runs: seq<Judged>) {
    forall i, j :: 0 <= i < j < |runs| ==> runs[i].submitTime <= runs[j].submitTime
  }

  lemma {:induction false} HiddenLast(before: seq<Judged>, r: Judged, freeze: Option<Time>)
    requires IsPostFreeze(r.submitTime, freeze) && Visible(before, freeze) + Hidden(before, freeze) == before
    ensures Visible(before + [r], freeze) + Hidden(before + [r], freeze) == before + [r]
  {
    assert (before + [r])[..|before|] == before;
    var vis, hid := Visible(before, freeze), Hidden(before, freeze);
    assert vis + (hid + [r]) == (vis + hid) + [r];
  }

  lemma {:induction false} VisibleLast(before: seq<Judged>, r: Judged, freeze: Option<Time>)
    requires !IsPostFreeze(r.submitTime, freeze) && Visible(before, freeze) == before && Hidden(before, freeze) == []
    ensures Visible(before + [r], freeze) + Hidden(before + [r], freeze) == before + [r]
  {
    assert (before + [r])[..|before|] == before;
  }

  lemma {:induction false} SortedPartition(runs: seq<Judged>, freeze: Option<Time>)
    requires Chronological(runs)
    ensures Visible(runs, freeze) + Hidden(runs, freeze) == runs
  {
    if runs != [] {
      var n := |runs| - 1;
      var r, before := runs[n], runs[..n];
      assert runs == before + [r];
      if IsPostFreeze(r.submitTime, freeze) {
        SortedPartition(before, freeze);
        HiddenLast(before, r, freeze);
      } else {
        NothingHidden(before, freeze);
        VisibleLast(before, r, freeze);
      }
    }
  }

  lemma {:induction false} NothingHidden(runs: seq<Judged>, freeze: Option<Time>)
    requires forall i :: 0 <= i < |runs| ==> !IsPostFreeze(runs[i].submitTime, freeze)
    ensures Visible(runs, freeze) == runs && Hidden(runs, freeze) == []
  {
    if runs != [] {
      NothingHidden(runs[..|runs| - 1], freeze);
      assert runs == runs[..|runs| - 1] + [runs[|runs| - 1]];
    }
  }

  lemma {:induction false} PartitionPermutes(runs: seq<Judged>, freeze: Option<Time>)
    ensures multiset(Visible(runs, freeze) + Hidden(runs, freeze)) == multiset(runs)
  {
    if runs != [] {
      var before, r := runs[..|runs| - 1], runs[|runs| - 1];
      PartitionPermutes(before, freeze);
      var vis, hid := Visible(before, freeze), Hidden(before, freeze);
      InsertedOnce(vis, hid, before, r);
      assert runs == before + [r];
      if IsPostFreeze(r.submitTime, freeze) {
        assert Visible(runs, freeze) == vis + [] && Hidden(runs, freeze) == hid + [r];
      } else {
        assert Visible(runs, freeze) == vis + [r] && Hidden(runs, freeze) == hid + [];
      }
    }
  }

  lemma {:induction false} InsertedOnce(vis: seq<Judged>, hid: seq<Judged>, all: seq<Judged>, r: Judged)
    requires multiset(vis + hid) == multiset(all)
    ensures multiset((vis + [r]) + (hid + [])) == multiset((vis + []) + (hid + [r])) == multiset(all + [r])
  {
    assert vis + [] == vis && hid + [] == hid;
    assert multiset(all + [r]) == multiset(all) + multiset{r};
  }

  /** Whether a cell is solved does not depend on the order of its runs. */
  lemma {:induction false} SolvedPermutes(a: seq<Judged>, b: seq<Judged>)
    requires multiset(a) == multiset(b)
    ensures SolvedAt(a).Some? <==> SolvedAt(b).Some?
  {
    if SolvedAt(a).Some? { SolvedTransfers(a, b); }
    if SolvedAt(b).Some? { SolvedTransfers(b, a); }
  }

  lemma {:induction false} SolvedTransfers(a: seq<Judged>, b: seq<Judged>)
    requires multiset(a) == multiset(b) && SolvedAt(a).Some?
    ensures SolvedAt(b).Some?
  {
    assert a[FirstAC(a)] in multiset(b);
    var i :| 0 <= i < |b| && b[i] == a[FirstAC(a)];
    assert FirstAC(b) <= i;
  }

  // ------------------------------------------------------------------ what the export leaves out

  lemma {:induction false} ClampLast(runs: seq<Judged>, start: Time, end: Time)
    requires runs != []
    ensures var n := |runs| - 1;
            Clamp(runs, start, end) == Clamp(runs[..n], start, end)
                + if Late(runs[n], end) then [] else [AtStart(runs[n], start)]
  {
  }

  /** The exported cell is solved exactly by an AC not after the end. */
  lemma {:induction false} ClampSolved(runs: seq<Judged>, start: Time, end: Time)
    ensures SolvedAt(Clamp(runs, start, end)).Some? <==>
              exists i :: 0 <= i < |runs| && runs[i].status == Accepted && !Late(runs[i], end)
  {
    if runs != [] {
      var n := |runs| - 1;
      ClampSolved(runs[..n], start, end);
      SolvedAppend(Clamp(runs[..n], start, end), AtStart(runs[n], start));
      if i :| 0 <= i < n && runs[i].status == Accepted && !Late(runs[i], end) { assert runs[..n][i] == runs[i]; }
    }
  }

  lemma {:induction false} SolvedAppend(runs: seq<Judged>, r: Judged)
    ensures SolvedAt(runs + [r]).Some? <==> SolvedAt(runs).Some? || r.status == Accepted
    ensures SolvedAt(runs + []).Some? <==> SolvedAt(runs).Some?
  {
    FirstACAppend(runs, r, Settings(0, false, false));
    assert runs + [] == runs;
  }

  lemma {:induction false} SolvedIff(runs: seq<Judged>)
    ensures SolvedAt(runs).Some? <==> exists i :: 0 <= i < |runs| && runs[i].status == Accepted
  {
    if i :| 0 <= i < |runs| && runs[i].status == Accepted { assert FirstAC(runs) <= i; }
  }

  // ------------------------------------------------------------------ comparing scores

  /** How much later, in minutes, the live board takes the cell to be solved. */
  function Delay(live: seq<Judged>, feed: seq<Judged>, start: Time): int {
    match (SolvedAt(live), SolvedAt(feed))
    case (Some(a), Some(b)) => Minutes(a - start) - Minutes(b - start)
    case _ => 0
  }

  /** Penalties the live board counts beyond those of the feed: penalised runs it meets before its AC,
      exempt CEs the reveal replays, and results the export does not judge. */
  function Extra(arrival: seq<Judged>, fed: seq<Judged>, freeze: Option<Time>, st: Settings): int {
    Penalised(Visible(arrival, freeze) + Hidden(arrival, freeze), st) - Penalised(fed, st)
    + ReplayedExempt(arrival, freeze, st) + Unjudged(fed[..FirstAC(fed)])
  }

  /** On a cell both take to be solved, the live penalty and the feed's differ by `delay` minutes and
      `extra` penalties. */
  predicate Compared(live: ScoreEntry, feed: (bool, int), delay: int, extra: int, st: Settings) {
    && (live.accepted && feed.0 ==> live.penalty == feed.1 + delay + extra * st.penaltyMinutes)
    && (!live.accepted ==> live.penalty == 0) && (!feed.0 ==> feed.1 == 0)
  }

  lemma {:induction false} SumOfGaps(a: int, b: int, delay: int, gap: int, re: int, un: int, live: int, feed: int,
      pm: int)
    requires live == a + re * pm && a == b + delay + gap * pm && b == feed + un * pm
    ensures live == feed + delay + (gap + re + un) * pm
  {
    assert (gap + re + un) * pm == gap * pm + re * pm + un * pm;
  }

  /** The rule on two lists of runs, both solved. */
  lemma {:induction false} RuleDiffers(a: seq<Judged>, b: seq<Judged>, start: Time, st: Settings)
    requires SolvedAt(a).Some? && SolvedAt(b).Some?
    ensures IcpcRule(a, start, st).penalty == IcpcRule(b, start, st).penalty + Delay(a, b, start)
                                              + (Penalised(a, st) - Penalised(b, st)) * st.penaltyMinutes
  {
    CostDiffers(SolvedAt(a).value, SolvedAt(b).value, start, Penalised(a, st), Penalised(b, st), st);
  }

  lemma {:induction false} CostDiffers(a: Time, b: Time, start: Time, p: int, q: int, st: Settings)
    ensures SolveCost(a, start, p, st)
         == SolveCost(b, start, q, st) + (Minutes(a - start) - Minutes(b - start)) + (p - q) * st.penaltyMinutes
  {
    Distributes(p, q, st.penaltyMinutes);
  }

  lemma {:induction false} Distributes(p: int, q: int, pm: int)
    ensures p * pm == q * pm + (p - q) * pm
  {
  }

  lemma {:induction false} FeedAgainstRule(xs: seq<XmlRun>, runs: seq<Judged>, start: Time, st: Settings)
    requires ReadAll(xs) == RuleTally(runs, start, st)
    ensures var s := IcpcRule(runs, start, st);
            && ScoreFeed(xs, st).0 == s.solved
            && s.penalty == ScoreFeed(xs, st).1
                + if s.solved then Unjudged(runs[..FirstAC(runs)]) * st.penaltyMinutes else 0
  {
    var un: int, w: int := Unjudged(runs[..FirstAC(runs)]), Penalised(runs, st);
    if SolvedAt(runs).Some? {
      CostOfExtra(SolvedAt(runs).value, start, w - un, un, st);
    }
  }

  lemma {:induction false} ShownAgainst(
      live: ScoreEntry, counted: seq<Judged>, fed: seq<Judged>, re: nat, xs: seq<XmlRun>, start: Time, st: Settings)
    requires Shows(live, IcpcRule(counted, start, st), re, st) && ReadAll(xs) == RuleTally(fed, start, st)
    ensures live.accepted == SolvedAt(counted).Some? && ScoreFeed(xs, st).0 == SolvedAt(fed).Some?
    ensures Compared(live, ScoreFeed(xs, st), Delay(counted, fed, start),
                     Penalised(counted, st) - Penalised(fed, st) + re + Unjudged(fed[..FirstAC(fed)]), st)
  {
    FeedAgainstRule(xs, fed, start, st);
    if SolvedAt(counted).Some? && SolvedAt(fed).Some? {
      RuleDiffers(counted, fed, start, st);
      SumOfGaps(IcpcRule(counted, start, st).penalty, IcpcRule(fed, start, st).penalty, Delay(counted, fed, start),
                Penalised(counted, st) - Penalised(fed, st), re, Unjudged(fed[..FirstAC(fed)]),
                live.penalty, ScoreFeed(xs, st).1, st.penaltyMinutes);
    }
  }

  lemma {:induction false} LiveAgainst(
      u: ID, p: ID, arrival: seq<Judged>, fed: seq<Judged>, xs: seq<XmlRun>, start: Time, freeze: Option<Time>,
          st: Settings)
    requires arrival != [] && ReadAll(xs) == RuleTally(fed, start, st)
    ensures var live := RevealAll(Fold(u, p, arrival, start, freeze, st).value, start, st);
            && live.accepted == SolvedAt(arrival).Some? && ScoreFeed(xs, st).0 == SolvedAt(fed).Some?
            && Compared(live, ScoreFeed(xs, st), Delay(Visible(arrival, freeze) + Hidden(arrival, freeze), fed, start),
                        Extra(arrival, fed, freeze, st), st)
  {
    PartitionPermutes(arrival, freeze);
    SolvedPermutes(Visible(arrival, freeze) + Hidden(arrival, freeze), arrival);
    RevealedFollowsRule(u, p, arrival, start, freeze, st);
    ShownAgainst(RevealAll(Fold(u, p, arrival, start, freeze, st).value, start, st),
        Visible(arrival, freeze) + Hidden(arrival, freeze),
                 fed, ReplayedExempt(arrival, freeze, st), xs, start, st);
  }

  /** The feed against the fully revealed live board, for any submissions and whatever the order in which
      the cell's results arrived. The live board takes the cell to be solved if there is an AC, the feed
      if there is one not after the end. When both do, the live penalty differs by the delay of the AC
      that counts, and by one penalty for each penalised run the other side does not count before its
      AC, each exempt CE the reveal replays, and each result the export does not judge. */
  lemma {:induction false} ExportAgrees(
      subs: seq<FeedSubmission>, u: ID, p: ID, start: Time, end: Time, freeze: Option<Time>, st: Settings,
      runs: seq<Judged>, xs: seq<XmlRun>, arrival: seq<Judged>)
    requires runs == CellRuns(subs, u, p) && xs == TeamRuns(Export(subs, start, end, st), u, p)
    requires arrival != [] && multiset(arrival) == multiset(runs)
    ensures var live, fed := RevealAll(Fold(u, p, arrival, start, freeze, st).value, start, st),
              Clamp(runs, start, end);
            && (live.accepted <==> exists i :: 0 <= i < |runs| && runs[i].status == Accepted)
            && (ScoreFeed(xs, st).0 <==>
                exists i :: 0 <= i < |runs| && runs[i].status == Accepted && !Late(runs[i], end))
            && Compared(live, ScoreFeed(xs, st), Delay(Visible(arrival, freeze) + Hidden(arrival, freeze), fed, start),
                        Extra(arrival, fed, freeze, st), st)
  {
    ExportTally(subs, u, p, start, end, st);
    LiveAgainst(u, p, arrival, Clamp(runs, start, end), xs, start, freeze, st);
    SolvedPermutes(arrival, runs);
    SolvedIff(runs);
    ClampSolved(runs, start, end);
  }

  // ------------------------------------------------------------------ results in submission order

  lemma {:induction false} ClampPrefix(runs: seq<Judged>, m: nat, start: Time, end: Time)
    requires m <= |runs|
    ensures Clamp(runs[..m], start, end) <= Clamp(runs, start, end)
    decreases |runs|
  {
    if m == |runs| {
      assert runs[..m] == runs;
    } else {
      var n := |runs| - 1;
      assert runs[..n][..m] == runs[..m];
      ClampPrefix(runs[..n], m, start, end);
      ClampLast(runs, start, end);
    }
  }

  lemma {:induction false} ClampKeepsAll(runs: seq<Judged>, start: Time, end: Time)
    requires forall i :: 0 <= i < |runs| ==> !Late(runs[i], end)
    ensures |Clamp(runs, start, end)| == |runs| && forall i :: 0 <= i < |runs| ==>
              Clamp(runs, start, end)[i] == AtStart(runs[i], start)
  {
    if runs != [] {
      ClampKeepsAll(runs[..|runs| - 1], start, end);
      ClampLast(runs, start, end);
    }
  }

  /** Exemption and judging depend on the verdicts alone. */
  lemma {:induction false} SameVerdicts(a: seq<Judged>, b: seq<Judged>, st: Settings)
    requires |a| == |b| && forall i :: 0 <= i < |a| ==> a[i].status == b[i].status
    ensures Exempt(a, st) == Exempt(b, st) && Unjudged(a) == Unjudged(b)
  {
    if a != [] { SameVerdicts(a[..|a| - 1], b[..|b| - 1], st); }
  }

  /** In submission order an AC not after the end is exported with everything before it. */
  lemma {:induction false} InOrderClamp(runs: seq<Judged>, start: Time, end: Time, st: Settings)
    requires Chronological(runs) && FirstAC(runs) < |runs| && !Late(runs[FirstAC(runs)], end)
    ensures var k, fed := FirstAC(runs), Clamp(runs, start, end);
            && FirstAC(fed) == k && k < |fed| && fed[k] == AtStart(runs[k], start)
            && Penalised(fed, st) == Penalised(runs, st) && Unjudged(fed[..k]) == Unjudged(runs[..k])
  {
    var k, fed := FirstAC(runs), Clamp(runs, start, end);
    var pre := runs[..k + 1];
    forall i | 0 <= i < |pre| ensures !Late(pre[i], end) {
      assert pre[i] == runs[i] && runs[i].submitTime <= runs[k].submitTime;
    }
    ClampKeepsAll(pre, start, end);
    ClampPrefix(runs, k + 1, start, end);
    assert forall i :: 0 <= i <= k ==> fed[i] == AtStart(runs[i], start);
    FirstACUnique(fed, k);
    SameVerdicts(fed[..k], runs[..k], st);
  }

  /** What the feed shows too early, in minutes (not positive): an AC before the start counts as zero. */
  function HeadStart(t: Time, start: Time): int {
    if t < start then Minutes(t - start) else 0
  }

  lemma {:induction false} InOrderDelay(runs: seq<Judged>, start: Time, end: Time, freeze: Option<Time>, st: Settings)
    requires Chronological(runs) && FirstAC(runs) < |runs| && !Late(runs[FirstAC(runs)], end)
    ensures var fed := Clamp(runs, start, end);
            && SolvedAt(fed).Some?
            && Delay(Visible(runs, freeze) + Hidden(runs, freeze), fed, start) == HeadStart(SolvedAt(runs).value, start)
            && Extra(runs, fed, freeze, st) == ReplayedExempt(runs, freeze, st) + Unjudged(runs[..FirstAC(runs)])
  {
    SortedPartition(runs, freeze);
    InOrderClamp(runs, start, end, st);
  }

  /** When results arrive in submission order, the solving run decides. If it came after the end, only the
      live board counts it. Otherwise both do, and the live penalty differs by the head start of an AC
      before the contest and by one penalty for each unjudged result and each replayed exempt CE before
      it; for an AC during the contest they are equal exactly when there is none, or nothing to pay. */
  predicate InOrder(live: ScoreEntry, feed: (bool, int), solvedAt: Option<Time>, late: bool, start: Time, extra: nat,
      st: Settings) {
    match solvedAt
    case None => !live.accepted && !feed.0 && live.penalty == feed.1 == 0
    case Some(t) =>
      && live.accepted && feed.0 == !late
      && (!late ==> live.penalty == feed.1 + HeadStart(t, start) + extra * st.penaltyMinutes)
      && (!late && t >= start ==> (live.penalty == feed.1 <==> extra == 0 || st.penaltyMinutes == 0))
  }

  lemma {:induction false} InOrderExportAgrees(
      subs: seq<FeedSubmission>, u: ID, p: ID, start: Time, end: Time, freeze: Option<Time>, st: Settings,
      runs: seq<Judged>, xs: seq<XmlRun>)
    requires runs == CellRuns(subs, u, p) && xs == TeamRuns(Export(subs, start, end, st), u, p)
    requires runs != [] && Chronological(runs)
    ensures InOrder(RevealAll(Fold(u, p, runs, start, freeze, st).value, start, st), ScoreFeed(xs, st), SolvedAt(runs),
                    FirstAC(runs) < |runs| && Late(runs[FirstAC(runs)], end), start,
                    ReplayedExempt(runs, freeze, st) + Unjudged(runs[..FirstAC(runs)]), st)
  {
    ExportTally(subs, u, p, start, end, st);
    LiveInOrder(u, p, runs, xs, start, end, freeze, st);
  }

  lemma {:induction false} LiveInOrder(
      u: ID, p: ID, runs: seq<Judged>, xs: seq<XmlRun>, start: Time, end: Time, freeze: Option<Time>, st: Settings)
    requires runs != [] && Chronological(runs) && ReadAll(xs) == RuleTally(Clamp(runs, start, end), start, st)
    ensures InOrder(RevealAll(Fold(u, p, runs, start, freeze, st).value, start, st), ScoreFeed(xs, st), SolvedAt(runs),
                    FirstAC(runs) < |runs| && Late(runs[FirstAC(runs)], end), start,
                    ReplayedExempt(runs, freeze, st) + Unjudged(runs[..FirstAC(runs)]), st)
  {
    LiveAgainst(u, p, runs, Clamp(runs, start, end), xs, start, freeze, st);
    InOrderSolved(runs, start, end);
    if FirstAC(runs) < |runs| && !Late(runs[FirstAC(runs)], end) { InOrderDelay(runs, start, end, freeze, st); }
    InOrderFrom(RevealAll(Fold(u, p, runs, start, freeze, st).value, start, st), ScoreFeed(xs, st), SolvedAt(runs),
                FirstAC(runs) < |runs| && Late(runs[FirstAC(runs)], end), start,
                Delay(Visible(runs, freeze) + Hidden(runs, freeze), Clamp(runs, start, end), start),
                Extra(runs, Clamp(runs, start, end), freeze, st),
                ReplayedExempt(runs, freeze, st) + Unjudged(runs[..FirstAC(runs)]), st);
  }

  /** In submission order the exported cell is solved exactly if the first AC is not late. */
  lemma {:induction false} InOrderSolved(runs: seq<Judged>, start: Time, end: Time)
    requires Chronological(runs)
    ensures SolvedAt(Clamp(runs, start, end)).Some? <==> FirstAC(runs) < |runs| && !Late(runs[FirstAC(runs)], end)
  {
    ClampSolved(runs, start, end);
    var k := FirstAC(runs);
    if i :| 0 <= i < |runs| && runs[i].status == Accepted && !Late(runs[i], end) {
      assert k <= i && runs[k].submitTime <= runs[i].submitTime;
    }
  }

  lemma {:induction false} InOrderFrom(
      live: ScoreEntry, feed: (bool, int), solvedAt: Option<Time>, late: bool, start: Time, delay: int, gap: int,
          extra: nat, st: Settings)
    requires Compared(live, feed, delay, gap, st) && live.accepted == solvedAt.Some? &&
               feed.0 == (solvedAt.Some? && !late)
    requires solvedAt.Some? && !late ==> delay == HeadStart(solvedAt.value, start) && gap == extra
    ensures InOrder(live, feed, solvedAt, late, start, extra, st)
  {
  }

  // ------------------------------------------------------------------ inputs on which they disagree

  function OneMinute(id: ID, status: Status, minute: nat): FeedSubmission {
    FeedSubmission(id, 7, 8, status, minute * MINUTE)
  }

  /** The feed of two submissions of one cell, as a reader sees it. */
  lemma {:induction false} FeedOfTwo(a: FeedSubmission, b: FeedSubmission, st: Settings)
    ensures var x, y := ExportOne(a, 0, 60 * MINUTE, st), ExportOne(b, 0, 60 * MINUTE, st);
            Export([a, b], 0, 60 * MINUTE, st)
            == (if x.Some? then [x.value] else []) + (if y.Some? then [y.value] else [])
  {
    assert [a, b][..1] == [a] && [a][..0] == [];
    assert Export([], 0, 60 * MINUTE, st) == [];
  }

  lemma {:induction false} ReadOne(x: XmlRun)
    ensures ReadAll([x]) == Read(Tally(None, 0), x.solved, x.penalty, x.time)
  {
    ReadAllStep([], x);
    assert [] + [x] == [x];
  }

  lemma {:induction false} ReadTwo(x: XmlRun, y: XmlRun)
    ensures ReadAll([x, y]) == Read(Read(Tally(None, 0), x.solved, x.penalty, x.time), y.solved, y.penalty, y.time)
  {
    ReadOne(x);
    ReadAllStep([x], y);
    assert [x] + [y] == [x, y];
  }

  lemma {:induction false} LiveOfTwo(a: Judged, b: Judged, st: Settings)
    ensures Fold(7, 8, [a, b], 0, None, st)
         == Some(Apply(EventOf(7, 8, b, 0, None), Some(Apply(EventOf(7, 8, a, 0, None), None, st)), st))
  {
    assert [a, b][..1] == [a] && [a][..0] == [];
    assert Fold(7, 8, [a], 0, None, st) == Some(Apply(EventOf(7, 8, a, 0, None), None, st));
  }

  /** A SystemError before the AC costs 20 minutes on the live board and nothing in the feed. */
  lemma {:induction false} SystemErrorDisagrees()
    ensures var st := Settings(20, true, false);
            && Fold(7, 8, [Judged(SE, 0, 5 * MINUTE), Judged(Accepted, 0, 9 * MINUTE)], 0, None, st).value.penalty == 29
            && ScoreFeed(Export([OneMinute(1, SE, 5), OneMinute(2, Accepted, 9)], 0, 60 * MINUTE, st), st) == (true, 9)
  {
    var st := Settings(20, true, false);
    LiveOfTwo(Judged(SE, 0, 5 * MINUTE), Judged(Accepted, 0, 9 * MINUTE), st);
    FeedOfTwo(OneMinute(1, SE, 5), OneMinute(2, Accepted, 9), st);
    var y := XmlRun(2, 8, 7, "AC", true, false, 9 * MINUTE);
    assert ExportOne(OneMinute(2, Accepted, 9), 0, 60 * MINUTE, st) == Some(y);
    assert [] + [y] == [y];
    ReadOne(y);
  }

  /** An AC judged before an earlier WA: 9 minutes on the live board, 29 in the feed. */
  lemma {:induction false} OutOfOrderDisagrees()
    ensures var st := Settings(20, true, false);
            var wa, ac := Judged(WrongAnswer, 0, 5 * MINUTE), Judged(Accepted, 0, 9 * MINUTE);
            var subs := [OneMinute(1, WrongAnswer, 5), OneMinute(2, Accepted, 9)];
            && Fold(7, 8, [ac, wa], 0, None, st).value.penalty == 9
            && ScoreFeed(Export(subs, 0, 60 * MINUTE, st), st) == (true, 29)
  {
    var st := Settings(20, true, false);
    LiveOfTwo(Judged(Accepted, 0, 9 * MINUTE), Judged(WrongAnswer, 0, 5 * MINUTE), st);
    FeedOfTwo(OneMinute(1, WrongAnswer, 5), OneMinute(2, Accepted, 9), st);
    var x, y := XmlRun(1, 8, 7, "WA", false, true, 5 * MINUTE), XmlRun(2, 8, 7, "AC", true, false, 9 * MINUTE);
    assert ExportOne(OneMinute(1, WrongAnswer, 5), 0, 60 * MINUTE, st) == Some(x);
    assert ExportOne(OneMinute(2, Accepted, 9), 0, 60 * MINUTE, st) == Some(y);
    assert [x] + [y] == [x, y];
    ReadTwo(x, y);
  }
}
