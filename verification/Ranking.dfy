/** Aggregation, ordering and shared ranks (ICPC: solved, penalty, last AC; OI and IOI: score). */
module Ranking {
  import opened Types
  import opened Cell

  datatype Mode = ICPC | OI

  datatype Totals = Totals(score: int, penalty: int, lastAC: Time)

  const NO_TOTALS := Totals(0, 0, ZERO_TIME)

  datatype RankRow = RankRow(rank: int, userID: ID, totals: Totals, entries: map<ID, ScoreEntry>)

  /** The accumulator each strategy passes to aggregateUsers. */
  function Accumulate(mode: Mode, t: Totals, e: ScoreEntry): Totals {
    var last := if e.accepted && e.bestSubmitTime > t.lastAC then e.bestSubmitTime else t.lastAC;
    match mode
    case ICPC => if e.accepted then Totals(t.score + 1, t.penalty + e.penalty, last) else t
    case OI => Totals(t.score + e.displayScore, t.penalty, last)
  }

  /** Strictly better for the purpose of ranks. */
  predicate Better(mode: Mode, a: Totals, b: Totals) {
    || a.score > b.score
    || (mode == ICPC && a.score == b.score &&
        (a.penalty < b.penalty || (a.penalty == b.penalty && a.lastAC < b.lastAC)))
  }

  predicate Tied(mode: Mode, a: RankRow, b: RankRow) {
    a.totals.score == b.totals.score &&
    (mode == ICPC ==> a.totals.penalty == b.totals.penalty && a.totals.lastAC == b.totals.lastAC)
  }

  /** The comparator handed to sort.Slice. */
  predicate Before(mode: Mode, a: RankRow, b: RankRow) {
    if a.totals.score != b.totals.score then a.totals.score > b.totals.score
    else if mode == OI then false
    else if a.totals.penalty != b.totals.penalty then a.totals.penalty < b.totals.penalty
    else if a.totals.lastAC != b.totals.lastAC then a.totals.lastAC < b.totals.lastAC
    else a.userID < b.userID
  }

  // ------------------------------------------------------------------ reference definitions

  function Users(es: seq<ScoreEntry>): set<ID> {
    set e | e in es :: e.userID
  }

  function UserTotals(mode: Mode, es: seq<ScoreEntry>, u: ID): Totals {
    if es == [] then NO_TOTALS
    else
      var n := |es| - 1;
      var t := UserTotals(mode, es[..n], u);
      if es[n].userID == u then Accumulate(mode, t, es[n]) else t
  }

  function UserEntries(es: seq<ScoreEntry>, u: ID): map<ID, ScoreEntry> {
    if es == [] then map[]
    else
      var n := |es| - 1;
      var m := UserEntries(es[..n], u);
      if es[n].userID == u then m[es[n].problemID := es[n]] else m
  }

  /** 1 plus the number of users strictly better. */
  function RankOf(mode: Mode, es: seq<ScoreEntry>, u: ID): nat {
    1 + |set v | v in Users(es) && Better(mode, UserTotals(mode, es, v), UserTotals(mode, es, u))|
  }

  predicate DistinctUsers(rows: seq<RankRow>) {
    forall i, j :: 0 <= i < j < |rows| ==> rows[i].userID != rows[j].userID
  }

  predicate Sorted(mode: Mode, rows: seq<RankRow>) {
    forall i, j :: 0 <= i < j < |rows| ==> !Before(mode, rows[j], rows[i])
  }

  predicate OneRowPerUser(es: seq<ScoreEntry>, rows: seq<RankRow>) {
    && DistinctUsers(rows)
    && (forall i :: 0 <= i < |rows| ==> rows[i].userID in Users(es))
    && (forall u :: u in Users(es) ==> exists i :: 0 <= i < |rows| && rows[i].userID == u)
  }

  /** `rows` is a correct ranked board for these entries. */
  predicate IsRanking(mode: Mode, es: seq<ScoreEntry>, rows: seq<RankRow>) {
    && OneRowPerUser(es, rows)
    && Sorted(mode, rows)
    && forall i :: 0 <= i < |rows| ==>
         var u := rows[i].userID;
         rows[i] == RankRow(RankOf(mode, es, u), u, UserTotals(mode, es, u), UserEntries(es, u))
  }

  /** The rows before ranks are assigned. */
  predicate IsAggregate(mode: Mode, es: seq<ScoreEntry>, rows: seq<RankRow>) {
    && OneRowPerUser(es, rows)
    && forall i :: 0 <= i < |rows| ==>
         var u := rows[i].userID;
         rows[i] == RankRow(0, u, UserTotals(mode, es, u), UserEntries(es, u))
  }

  // ------------------------------------------------------------------ the algorithm

  /** Group by user; the rows come out in an arbitrary order, as from a Go map. */
  method AggregateUsers(mode: Mode, es: seq<ScoreEntry>) returns (rows: seq<RankRow>)
    ensures IsAggregate(mode, es, rows)
  {
    var m := GroupByUser(mode, es);
    rows := RowsOf(m);
  }

  method GroupByUser(mode: Mode, es: seq<ScoreEntry>) returns (m: map<ID, RankRow>)
    ensures m.Keys == Users(es)
    ensures forall u :: u in m ==> m[u] == RankRow(0, u, UserTotals(mode, es, u), UserEntries(es, u))
  {
    m := map[];
    for i := 0 to |es|
      invariant m.Keys == Users(es[..i])
      invariant forall u :: u in m ==> m[u] == RankRow(0, u, UserTotals(mode, es[..i], u), UserEntries(es[..i], u))
    {
      var e := es[i];
      var row := if e.userID in m then m[e.userID] else RankRow(0, e.userID, NO_TOTALS, map[]);
      AbsentUser(mode, es[..i], e.userID);
      UsersStep(mode, es, i);
      row := row.(totals := Accumulate(mode, row.totals, e), entries := row.entries[e.problemID := e]);
      assert row == RankRow(0, e.userID, UserTotals(mode, es[..i + 1], e.userID), UserEntries(es[..i + 1], e.userID));
      m := m[e.userID := row];
    }
    assert es[..|es|] == es;
  }

  /** The rows of the grouping map, in map order. */
  method RowsOf(m: map<ID, RankRow>) returns (rows: seq<RankRow>)
    requires forall u :: u in m ==> m[u].userID == u
    ensures DistinctUsers(rows)
    ensures forall i :: 0 <= i < |rows| ==> rows[i].userID in m && rows[i] == m[rows[i].userID]
    ensures forall u :: u in m ==> exists i :: 0 <= i < |rows| && rows[i].userID == u
  {
    rows := [];
    var todo := m.Keys;
    while todo != {}
      invariant todo <= m.Keys
      invariant forall i :: 0 <= i < |rows| ==>
                rows[i].userID in m && rows[i].userID !in todo && rows[i] == m[rows[i].userID]
      invariant forall u :: u in m && u !in todo ==> exists i :: 0 <= i < |rows| && rows[i].userID == u
      invariant DistinctUsers(rows)
      decreases |todo|
    {
      SomeMember(todo);
      var u :| u in todo;
      todo := todo - {u};
      ghost var was := rows;
      rows := rows + [m[u]];
      assert forall i :: 0 <= i < |was| ==> rows[i] == was[i];
      assert rows[|was|].userID == u;
    }
  }

  lemma {:induction false} UsersStep(mode: Mode, es: seq<ScoreEntry>, i: int)
    requires 0 <= i < |es|
    ensures Users(es[..i + 1]) == Users(es[..i]) + {es[i].userID}
    ensures forall u :: UserTotals(mode, es[..i + 1], u)
                     == if u == es[i].userID then Accumulate(mode, UserTotals(mode, es[..i], u), es[i])
                        else UserTotals(mode, es[..i], u)
    ensures forall u :: UserEntries(es[..i + 1], u)
                     == if u == es[i].userID then UserEntries(es[..i], u)[es[i].problemID := es[i]]
                        else UserEntries(es[..i], u)
  {
    assert es[..i + 1] == es[..i] + [es[i]];
    assert es[..i + 1][..i] == es[..i];
  }

  lemma AbsentUser(mode: Mode, es: seq<ScoreEntry>, u: ID)
    ensures u !in Users(es) ==> UserTotals(mode, es, u) == NO_TOTALS && UserEntries(es, u) == map[]
  {
    if es != [] {
      var n := |es| - 1;
      assert es[n] in es && forall e :: e in es[..n] ==> e in es;
      AbsentUser(mode, es[..n], u);
    }
  }

  /** Any sort is correct here; this one inserts the rows one at a time. */
  method SortRows(mode: Mode, rows: seq<RankRow>) returns (r: seq<RankRow>)
    ensures Sorted(mode, r) && multiset(r) == multiset(rows)
  {
    r := [];
    for i := 0 to |rows|
      invariant Sorted(mode, r) && multiset(r) == multiset(rows[..i])
    {
      assert rows[..i + 1] == rows[..i] + [rows[i]];
      r := InsertRow(mode, r, rows[i]);
    }
    assert rows[..|rows|] == rows;
  }

  method InsertRow(mode: Mode, rows: seq<RankRow>, x: RankRow) returns (r: seq<RankRow>)
    requires Sorted(mode, rows)
    ensures Sorted(mode, r) && multiset(r) == multiset(rows) + multiset{x}
  {
    var k := |rows|;
    while k > 0 && Before(mode, x, rows[k - 1])
      invariant 0 <= k <= |rows|
      invariant forall j :: k <= j < |rows| ==> Before(mode, x, rows[j])
    {
      k := k - 1;
    }
    r := rows[..k] + [x] + rows[k..];
    assert rows == rows[..k] + rows[k..];
    InsertedSorted(mode, rows, x, k);
  }

  lemma BeforeOrder(mode: Mode, a: RankRow, b: RankRow, c: RankRow)
    ensures Before(mode, a, b) ==> !Before(mode, b, a)
    ensures !Before(mode, a, b) && !Before(mode, b, c) ==> !Before(mode, a, c)
  {
  }

  lemma InsertedSorted(mode: Mode, rows: seq<RankRow>, x: RankRow, k: int)
    requires Sorted(mode, rows) && 0 <= k <= |rows|
    requires k > 0 ==> !Before(mode, x, rows[k - 1])
    requires forall j :: k <= j < |rows| ==> Before(mode, x, rows[j])
    ensures Sorted(mode, rows[..k] + [x] + rows[k..])
  {
    forall i | 0 <= i < k ensures !Before(mode, x, rows[i]) {
      if i < k - 1 { BeforeOrder(mode, x, rows[k - 1], rows[i]); }
    }
    forall j | k <= j < |rows| ensures !Before(mode, rows[j], x) {
      BeforeOrder(mode, x, rows[j], x);
    }
  }

  /** assignRanks: equal totals share a rank, the next row counts everyone above it. */
  method AssignRanks(mode: Mode, rows: seq<RankRow>) returns (r: seq<RankRow>)
    requires Sorted(mode, rows) && DistinctUsers(rows)
    ensures |r| == |rows|
    ensures forall i :: 0 <= i < |r| ==> r[i] == WithRank(mode, rows, i)
  {
    r := [];
    for i := 0 to |rows|
      invariant |r| == i
      invariant forall j :: 0 <= j < i ==> r[j] == WithRank(mode, rows, j)
    {
      if i == 0 || !Tied(mode, rows[i - 1], rows[i]) {
        NewRank(mode, rows, i);
        r := r + [rows[i].(rank := i + 1)];
      } else {
        SharedRank(mode, rows, i);
        var rank := r[i - 1].rank;
        r := r + [rows[i].(rank := rank)];
      }
    }
  }

  /** The users ranked strictly above row i. */
  function Betters(mode: Mode, rows: seq<RankRow>, i: int): set<ID>
    requires 0 <= i < |rows|
  {
    set j | 0 <= j < |rows| && Better(mode, rows[j].totals, rows[i].totals) :: rows[j].userID
  }

  function WithRank(mode: Mode, rows: seq<RankRow>, i: int): RankRow
    requires 0 <= i < |rows|
  {
    rows[i].(rank := 1 + |Betters(mode, rows, i)|)
  }

  function Prefix(rows: seq<RankRow>, k: int): set<ID>
    requires 0 <= k <= |rows|
  {
    set j | 0 <= j < k :: rows[j].userID
  }

  lemma {:induction false} PrefixSize(rows: seq<RankRow>, k: int)
    requires 0 <= k <= |rows| && DistinctUsers(rows)
    ensures |Prefix(rows, k)| == k
  {
    if k > 0 {
      PrefixSize(rows, k - 1);
      assert Prefix(rows, k) == Prefix(rows, k - 1) + {rows[k - 1].userID};
    }
  }

  lemma {:induction false} SharedRank(mode: Mode, rows: seq<RankRow>, i: int)
    requires 0 < i < |rows| && Tied(mode, rows[i - 1], rows[i])
    ensures Betters(mode, rows, i) == Betters(mode, rows, i - 1)
  {
  }

  lemma NewRank(mode: Mode, rows: seq<RankRow>, i: int)
    requires Sorted(mode, rows) && DistinctUsers(rows) && 0 <= i < |rows|
    requires i == 0 || !Tied(mode, rows[i - 1], rows[i])
    ensures |Betters(mode, rows, i)| == i
  {
    forall j | 0 <= j < |rows| ensures Better(mode, rows[j].totals, rows[i].totals) <==> j < i {
      if j < i - 1 { assert !Before(mode, rows[i - 1], rows[j]); }
      if j < i { assert !Before(mode, rows[i], rows[i - 1]); }
      if i < j { assert !Before(mode, rows[j], rows[i]); }
    }
    assert Betters(mode, rows, i) == Prefix(rows, i);
    PrefixSize(rows, i);
  }

  /** Strategy.Rank. */
  method Rank(mode: Mode, es: seq<ScoreEntry>) returns (rows: seq<RankRow>)
    ensures IsRanking(mode, es, rows)
  {
    var agg := AggregateUsers(mode, es);
    var sorted := SortRows(mode, agg);
    PermutedAggregate(mode, es, agg, sorted);
    rows := AssignRanks(mode, sorted);
    RankedRows(mode, es, sorted, rows);
  }

  lemma {:induction false} RankedRows(mode: Mode, es: seq<ScoreEntry>, sorted: seq<RankRow>, rows: seq<RankRow>)
    requires IsAggregate(mode, es, sorted) && Sorted(mode, sorted) && |rows| == |sorted|
    requires forall i :: 0 <= i < |rows| ==> rows[i] == WithRank(mode, sorted, i)
    ensures IsRanking(mode, es, rows)
  {
    forall i | 0 <= i < |rows|
      ensures rows[i].userID == sorted[i].userID && rows[i].totals == sorted[i].totals
      ensures rows[i].entries == sorted[i].entries && rows[i].rank == RankOf(mode, es, rows[i].userID)
    {
      BettersAre(mode, es, sorted, i);
    }
    SortedAlike(mode, sorted, rows);
    forall u | u in Users(es) ensures exists i :: 0 <= i < |rows| && rows[i].userID == u {
      var i :| 0 <= i < |sorted| && sorted[i].userID == u;
      assert rows[i].userID == u;
    }
  }

  lemma {:induction false} SortedAlike(mode: Mode, a: seq<RankRow>, b: seq<RankRow>)
    requires Sorted(mode, a) && |a| == |b|
    requires forall i :: 0 <= i < |a| ==> a[i].userID == b[i].userID && a[i].totals == b[i].totals
    ensures Sorted(mode, b)
  {
    forall i, j | 0 <= i < j < |b| ensures !Before(mode, b[j], b[i]) { assert !Before(mode, a[j], a[i]); }
  }

  lemma {:induction false} BettersAre(mode: Mode, es: seq<ScoreEntry>, rows: seq<RankRow>, i: int)
    requires IsAggregate(mode, es, rows) && 0 <= i < |rows|
    ensures 1 + |Betters(mode, rows, i)| == RankOf(mode, es, rows[i].userID)
  {
    assert Betters(mode, rows, i)
        == set v | v in Users(es) && Better(mode, UserTotals(mode, es, v), UserTotals(mode, es, rows[i].userID));
  }

  lemma PermutedAggregate(mode: Mode, es: seq<ScoreEntry>, a: seq<RankRow>, b: seq<RankRow>)
    requires IsAggregate(mode, es, a) && multiset(a) == multiset(b)
    ensures IsAggregate(mode, es, b)
  {
    forall i | 0 <= i < |b| ensures b[i] in a {
      assert b[i] in multiset(b);
    }
    forall u | u in Users(es) ensures exists i :: 0 <= i < |b| && b[i].userID == u {
      var i :| 0 <= i < |a| && a[i].userID == u;
      assert a[i] in multiset(b);
    }
    forall i, j | 0 <= i < j < |b| ensures b[i].userID != b[j].userID {
      if b[i] == b[j] {
        RepeatedMultiplicity(b, i, j);
        DistinctMultiplicity(a, b[i]);
        assert false;
      }
    }
  }

  lemma {:induction false} RepeatedMultiplicity(rows: seq<RankRow>, i: int, j: int)
    requires 0 <= i < j < |rows| && rows[i] == rows[j]
    ensures multiset(rows)[rows[i]] >= 2
  {
    assert rows == rows[..j] + [rows[j]] + rows[j + 1..];
    assert rows[..j][i] in multiset(rows[..j]);
  }

  lemma {:induction false} DistinctMultiplicity(rows: seq<RankRow>, x: RankRow)
    requires DistinctUsers(rows)
    ensures multiset(rows)[x] <= 1
  {
    if rows != [] {
      var n := |rows| - 1;
      assert rows == rows[..n] + [rows[n]];
      DistinctMultiplicity(rows[..n], x);
    }
  }

  // ------------------------------------------------------------------ the board is determined

  lemma AccumulateCommutes(mode: Mode, t: Totals, a: ScoreEntry, b: ScoreEntry)
    ensures Accumulate(mode, Accumulate(mode, t, a), b) == Accumulate(mode, Accumulate(mode, t, b), a)
  {
  }

  lemma {:induction false} MoveLast(mode: Mode, a: seq<ScoreEntry>, x: ScoreEntry, b: seq<ScoreEntry>, u: ID)
    ensures UserTotals(mode, a + [x] + b, u) == UserTotals(mode, a + b + [x], u)
  {
    if b == [] {
      assert a + [x] + b == a + b + [x];
    } else {
      var n := |b| - 1;
      var y, b' := b[n], b[..n];
      MoveLast(mode, a, x, b', u);
      var l, r := a + [x] + b, a + b + [x];
      assert l[..|l| - 1] == a + [x] + b' && l[|l| - 1] == y;
      assert r[..|r| - 1] == a + b && r[|r| - 1] == x;
      assert (a + b)[..|a + b| - 1] == a + b' && (a + b)[|a + b| - 1] == y;
      assert (a + b' + [x])[..|a + b'|] == a + b';
      AccumulateCommutes(mode, UserTotals(mode, a + b', u), x, y);
    }
  }

  lemma {:induction false} RemoveOne(es: seq<ScoreEntry>, i: int)
    requires 0 <= i < |es|
    ensures multiset(es[..i] + es[i + 1..]) == multiset(es) - multiset{es[i]}
  {
    assert es == es[..i] + [es[i]] + es[i + 1..];
  }

  lemma {:induction false} RemoveAlike(a: seq<ScoreEntry>, b: seq<ScoreEntry>, i: int)
    requires multiset(a) == multiset(b) && a != [] && 0 <= i < |b| && b[i] == a[0]
    ensures multiset(a[..0] + a[1..]) == multiset(b[..i] + b[i + 1..])
  {
    RemoveOne(a, 0);
    RemoveOne(b, i);
  }

  /** Any entry may be accounted for last. */
  lemma {:induction false} TotalsRemove(mode: Mode, es: seq<ScoreEntry>, i: int, u: ID)
    requires 0 <= i < |es|
    ensures var t := UserTotals(mode, es[..i] + es[i + 1..], u);
            UserTotals(mode, es, u) == if es[i].userID == u then Accumulate(mode, t, es[i]) else t
  {
    var rest := es[..i] + es[i + 1..];
    assert es == es[..i] + [es[i]] + es[i + 1..];
    MoveLast(mode, es[..i], es[i], es[i + 1..], u);
    assert (rest + [es[i]])[..|rest|] == rest;
  }

  /** Totals do not depend on the order in which the entry hash was read. */
  lemma {:induction false} TotalsPermute(mode: Mode, a: seq<ScoreEntry>, b: seq<ScoreEntry>, u: ID)
    requires multiset(a) == multiset(b)
    ensures UserTotals(mode, a, u) == UserTotals(mode, b, u)
    decreases |a|
  {
    if a != [] {
      assert a[0] in multiset(b);
      var i :| 0 <= i < |b| && b[i] == a[0];
      RemoveAlike(a, b, i);
      TotalsRemove(mode, a, 0, u);
      TotalsRemove(mode, b, i, u);
      TotalsPermute(mode, a[..0] + a[1..], b[..i] + b[i + 1..], u);
    }
  }

  // ------------------------------------------------------------------ what the totals mean

  function PenaltySum(es: seq<ScoreEntry>, u: ID): int {
    if es == [] then 0
    else
      var e := es[|es| - 1];
      PenaltySum(es[..|es| - 1], u) + if e.userID == u && e.accepted then e.penalty else 0
  }

  function ScoreSum(es: seq<ScoreEntry>, u: ID): int {
    if es == [] then 0
    else
      var e := es[|es| - 1];
      ScoreSum(es[..|es| - 1], u) + if e.userID == u then e.displayScore else 0
  }

  function SolvedProblems(es: seq<ScoreEntry>, u: ID): set<ID> {
    set e | e in es && e.userID == u && e.accepted :: e.problemID
  }

  /** `t` is the latest AC of the user, the zero instant if there is none after it. */
  predicate IsLastAC(es: seq<ScoreEntry>, u: ID, t: Time) {
    && t >= ZERO_TIME
    && (forall e :: e in es && e.userID == u && e.accepted ==> e.bestSubmitTime <= t)
    && (t == ZERO_TIME || exists e :: e in es && e.userID == u && e.accepted && e.bestSubmitTime == t)
  }

  lemma {:induction false} LastACStep(es: seq<ScoreEntry>, x: ScoreEntry, u: ID, t: Time)
    requires IsLastAC(es, u, t)
    ensures IsLastAC(es + [x], u, if x.userID == u && x.accepted && x.bestSubmitTime > t then x.bestSubmitTime else t)
  {
    assert x in es + [x];
    if t != ZERO_TIME {
      var e :| e in es && e.userID == u && e.accepted && e.bestSubmitTime == t;
      assert e in es + [x];
    }
  }

  lemma {:induction false} SolvedProblemsStep(es: seq<ScoreEntry>, x: ScoreEntry, u: ID)
    requires DistinctKeys(es + [x])
    ensures |SolvedProblems(es + [x], u)| == |SolvedProblems(es, u)| + if x.userID == u && x.accepted then 1 else 0
  {
    var s, all := SolvedProblems(es, u), es + [x];
    assert all[|es|] == x;
    forall e | e in es ensures e in all && (e.userID != x.userID || e.problemID != x.problemID) {
      var i :| 0 <= i < |es| && es[i] == e;
      assert all[i] == e;
    }
    assert SolvedProblems(all, u) == if x.userID == u && x.accepted then s + {x.problemID} else s;
  }

  /** ICPC totals are the number of problems solved, the sum of their penalties and the latest AC; OI
      and IOI totals are the sum of the displayed scores. */
  lemma {:induction false} TotalsMean(es: seq<ScoreEntry>, u: ID)
    requires DistinctKeys(es)
    ensures var t := UserTotals(ICPC, es, u);
            t.score == |SolvedProblems(es, u)| && t.penalty == PenaltySum(es, u) && IsLastAC(es, u, t.lastAC)
    ensures UserTotals(OI, es, u).score == ScoreSum(es, u)
  {
    TotalsSum(es, u);
    TotalsSolved(es, u);
    TotalsLast(es, u);
  }

  lemma {:induction false} TotalsSum(es: seq<ScoreEntry>, u: ID)
    ensures UserTotals(ICPC, es, u).penalty == PenaltySum(es, u) && UserTotals(OI, es, u).score == ScoreSum(es, u)
  {
    if es != [] { TotalsSum(es[..|es| - 1], u); }
  }

  lemma {:induction false} TotalsSolved(es: seq<ScoreEntry>, u: ID)
    requires DistinctKeys(es)
    ensures UserTotals(ICPC, es, u).score == |SolvedProblems(es, u)|
  {
    if es != [] {
      var n := |es| - 1;
      TotalsSolved(es[..n], u);
      assert es == es[..n] + [es[n]];
      SolvedProblemsStep(es[..n], es[n], u);
    }
  }

  lemma {:induction false} TotalsLast(es: seq<ScoreEntry>, u: ID)
    ensures IsLastAC(es, u, UserTotals(ICPC, es, u).lastAC)
  {
    if es != [] {
      var n := |es| - 1;
      TotalsLast(es[..n], u);
      assert es == es[..n] + [es[n]];
      LastACStep(es[..n], es[n], u, UserTotals(ICPC, es[..n], u).lastAC);
    }
  }

  predicate DistinctKeys(es: seq<ScoreEntry>) {
    forall i, j :: 0 <= i < j < |es| ==> es[i].userID != es[j].userID || es[i].problemID != es[j].problemID
  }

  lemma {:induction false} EntryListed(es: seq<ScoreEntry>, u: ID, i: int)
    requires DistinctKeys(es) && 0 <= i < |es| && es[i].userID == u
    ensures es[i].problemID in UserEntries(es, u) && UserEntries(es, u)[es[i].problemID] == es[i]
  {
    var n := |es| - 1;
    if i < n {
      assert es[..n][i] == es[i];
      EntryListed(es[..n], u, i);
    }
  }

  lemma {:induction false} ListedEntry(es: seq<ScoreEntry>, u: ID, p: ID)
    requires p in UserEntries(es, u)
    ensures var e := UserEntries(es, u)[p]; e in es && e.userID == u && e.problemID == p
  {
    var n := |es| - 1;
    if !(es[n].userID == u && es[n].problemID == p) { ListedEntry(es[..n], u, p); }
  }

  lemma {:induction false} UserEntriesExact(es: seq<ScoreEntry>, u: ID)
    requires DistinctKeys(es)
    ensures forall e :: e in es && e.userID == u ==>
              e.problemID in UserEntries(es, u) && UserEntries(es, u)[e.problemID] == e
    ensures forall p :: p in UserEntries(es, u) ==>
              var e := UserEntries(es, u)[p]; e in es && e.userID == u && e.problemID == p
  {
    forall e | e in es && e.userID == u
        ensures e.problemID in UserEntries(es, u) && UserEntries(es, u)[e.problemID] == e {
      var i :| 0 <= i < |es| && es[i] == e;
      EntryListed(es, u, i);
    }
    forall p | p in UserEntries(es, u)
        ensures var e := UserEntries(es, u)[p]; e in es && e.userID == u && e.problemID == p {
      ListedEntry(es, u, p);
    }
  }

  lemma EntriesPermute(a: seq<ScoreEntry>, b: seq<ScoreEntry>, u: ID)
    requires DistinctKeys(a) && DistinctKeys(b) && multiset(a) == multiset(b)
    ensures UserEntries(a, u) == UserEntries(b, u)
  {
    UserEntriesExact(a, u);
    UserEntriesExact(b, u);
    SameMembers(a, b);
    var m, n := UserEntries(a, u), UserEntries(b, u);
    assert forall p :: p in m ==> m[p] in b && p in n && n[p] == m[p];
    assert forall p :: p in n ==> n[p] in a && p in m;
  }

  lemma SameMembers(a: seq<ScoreEntry>, b: seq<ScoreEntry>)
    requires multiset(a) == multiset(b)
    ensures forall e :: e in a <==> e in b
    ensures Users(a) == Users(b)
  {
    assert forall e :: e in a <==> e in multiset(a);
    assert forall e :: e in b <==> e in multiset(b);
  }

  /** In every mode, any two correct boards of the same entries give a user the same row: rank,
      totals and cells. */
  lemma RowDetermined(mode: Mode, a: seq<ScoreEntry>, b: seq<ScoreEntry>, r: seq<RankRow>, s: seq<RankRow>, i: int,
      j: int)
    requires DistinctKeys(a) && DistinctKeys(b) && multiset(a) == multiset(b)
    requires IsRanking(mode, a, r) && IsRanking(mode, b, s)
    requires 0 <= i < |r| && 0 <= j < |s| && r[i].userID == s[j].userID
    ensures r[i] == s[j]
  {
    var u := r[i].userID;
    forall v ensures UserTotals(mode, a, v) == UserTotals(mode, b, v) {
      TotalsPermute(mode, a, b, v);
    }
    EntriesPermute(a, b, u);
    SameMembers(a, b);
    assert (set v | v in Users(a) && Better(mode, UserTotals(mode, a, v), UserTotals(mode, a, u)))
        == (set v | v in Users(b) && Better(mode, UserTotals(mode, b, v), UserTotals(mode, b, u)));
  }

  /** The users an ICPC row comes after. */
  function Ahead(rows: seq<RankRow>, i: int): set<ID>
    requires 0 <= i < |rows|
  {
    set j | 0 <= j < |rows| && Before(ICPC, rows[j], rows[i]) :: rows[j].userID
  }

  lemma PositionIsAhead(rows: seq<RankRow>, i: int)
    requires Sorted(ICPC, rows) && DistinctUsers(rows) && 0 <= i < |rows|
    ensures |Ahead(rows, i)| == i
  {
    forall j | 0 <= j < |rows| ensures Before(ICPC, rows[j], rows[i]) <==> j < i {
      if j < i { assert !Before(ICPC, rows[i], rows[j]) && rows[i].userID != rows[j].userID; }
    }
    assert Ahead(rows, i) == Prefix(rows, i);
    PrefixSize(rows, i);
  }

  /** The whole ICPC board is one sequence, whatever the order of the entries or of map iteration. */
  lemma BoardDetermined(a: seq<ScoreEntry>, b: seq<ScoreEntry>, r: seq<RankRow>, s: seq<RankRow>)
    requires DistinctKeys(a) && DistinctKeys(b) && multiset(a) == multiset(b)
    requires IsRanking(ICPC, a, r) && IsRanking(ICPC, b, s)
    ensures r == s
  {
    SameMembers(a, b);
    forall i, j | 0 <= i < |r| && 0 <= j < |s| && r[i].userID == s[j].userID ensures i == j && r[i] == s[j] {
      RowDetermined(ICPC, a, b, r, s, i, j);
      SameAhead(a, b, r, s, i, j);
      PositionIsAhead(r, i);
      PositionIsAhead(s, j);
    }
    forall i | 0 <= i < |r| ensures i < |s| && r[i] == s[i] {
      assert r[i].userID in Users(b);
      var j :| 0 <= j < |s| && s[j].userID == r[i].userID;
    }
    RowCount(a, r);
    RowCount(b, s);
  }

  lemma RowCount(es: seq<ScoreEntry>, rows: seq<RankRow>)
    requires OneRowPerUser(es, rows)
    ensures |rows| == |Users(es)|
  {
    assert Prefix(rows, |rows|) == Users(es);
    PrefixSize(rows, |rows|);
  }

  lemma SameAhead(a: seq<ScoreEntry>, b: seq<ScoreEntry>, r: seq<RankRow>, s: seq<RankRow>, i: int, j: int)
    requires DistinctKeys(a) && DistinctKeys(b) && multiset(a) == multiset(b)
    requires IsRanking(ICPC, a, r) && IsRanking(ICPC, b, s)
    requires 0 <= i < |r| && 0 <= j < |s| && r[i] == s[j]
    ensures Ahead(r, i) == Ahead(s, j)
  {
    SameMembers(a, b);
    forall v | v in Ahead(r, i) ensures v in Ahead(s, j) {
      var k :| 0 <= k < |r| && r[k].userID == v && Before(ICPC, r[k], r[i]);
      var l :| 0 <= l < |s| && s[l].userID == v;
      RowDetermined(ICPC, a, b, r, s, k, l);
    }
    forall v | v in Ahead(s, j) ensures v in Ahead(r, i) {
      var l :| 0 <= l < |s| && s[l].userID == v && Before(ICPC, s[l], s[j]);
      var k :| 0 <= k < |r| && r[k].userID == v;
      RowDetermined(ICPC, a, b, r, s, k, l);
    }
  }

  /** Ranks never decrease down the board, so the final stable sort by rank moves nothing. */
  lemma RanksAscend(mode: Mode, es: seq<ScoreEntry>, rows: seq<RankRow>, i: int, j: int)
    requires IsRanking(mode, es, rows) && 0 <= i < j < |rows|
    ensures rows[i].rank <= rows[j].rank
  {
    assert !Before(mode, rows[j], rows[i]);
    var a := set v | v in Users(es) && Better(mode, UserTotals(mode, es, v), rows[i].totals);
    var b := set v | v in Users(es) && Better(mode, UserTotals(mode, es, v), rows[j].totals);
    assert a <= b;
    SubsetSize(a, b);
  }

  // ------------------------------------------------------------------ the order, field by field

  /** A row stands above another exactly in this order: more problems solved, then less penalty, then the
      earlier last AC, then the smaller user id. */
  lemma {:induction false} RowOrder(es: seq<ScoreEntry>, rows: seq<RankRow>, i: int, j: int)
    requires IsRanking(ICPC, es, rows) && 0 <= i < |rows| && 0 <= j < |rows|
    ensures var a, b := rows[i], rows[j];
            i < j <==>
              || a.totals.score > b.totals.score
              || (a.totals.score == b.totals.score &&
                  (|| a.totals.penalty < b.totals.penalty
                   || (a.totals.penalty == b.totals.penalty &&
                       (|| a.totals.lastAC < b.totals.lastAC
                        || (a.totals.lastAC == b.totals.lastAC && a.userID < b.userID)))))
  {
    if i < j { assert !Before(ICPC, rows[j], rows[i]) && rows[i].userID != rows[j].userID; }
    if j < i { assert !Before(ICPC, rows[i], rows[j]) && rows[i].userID != rows[j].userID; }
  }

  /** In a score-descending contest rows only never ascend. */
  lemma {:induction false} ScoreOrder(es: seq<ScoreEntry>, rows: seq<RankRow>, i: int, j: int)
    requires IsRanking(OI, es, rows) && 0 <= i < j < |rows|
    ensures rows[i].totals.score >= rows[j].totals.score
  {
    assert !Before(OI, rows[j], rows[i]);
  }

  /** The rows strictly better than row i, by the fields that count for ranks. */
  function StrictlyBetter(mode: Mode, rows: seq<RankRow>, i: int): set<int>
    requires 0 <= i < |rows|
  {
    set j | 0 <= j < |rows| &&
            (|| rows[j].totals.score > rows[i].totals.score
             || (mode == ICPC && rows[j].totals.score == rows[i].totals.score &&
                 (|| rows[j].totals.penalty < rows[i].totals.penalty
                  || (rows[j].totals.penalty == rows[i].totals.penalty &&
                      rows[j].totals.lastAC < rows[i].totals.lastAC))))
  }

  /** A rank is one more than the number of rows strictly better: rows alike in all that counts share it. */
  lemma {:induction false} RankCounts(mode: Mode, es: seq<ScoreEntry>, rows: seq<RankRow>, i: int)
    requires IsRanking(mode, es, rows) && 0 <= i < |rows|
    ensures rows[i].rank == 1 + |StrictlyBetter(mode, rows, i)|
  {
    var at := StrictlyBetter(mode, rows, i);
    var who := set v | v in Users(es) && Better(mode, UserTotals(mode, es, v), UserTotals(mode, es, rows[i].userID));
    assert who == set j | j in at :: rows[j].userID by {
      forall v | v in who ensures exists j :: j in at && rows[j].userID == v {
        var j :| 0 <= j < |rows| && rows[j].userID == v;
        assert j in at;
      }
    }
    SameSize(rows, at);
  }

  lemma {:induction false} SameSize(rows: seq<RankRow>, at: set<int>)
    requires DistinctUsers(rows) && forall j :: j in at ==> 0 <= j < |rows|
    ensures |set j | j in at :: rows[j].userID| == |at|
  {
    if at != {} {
      SomeMember(at);
      var j :| j in at;
      SameSize(rows, at - {j});
      assert (set k | k in at :: rows[k].userID) == (set k | k in at - {j} :: rows[k].userID) + {rows[j].userID};
    }
  }
}
