/** The frozen board tells nothing about the verdicts it hides. */
module HiddenBoard {
  import opened Types
  import opened Cell
  import opened Ranking
  import opened Board
  import opened BoardRuns
  import opened Freeze
  import FirstBlood

  // ------------------------------------------------------------------ boards of masked entries

  function MaskMap(m: map<Key, ScoreEntry>): map<Key, ScoreEntry> {
    map k | k in m :: Mask(m[k])
  }

  function MaskAll(es: seq<ScoreEntry>): (r: seq<ScoreEntry>)
    ensures |r| == |es| && forall i :: 0 <= i < |es| ==> r[i] == Mask(es[i])
  {
    seq(|es|, i requires 0 <= i < |es| => Mask(es[i]))
  }

  function MaskRow(r: RankRow): RankRow {
    r.(entries := map p | p in r.entries :: Mask(r.entries[p]))
  }

  function MaskRows(rows: seq<RankRow>): (r: seq<RankRow>)
    ensures |r| == |rows| && forall i :: 0 <= i < |rows| ==> r[i] == MaskRow(rows[i])
  {
    seq(|rows|, i requires 0 <= i < |rows| => MaskRow(rows[i]))
  }

  lemma MaskedUsers(es: seq<ScoreEntry>)
    ensures Users(MaskAll(es)) == Users(es)
  {
    var ms := MaskAll(es);
    forall u | u in Users(es) ensures u in Users(ms) {
      var i :| 0 <= i < |es| && es[i].userID == u;
      assert ms[i] in ms;
    }
    forall u | u in Users(ms) ensures u in Users(es) {
      var i :| 0 <= i < |ms| && ms[i].userID == u;
      assert es[i] in es;
    }
  }

  lemma {:induction false} MaskedTotals(mode: Mode, es: seq<ScoreEntry>, u: ID)
    ensures UserTotals(mode, MaskAll(es), u) == UserTotals(mode, es, u)
  {
    if es != [] {
      var n := |es| - 1;
      MaskedTotals(mode, es[..n], u);
      assert MaskAll(es)[..n] == MaskAll(es[..n]);
    }
  }

  lemma {:induction false} MaskedEntries(es: seq<ScoreEntry>, u: ID)
    ensures UserEntries(MaskAll(es), u) == map p | p in UserEntries(es, u) :: Mask(UserEntries(es, u)[p])
  {
    if es != [] {
      var n := |es| - 1;
      MaskedEntries(es[..n], u);
      assert MaskAll(es)[..n] == MaskAll(es[..n]);
    }
  }

  lemma {:induction false} MaskedRank(mode: Mode, es: seq<ScoreEntry>, u: ID)
    ensures RankOf(mode, MaskAll(es), u) == RankOf(mode, es, u)
  {
    MaskedUsers(es);
    forall v ensures UserTotals(mode, MaskAll(es), v) == UserTotals(mode, es, v) {
      MaskedTotals(mode, es, v);
    }
    var ms := MaskAll(es);
    assert (set v | v in Users(ms) && Better(mode, UserTotals(mode, ms, v), UserTotals(mode, ms, u)))
        == (set v | v in Users(es) && Better(mode, UserTotals(mode, es, v), UserTotals(mode, es, u)));
  }

  lemma {:induction false} MaskedRanking(mode: Mode, es: seq<ScoreEntry>, rows: seq<RankRow>)
    requires IsRanking(mode, es, rows)
    ensures IsRanking(mode, MaskAll(es), MaskRows(rows))
  {
    var ms, mr := MaskAll(es), MaskRows(rows);
    MaskedUsers(es);
    assert forall i :: 0 <= i < |mr| ==> mr[i].userID == rows[i].userID && mr[i].totals == rows[i].totals;
    forall i | 0 <= i < |mr|
      ensures var u := mr[i].userID;
                mr[i] == RankRow(RankOf(mode, ms, u), u, UserTotals(mode, ms, u), UserEntries(ms, u))
    {
      var u := rows[i].userID;
      MaskedRank(mode, es, u);
      MaskedTotals(mode, es, u);
      MaskedEntries(es, u);
    }
    forall i, j | 0 <= i < j < |mr| ensures !Before(mode, mr[j], mr[i]) {
      assert !Before(mode, rows[j], rows[i]);
    }
    forall u | u in Users(ms) ensures exists i :: 0 <= i < |mr| && mr[i].userID == u {
      var i :| 0 <= i < |rows| && rows[i].userID == u;
      assert mr[i].userID == u;
    }
  }

  lemma {:induction false} MaskedFlags(es: seq<ScoreEntry>)
    ensures FirstBlood.Flagged(MaskAll(es)) == MaskAll(FirstBlood.Flagged(es))
  {
    var ms := MaskAll(es);
    forall i | 0 <= i < |es| ensures FirstBlood.HoldsAt(ms, i) <==> FirstBlood.HoldsAt(es, i) {
      assert forall j :: 0 <= j < |es| ==> (FirstBlood.Rivals(ms[i], ms[j]) <==> FirstBlood.Rivals(es[i], es[j]));
      assert forall j :: 0 <= j < |es| ==> (FirstBlood.Earlier(ms[i], ms[j]) <==> FirstBlood.Earlier(es[i], es[j]));
      assert forall j :: 0 <= j < |es| ==> (FirstBlood.Earlier(ms[j], ms[i]) <==> FirstBlood.Earlier(es[j], es[i]));
    }
  }

  lemma MaskedListing(es: seq<ScoreEntry>, m: map<Key, ScoreEntry>)
    requires Lists(es, m)
    ensures Lists(MaskAll(es), MaskMap(m))
  {
    var ms := MaskAll(es);
    forall k | k in MaskMap(m) ensures MaskMap(m)[k] in ms {
      var i :| 0 <= i < |es| && es[i] == m[k];
      assert ms[i] == Mask(m[k]);
    }
  }

  lemma MaskedRow(c: Contest, x: RankRow, b: BoardRow)
    requires IsBoardRow(c, x, b)
    ensures IsBoardRow(c, MaskRow(x), b)
  {
    var y := MaskRow(x);
    assert forall p :: p in x.entries ==> CellView(y.entries[p]) == CellView(x.entries[p]);
    assert (set p | p in y.entries && p in c.labels && y.entries[p].accepted)
        == (set p | p in x.entries && p in c.labels && x.entries[p].accepted);
    forall l | l in b.problems
      ensures exists p :: p in y.entries && p in c.labels && c.labels[p] == l && b.problems[l] == CellView(y.entries[p])
    {
      var p :| p in x.entries && p in c.labels && c.labels[p] == l && b.problems[l] == CellView(x.entries[p]);
      assert p in y.entries && b.problems[l] == CellView(y.entries[p]);
    }
  }

  /** A board of some entries is also a board of the same entries with the hidden verdicts erased. */
  lemma {:induction false} MaskedBoard(c: Contest, m: map<Key, ScoreEntry>, rows: seq<BoardRow>)
    requires IsBoard(c, m, rows)
    ensures IsBoard(c, MaskMap(m), rows)
  {
    var es: seq<ScoreEntry>, ranked: seq<RankRow> :|
      Lists(es, m) && IsRanking(c.mode, FirstBlood.Flagged(es), ranked) && BoardRows(c, ranked, rows);
    MaskedListing(es, m);
    MaskedFlags(es);
    MaskedRanking(c.mode, FirstBlood.Flagged(es), ranked);
    forall i | 0 <= i < |rows| ensures IsBoardRow(c, MaskRows(ranked)[i], rows[i]) {
      MaskedRow(c, ranked[i], rows[i]);
    }
    assert BoardRows(c, MaskRows(ranked), rows);
  }

  lemma {:induction false} UnmaskedRow(c: Contest, x: RankRow, b: BoardRow)
    requires IsBoardRow(c, MaskRow(x), b)
    ensures IsBoardRow(c, x, b)
  {
    var y := MaskRow(x);
    assert forall p :: p in x.entries ==> CellView(y.entries[p]) == CellView(x.entries[p]);
    assert (set p | p in y.entries && p in c.labels && y.entries[p].accepted)
        == (set p | p in x.entries && p in c.labels && x.entries[p].accepted);
    forall l | l in b.problems
      ensures exists p :: p in x.entries && p in c.labels && c.labels[p] == l && b.problems[l] == CellView(x.entries[p])
    {
      var p :| p in y.entries && p in c.labels && c.labels[p] == l && b.problems[l] == CellView(y.entries[p]);
      assert p in x.entries && b.problems[l] == CellView(x.entries[p]);
    }
  }

  /** A listing of masked entries, unmasked again. */
  lemma {:induction false} UnmaskedListing(ms: seq<ScoreEntry>, m: map<Key, ScoreEntry>) returns (es: seq<ScoreEntry>)
    requires Lists(ms, MaskMap(m)) && Keyed(m)
    ensures Lists(es, m) && MaskAll(es) == ms
  {
    es := seq(|ms|, i requires 0 <= i < |ms| => m[(ms[i].userID, ms[i].problemID)]);
    forall i | 0 <= i < |ms|
      ensures Mask(es[i]) == ms[i] && es[i].userID == ms[i].userID && es[i].problemID == ms[i].problemID
    {
      var k := (ms[i].userID, ms[i].problemID);
      assert MaskMap(m)[k] == Mask(m[k]);
    }
    UnmaskedLists(ms, es, m);
  }

  lemma {:induction false} UnmaskedLists(ms: seq<ScoreEntry>, es: seq<ScoreEntry>, m: map<Key, ScoreEntry>)
    requires Lists(ms, MaskMap(m)) && Keyed(m) && |es| == |ms|
    requires forall i :: 0 <= i < |ms| ==>
               (ms[i].userID, ms[i].problemID) in m && es[i] == m[(ms[i].userID, ms[i].problemID)]
    requires forall i :: 0 <= i < |ms| ==> es[i].userID == ms[i].userID && es[i].problemID == ms[i].problemID
    ensures Lists(es, m)
  {
    forall k | k in m ensures m[k] in es {
      assert MaskMap(m)[k] in ms;
      var i :| 0 <= i < |ms| && ms[i] == MaskMap(m)[k];
      assert es[i] == m[k];
    }
  }

  /** A ranking of masked entries is the mask of a ranking. */
  lemma {:induction false} UnmaskedRanking(mode: Mode, es: seq<ScoreEntry>, mr: seq<RankRow>)
      returns (rows: seq<RankRow>)
    requires IsRanking(mode, MaskAll(es), mr)
    ensures IsRanking(mode, es, rows) && MaskRows(rows) == mr
  {
    rows := seq(|mr|, i requires 0 <= i < |mr| =>
      var u := mr[i].userID; RankRow(RankOf(mode, es, u), u, UserTotals(mode, es, u), UserEntries(es, u)));
    MaskedUsers(es);
    forall i | 0 <= i < |mr|
        ensures MaskRow(rows[i]) == mr[i] && rows[i].userID == mr[i].userID && rows[i].totals == mr[i].totals {
      var u := mr[i].userID;
      MaskedRank(mode, es, u);
      MaskedTotals(mode, es, u);
      MaskedEntries(es, u);
    }
    SortedAlike(mode, mr, rows);
    forall u | u in Users(es) ensures exists i :: 0 <= i < |rows| && rows[i].userID == u {
      var i :| 0 <= i < |mr| && mr[i].userID == u;
      assert rows[i].userID == u;
    }
  }

  /** And conversely: so the boards that may be shown are those of the masked entries. */
  lemma {:induction false} UnmaskedBoard(c: Contest, m: map<Key, ScoreEntry>, rows: seq<BoardRow>)
    requires Keyed(m) && IsBoard(c, MaskMap(m), rows)
    ensures IsBoard(c, m, rows)
  {
    var ms: seq<ScoreEntry>, mr: seq<RankRow> :|
      Lists(ms, MaskMap(m)) && IsRanking(c.mode, FirstBlood.Flagged(ms), mr) && BoardRows(c, mr, rows);
    var es := UnmaskedListing(ms, m);
    MaskedFlags(es);
    var ranked := UnmaskedRanking(c.mode, FirstBlood.Flagged(es), mr);
    forall i | 0 <= i < |rows| ensures IsBoardRow(c, ranked[i], rows[i]) {
      assert MaskRows(ranked)[i] == MaskRow(ranked[i]);
      UnmaskedRow(c, ranked[i], rows[i]);
    }
    assert BoardRows(c, ranked, rows);
  }

  // ------------------------------------------------------------------ runs that differ in hidden verdicts

  /** The same results in the same order, except for verdicts and scores from the freeze on. */
  predicate SameUpToHiddenOps(a: seq<Op>, b: seq<Op>, freeze: Option<Time>) {
    && |a| == |b|
    && forall i :: 0 <= i < |a| ==> SameOp(a[i], b[i], freeze)
  }

  predicate SameOp(a: Op, b: Op, freeze: Option<Time>) {
    && a.Result? && b.Result? && a.key == b.key
    && a.judged.submitTime == b.judged.submitTime
    && (!IsPostFreeze(a.judged.submitTime, freeze) ==> a.judged == b.judged)
  }

  lemma {:induction false} RunsUpToHidden(a: seq<Op>, b: seq<Op>, freeze: Option<Time>, k: Key)
    requires SameUpToHiddenOps(a, b, freeze)
    ensures SameUpToHidden(RunsOf(HistoryOf(a), k), RunsOf(HistoryOf(b), k), freeze)
  {
    if a != [] {
      var n := |a| - 1;
      RunsUpToHidden(a[..n], b[..n], freeze, k);
      assert SameOp(a[n], b[n], freeze);
      var h, g := HistoryOf(a), HistoryOf(b);
      assert h[..|h| - 1] == HistoryOf(a[..n]) && g[..|g| - 1] == HistoryOf(b[..n]);
    }
  }

  lemma {:induction false} MaskedEntriesAgree(c: Contest, a: seq<Op>, b: seq<Op>)
    requires c.mode == ICPC && SameUpToHiddenOps(a, b, c.freeze)
    ensures MaskMap(Exec(c, a).entries) == MaskMap(Exec(c, b).entries)
  {
    ExecRecomputes(c, a);
    ExecRecomputes(c, b);
    var e, f := Exec(c, a).entries, Exec(c, b).entries;
    forall k ensures (k in e <==> k in f) && (k in e ==> Mask(e[k]) == Mask(f[k])) {
      RunsUpToHidden(a, b, c.freeze, k);
      MaskedEntryAgrees(c, HistoryOf(a), HistoryOf(b), e, f, k);
    }
  }

  lemma {:induction false} MaskedEntryAgrees(c: Contest, h: History, g: History, e: map<Key, ScoreEntry>,
      f: map<Key, ScoreEntry>, k: Key)
    requires c.mode == ICPC && Agrees(c, h, e) && Agrees(c, g, f)
    requires SameUpToHidden(RunsOf(h, k), RunsOf(g, k), c.freeze)
    ensures (k in e <==> k in f) && (k in e ==> Mask(e[k]) == Mask(f[k]))
  {
    KeyHasRuns(h, k);
    KeyHasRuns(g, k);
    if k in e {
      HiddenVerdictsStayHidden(k.0, k.1, RunsOf(h, k), RunsOf(g, k), c.start, c.freeze, c.settings);
    }
  }

  lemma {:induction false} Unrevealed(c: Contest, ops: seq<Op>)
    requires forall i :: 0 <= i < |ops| ==> ops[i].Result?
    ensures Display(c, ops) == Exec(c, ops).entries
  {
    ExecRecomputes(c, ops);
  }

  lemma {:induction false} DisplayKeyed(c: Contest, ops: seq<Op>)
    ensures Keyed(Display(c, ops))
  {
    ExecRecomputes(c, ops);
    AgreesKeyed(c, HistoryOf(ops), Exec(c, ops).entries);
  }

  lemma {:induction false} MaskedDisplaysAgree(c: Contest, a: seq<Op>, b: seq<Op>)
    requires c.mode == ICPC && SameUpToHiddenOps(a, b, c.freeze)
    ensures MaskMap(Display(c, a)) == MaskMap(Display(c, b))
  {
    forall i | 0 <= i < |a| ensures a[i].Result? && b[i].Result? { assert SameOp(a[i], b[i], c.freeze); }
    Unrevealed(c, a);
    Unrevealed(c, b);
    MaskedEntriesAgree(c, a, b);
  }

  /** Two runs that differ only in hidden verdicts may show exactly the same unrevealed ICPC boards:
      every cell, total, rank, first-blood flag and the order of the rows. Whatever boards the two
      services settle on agree, up to cells whose label two problems share. */
  lemma {:induction false} FrozenBoardHidesVerdicts(c: Contest, a: seq<Op>, b: seq<Op>)
    requires c.mode == ICPC && SameUpToHiddenOps(a, b, c.freeze)
    ensures forall rows :: IsBoard(c, Display(c, a), rows) <==> IsBoard(c, Display(c, b), rows)
    ensures forall r, s :: IsBoard(c, Display(c, a), r) && IsBoard(c, Display(c, b), s) ==> SameBoard(c, r, s)
  {
    MaskedDisplaysAgree(c, a, b);
    DisplayKeyed(c, a);
    DisplayKeyed(c, b);
    forall rows ensures IsBoard(c, Display(c, a), rows) <==> IsBoard(c, Display(c, b), rows) {
      if IsBoard(c, Display(c, a), rows) { MaskedBoard(c, Display(c, a), rows); UnmaskedBoard(c, Display(c, b), rows); }
      if IsBoard(c, Display(c, b), rows) { MaskedBoard(c, Display(c, b), rows); UnmaskedBoard(c, Display(c, a), rows); }
    }
    forall r, s | IsBoard(c, Display(c, a), r) && IsBoard(c, Display(c, b), s) ensures SameBoard(c, r, s) {
      BoardUnique(c, Display(c, a), r, s);
    }
  }
}
