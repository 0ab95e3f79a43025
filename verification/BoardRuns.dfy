/** Claims about whole runs of the scoreboard service. */
module BoardRuns {
  import opened Types
  import opened Cell
  import opened Ranking
  import opened Board
  import Freeze
  import FirstBlood

  datatype Op = Result(key: Key, judged: Judged) | Reveal

  datatype Stored = Stored(entries: map<Key, ScoreEntry>, revealed: bool)

  /** The stored state after any interleaving of results and reveals. */
  function Exec(c: Contest, ops: seq<Op>): Stored {
    if ops == [] then Stored(map[], false)
    else
      var n := |ops| - 1;
      var s := Exec(c, ops[..n]);
      match ops[n]
      case Result(k, r) => s.(entries := Store(c, s.entries, k, r))
      case Reveal => s.(revealed := true)
  }

  function HistoryOf(ops: seq<Op>): History {
    if ops == [] then []
    else
      var n := |ops| - 1;
      HistoryOf(ops[..n]) + if ops[n].Result? then [(ops[n].key, ops[n].judged)] else []
  }

  /** What the service shows after a run. */
  function Display(c: Contest, ops: seq<Op>): map<Key, ScoreEntry> {
    ShownMap(c, Exec(c, ops).entries, Exec(c, ops).revealed)
  }

  /** The incremental state is the recomputation from the history: each entry is the fold of its
      own cell's results, and the flag says whether a reveal happened. */
  lemma {:induction false} ExecRecomputes(c: Contest, ops: seq<Op>)
    ensures Agrees(c, HistoryOf(ops), Exec(c, ops).entries)
    ensures Exec(c, ops).revealed <==> Reveal in ops
  {
    if ops != [] {
      var n := |ops| - 1;
      ExecRecomputes(c, ops[..n]);
      assert ops == ops[..n] + [ops[n]];
      match ops[n] {
        case Result(k, r) => StoreAgrees(c, HistoryOf(ops[..n]), Exec(c, ops[..n]).entries, k, r);
        case Reveal => assert HistoryOf(ops) == HistoryOf(ops[..n]);
      }
    }
  }

  // ------------------------------------------------------------------ one board per displayed state

  predicate Injective(labels: map<ID, string>) {
    forall p, q :: p in labels && q in labels && labels[p] == labels[q] ==> p == q
  }

  /** Only one problem has this label. */
  predicate Unshared(labels: map<ID, string>, l: string) {
    forall p, q :: p in labels && q in labels && labels[p] == l && labels[q] == l ==> p == q
  }

  /** The same row, up to cells whose label is shared. */
  predicate SameBoardRow(c: Contest, r: BoardRow, s: BoardRow) {
    && r.(problems := map[]) == s.(problems := map[]) && r.problems.Keys == s.problems.Keys
    && forall l :: l in r.problems && Unshared(c.labels, l) ==> r.problems[l] == s.problems[l]
  }

  /** The same rows in the same order, up to cells whose label is shared; with distinct labels, the same
      board. */
  ghost predicate SameBoard(c: Contest, r: seq<BoardRow>, s: seq<BoardRow>) {
    && |r| == |s| && (forall i :: 0 <= i < |r| ==> SameBoardRow(c, r[i], s[i]))
    && (Injective(c.labels) ==> r == s)
  }

  lemma {:induction false} CellsUnique(labels: map<ID, string>, entries: map<ID, ScoreEntry>,
      a: map<string, BoardCell>, b: map<string, BoardCell>)
    requires IsCells(labels, entries, a) && IsCells(labels, entries, b)
    ensures a.Keys == b.Keys && forall l :: l in a && Unshared(labels, l) ==> a[l] == b[l]
  {
    forall l | l in a ensures l in b && (Unshared(labels, l) ==> a[l] == b[l]) {
      var p :| p in entries && p in labels && labels[p] == l && a[l] == CellView(entries[p]);
      var q :| q in entries && q in labels && labels[q] == l && b[l] == CellView(entries[q]);
    }
    forall l | l in b ensures l in a {
      var q :| q in entries && q in labels && labels[q] == l && b[l] == CellView(entries[q]);
    }
  }

  /** A shared label really leaves the choice open: a correct row stays correct with any view of any of
      the problems the contestant tried under it, and with nothing else. */
  lemma {:induction false} SharedLabelCell(labels: map<ID, string>, entries: map<ID, ScoreEntry>,
      cells: map<string, BoardCell>, l: string, v: BoardCell)
    requires IsCells(labels, entries, cells) && l in cells
    ensures IsCells(labels, entries, cells[l := v]) <==>
              exists p :: p in entries && p in labels && labels[p] == l && v == CellView(entries[p])
  {
    var n := cells[l := v];
    if IsCells(labels, entries, n) {
      assert l in n && n[l] == v;
    }
    if p :| p in entries && p in labels && labels[p] == l && v == CellView(entries[p]) {
      forall k | k in n
          ensures exists q :: q in entries && q in labels && labels[q] == k && n[k] == CellView(entries[q]) {
        if k == l {
          assert n[k] == CellView(entries[p]);
        } else {
          var q :| q in entries && q in labels && labels[q] == k && cells[k] == CellView(entries[q]);
          assert n[k] == CellView(entries[q]);
        }
      }
    }
  }

  lemma {:induction false} DistinctCount(es: seq<ScoreEntry>, x: ScoreEntry)
    requires DistinctKeys(es)
    ensures multiset(es)[x] == if x in es then 1 else 0
  {
    if es != [] {
      var n := |es| - 1;
      assert es == es[..n] + [es[n]];
      DistinctCount(es[..n], x);
      if x in es[..n] {
        var i :| 0 <= i < n && es[i] == x;
      }
    }
  }

  lemma {:induction false} SameListing(a: seq<ScoreEntry>, b: seq<ScoreEntry>)
    requires DistinctKeys(a) && DistinctKeys(b) && forall e :: e in a <==> e in b
    ensures multiset(a) == multiset(b)
  {
    forall x ensures multiset(a)[x] == multiset(b)[x] {
      DistinctCount(a, x);
      DistinctCount(b, x);
    }
  }

  lemma ListingCovers(m: map<Key, ScoreEntry>, a: seq<ScoreEntry>, b: seq<ScoreEntry>)
    requires Lists(a, m) && Lists(b, m)
    ensures FirstBlood.Covers(a, b)
    ensures forall e :: e in a ==> e in b
  {
    forall e | e in a ensures e in b {
      assert m[(e.userID, e.problemID)] in b;
    }
    assert forall e :: e in a ==> e in b && FirstBlood.Twins(e, e);
  }

  lemma FlaggedKeys(es: seq<ScoreEntry>)
    requires DistinctKeys(es)
    ensures DistinctKeys(FirstBlood.Flagged(es))
  {
    var f := FirstBlood.Flagged(es);
    assert forall i :: 0 <= i < |es| ==> f[i].userID == es[i].userID && f[i].problemID == es[i].problemID;
  }

  lemma FindTwin(m: map<Key, ScoreEntry>, a: seq<ScoreEntry>, b: seq<ScoreEntry>, i: int) returns (j: int)
    requires Lists(a, m) && Lists(b, m) && 0 <= i < |a|
    ensures 0 <= j < |b| && b[j] == a[i]
  {
    assert m[(a[i].userID, a[i].problemID)] in b;
    j :| 0 <= j < |b| && b[j] == a[i];
  }

  lemma {:induction false} FlagTransfers(m: map<Key, ScoreEntry>, a: seq<ScoreEntry>, b: seq<ScoreEntry>, i: int)
      returns (j: int)
    requires Lists(a, m) && Lists(b, m) && 0 <= i < |a|
    ensures 0 <= j < |b| && FirstBlood.Flagged(a)[i] == FirstBlood.Flagged(b)[j]
  {
    ListingCovers(m, a, b);
    ListingCovers(m, b, a);
    j := FindTwin(m, a, b, i);
    assert FirstBlood.Twins(a[i], b[j]);
    FirstBlood.FlagsDetermined(a, b, i, j);
  }

  lemma {:induction false} FlaggedSubset(m: map<Key, ScoreEntry>, a: seq<ScoreEntry>, b: seq<ScoreEntry>)
    requires Lists(a, m) && Lists(b, m)
    ensures forall e :: e in FirstBlood.Flagged(a) ==> e in FirstBlood.Flagged(b)
  {
    var fa := FirstBlood.Flagged(a);
    forall i | 0 <= i < |fa| ensures fa[i] in FirstBlood.Flagged(b) {
      var j := FlagTransfers(m, a, b, i);
    }
  }

  /** However the hash was read, the flagged entries are the same. */
  lemma {:induction false} FlaggedListing(m: map<Key, ScoreEntry>, a: seq<ScoreEntry>, b: seq<ScoreEntry>)
    requires Lists(a, m) && Lists(b, m)
    ensures DistinctKeys(FirstBlood.Flagged(a)) && DistinctKeys(FirstBlood.Flagged(b))
    ensures multiset(FirstBlood.Flagged(a)) == multiset(FirstBlood.Flagged(b))
  {
    FlaggedSubset(m, a, b);
    FlaggedSubset(m, b, a);
    FlaggedKeys(a);
    FlaggedKeys(b);
    SameListing(FirstBlood.Flagged(a), FirstBlood.Flagged(b));
  }

  lemma {:induction false} SameRow(c: Contest, x: RankRow, r: BoardRow, s: BoardRow)
    requires IsBoardRow(c, x, r) && IsBoardRow(c, x, s)
    ensures SameBoardRow(c, r, s) && (Injective(c.labels) ==> r == s)
  {
    CellsUnique(c.labels, x.entries, r.problems, s.problems);
    if Injective(c.labels) {
      assert forall l :: l in r.problems ==> Unshared(c.labels, l);
      assert r.problems == s.problems;
    }
  }

  /** An ICPC board is a function of the displayed entries. */
  lemma {:induction false} BoardUnique(c: Contest, m: map<Key, ScoreEntry>, r: seq<BoardRow>, s: seq<BoardRow>)
    requires c.mode == ICPC && IsBoard(c, m, r) && IsBoard(c, m, s)
    ensures SameBoard(c, r, s)
  {
    var a: seq<ScoreEntry>, x: seq<RankRow> :|
      Lists(a, m) && IsRanking(c.mode, FirstBlood.Flagged(a), x) && BoardRows(c, x, r);
    var b: seq<ScoreEntry>, y: seq<RankRow> :|
      Lists(b, m) && IsRanking(c.mode, FirstBlood.Flagged(b), y) && BoardRows(c, y, s);
    FlaggedListing(m, a, b);
    BoardDetermined(FirstBlood.Flagged(a), FirstBlood.Flagged(b), x, y);
    forall i | 0 <= i < |r| ensures SameBoardRow(c, r[i], s[i]) && (Injective(c.labels) ==> r[i] == s[i]) {
      SameRow(c, x[i], r[i], s[i]);
    }
  }

  lemma {:induction false} SameRankRow(mode: Mode, m: map<Key, ScoreEntry>, a: seq<ScoreEntry>, b: seq<ScoreEntry>,
      x: seq<RankRow>, y: seq<RankRow>, i: int, j: int)
    requires Lists(a, m) && IsRanking(mode, FirstBlood.Flagged(a), x)
    requires Lists(b, m) && IsRanking(mode, FirstBlood.Flagged(b), y)
    requires 0 <= i < |x| && 0 <= j < |y| && x[i].userID == y[j].userID
    ensures x[i] == y[j]
  {
    FlaggedListing(m, a, b);
    RowDetermined(mode, FirstBlood.Flagged(a), FirstBlood.Flagged(b), x, y, i, j);
  }

  /** In an OI or IOI board each contestant's row is determined, though not the order of ties. */
  lemma {:induction false} RowUnique(c: Contest, m: map<Key, ScoreEntry>, r: seq<BoardRow>, s: seq<BoardRow>, i: int,
      j: int)
    requires IsBoard(c, m, r) && IsBoard(c, m, s)
    requires 0 <= i < |r| && 0 <= j < |s| && r[i].userID == s[j].userID
    ensures SameBoardRow(c, r[i], s[j]) && (Injective(c.labels) ==> r[i] == s[j])
  {
    var a: seq<ScoreEntry>, x: seq<RankRow> :|
      Lists(a, m) && IsRanking(c.mode, FirstBlood.Flagged(a), x) && BoardRows(c, x, r);
    var b: seq<ScoreEntry>, y: seq<RankRow> :|
      Lists(b, m) && IsRanking(c.mode, FirstBlood.Flagged(b), y) && BoardRows(c, y, s);
    assert IsBoardRow(c, x[i], r[i]) && IsBoardRow(c, y[j], s[j]);
    SameRankRow(c.mode, m, a, b, x, y, i, j);
    SameRow(c, x[i], r[i], s[j]);
  }

  /** The display depends only on each cell's own results and on whether a reveal happened: not on
      how cells interleave, when the reveal came, or how often. */
  lemma {:induction false} DisplayDetermined(c: Contest, a: seq<Op>, b: seq<Op>)
    requires forall k :: RunsOf(HistoryOf(a), k) == RunsOf(HistoryOf(b), k)
    requires Reveal in a <==> Reveal in b
    ensures Exec(c, a) == Exec(c, b) && Display(c, a) == Display(c, b)
  {
    ExecRecomputes(c, a);
    ExecRecomputes(c, b);
    SameRunsSameEntries(c, HistoryOf(a), HistoryOf(b), Exec(c, a).entries, Exec(c, b).entries);
  }

  lemma {:induction false} SameRunsSameEntries(c: Contest, h: History, g: History, e: map<Key, ScoreEntry>,
      f: map<Key, ScoreEntry>)
    requires Agrees(c, h, e) && Agrees(c, g, f) && forall k :: RunsOf(h, k) == RunsOf(g, k)
    ensures e == f
  {
    forall k ensures (k in e <==> k in f) && (k in e ==> e[k] == f[k]) {
      KeyHasRuns(h, k);
      KeyHasRuns(g, k);
      if k in e { assert Some(e[k]) == CellOf(c, k, RunsOf(h, k)) == Some(f[k]); }
    }
  }

  /** A second reveal changes nothing. */
  lemma {:induction false} RevealIdempotent(c: Contest, ops: seq<Op>)
    requires Reveal in ops
    ensures Exec(c, ops + [Reveal]) == Exec(c, ops)
  {
    ExecRecomputes(c, ops);
    assert (ops + [Reveal])[..|ops|] == ops;
  }

  /** Once revealed, every cell is shown in full, results that arrived after the reveal included:
      nothing is pending and the cell follows the public rule (up to the replayed exempt CEs). */
  lemma {:induction false} RevealedShowsAll(c: Contest, ops: seq<Op>, k: Key)
    requires c.mode == ICPC && Reveal in ops && k in Display(c, ops)
    ensures var e := Display(c, ops)[k];
            var runs := RunsOf(HistoryOf(ops), k);
            var s := IcpcRule(Visible(runs, c.freeze) + Hidden(runs, c.freeze), c.start, c.settings);
            var extra := Freeze.ReplayedExempt(runs, c.freeze, c.settings);
            && e.frozenAttempts == 0 && e.accepted == s.solved && e.bestSubmitTime == s.time
            && e.wrongAttemptCount == s.wrong + extra
            && e.penalty == s.penalty + (if s.solved then extra * c.settings.penaltyMinutes else 0)
  {
    ExecRecomputes(c, ops);
    KeyHasRuns(HistoryOf(ops), k);
    Freeze.RevealedFollowsRule(k.0, k.1, RunsOf(HistoryOf(ops), k), c.start, c.freeze, c.settings);
  }

  // ------------------------------------------------------------------ judging latency

  /** The results that a stream of messages amounts to; practice runs are skipped. */
  function OpsOf(msgs: seq<ResultMessage>): seq<Op> {
    if msgs == [] then []
    else
      var r := msgs[|msgs| - 1];
      OpsOf(msgs[..|msgs| - 1])
      + if r.userID == 0 || r.problemID == 0 then []
        else [Result((r.userID, r.problemID), Judged(r.status, r.score, SubmitTimeOf(r)))]
  }

  /** Each message adds what the service adds to its history. */
  lemma {:induction false} OpsOfStep(msgs: seq<ResultMessage>, r: ResultMessage)
    ensures HistoryOf(OpsOf(msgs + [r])) ==
              HistoryOf(OpsOf(msgs)) +
              if r.userID == 0 || r.problemID == 0 then []
              else [((r.userID, r.problemID), Judged(r.status, r.score, SubmitTimeOf(r)))]
  {
    assert (msgs + [r])[..|msgs|] == msgs;
    if r.userID != 0 && r.problemID != 0 {
      var ops := OpsOf(msgs);
      var op := Result((r.userID, r.problemID), Judged(r.status, r.score, SubmitTimeOf(r)));
      assert OpsOf(msgs + [r]) == ops + [op] && (ops + [op])[..|ops|] == ops;
    } else {
      assert OpsOf(msgs + [r]) == OpsOf(msgs) + [] == OpsOf(msgs);
    }
  }

  lemma {:induction false} OpsIgnoreLatency(a: seq<ResultMessage>, b: seq<ResultMessage>)
    requires |a| == |b| && forall i :: 0 <= i < |a| ==>
               a[i].submittedAt != ZERO_TIME && b[i] == a[i].(judgedAt := b[i].judgedAt)
    ensures OpsOf(a) == OpsOf(b)
  {
    if a != [] {
      var n := |a| - 1;
      OpsIgnoreLatency(a[..n], b[..n]);
      assert b[n].submittedAt == a[n].submittedAt && b[n].userID == a[n].userID && b[n].problemID == a[n].problemID
          && b[n].status == a[n].status && b[n].score == a[n].score;
    }
  }

  /** Queueing, compilation and execution time never show: two streams of messages that differ only in
      when judging finished leave the same entries and the same display. */
  lemma {:induction false} LatencyIrrelevant(c: Contest, a: seq<ResultMessage>, b: seq<ResultMessage>)
    requires |a| == |b| && forall i :: 0 <= i < |a| ==>
               a[i].submittedAt != ZERO_TIME && b[i] == a[i].(judgedAt := b[i].judgedAt)
    ensures Exec(c, OpsOf(a)) == Exec(c, OpsOf(b)) && Display(c, OpsOf(a)) == Display(c, OpsOf(b))
  {
    OpsIgnoreLatency(a, b);
  }

  /** Exactly the messages that carry their submission instant: whether a result counts as submitted
      before the freeze is independent of when judging finished if and only if it does. */
  lemma {:induction false} FreezeSideIff(r: ResultMessage, freeze: Time)
    ensures (forall late ::
               IsPostFreeze(SubmitTimeOf(r.(judgedAt := late)), Some(freeze))
               == IsPostFreeze(SubmitTimeOf(r), Some(freeze)))
       <==> r.submittedAt != ZERO_TIME
  {
    if r.submittedAt == ZERO_TIME {
      var early, late := r.(judgedAt := freeze - 1), r.(judgedAt := freeze);
      assert !IsPostFreeze(SubmitTimeOf(r.(judgedAt := freeze - 1)), Some(freeze));
      assert IsPostFreeze(SubmitTimeOf(r.(judgedAt := freeze)), Some(freeze));
    }
  }
}
