/** The scoreboard service: read-modify-write of cells, reveal, and rebuilding the whole board. */
module Board {
  import opened Types
  import opened Cell
  import opened Ranking
  import Oi
  import FirstBlood

  datatype Contest = Contest(mode: Mode, start: Time, freeze: Option<Time>, settings: Settings, labels: map<ID, string>)

  type Key = (ID, ID)

  datatype ResultMessage = ResultMessage(
    userID: ID, problemID: ID, status: Status, score: int, submittedAt: Time, judgedAt: Time)

  /** The instant that counts: the submission, not the end of judging (unless it is missing). */
  function SubmitTimeOf(r: ResultMessage): (t: Time)
    ensures r.submittedAt != ZERO_TIME ==> t == r.submittedAt
    ensures r.submittedAt == ZERO_TIME ==> t == r.judgedAt
  {
    if r.submittedAt == ZERO_TIME then r.judgedAt else r.submittedAt
  }

  function ApplyIn(c: Contest, ev: SubmissionEvent, prev: Option<ScoreEntry>): ScoreEntry {
    match c.mode
    case ICPC => Cell.Apply(ev, prev, c.settings)
    case OI => Oi.Apply(ev, prev, c.settings)
  }

  // ------------------------------------------------------------------ histories

  /** Results in the order the consumer processed them. */
  type History = seq<(Key, Judged)>

  /** One cell's own results. */
  function RunsOf(h: History, k: Key): seq<Judged> {
    if h == [] then []
    else
      var n := |h| - 1;
      RunsOf(h[..n], k) + if h[n].0 == k then [h[n].1] else []
  }

  function KeysOf(h: History): set<Key> {
    set x | x in h :: x.0
  }

  lemma {:induction false} KeyHasRuns(h: History, k: Key)
    ensures k in KeysOf(h) <==> RunsOf(h, k) != []
  {
    if h != [] {
      var n := |h| - 1;
      KeyHasRuns(h[..n], k);
      assert h == h[..n] + [h[n]];
    }
  }

  /** The entry of a cell recomputed from its own results alone. */
  function CellOf(c: Contest, k: Key, runs: seq<Judged>): (e: Option<ScoreEntry>)
    ensures e.None? <==> runs == []
  {
    match c.mode
    case ICPC => Cell.Fold(k.0, k.1, runs, c.start, c.freeze, c.settings)
    case OI => Oi.Fold(k.0, k.1, runs, c.start, c.freeze, c.settings)
  }

  /** The entry hash that recomputation from the history gives. */
  predicate Agrees(c: Contest, h: History, entries: map<Key, ScoreEntry>) {
    && entries.Keys == KeysOf(h)
    && forall k :: k in entries ==> CellOf(c, k, RunsOf(h, k)) == Some(entries[k])
  }

  lemma CellOfStep(c: Contest, k: Key, runs: seq<Judged>, r: Judged)
    ensures CellOf(c, k, runs + [r])
         == Some(ApplyIn(c, EventOf(k.0, k.1, r, c.start, c.freeze), CellOf(c, k, runs)))
  {
    assert (runs + [r])[..|runs|] == runs;
  }

  lemma {:induction false} CellOfKey(c: Contest, k: Key, runs: seq<Judged>)
    requires runs != []
    ensures CellOf(c, k, runs).value.userID == k.0 && CellOf(c, k, runs).value.problemID == k.1
  {
    var n := |runs| - 1;
    assert runs == runs[..n] + [runs[n]];
    CellOfStep(c, k, runs[..n], runs[n]);
    if n > 0 { CellOfKey(c, k, runs[..n]); }
  }

  function Lookup(entries: map<Key, ScoreEntry>, k: Key): Option<ScoreEntry> {
    if k in entries then Some(entries[k]) else None
  }

  /** One read-modify-write of the entry hash. */
  function Store(c: Contest, entries: map<Key, ScoreEntry>, k: Key, r: Judged): map<Key, ScoreEntry> {
    entries[k := ApplyIn(c, EventOf(k.0, k.1, r, c.start, c.freeze), Lookup(entries, k))]
  }

  lemma StoreAgrees(c: Contest, h: History, entries: map<Key, ScoreEntry>, k: Key, r: Judged)
    requires Agrees(c, h, entries)
    ensures Agrees(c, h + [(k, r)], Store(c, entries, k, r))
  {
    var h', e' := h + [(k, r)], Store(c, entries, k, r);
    assert h'[..|h|] == h;
    assert KeysOf(h') == KeysOf(h) + {k};
    KeyHasRuns(h, k);
    CellOfStep(c, k, RunsOf(h, k), r);
    forall j | j in e' ensures CellOf(c, j, RunsOf(h', j)) == Some(e'[j]) {
      if j != k { assert RunsOf(h', j) == RunsOf(h, j); }
    }
  }

  // ------------------------------------------------------------------ what the board shows

  /** A cell as displayed, before first blood. */
  function Shown(c: Contest, e: ScoreEntry, revealed: bool): ScoreEntry {
    if revealed && c.mode == ICPC then RevealAll(e, c.start, c.settings) else e
  }

  function ShownMap(c: Contest, entries: map<Key, ScoreEntry>, revealed: bool): map<Key, ScoreEntry> {
    map k | k in entries :: Shown(c, entries[k], revealed)
  }

  /** Every entry sits under its own key. */
  predicate Keyed(m: map<Key, ScoreEntry>) {
    forall k :: k in m ==> m[k].userID == k.0 && m[k].problemID == k.1
  }

  /** `es` lists the entries of `m`, each once, in some order. */
  predicate Lists(es: seq<ScoreEntry>, m: map<Key, ScoreEntry>) {
    && DistinctKeys(es)
    && (forall i :: 0 <= i < |es| ==> var k := (es[i].userID, es[i].problemID); k in m && m[k] == es[i])
    && (forall k :: k in m ==> m[k] in es)
  }

  datatype BoardCell = BoardCell(solved: bool, attempts: int, pending: int, penalty: int, score: int, firstBlood: bool)

  datatype BoardRow = BoardRow(
    rank: int, userID: ID, problems: map<string, BoardCell>, totalSolved: int, totalPenalty: int, totalScore: int)

  datatype Snapshot = Snapshot(frozen: bool, contestants: seq<BoardRow>)

  function CellView(e: ScoreEntry): BoardCell {
    BoardCell(e.accepted, e.wrongAttemptCount, e.frozenAttempts, e.penalty, e.displayScore, e.isFirstBlood)
  }

  /** The cells shown: problems still in the contest, under their label. */
  predicate IsCells(labels: map<ID, string>, entries: map<ID, ScoreEntry>, cells: map<string, BoardCell>) {
    && (forall p :: p in entries && p in labels ==> labels[p] in cells)
    && (forall l :: l in cells ==>
        exists p :: p in entries && p in labels && labels[p] == l && cells[l] == CellView(entries[p]))
  }

  predicate IsBoardRow(c: Contest, row: RankRow, b: BoardRow) {
    && b.rank == row.rank && b.userID == row.userID
    && b.totalPenalty == row.totals.penalty && b.totalScore == row.totals.score
    && b.totalSolved == |set p | p in row.entries && p in c.labels && row.entries[p].accepted|
    && IsCells(c.labels, row.entries, b.problems)
  }

  /** `rows` is a correct board for the displayed entries `m`. */
  ghost predicate IsBoard(c: Contest, m: map<Key, ScoreEntry>, rows: seq<BoardRow>) {
    exists es, ranked ::
      && Lists(es, m)
      && IsRanking(c.mode, FirstBlood.Flagged(es), ranked)
      && BoardRows(c, ranked, rows)
  }

  predicate BoardRows(c: Contest, ranked: seq<RankRow>, rows: seq<BoardRow>) {
    |rows| == |ranked| && forall i :: 0 <= i < |rows| ==> IsBoardRow(c, ranked[i], rows[i])
  }

  predicate InFreeze(c: Contest, now: Time) {
    c.freeze.Some? && !(now < c.freeze.value)
  }

  // ------------------------------------------------------------------ the service

  class RankingService {
    const c: Contest
    var entries: map<Key, ScoreEntry>
    var revealed: bool
    var snapshot: Option<Snapshot>

    ghost var history: History

    ghost predicate Valid()
      reads this
    {
      Agrees(c, history, entries)
    }

    /** The stored snapshot is a correct board of the history processed so far. */
    ghost predicate Current(now: Time)
      reads this
    {
      && snapshot.Some?
      && snapshot.value.frozen == (InFreeze(c, now) && !revealed)
      && IsBoard(c, ShownMap(c, entries, revealed), snapshot.value.contestants)
    }

    constructor (c: Contest)
      ensures Valid() && this.c == c && history == [] && !revealed && snapshot == None
    {
      this.c := c;
      entries := map[];
      revealed := false;
      snapshot := None;
      history := [];
    }

    /** processContestResult, every store and the rebuild succeeding; results outside a contest
        (zero ids) are skipped as in handleResult. */
    method ProcessResult(r: ResultMessage, now: Time)
      requires Valid()
      modifies this
      ensures Valid() && revealed == old(revealed)
      ensures r.userID == 0 || r.problemID == 0 ==>
                entries == old(entries) && history == old(history) && snapshot == old(snapshot)
      ensures r.userID != 0 && r.problemID != 0 ==>
                && Current(now)
                && history == old(history) + [((r.userID, r.problemID), Judged(r.status, r.score, SubmitTimeOf(r)))]
    {
      if r.userID == 0 || r.problemID == 0 {
        return;
      }
      var k := (r.userID, r.problemID);
      var prev := if k in entries then Some(entries[k]) else None;
      var event := SubmissionEvent(k.0, k.1, r.status, r.score, SubmitTimeOf(r), c.start, c.freeze);
      var newEntry := ApplyIn(c, event, prev);
      ghost var j := Judged(r.status, r.score, SubmitTimeOf(r));
      StoreAgrees(c, history, entries, k, j);
      assert event == EventOf(k.0, k.1, j, c.start, c.freeze) && prev == Lookup(entries, k);
      entries := entries[k := newEntry];
      history := history + [(k, j)];
      RebuildSnapshot(now);
    }

    /** RevealContest. */
    method RevealContest(now: Time)
      requires Valid()
      modifies this
      ensures Valid() && revealed && entries == old(entries) && history == old(history)
      ensures Current(now)
    {
      revealed := true;
      RebuildSnapshot(now);
    }

    /** rebuildSnapshot. */
    method RebuildSnapshot(now: Time)
      requires Valid()
      modifies this`snapshot
      ensures Valid() && Current(now)
      ensures snapshot.value.frozen <==> !revealed && exists f :: c.freeze == Some(f) && f <= now
    {
      AgreesKeyed(c, history, entries);
      var es := LoadEntries();
      var flagged := FlagEntries(es);
      var rows := Rank(c.mode, flagged);
      var contestants := RenderRows(rows);
      assert IsBoard(c, ShownMap(c, entries, revealed), contestants);
      snapshot := Some(Snapshot(InFreeze(c, now) && !revealed, contestants));
    }

    /** First blood on snapshot-local copies. */
    method FlagEntries(es: seq<ScoreEntry>) returns (r: seq<ScoreEntry>)
      ensures r == FirstBlood.Flagged(es)
    {
      var a := new ScoreEntry[|es|](i requires 0 <= i < |es| => es[i]);
      assert a[..] == es;
      FirstBlood.AssignFirstBlood(a);
      r := a[..];
    }

    method RenderRows(rows: seq<RankRow>) returns (contestants: seq<BoardRow>)
      ensures BoardRows(c, rows, contestants)
    {
      contestants := [];
      for i := 0 to |rows|
        invariant |contestants| == i
        invariant forall j :: 0 <= j < i ==> IsBoardRow(c, rows[j], contestants[j])
      {
        var row := RenderRow(rows[i]);
        contestants := contestants + [row];
      }
    }

    /** Read the entry hash in map order, revealing hidden results once the contest is revealed. */
    method LoadEntries() returns (es: seq<ScoreEntry>)
      requires Keyed(ShownMap(c, entries, revealed))
      ensures Lists(es, ShownMap(c, entries, revealed))
    {
      es := [];
      ghost var m := ShownMap(c, entries, revealed);
      var todo := entries.Keys;
      while todo != {}
        invariant todo <= entries.Keys
        invariant forall i :: 0 <= i < |es| ==> var k := (es[i].userID, es[i].problemID);
                  k in m && k !in todo && m[k] == es[i]
        invariant forall k :: k in m && k !in todo ==> m[k] in es
        invariant DistinctKeys(es)
        decreases |todo|
      {
        var k :| k in todo;
        todo := todo - {k};
        var e := entries[k];
        if revealed && c.mode == ICPC {
          e := Reveal(e, c.start, c.settings);
        }
        assert e == m[k];
        es := es + [e];
      }
    }

    /** One contestant's row. */
    method RenderRow(r: RankRow) returns (b: BoardRow)
      ensures IsBoardRow(c, r, b)
    {
      var cells: map<string, BoardCell> := map[];
      var solved := 0;
      ghost var done: set<ID> := {};
      var todo := r.entries.Keys;
      while todo != {}
        invariant done == r.entries.Keys - todo && todo <= r.entries.Keys
        invariant solved == |Solved(c, r.entries, done)|
        invariant forall p :: p in done && p in c.labels ==> c.labels[p] in cells
        invariant forall l :: l in cells ==>
                  exists p :: p in done && p in c.labels && c.labels[p] == l && cells[l] == CellView(r.entries[p])
        decreases |todo|
      {
        SomeMember(todo);
        var pid :| pid in todo;
        todo := todo - {pid};
        SolvedStep(c, r.entries, done, pid);
        done := done + {pid};
        if pid in c.labels {
          if r.entries[pid].accepted {
            solved := solved + 1;
          }
          cells := cells[c.labels[pid] := CellView(r.entries[pid])];
        }
      }
      assert done == r.entries.Keys;
      assert Solved(c, r.entries, done) == (set p | p in r.entries && p in c.labels && r.entries[p].accepted);
      b := BoardRow(r.rank, r.userID, cells, solved, r.totals.penalty, r.totals.score);
    }
  }

  /** The solved problems among `done` that are still in the contest. */
  function Solved(c: Contest, entries: map<ID, ScoreEntry>, done: set<ID>): set<ID> {
    set p | p in done && p in c.labels && p in entries && entries[p].accepted
  }

  lemma {:induction false} SolvedStep(c: Contest, entries: map<ID, ScoreEntry>, done: set<ID>, p: ID)
    requires p in entries && p !in done
    ensures |Solved(c, entries, done + {p})|
         == |Solved(c, entries, done)| + if p in c.labels && entries[p].accepted then 1 else 0
  {
    var s := Solved(c, entries, done);
    assert Solved(c, entries, done + {p}) == if p in c.labels && entries[p].accepted then s + {p} else s;
  }

  /** The cell shown for a problem whose label no other contest problem shares: solved or not, the number of
      rejected and of pending attempts, the penalty, the score and first blood are those of the entry. */
  lemma {:induction false} CellShows(c: Contest, row: RankRow, b: BoardRow, p: ID)
    requires IsBoardRow(c, row, b) && p in row.entries && p in c.labels
    requires forall q :: q in c.labels && c.labels[q] == c.labels[p] ==> q == p
    ensures c.labels[p] in b.problems
    ensures var cell, e := b.problems[c.labels[p]], row.entries[p];
            && cell.solved == e.accepted && cell.attempts == e.wrongAttemptCount && cell.pending == e.frozenAttempts
            && cell.penalty == e.penalty && cell.score == e.displayScore && cell.firstBlood == e.isFirstBlood
  {
    var l := c.labels[p];
    var q :| q in row.entries && q in c.labels && c.labels[q] == l && b.problems[l] == CellView(row.entries[q]);
  }

  lemma {:induction false} RevealKeepsKey(e: ScoreEntry, start: Time, st: Settings)
    ensures RevealAll(e, start, st).userID == e.userID && RevealAll(e, start, st).problemID == e.problemID
    decreases |e.frozenResults|
  {
    if e.frozenResults != [] { RevealKeepsKey(RevealNext(e, start, st).0, start, st); }
  }

  lemma AgreesKeyed(c: Contest, h: History, entries: map<Key, ScoreEntry>)
    requires Agrees(c, h, entries)
    ensures forall revealed :: Keyed(ShownMap(c, entries, revealed))
  {
    forall k | k in entries ensures entries[k].userID == k.0 && entries[k].problemID == k.1 {
      KeyHasRuns(h, k);
      CellOfKey(c, k, RunsOf(h, k));
    }
    forall k | k in entries ensures RevealAll(entries[k], c.start, c.settings).userID == k.0
                                 && RevealAll(entries[k], c.start, c.settings).problemID == k.1 {
      RevealKeepsKey(entries[k], c.start, c.settings);
    }
  }
}
