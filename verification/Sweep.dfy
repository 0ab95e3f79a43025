/** The deferred OI evaluation: only the last submission per (user, problem) is ever judged, under any
    number of overlapping sweeps. */
module Sweep {
  import opened Types

  datatype Sub = Sub(id: ID, userID: ID, problemID: ID)

  predicate SameCell(a: Sub, b: Sub) {
    a.userID == b.userID && a.problemID == b.problemID
  }

  /** No submission of the same cell has a higher id. */
  predicate IsLatest(subs: seq<Sub>, s: Sub) {
    forall x :: x in subs && SameCell(x, s) ==> x.id <= s.id
  }

  function Latest(all: seq<Sub>, subs: seq<Sub>): seq<Sub> {
    if subs == [] then []
    else
      var n := |subs| - 1;
      Latest(all, subs[..n]) + if IsLatest(all, subs[n]) then [subs[n]] else []
  }

  function Earlier(all: seq<Sub>, subs: seq<Sub>): seq<Sub> {
    if subs == [] then []
    else
      var n := |subs| - 1;
      Earlier(all, subs[..n]) + if IsLatest(all, subs[n]) then [] else [subs[n]]
  }

  /** splitLatestPerProblem: the latest of each cell, and all the others, both in input order. */
  method SplitLatestPerProblem(subs: seq<Sub>) returns (latest: seq<Sub>, voided: seq<Sub>)
    ensures latest == Latest(subs, subs) && voided == Earlier(subs, subs)
  {
    var latestID: map<(ID, ID), ID> := map[];
    for i := 0 to |subs|
      invariant forall j :: 0 <= j < i ==> var k := (subs[j].userID, subs[j].problemID);
                k in latestID && subs[j].id <= latestID[k]
      invariant forall k :: k in latestID ==>
                exists j :: 0 <= j < i && (subs[j].userID, subs[j].problemID) == k && subs[j].id == latestID[k]
    {
      var s := subs[i];
      var k := (s.userID, s.problemID);
      if k !in latestID || s.id > latestID[k] {
        latestID := latestID[k := s.id];
      }
    }
    latest, voided := [], [];
    for i := 0 to |subs|
      invariant latest == Latest(subs, subs[..i]) && voided == Earlier(subs, subs[..i])
    {
      var s := subs[i];
      assert subs[..i + 1][..i] == subs[..i];
      assert (latestID[(s.userID, s.problemID)] == s.id) <==> IsLatest(subs, s) by {
        assert forall x :: x in subs ==> exists j :: 0 <= j < |subs| && subs[j] == x;
        assert s in subs;
      }
      if latestID[(s.userID, s.problemID)] == s.id {
        latest := latest + [s];
      } else {
        voided := voided + [s];
      }
    }
    assert subs[..|subs|] == subs;
  }

  lemma {:induction false} SplitMembers(all: seq<Sub>, subs: seq<Sub>)
    ensures forall s :: s in Latest(all, subs) <==> s in subs && IsLatest(all, s)
    ensures forall s :: s in Earlier(all, subs) <==> s in subs && !IsLatest(all, s)
    ensures multiset(Latest(all, subs)) + multiset(Earlier(all, subs)) == multiset(subs)
  {
    SplitLatest(all, subs);
    SplitEarlier(all, subs);
    SplitCounts(all, subs);
  }

  lemma {:induction false} SplitLatest(all: seq<Sub>, subs: seq<Sub>)
    ensures forall s :: s in Latest(all, subs) <==> s in subs && IsLatest(all, s)
  {
    if subs != [] {
      SplitLatest(all, subs[..|subs| - 1]);
      assert subs == subs[..|subs| - 1] + [subs[|subs| - 1]];
    }
  }

  lemma {:induction false} SplitEarlier(all: seq<Sub>, subs: seq<Sub>)
    ensures forall s :: s in Earlier(all, subs) <==> s in subs && !IsLatest(all, s)
  {
    if subs != [] {
      SplitEarlier(all, subs[..|subs| - 1]);
      assert subs == subs[..|subs| - 1] + [subs[|subs| - 1]];
    }
  }

  lemma {:induction false} SplitCounts(all: seq<Sub>, subs: seq<Sub>)
    ensures multiset(Latest(all, subs)) + multiset(Earlier(all, subs)) == multiset(subs)
  {
    if subs != [] {
      var before, s := subs[..|subs| - 1], subs[|subs| - 1];
      SplitCounts(all, before);
      Appended(before, s);
      Appended(Latest(all, before), s);
      Appended(Earlier(all, before), s);
      assert subs == before + [s];
    }
  }

  lemma {:induction false} Appended(subs: seq<Sub>, s: Sub)
    ensures multiset(subs + [s]) == multiset(subs) + multiset{s} && multiset(subs + []) == multiset(subs)
  {
    assert subs + [] == subs;
  }

  // ------------------------------------------------------------------ sweeps as a transition system

  datatype Row = Row(userID: ID, problemID: ID, status: Status)

  datatype Pc =
    | Listed(subs: seq<Sub>)       // pending submissions read, nothing voided yet
    | Publishing(todo: seq<Sub>)   // earlier ones voided, latest ones being enqueued
    | Finished

  /** One blind-judged contest: its submissions, what was ever enqueued, and the running sweeps. */
  datatype State = State(db: map<ID, Row>, enqueued: set<ID>, sweeps: map<int, Pc>)

  datatype Step =
    | Begin(k: int, pending: seq<Sub>)
    | Void(k: int, ok: bool)
    | Publish(k: int, ok: bool)
    | Persist(id: ID, verdict: Status)

  function SubOf(db: map<ID, Row>, id: ID): Sub
    requires id in db
  {
    Sub(id, db[id].userID, db[id].problemID)
  }

  /** ListPendingByContest. */
  predicate ListsPending(db: map<ID, Row>, subs: seq<Sub>) {
    && (forall s :: s in subs ==> s.id in db && s == SubOf(db, s.id) && db[s.id].status == Pending)
    && (forall id :: id in db && db[id].status == Pending ==> SubOf(db, id) in subs)
  }

  /** MarkSuperseded: only rows still Pending change. */
  function MarkSuperseded(db: map<ID, Row>, voided: seq<Sub>): map<ID, Row> {
    map id | id in db ::
      if db[id].status == Pending && SubOf(db, id) in voided then db[id].(status := Superseded) else db[id]
  }

  /** A verdict that a judge result can carry. */
  predicate IsFinal(v: Status) {
    v != Pending && v != Superseded
  }

  predicate Enabled(s: State, step: Step) {
    match step
    case Begin(k, pending) => k !in s.sweeps && ListsPending(s.db, pending)
    case Void(k, _) => k in s.sweeps && s.sweeps[k].Listed?
    case Publish(k, _) => k in s.sweeps && s.sweeps[k].Publishing? && s.sweeps[k].todo != []
    case Persist(id, v) => id in s.enqueued && id in s.db && IsFinal(v)
  }

  function Next(s: State, step: Step): State
    requires Enabled(s, step)
  {
    match step
    case Begin(k, pending) => s.(sweeps := s.sweeps[k := Listed(pending)])
    case Void(k, ok) =>
      // a failed MarkSuperseded aborts the sweep
      if ok then
        var subs := s.sweeps[k].subs;
        s.(db := MarkSuperseded(s.db, Earlier(subs, subs)), sweeps := s.sweeps[k := Publishing(Latest(subs, subs))])
      else s.(sweeps := s.sweeps[k := Finished])
    case Publish(k, ok) =>
      // an unusable problem or a failed publish skips the submission
      var todo := s.sweeps[k].todo;
      s.(enqueued := if ok then s.enqueued + {todo[0].id} else s.enqueued,
         sweeps := s.sweeps[k := Publishing(todo[1..])])
    case Persist(id, v) => s.(db := s.db[id := s.db[id].(status := v)])
  }

  predicate Init(s: State) {
    (forall id :: id in s.db ==> s.db[id].status == Pending) && s.enqueued == {} && s.sweeps == map[]
  }

  predicate IsRun(trace: seq<State>, steps: seq<Step>) {
    && |trace| == |steps| + 1 && Init(trace[0])
    && forall i :: 0 <= i < |steps| ==> Enabled(trace[i], steps[i]) && trace[i + 1] == Next(trace[i], steps[i])
  }

  // ------------------------------------------------------------------ the invariant

  predicate Rivals(db: map<ID, Row>, a: ID, b: ID)
    requires a in db && b in db
  {
    a != b && db[a].userID == db[b].userID && db[a].problemID == db[b].problemID
  }

  /** The contestant's last submission to that problem. */
  predicate Last(db: map<ID, Row>, id: ID) {
    id in db && forall x :: x in db && Rivals(db, x, id) ==> x < id
  }

  /** All other submissions of the cell are voided. */
  predicate Alone(db: map<ID, Row>, id: ID) {
    id in db && forall x :: x in db && Rivals(db, x, id) ==> db[x].status == Superseded
  }

  predicate DbInv(db: map<ID, Row>, enqueued: set<ID>) {
    && (forall id :: id in db && !Last(db, id) ==> db[id].status == Pending || db[id].status == Superseded)
    && (forall id :: id in db && Last(db, id) ==> db[id].status != Superseded)
    && (forall id :: id in db && IsFinal(db[id].status) ==> Alone(db, id))
    && (forall id :: id in enqueued ==> Last(db, id) && Alone(db, id))
  }

  /** A list read earlier still covers its cells: what it lacks is voided. */
  predicate ListInv(db: map<ID, Row>, subs: seq<Sub>) {
    forall s :: s in subs ==>
      && s.id in db && s == SubOf(db, s.id)
      && forall x :: x in db && Rivals(db, x, s.id) ==> SubOf(db, x) in subs || db[x].status == Superseded
  }

  predicate TodoInv(db: map<ID, Row>, todo: seq<Sub>) {
    forall s :: s in todo ==> Last(db, s.id) && Alone(db, s.id)
  }

  predicate PcInv(db: map<ID, Row>, pc: Pc) {
    match pc
    case Listed(subs) => ListInv(db, subs)
    case Publishing(todo) => TodoInv(db, todo)
    case Finished => true
  }

  predicate Inv(s: State) {
    DbInv(s.db, s.enqueued) && forall k :: k in s.sweeps ==> PcInv(s.db, s.sweeps[k])
  }

  /** Each cell has a last submission. */
  lemma {:induction false} LastExists(db: map<ID, Row>, id: ID, above: set<ID>) returns (m: ID)
    requires id in db
    requires forall x :: x in db && Rivals(db, x, id) && x > id ==> x in above
    ensures Last(db, m) && m >= id && (m == id || Rivals(db, m, id))
    decreases |above|
  {
    if x :| x in db && Rivals(db, x, id) && x > id {
      m := LastExists(db, x, above - {x});
    } else {
      m := id;
    }
  }

  /** The latest of a listed cell is its last submission. */
  lemma {:induction false} LatestIsLast(db: map<ID, Row>, enqueued: set<ID>, subs: seq<Sub>, s: Sub)
    requires DbInv(db, enqueued) && ListInv(db, subs) && s in subs
    ensures IsLatest(subs, s) <==> Last(db, s.id)
  {
    var m := LastExists(db, s.id, db.Keys);
    if m != s.id { assert SubOf(db, m) in subs; }
    forall x | x in subs && SameCell(x, s) && Last(db, s.id) ensures x.id <= s.id {
      if x.id != s.id { assert Rivals(db, x.id, s.id); }
    }
  }

  /** Statuses only move to Superseded or a verdict; who is last never changes. */
  predicate Evolves(db: map<ID, Row>, n: map<ID, Row>) {
    && n.Keys == db.Keys
    && forall id :: id in db ==>
        SubOf(n, id) == SubOf(db, id) && (db[id].status == Superseded ==> n[id].status == Superseded)
  }

  lemma {:induction false} EvolvesKeepsSweeps(db: map<ID, Row>, n: map<ID, Row>, pc: Pc)
    requires Evolves(db, n) && PcInv(db, pc)
    ensures PcInv(n, pc)
  {
    EvolvesFrame(db, n);
  }

  lemma {:induction false} EvolvesFrame(db: map<ID, Row>, n: map<ID, Row>)
    requires Evolves(db, n)
    ensures forall a, b :: a in db && b in db ==> (Rivals(db, a, b) <==> Rivals(n, a, b))
    ensures forall id :: Last(db, id) <==> Last(n, id)
    ensures forall id :: Alone(db, id) ==> Alone(n, id)
  {
    assert forall a, b :: a in db && b in db ==> (Rivals(db, a, b) <==> Rivals(n, a, b));
  }

  /** Voiding touches pending submissions that are not last, and no other. */
  lemma {:induction false} VoidedRow(db: map<ID, Row>, enqueued: set<ID>, subs: seq<Sub>, id: ID)
    requires DbInv(db, enqueued) && ListInv(db, subs) && id in db
    ensures var n := MarkSuperseded(db, Earlier(subs, subs));
            n[id] == db[id] || (db[id].status == Pending && !Last(db, id) && n[id] == db[id].(status := Superseded))
    ensures !Last(db, id) && SubOf(db, id) in subs ==> MarkSuperseded(db, Earlier(subs, subs))[id].status == Superseded
  {
    SplitMembers(subs, subs);
    if SubOf(db, id) in subs { LatestIsLast(db, enqueued, subs, SubOf(db, id)); }
  }

  lemma {:induction false} VoidKeepsDb(db: map<ID, Row>, enqueued: set<ID>, subs: seq<Sub>)
    requires DbInv(db, enqueued) && ListInv(db, subs)
    ensures var n := MarkSuperseded(db, Earlier(subs, subs)); Evolves(db, n) && DbInv(n, enqueued)
  {
    var n := MarkSuperseded(db, Earlier(subs, subs));
    assert Evolves(db, n);
    EvolvesFrame(db, n);
    forall id | id in db
      ensures n[id] == db[id] || (db[id].status == Pending && !Last(db, id) && n[id] == db[id].(status := Superseded))
    {
      VoidedRow(db, enqueued, subs, id);
    }
  }

  /** After voiding, each latest submission of the list is alone in its cell. */
  lemma {:induction false} VoidLeavesLastAlone(db: map<ID, Row>, enqueued: set<ID>, subs: seq<Sub>)
    requires DbInv(db, enqueued) && ListInv(db, subs)
    ensures TodoInv(MarkSuperseded(db, Earlier(subs, subs)), Latest(subs, subs))
  {
    var n := MarkSuperseded(db, Earlier(subs, subs));
    assert Evolves(db, n);
    EvolvesFrame(db, n);
    SplitMembers(subs, subs);
    forall s | s in Latest(subs, subs) ensures Last(n, s.id) && Alone(n, s.id) {
      LatestIsLast(db, enqueued, subs, s);
      forall x | x in n && Rivals(n, x, s.id) ensures n[x].status == Superseded {
        assert Rivals(db, x, s.id) && Rivals(db, s.id, x) && x < s.id;
        assert !Last(db, x);
        VoidedRow(db, enqueued, subs, x);
      }
    }
  }

  lemma {:induction false} BeginKeepsList(db: map<ID, Row>, enqueued: set<ID>, subs: seq<Sub>)
    requires DbInv(db, enqueued) && ListsPending(db, subs)
    ensures ListInv(db, subs)
  {
    forall s, x | s in subs && x in db && Rivals(db, x, s.id)
        ensures SubOf(db, x) in subs || db[x].status == Superseded {
      if IsFinal(db[x].status) {
        assert Alone(db, x);
        assert Rivals(db, s.id, x);
        assert false;
      }
    }
  }

  lemma {:induction false} PersistKeepsDb(s: State, id: ID, v: Status)
    requires DbInv(s.db, s.enqueued) && Enabled(s, Persist(id, v))
    ensures var n := Next(s, Persist(id, v)).db; Evolves(s.db, n) && DbInv(n, s.enqueued)
  {
    var db, n := s.db, Next(s, Persist(id, v)).db;
    assert Last(db, id) && Alone(db, id);
    assert forall a, b :: a in db && b in db ==> (Rivals(db, a, b) <==> Rivals(n, a, b));
    assert forall x :: Last(db, x) <==> Last(n, x);
    forall x | Alone(db, x) ensures Alone(n, x) {
      forall y | y in n && Rivals(n, y, x) ensures n[y].status == Superseded { assert Rivals(db, y, x); }
    }
  }

  lemma {:induction false} InvKept(s: State, step: Step)
    requires Inv(s) && Enabled(s, step)
    ensures Inv(Next(s, step)) && Evolves(s.db, Next(s, step).db)
  {
    var n := Next(s, step);
    match step {
      case Begin(k, pending) => BeginKeepsList(s.db, s.enqueued, pending);
      case Void(k, ok) =>
        assert PcInv(s.db, s.sweeps[k]);
        if ok {
          VoidKeepsDb(s.db, s.enqueued, s.sweeps[k].subs);
          VoidLeavesLastAlone(s.db, s.enqueued, s.sweeps[k].subs);
        }
      case Publish(k, ok) => assert PcInv(s.db, s.sweeps[k]);
      case Persist(id, v) => PersistKeepsDb(s, id, v);
    }
    forall j | j in n.sweeps ensures PcInv(n.db, n.sweeps[j]) {
      if j in s.sweeps && n.sweeps[j] == s.sweeps[j] { EvolvesKeepsSweeps(s.db, n.db, s.sweeps[j]); }
    }
  }

  lemma {:induction false} RunInv(trace: seq<State>, steps: seq<Step>, i: nat)
    requires IsRun(trace, steps) && i < |trace|
    ensures Inv(trace[i])
  {
    if i > 0 {
      RunInv(trace, steps, i - 1);
      InvKept(trace[i - 1], steps[i - 1]);
    }
  }

  /** In every state of every run, with any number of overlapping, failing and repeated sweeps: only
      the last submission of a cell is ever enqueued, and by then all others of the cell are voided. */
  lemma {:induction false} OnlyLastEnqueued(trace: seq<State>, steps: seq<Step>, i: nat, id: ID)
    requires IsRun(trace, steps) && i < |trace| && id in trace[i].enqueued
    ensures Last(trace[i].db, id) && Alone(trace[i].db, id)
  {
    RunInv(trace, steps, i);
  }

  lemma {:induction false} StillVoided(trace: seq<State>, steps: seq<Step>, i: nat, j: nat, id: ID)
    requires IsRun(trace, steps) && i <= j < |trace|
    requires id in trace[i].db && trace[i].db[id].status == Superseded
    ensures id in trace[j].db && trace[j].db[id].status == Superseded
    decreases j
  {
    if i < j {
      StillVoided(trace, steps, i, j - 1, id);
      RunInv(trace, steps, j - 1);
      StaysVoided(trace[j - 1], steps[j - 1], id);
    }
  }

  /** A voided submission stays voided: it is never enqueued or judged, then or later. */
  lemma {:induction false} VoidedForever(trace: seq<State>, steps: seq<Step>, i: nat, j: nat, id: ID)
    requires IsRun(trace, steps) && i <= j < |trace|
    requires id in trace[i].db && trace[i].db[id].status == Superseded
    ensures id in trace[j].db && trace[j].db[id].status == Superseded && id !in trace[j].enqueued
  {
    StillVoided(trace, steps, i, j, id);
    RunInv(trace, steps, j);
    VoidedNotEnqueued(trace[j], id);
  }

  lemma {:induction false} StaysVoided(s: State, step: Step, id: ID)
    requires Inv(s) && Enabled(s, step) && id in s.db && s.db[id].status == Superseded
    ensures id in Next(s, step).db && Next(s, step).db[id].status == Superseded
  {
    InvKept(s, step);
  }

  lemma {:induction false} VoidedNotEnqueued(s: State, id: ID)
    requires Inv(s) && id in s.db && s.db[id].status == Superseded
    ensures id !in s.enqueued
  {
  }

  /** A last submission is never voided. */
  lemma {:induction false} LastNeverVoided(trace: seq<State>, steps: seq<Step>, i: nat, id: ID)
    requires IsRun(trace, steps) && i < |trace| && Last(trace[i].db, id)
    ensures trace[i].db[id].status != Superseded
  {
    RunInv(trace, steps, i);
  }

  // ------------------------------------------------------------------ what sweeps achieve

  /** Step `m` of the run successfully publishes submission `id`. */
  predicate Enqueues(trace: seq<State>, steps: seq<Step>, m: nat, id: ID)
    requires IsRun(trace, steps) && m < |steps|
  {
    steps[m].Publish? && steps[m].ok && trace[m].sweeps[steps[m].k].todo[0].id == id
  }

  /** The queue holds exactly what was successfully published. */
  lemma {:induction false} EnqueuedIff(trace: seq<State>, steps: seq<Step>, i: nat, id: ID)
    requires IsRun(trace, steps) && i < |trace|
    ensures id in trace[i].enqueued <==> exists m: nat :: m < i && Enqueues(trace, steps, m, id)
  {
    if i > 0 {
      EnqueuedIff(trace, steps, i - 1, id);
      assert trace[i] == Next(trace[i - 1], steps[i - 1]);
      assert id in trace[i].enqueued <==> id in trace[i - 1].enqueued || Enqueues(trace, steps, i - 1, id);
    }
  }

  /** Where sweep `k`, which listed `pending`, stands if none of its publications failed: what it has left
      is the rest of the latest submissions, and those before it are enqueued. */
  predicate OnCourse(s: State, k: int, pending: seq<Sub>) {
    k in s.sweeps &&
    match s.sweeps[k]
    case Listed(subs) => subs == pending
    case Publishing(todo) =>
      var all := Latest(pending, pending);
      |todo| <= |all| && todo == all[|all| - |todo|..] && forall j :: 0 <= j < |all| - |todo| ==>
          all[j].id in s.enqueued
    case Finished => true
  }

  lemma {:induction false} CourseKept(s: State, step: Step, k: int, pending: seq<Sub>)
    requires Enabled(s, step) && OnCourse(s, k, pending) && step != Publish(k, false)
    ensures OnCourse(Next(s, step), k, pending)
  {
  }

  lemma {:induction false} StaysOnCourse(trace: seq<State>, steps: seq<Step>, b: nat, i: nat, k: int, pending: seq<Sub>)
    requires IsRun(trace, steps) && b < i < |trace| && steps[b] == Begin(k, pending)
    requires forall m :: 0 <= m < i ==> steps[m] != Publish(k, false)
    ensures OnCourse(trace[i], k, pending)
  {
    assert trace[i] == Next(trace[i - 1], steps[i - 1]);
    if i > b + 1 {
      StaysOnCourse(trace, steps, b, i - 1, k, pending);
      CourseKept(trace[i - 1], steps[i - 1], k, pending);
    }
  }

  /** Who is last never changes. */
  lemma {:induction false} LastFixed(trace: seq<State>, steps: seq<Step>, b: nat, i: nat, id: ID)
    requires IsRun(trace, steps) && b <= i < |trace|
    ensures Last(trace[b].db, id) <==> Last(trace[i].db, id)
  {
    if b < i {
      LastFixed(trace, steps, b, i - 1, id);
      RunInv(trace, steps, i - 1);
      InvKept(trace[i - 1], steps[i - 1]);
      EvolvesFrame(trace[i - 1].db, trace[i].db);
    }
  }

  /** A sweep that voided, whose publications all succeeded and that has nothing left has enqueued every
      submission it listed that is the last of its cell. */
  lemma {:induction false} CompleteSweep(trace: seq<State>, steps: seq<Step>, b: nat, i: nat, k: int,
      pending: seq<Sub>, s: Sub)
    requires IsRun(trace, steps) && b < i < |trace| && steps[b] == Begin(k, pending)
    requires forall m :: 0 <= m < i ==> steps[m] != Publish(k, false)
    requires k in trace[i].sweeps && trace[i].sweeps[k] == Publishing([])
    requires s in pending && Last(trace[i].db, s.id)
    ensures s.id in trace[i].enqueued
  {
    StaysOnCourse(trace, steps, b, i, k, pending);
    RunInv(trace, steps, b + 1);
    var begun := trace[b + 1];
    assert begun == Next(trace[b], steps[b]) && begun.sweeps[k] == Listed(pending);
    assert PcInv(begun.db, begun.sweeps[k]);
    LastFixed(trace, steps, b + 1, i, s.id);
    LatestIsLast(begun.db, begun.enqueued, pending, s);
    SplitMembers(pending, pending);
    var all := Latest(pending, pending);
    var j :| 0 <= j < |all| && all[j] == s;
  }

  /** The verdict last persisted for a submission. */
  function LastVerdict(steps: seq<Step>, id: ID): Option<Status> {
    if steps == [] then None
    else
      var step := steps[|steps| - 1];
      if step.Persist? && step.id == id then Some(step.verdict) else LastVerdict(steps[..|steps| - 1], id)
  }

  /** Step `m` of the run voids submission `id`: it was listed, pending, and not the latest of its cell. */
  predicate Voids(trace: seq<State>, steps: seq<Step>, m: nat, id: ID)
    requires IsRun(trace, steps) && m < |steps|
  {
    && steps[m].Void? && steps[m].ok && id in trace[m].db && trace[m].db[id].status == Pending
    && (var subs := trace[m].sweeps[steps[m].k].subs;
        exists s :: s in subs && s == SubOf(trace[m].db, id) && !IsLatest(subs, s))
  }

  lemma {:induction false} VoidsRow(s: State, k: int, id: ID)
    requires Enabled(s, Void(k, true)) && id in s.db
    ensures var subs := s.sweeps[k].subs;
            Next(s, Void(k, true)).db[id] ==
              if s.db[id].status == Pending && SubOf(s.db, id) in subs && !IsLatest(subs, SubOf(s.db, id)) then
                s.db[id].(status := Superseded)
              else s.db[id]
  {
    SplitMembers(s.sweeps[k].subs, s.sweeps[k].subs);
  }

  /** A row's status is the verdict last persisted for it, else Superseded if a sweep voided it, else
      Pending; no voided row gets a verdict. */
  predicate StatusExplained(status: Status, verdict: Option<Status>, voided: bool) {
    match verdict
    case Some(v) => status == v && v != Superseded && v != Pending && !voided
    case None => status == if voided then Superseded else Pending
  }

  /** Every row's status is accounted for by the steps of the run. */
  lemma {:induction false} StatusIs(trace: seq<State>, steps: seq<Step>, i: nat, id: ID)
    requires IsRun(trace, steps) && i < |trace| && id in trace[0].db
    ensures id in trace[i].db
    ensures StatusExplained(trace[i].db[id].status, LastVerdict(steps[..i], id), WasVoided(trace, steps, i, id))
  {
    if i > 0 {
      StatusIs(trace, steps, i - 1, id);
      RunInv(trace, steps, i - 1);
      LastVerdictStep(steps, i, id);
      StatusStep(trace, steps, i, id);
    }
  }

  lemma {:induction false} LastVerdictStep(steps: seq<Step>, i: nat, id: ID)
    requires 0 < i <= |steps|
    ensures LastVerdict(steps[..i], id) ==
              if steps[i - 1].Persist? && steps[i - 1].id == id then Some(steps[i - 1].verdict)
              else LastVerdict(steps[..i - 1], id)
  {
    assert steps[..i][..i - 1] == steps[..i - 1];
  }

  ghost predicate WasVoided(trace: seq<State>, steps: seq<Step>, i: nat, id: ID)
    requires IsRun(trace, steps) && i <= |steps|
  {
    exists m: nat :: m < i && Voids(trace, steps, m, id)
  }

  lemma {:induction false} StatusStep(trace: seq<State>, steps: seq<Step>, i: nat, id: ID)
    requires IsRun(trace, steps) && 0 < i < |trace| && id in trace[i - 1].db && Inv(trace[i - 1])
    ensures id in trace[i].db
    ensures WasVoided(trace, steps, i, id) <==> WasVoided(trace, steps, i - 1, id) || Voids(trace, steps, i - 1, id)
    ensures trace[i].db[id].status ==
              if Voids(trace, steps, i - 1, id) then Superseded
              else if steps[i - 1].Persist? && steps[i - 1].id == id then steps[i - 1].verdict
              else trace[i - 1].db[id].status
    ensures steps[i - 1].Persist? && steps[i - 1].id == id ==>
              trace[i - 1].db[id].status != Superseded && steps[i - 1].verdict != Superseded &&
                  steps[i - 1].verdict != Pending
    ensures Voids(trace, steps, i - 1, id) ==> trace[i - 1].db[id].status == Pending && !steps[i - 1].Persist?
  {
    assert trace[i] == Next(trace[i - 1], steps[i - 1]) && Enabled(trace[i - 1], steps[i - 1]);
    if steps[i - 1].Void? && steps[i - 1].ok { VoidsRow(trace[i - 1], steps[i - 1].k, id); }
  }
}
