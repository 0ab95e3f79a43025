/** The judger's testcase cache as a concurrent transition system: every critical section, file-system
    step and pending deletion is one step, and any of them may be interleaved or fail. */
module CacheModel {
  import opened Types

  /** ETags identify content, so a zip and what was extracted from it are named by the ETag. */
  type Etag = int

  /** One call of EnsureTestcases. */
  type Tid = int

  const ETAG_TTL: int := 5 * MINUTE

  /** A directory: what was extracted into it (None until extraction completes) and its .etag file. */
  datatype Dir = Dir(content: Option<Etag>, tag: Option<Etag>)

  /** The store at one moment. */
  datatype Moment = Moment(now: Time, store: map<ID, Etag>)

  /** An element of the LRU list. `began` and `stat` are history variables: when the refresh that
      last validated it began, and when that refresh asked the store for the ETag. `lastUse` is the
      moment of its last move to the front. */
  datatype Entry = Entry(p: ID, validatedAt: Time, began: nat, stat: nat, lastUse: int)

  /** What a critical section decides that a call is to return: an error, or the problem's directory,
      with the refresh that last validated it. */
  datatype Outcome = Err | Ok(began: nat, stat: nat)

  /** A download slot, identified by the call that owns it. */
  datatype Slot = Slot(p: ID, result: Option<Outcome>, done: bool)

  /** The local variables of a refresh. */
  datatype Job = Job(p: ID, began: nat, stat: nat, remote: Etag, zip: Etag)

  datatype Phase =
    | AtStat | AtReadTag | AtValidate
    | AtFetch | AtStage | AtExtract | AtWriteTag | AtRemoveOld | AtRename
    | AtPublish(ok: bool)

  /** Where a call stands. `Leaving` is a fast-path hit between unlocking and returning. A call that has
      returned remembers what was in the directory at that moment (None if nothing was there), and is
      `open` as long as its caller works in the directory. */
  datatype Pc =
    | Leaving(p: ID, out: Outcome)
    | Waiting(p: ID, slot: Tid)
    | Refreshing(job: Job, phase: Phase)
    | Closing(p: ID)
    | Returned(p: ID, out: Outcome, joined: Option<Tid>, content: Option<Etag>, open: bool)

  /** Time and the object store, with every past moment. */
  datatype World = World(now: Time, store: map<ID, Etag>, hist: seq<Moment>)

  /** lruList (front first) and the key set of index. */
  datatype Lists = Lists(lru: seq<Entry>, index: set<ID>)

  /** inProgress, the slots, and where each call stands. */
  datatype Flight = Flight(inProgress: map<ID, Tid>, slots: map<Tid, Slot>, threads: map<Tid, Pc>)

  /** Problem directories and staging directories on disk. */
  datatype Disk = Disk(dirs: map<ID, Dir>, staging: map<ID, Dir>)

  /** Deletions handed to a goroutine, and directories whose deletion failed. */
  datatype Trash = Trash(pending: multiset<ID>, leaked: set<ID>)

  datatype State = State(max: nat, w: World, l: Lists, f: Flight, d: Disk, x: Trash)

  datatype Step =
    | Pass(d: nat)
    | Upload(p: ID, etag: Etag)
    | Call(t: Tid, p: ID)
    | Leave(t: Tid)
    | Wake(t: Tid)
    | Stat(t: Tid, ok: bool)
    | ReadTag(t: Tid)
    | Validate(t: Tid)
    | Fetch(t: Tid, ok: bool)
    | Stage(t: Tid, ok: bool)
    | Extract(t: Tid, ok: bool, cleaned: bool)
    | WriteTag(t: Tid, ok: bool, cleaned: bool)
    | RemoveOld(t: Tid, ok: bool)
    | Rename(t: Tid, ok: bool, cleaned: bool)
    | Publish(t: Tid)
    | Close(t: Tid)
    | Finish(t: Tid)
    | Delete(p: ID)
    | DeleteFails(p: ID)
    | Restart(order: seq<ID>)

  // ------------------------------------------------------------------ the LRU list

  function Ids(lru: seq<Entry>): set<ID> {
    set i | 0 <= i < |lru| :: lru[i].p
  }

  /** The position the index leads to, |lru| if the problem is not listed. */
  function Pos(lru: seq<Entry>, p: ID): (k: nat)
    ensures k <= |lru|
    ensures k < |lru| ==> lru[k].p == p
    ensures forall i :: 0 <= i < k ==> lru[i].p != p
  {
    if lru == [] then 0
    else if lru[0].p == p then 0
    else 1 + Pos(lru[1..], p)
  }

  function Without(lru: seq<Entry>, p: ID): seq<Entry> {
    var k := Pos(lru, p);
    if k < |lru| then lru[..k] + lru[k + 1..] else lru
  }

  function IdSeq(lru: seq<Entry>): seq<ID> {
    seq(|lru|, i requires 0 <= i < |lru| => lru[i].p)
  }

  function Min(a: nat, b: nat): nat {
    if a < b then a else b
  }

  /** MoveToFront of an existing element, or PushFront of a new one. */
  function ToFront(lru: seq<Entry>, e: Entry): seq<Entry> {
    [e] + Without(lru, e.p)
  }

  /** evictIfNeeded: what stays in the list, and what is handed to deletion. */
  function Kept(lru: seq<Entry>, max: nat): seq<Entry> {
    lru[..Min(|lru|, max)]
  }

  function Evicted(lru: seq<Entry>, max: nat): seq<Entry> {
    lru[Min(|lru|, max)..]
  }

  // ------------------------------------------------------------------ steps

  function Tick(s: State): nat {
    |s.w.hist|
  }

  predicate Fresh(now: Time, e: Entry) {
    now - e.validatedAt < ETAG_TTL
  }

  function DiskContent(d: Disk, p: ID): Option<Etag> {
    if p in d.dirs then d.dirs[p].content else None
  }

  function DiskTag(d: Disk, p: ID): Option<Etag> {
    if p in d.dirs then d.dirs[p].tag else None
  }

  function Goto(f: Flight, t: Tid, pc: Pc): Flight {
    f.(threads := f.threads[t := pc])
  }

  /** A refresh moves on: the thread's new position, and perhaps a change on disk. */
  function Move(s: State, t: Tid, j: Job, ph: Phase, d: Disk): State {
    s.(f := Goto(s.f, t, Refreshing(j, ph)), d := d)
  }

  function Unstaged(d: Disk, p: ID, cleaned: bool): Disk {
    if cleaned then d.(staging := d.staging - {p}) else d
  }

  /** The first critical section of EnsureTestcases. */
  function DoCall(s: State, t: Tid, p: ID): State {
    var k := Pos(s.l.lru, p);
    if p in s.l.index && k < |s.l.lru| && Fresh(s.w.now, s.l.lru[k]) then
      var e := s.l.lru[k].(lastUse := Tick(s));
      s.(l := s.l.(lru := ToFront(s.l.lru, e)),
         f := Goto(s.f, t, Leaving(p, Ok(e.began, e.stat))))
    else if p in s.f.inProgress then
      s.(f := Goto(s.f, t, Waiting(p, s.f.inProgress[p])))
    else
      s.(f := Flight(s.f.inProgress[p := t], s.f.slots[t := Slot(p, None, false)],
                     s.f.threads[t := Refreshing(Job(p, Tick(s), 0, 0, 0), AtStat)]))
  }

  /** The call is back with its caller, who finds in the directory what is there now. */
  function Back(d: Disk, p: ID, out: Outcome, joined: Option<Tid>): Pc {
    Returned(p, out, joined, if out.Ok? then DiskContent(d, p) else None, true)
  }

  function DoLeave(s: State, t: Tid, p: ID, out: Outcome): State {
    s.(f := Goto(s.f, t, Back(s.d, p, out, None)))
  }

  function DoWake(s: State, t: Tid, p: ID, out: Outcome, slot: Tid): State {
    s.(f := Goto(s.f, t, Back(s.d, p, out, Some(slot))))
  }

  function DoFinish(s: State, t: Tid): State
    requires t in s.f.threads && s.f.threads[t].Returned?
  {
    s.(f := Goto(s.f, t, s.f.threads[t].(open := false)))
  }

  function DoStat(s: State, t: Tid, j: Job, ok: bool): State
    requires ok ==> j.p in s.w.store
  {
    if ok then Move(s, t, j.(stat := Tick(s), remote := s.w.store[j.p]), AtReadTag, s.d)
    else Move(s, t, j, AtPublish(false), s.d)
  }

  function DoReadTag(s: State, t: Tid, j: Job): State {
    Move(s, t, j, if DiskTag(s.d, j.p) == Some(j.remote) then AtValidate else AtFetch, s.d)
  }

  function Validated(s: State, j: Job): Lists {
    var k := Pos(s.l.lru, j.p);
    if j.p in s.l.index && k < |s.l.lru| then
      var e := s.l.lru[k].(validatedAt := s.w.now, began := j.began, stat := j.stat, lastUse := Tick(s));
      s.l.(lru := ToFront(s.l.lru, e))
    else s.l
  }

  /** The critical section inside refresh when the ETag matched. */
  function DoValidate(s: State, t: Tid, j: Job): State {
    Move(s.(l := Validated(s, j)), t, j, AtPublish(true), s.d)
  }

  function DoFetch(s: State, t: Tid, j: Job, ok: bool): State
    requires ok ==> j.p in s.w.store
  {
    if ok then Move(s, t, j.(zip := s.w.store[j.p]), AtStage, s.d) else Move(s, t, j, AtPublish(false), s.d)
  }

  function DoStage(s: State, t: Tid, j: Job, ok: bool): State {
    if ok then Move(s, t, j, AtExtract, s.d.(staging := s.d.staging[j.p := Dir(None, None)]))
    else Move(s, t, j, AtPublish(false), s.d)
  }

  function DoExtract(s: State, t: Tid, j: Job, ok: bool, cleaned: bool): State {
    if ok then Move(s, t, j, AtWriteTag, s.d.(staging := s.d.staging[j.p := Dir(Some(j.zip), None)]))
    else Move(s, t, j, AtPublish(false), Unstaged(s.d, j.p, cleaned))
  }

  function DoWriteTag(s: State, t: Tid, j: Job, ok: bool, cleaned: bool): State
    requires j.p in s.d.staging
  {
    if ok then Move(s, t, j, AtRemoveOld, s.d.(staging := s.d.staging[j.p := s.d.staging[j.p].(tag := Some(j.remote))]))
    else Move(s, t, j, AtPublish(false), Unstaged(s.d, j.p, cleaned))
  }

  function DoRemoveOld(s: State, t: Tid, j: Job, ok: bool): State {
    Move(s, t, j, AtRename, if ok then s.d.(dirs := s.d.dirs - {j.p}) else s.d)
  }

  function DoRename(s: State, t: Tid, j: Job, ok: bool, cleaned: bool): State
    requires ok ==> j.p in s.d.staging
  {
    if ok then Move(s, t, j, AtPublish(true), Disk(s.d.dirs[j.p := s.d.staging[j.p]], s.d.staging - {j.p}))
    else Move(s, t, j, AtPublish(false), Unstaged(s.d, j.p, cleaned))
  }

  /** promoteEntry: refresh or insert, then evict. */
  function Promoted(l: Lists, e: Entry, max: nat): Lists {
    var lru := ToFront(l.lru, e);
    if e.p in l.index then Lists(lru, l.index)
    else Lists(Kept(lru, max), l.index + {e.p} - Ids(Evicted(lru, max)))
  }

  /** What promoteEntry evicts. */
  function PromoteEvicts(l: Lists, e: Entry, max: nat): seq<Entry> {
    if e.p in l.index then [] else Evicted(ToFront(l.lru, e), max)
  }

  function EntryOf(s: State, j: Job): Entry {
    Entry(j.p, s.w.now, j.began, j.stat, Tick(s))
  }

  function OutcomeOf(j: Job, ok: bool): Outcome {
    if ok then Ok(j.began, j.stat) else Err
  }

  /** The last critical section of EnsureTestcases. */
  function DoPublish(s: State, t: Tid, j: Job, ok: bool): State
    requires t in s.f.slots
  {
    var f := Flight(s.f.inProgress - {j.p}, s.f.slots[t := s.f.slots[t].(result := Some(OutcomeOf(j, ok)))],
                    s.f.threads[t := Closing(j.p)]);
    if ok then
      s.(f := f, l := Promoted(s.l, EntryOf(s, j), s.max),
         x := s.x.(pending := s.x.pending + multiset(IdSeq(PromoteEvicts(s.l, EntryOf(s, j), s.max)))))
    else s.(f := f)
  }

  function DoClose(s: State, t: Tid, p: ID): State
    requires t in s.f.slots && s.f.slots[t].result.Some?
  {
    s.(f := s.f.(slots := s.f.slots[t := s.f.slots[t].(done := true)],
                 threads := s.f.threads[t := Back(s.d, p, s.f.slots[t].result.value, Some(t))]))
  }

  function Found(order: seq<ID>): seq<Entry> {
    seq(|order|, i requires 0 <= i < |order| => Entry(order[i], ZERO_TIME, 0, 0, -1 - i))
  }

  /** A crash loses everything in memory; Prune then indexes the directories found on disk. */
  function DoRestart(s: State, order: seq<ID>): State {
    var lru := Found(order);
    s.(l := Lists(Kept(lru, s.max), Ids(Kept(lru, s.max))), f := Flight(map[], map[], map[]),
       x := Trash(multiset(IdSeq(Evicted(lru, s.max))), {}))
  }

  predicate At(f: Flight, t: Tid, ph: Phase) {
    t in f.threads && f.threads[t].Refreshing? && f.threads[t].phase == ph
  }

  predicate Enabled(s: State, step: Step) {
    var f := s.f;
    match step
    case Pass(_) => true
    case Upload(_, _) => true
    case Call(t, _) => t !in f.threads
    case Leave(t) => t in f.threads && f.threads[t].Leaving?
    case Wake(t) => t in f.threads && f.threads[t].Waiting? && f.threads[t].slot in f.slots
                 && f.slots[f.threads[t].slot].done && f.slots[f.threads[t].slot].result.Some?
    case Stat(t, ok) => At(f, t, AtStat) && (ok ==> f.threads[t].job.p in s.w.store)
    case ReadTag(t) => At(f, t, AtReadTag)
    case Validate(t) => At(f, t, AtValidate)
    case Fetch(t, ok) => At(f, t, AtFetch) && (ok ==> f.threads[t].job.p in s.w.store)
    case Stage(t, _) => At(f, t, AtStage)
    case Extract(t, _, _) => At(f, t, AtExtract)
    case WriteTag(t, _, _) => At(f, t, AtWriteTag) && f.threads[t].job.p in s.d.staging
    case RemoveOld(t, _) => At(f, t, AtRemoveOld)
    case Rename(t, ok, _) => At(f, t, AtRename) &&
        (ok ==> f.threads[t].job.p in s.d.staging && f.threads[t].job.p !in s.d.dirs)
    case Publish(t) => t in f.slots && (At(f, t, AtPublish(true)) || At(f, t, AtPublish(false)))
    case Close(t) => t in f.threads && f.threads[t].Closing? && t in f.slots && f.slots[t].result.Some?
    case Finish(t) => t in f.threads && f.threads[t].Returned? && f.threads[t].open
    case Delete(p) => p in s.x.pending
    case DeleteFails(p) => p in s.x.pending
    case Restart(order) =>
      && (forall i, j :: 0 <= i < j < |order| ==> order[i] != order[j])
      && (forall p :: p in s.d.dirs ==> p in order) && (forall p :: p in order ==> p in s.d.dirs)
  }

  /** The effect of a step, apart from the passing of history. */
  function Effect(s: State, step: Step): State
    requires Enabled(s, step)
  {
    match step
    case Pass(d) => s.(w := s.w.(now := s.w.now + d))
    case Upload(p, e) => s.(w := s.w.(store := s.w.store[p := e]))
    case Call(t, p) => DoCall(s, t, p)
    case Leave(t) => DoLeave(s, t, s.f.threads[t].p, s.f.threads[t].out)
    case Wake(t) =>
      var w := s.f.threads[t];
      DoWake(s, t, w.p, s.f.slots[w.slot].result.value, w.slot)
    case Stat(t, ok) => DoStat(s, t, s.f.threads[t].job, ok)
    case ReadTag(t) => DoReadTag(s, t, s.f.threads[t].job)
    case Validate(t) => DoValidate(s, t, s.f.threads[t].job)
    case Fetch(t, ok) => DoFetch(s, t, s.f.threads[t].job, ok)
    case Stage(t, ok) => DoStage(s, t, s.f.threads[t].job, ok)
    case Extract(t, ok, cleaned) => DoExtract(s, t, s.f.threads[t].job, ok, cleaned)
    case WriteTag(t, ok, cleaned) => DoWriteTag(s, t, s.f.threads[t].job, ok, cleaned)
    case RemoveOld(t, ok) => DoRemoveOld(s, t, s.f.threads[t].job, ok)
    case Rename(t, ok, cleaned) => DoRename(s, t, s.f.threads[t].job, ok, cleaned)
    case Publish(t) => DoPublish(s, t, s.f.threads[t].job, s.f.threads[t].phase.ok)
    case Close(t) => DoClose(s, t, s.f.threads[t].p)
    case Finish(t) => DoFinish(s, t)
    case Delete(p) => s.(d := s.d.(dirs := s.d.dirs - {p}), x := s.x.(pending := s.x.pending - multiset{p}))
    case DeleteFails(p) => s.(x := Trash(s.x.pending - multiset{p}, s.x.leaked + {p}))
    case Restart(order) => DoRestart(s, order)
  }

  function Next(s: State, step: Step): State
    requires Enabled(s, step)
  {
    var n := Effect(s, step);
    n.(w := n.w.(hist := n.w.hist + [Moment(n.w.now, n.w.store)]))
  }

  predicate Init(s: State) {
    && s.max >= 1 && s.w.now >= ETAG_TTL && s.w.hist == [Moment(s.w.now, s.w.store)]
    && s.l == Lists([], {}) && s.f == Flight(map[], map[], map[])
    && s.d == Disk(map[], map[]) && s.x == Trash(multiset{}, {})
  }

  /** `trace[i+1]` is the result of `steps[i]` in `trace[i]`. */
  predicate IsRun(trace: seq<State>, steps: seq<Step>) {
    && |trace| == |steps| + 1
    && Init(trace[0])
    && forall i :: 0 <= i < |steps| ==> Enabled(trace[i], steps[i]) && trace[i + 1] == Next(trace[i], steps[i])
  }
}
