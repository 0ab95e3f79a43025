/** The WebSocket hub: rooms of clients, bounded send channels, and fan-out of board updates. */
module Hub {
  import opened Types

  type Client = int

  const SEND_BUF_SIZE := 64

  datatype Item = Snapshot | Payload(v: int)

  /** A client's send channel. `sent` is everything ever put into it, `taken` how much its write pump
      has removed, `closes` how often it was closed; `panicked` records that the hub sent on or closed
      a closed channel, `late` that ServeWS did when it forwarded the initial snapshot. */
  datatype Chan = Chan(contest: ID, sent: seq<Item>, taken: nat, closes: nat, panicked: bool, late: bool)

  /** `log` and `since` are history variables: the payloads broadcast to each contest, and how many
      there were when each client registered. */
  datatype State = State(rooms: map<ID, set<Client>>, chans: map<Client, Chan>, log: map<ID, seq<int>>,
      since: map<Client, nat>)

  predicate Full(c: Chan) {
    |c.sent| - c.taken >= SEND_BUF_SIZE
  }

  function Send(c: Chan, x: Item): Chan {
    if c.closes > 0 then c.(panicked := true) else c.(sent := c.sent + [x])
  }

  function Closed(c: Chan): Chan {
    if c.closes > 0 then c.(panicked := true) else c.(closes := 1)
  }

  /** ServeWS forwards the snapshot from its own goroutine, perhaps after the hub closed the channel; its
      panic is recovered by the HTTP server and touches nothing the hub reads. */
  function Forward(c: Chan): Chan {
    if c.closes > 0 then c.(late := true) else c.(sent := c.sent + [Snapshot])
  }

  /** One client's share of a broadcast: the payload if its buffer has room, otherwise eviction. */
  function Deliver(c: Chan, v: int): Chan {
    if Full(c) then Closed(c) else Send(c, Payload(v))
  }

  function LogOf(log: map<ID, seq<int>>, contest: ID): seq<int> {
    if contest in log then log[contest] else []
  }

  // ------------------------------------------------------------------ what the handlers do

  function Registered(s: State, c: Client, contest: ID): State {
    var room := if contest in s.rooms then s.rooms[contest] else {};
    s.(rooms := s.rooms[contest := room + {c}],
       chans := s.chans[c := Chan(contest, [], 0, 0, false, false)], since := s.since[c := |LogOf(s.log, contest)|])
  }

  function Unregistered(s: State, c: Client): State
    requires c in s.chans
  {
    var contest := s.chans[c].contest;
    if contest !in s.rooms || c !in s.rooms[contest] then s
    else
      var room := s.rooms[contest] - {c};
      s.(rooms := if room == {} then s.rooms - {contest} else s.rooms[contest := room],
         chans := s.chans[c := Closed(s.chans[c])])
  }

  /** The clients a broadcast does not evict. */
  function Staying(room: set<Client>, chans: map<Client, Chan>): set<Client> {
    set c | c in room && c in chans && !Full(chans[c])
  }

  function Broadcasted(s: State, contest: ID, v: int): State
    requires forall r, c :: r in s.rooms && c in s.rooms[r] ==> c in s.chans
  {
    var s := s.(log := s.log[contest := LogOf(s.log, contest) + [v]]);
    if contest !in s.rooms then s
    else
      var room := s.rooms[contest];
      s.(rooms := s.rooms[contest := Staying(room, s.chans)],
         chans := map c | c in s.chans :: if c in room then Deliver(s.chans[c], v) else s.chans[c])
  }

  function ShutDown(s: State): State {
    s.(rooms := map[],
       chans := map c | c in s.chans ::
                  if exists r :: r in s.rooms && c in s.rooms[r] then Closed(s.chans[c]) else s.chans[c])
  }

  // ------------------------------------------------------------------ the invariant

  predicate InRoom(s: State, c: Client)
    requires c in s.chans
  {
    s.chans[c].contest in s.rooms && c in s.rooms[s.chans[c].contest]
  }

  function Payloads(xs: seq<Item>): seq<int> {
    if xs == [] then []
    else
      var n := |xs| - 1;
      Payloads(xs[..n]) + if xs[n].Payload? then [xs[n].v] else []
  }

  function Snapshots(xs: seq<Item>): nat {
    if xs == [] then 0 else Snapshots(xs[..|xs| - 1]) + if xs[|xs| - 1].Snapshot? then 1 else 0
  }

  /** The payloads broadcast to the client's contest since it registered. */
  function Due(s: State, c: Client): seq<int>
    requires c in s.chans && c in s.since && s.since[c] <= |LogOf(s.log, s.chans[c].contest)|
  {
    LogOf(s.log, s.chans[c].contest)[s.since[c]..]
  }

  /** A client in a room has an open channel that was handed every payload due, in order and without
      gaps; a client that left had its channel closed once, and got a prefix. Nothing ever panicked. */
  predicate ClientInv(s: State, c: Client)
    requires c in s.chans
  {
    var ch := s.chans[c];
    && !ch.panicked
    && ch.closes == (if InRoom(s, c) then 0 else 1)
    && ch.taken <= |ch.sent| <= ch.taken + SEND_BUF_SIZE
    && Snapshots(ch.sent) <= 1
    && c in s.since && s.since[c] <= |LogOf(s.log, ch.contest)|
    && (if InRoom(s, c) then Payloads(ch.sent) == Due(s, c) else Payloads(ch.sent) <= Due(s, c))
  }

  predicate Inv(s: State) {
    && (forall r, c :: r in s.rooms && c in s.rooms[r] ==> c in s.chans && s.chans[c].contest == r)
    && (forall c :: c in s.chans ==> ClientInv(s, c))
  }

  // ------------------------------------------------------------------ the handlers, in place

  class HubServer {
    var rooms: map<ID, set<Client>>
    var chans: map<Client, Chan>
    ghost var log: map<ID, seq<int>>
    ghost var since: map<Client, nat>

    constructor ()
      ensures St() == State(map[], map[], map[], map[])
    {
      rooms, chans := map[], map[];
      log, since := map[], map[];
    }

    ghost function St(): State
      reads this
    {
      State(rooms, chans, log, since)
    }

    /** handleRegister; the snapshot is fetched asynchronously. */
    method HandleRegister(c: Client, contest: ID)
      modifies this
      ensures St() == Registered(old(St()), c, contest)
    {
      var room: set<Client> := {};
      if contest in rooms {
        room := rooms[contest];
      }
      room := room + {c};
      rooms := rooms[contest := room];
      chans := chans[c := Chan(contest, [], 0, 0, false, false)];
      since := since[c := |LogOf(log, contest)|];
    }

    method HandleUnregister(c: Client)
      requires c in chans
      modifies this
      ensures St() == Unregistered(old(St()), c)
    {
      var contest := chans[c].contest;
      if contest !in rooms {
        return;
      }
      var room := rooms[contest];
      if c !in room {
        return;
      }
      room := room - {c};
      rooms := rooms[contest := room];
      chans := chans[c := Closed(chans[c])];
      if room == {} {
        rooms := rooms - {contest};
      }
    }

    method HandleBroadcast(contest: ID, v: int)
      requires forall r, c :: r in rooms && c in rooms[r] ==> c in chans
      modifies this
      ensures St() == Broadcasted(old(St()), contest, v)
    {
      log := log[contest := LogOf(log, contest) + [v]];
      if contest !in rooms {
        return;
      }
      if rooms[contest] == {} {
        assert Staying({}, chans) == {};
        assert rooms == rooms[contest := {}];
        assert chans == map c | c in chans :: chans[c];
        return;
      }
      var was := rooms[contest];
      forall c | c in was ensures c in chans { assert contest in rooms && c in rooms[contest]; }
      var room := FanOut(was, v);
      rooms := rooms[contest := room];
    }

    /** The loop of handleBroadcast: each client of the room gets the payload or is dropped. */
    method FanOut(was: set<Client>, v: int) returns (room: set<Client>)
      requires was <= chans.Keys
      modifies this`chans
      ensures room == Staying(was, old(chans))
      ensures chans == map c | c in old(chans) :: if c in was then Deliver(old(chans)[c], v) else old(chans)[c]
    {
      ghost var before := chans;
      room := was;
      var todo := was;
      while todo != {}
        invariant todo <= was <= before.Keys && chans.Keys == before.Keys
        invariant forall c :: c in before ==> chans[c] == if c in was - todo then Deliver(before[c], v) else before[c]
        invariant forall c :: c in room <==> c in was && (c in todo || !Full(before[c]))
        decreases |todo|
      {
        SomeMember(todo);
        var c :| c in todo;
        todo := todo - {c};
        if Full(chans[c]) {
          room := room - {c};
          chans := chans[c := Closed(chans[c])];
        } else {
          chans := chans[c := Send(chans[c], Payload(v))];
        }
      }
      assert room == Staying(was, before) by {
        forall c ensures c in room <==> c in Staying(was, before) {
          assert c in room <==> c in was && !Full(before[c]);
        }
      }
      assert forall c :: c in before ==> chans[c] == if c in was then Deliver(before[c], v) else before[c];
      assert chans == map c | c in before :: if c in was then Deliver(before[c], v) else before[c];
    }

    method ShutdownAllClients()
      requires forall r, c :: r in rooms && c in rooms[r] ==> c in chans && chans[c].contest == r
      modifies this
      ensures St() == ShutDown(old(St()))
    {
      ghost var before := chans;
      var todoRooms := rooms.Keys;
      while todoRooms != {}
        invariant todoRooms <= rooms.Keys
        invariant rooms == old(rooms) && since == old(since) && log == old(log)
        invariant chans.Keys == before.Keys
        invariant forall c :: c in before ==>
                    chans[c] ==
                    if exists r :: r in rooms && r !in todoRooms && c in rooms[r] then Closed(before[c]) else before[c]
        decreases |todoRooms|
      {
        SomeMember(todoRooms);
        var r :| r in todoRooms;
        CloseRoom(r);
        todoRooms := todoRooms - {r};
      }
      assert forall c :: c in before ==>
               chans[c] == if exists r :: r in rooms && c in rooms[r] then Closed(before[c]) else before[c];
      assert chans == map c | c in before ::
                        if exists r :: r in rooms && c in rooms[r] then Closed(before[c]) else before[c];
      rooms := map[];
    }

    method CloseRoom(r: ID)
      requires r in rooms && forall c :: c in rooms[r] ==> c in chans
      modifies this`chans
      ensures chans == map c | c in old(chans) :: if c in rooms[r] then Closed(old(chans)[c]) else old(chans)[c]
    {
      ghost var before := chans;
      var todo := rooms[r];
      while todo != {}
        invariant todo <= rooms[r] && chans.Keys == before.Keys
        invariant forall c :: c in before ==> chans[c] == if c in rooms[r] - todo then Closed(before[c]) else before[c]
        decreases |todo|
      {
        SomeMember(todo);
        var c :| c in todo;
        todo := todo - {c};
        chans := chans[c := Closed(chans[c])];
      }
      assert forall c :: c in before ==> chans[c] == if c in rooms[r] then Closed(before[c]) else before[c];
      assert chans == map c | c in before :: if c in rooms[r] then Closed(before[c]) else before[c];
    }
  }

  // ------------------------------------------------------------------ runs

  datatype Step =
    | Register(c: Client, contest: ID)
    | Unregister(c: Client)
    | Broadcast(contest: ID, v: int)
    | Shutdown
    | Drain(c: Client)         // the write pump takes one item
    | InsertSnapshot(c: Client) // ServeWS forwards the initial snapshot

  predicate Enabled(s: State, step: Step) {
    match step
    case Register(c, _) => c !in s.chans
    case Unregister(c) => c in s.chans
    case Broadcast(_, _) => forall r, c :: r in s.rooms && c in s.rooms[r] ==> c in s.chans
    case Shutdown => true
    case Drain(c) => c in s.chans && s.chans[c].taken < |s.chans[c].sent|
    case InsertSnapshot(c) =>
      && c in s.chans && (s.chans[c].closes > 0 || !Full(s.chans[c]))
      && Snapshots(s.chans[c].sent) == 0 && !s.chans[c].late
  }

  function Next(s: State, step: Step): State
    requires Enabled(s, step)
  {
    match step
    case Register(c, contest) => Registered(s, c, contest)
    case Unregister(c) => Unregistered(s, c)
    case Broadcast(contest, v) => Broadcasted(s, contest, v)
    case Shutdown => ShutDown(s)
    case Drain(c) => s.(chans := s.chans[c := s.chans[c].(taken := s.chans[c].taken + 1)])
    case InsertSnapshot(c) => s.(chans := s.chans[c := Forward(s.chans[c])])
  }

  lemma {:induction false} AppendItem(xs: seq<Item>, x: Item)
    ensures Payloads(xs + [x]) == Payloads(xs) + if x.Payload? then [x.v] else []
    ensures Snapshots(xs + [x]) == Snapshots(xs) + if x.Snapshot? then 1 else 0
  {
    assert (xs + [x])[..|xs|] == xs;
  }

  lemma {:induction false} BroadcastClient(s: State, contest: ID, v: int, c: Client)
    requires Inv(s) && c in s.chans && Enabled(s, Broadcast(contest, v))
    ensures ClientInv(Broadcasted(s, contest, v), c)
  {
    var n, ch := Broadcasted(s, contest, v), s.chans[c];
    assert ClientInv(s, c);
    if ch.contest == contest {
      assert Due(n, c) == Due(s, c) + [v];
      if InRoom(s, c) {
        BroadcastMember(s, contest, v, c);
      } else {
        assert n.chans[c] == ch && !InRoom(n, c);
        assert Payloads(ch.sent) <= Due(s, c) <= Due(n, c);
      }
    } else {
      assert n.chans[c] == ch && InRoom(n, c) == InRoom(s, c);
      assert LogOf(n.log, ch.contest) == LogOf(s.log, ch.contest);
    }
  }

  lemma {:induction false} BroadcastMember(s: State, contest: ID, v: int, c: Client)
    requires Enabled(s, Broadcast(contest, v)) && c in s.chans && ClientInv(s, c)
    requires s.chans[c].contest == contest && InRoom(s, c)
    ensures ClientInv(Broadcasted(s, contest, v), c)
  {
    var n, ch := Broadcasted(s, contest, v), s.chans[c];
    assert n.chans[c] == Deliver(ch, v) && (InRoom(n, c) <==> !Full(ch));
    assert Due(n, c) == Due(s, c) + [v];
    AppendItem(ch.sent, Payload(v));
  }

  lemma {:induction false} RegisterKeeps(s: State, c: Client, contest: ID)
    requires Inv(s) && c !in s.chans
    ensures Inv(Registered(s, c, contest))
  {
    var n := Registered(s, c, contest);
    forall d | d in n.chans ensures ClientInv(n, d) {
      if d != c {
        assert ClientInv(s, d);
        assert InRoom(n, d) == InRoom(s, d);
      } else {
        assert InRoom(n, c) && Due(n, c) == [];
      }
    }
  }

  lemma {:induction false} UnregisterKeeps(s: State, c: Client)
    requires Inv(s) && c in s.chans
    ensures Inv(Unregistered(s, c))
  {
    var n := Unregistered(s, c);
    forall d | d in n.chans ensures ClientInv(n, d) {
      assert ClientInv(s, d);
      if d != c {
        if InRoom(s, d) { assert d in s.rooms[s.chans[d].contest] - {c}; }
        assert InRoom(n, d) == InRoom(s, d);
      } else {
        assert !InRoom(n, c) && Due(n, c) == Due(s, c);
      }
    }
  }

  lemma {:induction false} BroadcastKeeps(s: State, contest: ID, v: int)
    requires Inv(s) && Enabled(s, Broadcast(contest, v))
    ensures Inv(Broadcasted(s, contest, v))
  {
    forall d | d in s.chans ensures ClientInv(Broadcasted(s, contest, v), d) {
      BroadcastClient(s, contest, v, d);
    }
  }

  lemma {:induction false} ShutdownKeeps(s: State)
    requires Inv(s)
    ensures Inv(ShutDown(s))
  {
    var n := ShutDown(s);
    forall d | d in n.chans ensures ClientInv(n, d) {
      assert ClientInv(s, d);
      assert InRoom(s, d) <==> exists r :: r in s.rooms && d in s.rooms[r];
      assert Due(n, d) == Due(s, d);
    }
  }

  lemma {:induction false} OwnStepKeeps(s: State, c: Client, ch: Chan)
    requires Inv(s) && c in s.chans && ch.contest == s.chans[c].contest
    requires !ch.panicked && ch.closes == s.chans[c].closes && ch.taken <= |ch.sent| <= ch.taken + SEND_BUF_SIZE
    requires Snapshots(ch.sent) <= 1 && Payloads(ch.sent) == Payloads(s.chans[c].sent)
    ensures Inv(s.(chans := s.chans[c := ch]))
  {
    var n := s.(chans := s.chans[c := ch]);
    assert ClientInv(s, c);
    forall d | d in n.chans ensures ClientInv(n, d) {
      assert ClientInv(s, d);
      assert InRoom(n, d) == InRoom(s, d);
      assert Due(n, d) == Due(s, d);
    }
  }

  lemma {:induction false} InvKept(s: State, step: Step)
    requires Inv(s) && Enabled(s, step)
    ensures Inv(Next(s, step))
  {
    match step {
      case Register(c, contest) => RegisterKeeps(s, c, contest);
      case Unregister(c) => UnregisterKeeps(s, c);
      case Broadcast(contest, v) => BroadcastKeeps(s, contest, v);
      case Shutdown => ShutdownKeeps(s);
      case Drain(c) => DrainKeeps(s, c);
      case InsertSnapshot(c) => SnapshotKeeps(s, c);
    }
  }

  lemma {:induction false} DrainKeeps(s: State, c: Client)
    requires Inv(s) && Enabled(s, Drain(c))
    ensures Inv(Next(s, Drain(c)))
  {
    assert ClientInv(s, c);
    OwnStepKeeps(s, c, s.chans[c].(taken := s.chans[c].taken + 1));
  }

  lemma {:induction false} SnapshotKeeps(s: State, c: Client)
    requires Inv(s) && Enabled(s, InsertSnapshot(c))
    ensures Inv(Next(s, InsertSnapshot(c)))
  {
    assert ClientInv(s, c);
    AppendItem(s.chans[c].sent, Snapshot);
    OwnStepKeeps(s, c, Forward(s.chans[c]));
  }

  /** No step makes the hub send on or close a closed channel. ServeWS panics exactly when it forwards
      its snapshot after the client left its room: by unregistering, eviction or shutdown. */
  lemma {:induction false} PanicsIff(s: State, step: Step, c: Client)
    requires Inv(s) && Enabled(s, step) && c in Next(s, step).chans
    ensures !Next(s, step).chans[c].panicked
    ensures Next(s, step).chans[c].late <==>
              c in s.chans && (s.chans[c].late || (step == InsertSnapshot(c) && !InRoom(s, c)))
  {
    InvKept(s, step);
    assert ClientInv(Next(s, step), c);
    if c in s.chans { assert ClientInv(s, c); }
  }

  /** A client leaves its room only by unregistering, by a broadcast that finds its buffer full, or by a
      shutdown, and never comes back. */
  lemma {:induction false} LeavesIff(s: State, step: Step, c: Client)
    requires Inv(s) && Enabled(s, step) && c in s.chans
    ensures c in Next(s, step).chans
    ensures InRoom(Next(s, step), c) <==>
              InRoom(s, c) && step != Unregister(c) && !step.Shutdown?
              && !(step.Broadcast? && step.contest == s.chans[c].contest && |s.chans[c].sent| - s.chans[c].taken >= 64)
  {
    assert ClientInv(s, c);
    match step {
      case Register(d, contest) =>
      case Unregister(d) => if InRoom(s, c) && d != c { assert c in s.rooms[s.chans[c].contest] - {d}; }
      case Broadcast(contest, v) => BroadcastLeaves(s, contest, v, c);
      case Shutdown =>
      case Drain(d) =>
      case InsertSnapshot(d) =>
    }
  }

  lemma {:induction false} BroadcastLeaves(s: State, contest: ID, v: int, c: Client)
    requires Inv(s) && Enabled(s, Broadcast(contest, v)) && c in s.chans
    ensures c in Broadcasted(s, contest, v).chans
    ensures InRoom(Broadcasted(s, contest, v), c) <==>
              InRoom(s, c) && !(contest == s.chans[c].contest && Full(s.chans[c]))
  {
    var n := Broadcasted(s, contest, v);
    assert n.chans[c].contest == s.chans[c].contest;
  }

  /** A client that registers just before the hub shuts down does meet that panic. */
  lemma {:induction false} LateSnapshotPanics(contest: ID) returns (trace: seq<State>)
    ensures IsRun(trace, [Register(1, contest), Shutdown, InsertSnapshot(1)])
    ensures 1 in trace[3].chans && trace[3].chans[1].late && !trace[3].chans[1].panicked
  {
    var s0 := State(map[], map[], map[], map[]);
    var s1 := Next(s0, Register(1, contest));
    assert contest in s1.rooms && 1 in s1.rooms[contest];
    var s2 := Next(s1, Shutdown);
    assert s2.chans[1].closes == 1;
    trace := [s0, s1, s2, Next(s2, InsertSnapshot(1))];
  }

  predicate IsRun(trace: seq<State>, steps: seq<Step>) {
    && |trace| == |steps| + 1 && trace[0] == State(map[], map[], map[], map[])
    && forall i :: 0 <= i < |steps| ==> Enabled(trace[i], steps[i]) && trace[i + 1] == Next(trace[i], steps[i])
  }

  /** Over every run: each client's channel is closed exactly when it leaves its room and only once, the
      hub never sends on or closes a closed channel, and a client still in its room has been handed
      every payload broadcast since it registered, in order, without gaps, with at most the one
      initial snapshot between them. A snapshot forwarded too late changes none of this. */
  lemma {:induction false} RunInv(trace: seq<State>, steps: seq<Step>, i: nat)
    requires IsRun(trace, steps) && i < |trace|
    ensures Inv(trace[i])
  {
    if i > 0 {
      RunInv(trace, steps, i - 1);
      InvKept(trace[i - 1], steps[i - 1]);
    }
  }

  // ------------------------------------------------------------------ delivery, read off the steps

  /** The payloads that steps `from` to `i` of the run broadcast to the contest. */
  function Sent(steps: seq<Step>, from: nat, i: nat, contest: ID): seq<int>
    requires from <= i <= |steps|
  {
    if i == from then []
    else
      var step := steps[i - 1];
      Sent(steps, from, i - 1, contest) + if step.Broadcast? && step.contest == contest then [step.v] else []
  }

  lemma {:induction false} SentSplit(steps: seq<Step>, r: nat, i: nat, contest: ID)
    requires r <= i <= |steps|
    ensures Sent(steps, 0, i, contest) == Sent(steps, 0, r, contest) + Sent(steps, r, i, contest)
  {
    if r < i { SentSplit(steps, r, i - 1, contest); }
  }

  lemma {:induction false} LogIsSent(trace: seq<State>, steps: seq<Step>, i: nat, contest: ID)
    requires IsRun(trace, steps) && i < |trace|
    ensures LogOf(trace[i].log, contest) == Sent(steps, 0, i, contest)
  {
    if i > 0 {
      LogIsSent(trace, steps, i - 1, contest);
      assert trace[i] == Next(trace[i - 1], steps[i - 1]);
    }
  }

  /** Who registered at step `r` stays known, to its contest, with that starting point. */
  lemma {:induction false} SinceRegistration(trace: seq<State>, steps: seq<Step>, r: nat, i: nat, c: Client,
      contest: ID)
    requires IsRun(trace, steps) && r < i < |trace| && steps[r] == Register(c, contest)
    ensures c in trace[i].chans && trace[i].chans[c].contest == contest
    ensures c in trace[i].since && trace[i].since[c] == |LogOf(trace[r].log, contest)|
  {
    assert trace[i] == Next(trace[i - 1], steps[i - 1]);
    if r + 1 < i {
      SinceRegistration(trace, steps, r, i - 1, c, contest);
      RunInv(trace, steps, i - 1);
      LeavesIff(trace[i - 1], steps[i - 1], c);
    }
  }

  /** Step `m` of the run makes the client leave: it unregisters, the hub shuts down, or a broadcast to its
      contest finds 64 items waiting in its channel. */
  predicate Leaves(trace: seq<State>, steps: seq<Step>, m: nat, c: Client, contest: ID)
    requires IsRun(trace, steps) && m < |steps|
  {
    || steps[m] == Unregister(c) || steps[m].Shutdown?
    || (steps[m].Broadcast? && steps[m].contest == contest && c in trace[m].chans
        && |trace[m].chans[c].sent| - trace[m].chans[c].taken >= 64)
  }

  /** A client is in its room from its registration until the first step that makes it leave. */
  lemma {:induction false} InRoomIff(trace: seq<State>, steps: seq<Step>, r: nat, i: nat, c: Client, contest: ID)
    requires IsRun(trace, steps) && r < i < |trace| && steps[r] == Register(c, contest)
    ensures c in trace[i].chans
    ensures InRoom(trace[i], c) <==> Stays(trace, steps, r, i, c, contest)
  {
    SinceRegistration(trace, steps, r, i, c, contest);
    if r + 1 < i {
      InRoomIff(trace, steps, r, i - 1, c, contest);
      InRoomStep(trace, steps, r, i - 1, c, contest);
      StaysStep(trace, steps, r, i, c, contest);
    } else {
      assert trace[i] == Next(trace[r], steps[r]);
    }
  }

  ghost predicate Stays(trace: seq<State>, steps: seq<Step>, r: nat, i: nat, c: Client, contest: ID)
    requires IsRun(trace, steps) && i <= |steps|
  {
    forall m: nat :: r < m < i ==> !Leaves(trace, steps, m, c, contest)
  }

  lemma {:induction false} StaysStep(trace: seq<State>, steps: seq<Step>, r: nat, i: nat, c: Client, contest: ID)
    requires IsRun(trace, steps) && r + 1 < i <= |steps|
    ensures Stays(trace, steps, r, i, c, contest) <==>
              Stays(trace, steps, r, i - 1, c, contest) && !Leaves(trace, steps, i - 1, c, contest)
  {
  }

  lemma {:induction false} InRoomStep(trace: seq<State>, steps: seq<Step>, r: nat, m: nat, c: Client, contest: ID)
    requires IsRun(trace, steps) && r < m < |steps| && steps[r] == Register(c, contest) && c in trace[m].chans
    ensures c in trace[m + 1].chans
    ensures InRoom(trace[m + 1], c) <==> InRoom(trace[m], c) && !Leaves(trace, steps, m, c, contest)
  {
    SinceRegistration(trace, steps, r, m, c, contest);
    RunInv(trace, steps, m);
    assert trace[m + 1] == Next(trace[m], steps[m]);
    LeavesIff(trace[m], steps[m], c);
  }

  /** Over every run, a client that is still in its room has been handed exactly the payloads broadcast to
      its contest since it registered, in order; one that left, the first of them. */
  lemma {:induction false} RunDelivers(trace: seq<State>, steps: seq<Step>, r: nat, i: nat, c: Client, contest: ID)
    requires IsRun(trace, steps) && r < i < |trace| && steps[r] == Register(c, contest)
    ensures c in trace[i].chans
    ensures Payloads(trace[i].chans[c].sent) <= Sent(steps, r + 1, i, contest)
    ensures InRoom(trace[i], c) ==> Payloads(trace[i].chans[c].sent) == Sent(steps, r + 1, i, contest)
  {
    SinceRegistration(trace, steps, r, i, c, contest);
    RunInv(trace, steps, i);
    assert ClientInv(trace[i], c);
    LogIsSent(trace, steps, i, contest);
    LogIsSent(trace, steps, r, contest);
    SentSplit(steps, r, i, contest);
    SentSplit(steps, r + 1, i, contest);
    assert Sent(steps, 0, r + 1, contest) == Sent(steps, 0, r, contest);
    assert Due(trace[i], c) == Sent(steps, r + 1, i, contest);
  }

  /** How many items the write pump took from the client's channel in steps `from` to `i`. */
  function Drained(steps: seq<Step>, from: nat, i: nat, c: Client): nat
    requires from <= i <= |steps|
  {
    if i == from then 0 else Drained(steps, from, i - 1, c) + if steps[i - 1] == Drain(c) then 1 else 0
  }

  /** ServeWS forwarded the snapshot while the client was in its room. */
  predicate SnapshotInTime(trace: seq<State>, steps: seq<Step>, m: nat, c: Client)
    requires IsRun(trace, steps) && m < |steps|
  {
    steps[m] == InsertSnapshot(c) && c in trace[m].chans && InRoom(trace[m], c)
  }

  /** What else is in a channel: the initial snapshot exactly if it was forwarded in time, and of all items
      the write pump has taken as many as it asked for. */
  lemma {:induction false} ChannelIs(trace: seq<State>, steps: seq<Step>, r: nat, i: nat, c: Client, contest: ID)
    requires IsRun(trace, steps) && r < i < |trace| && steps[r] == Register(c, contest)
    ensures c in trace[i].chans && trace[i].chans[c].taken == Drained(steps, r + 1, i, c)
    ensures Snapshots(trace[i].chans[c].sent) <= 1
    ensures Snapshots(trace[i].chans[c].sent) == 1 <==> exists m: nat :: r < m < i && SnapshotInTime(trace, steps, m, c)
  {
    SinceRegistration(trace, steps, r, i, c, contest);
    assert trace[i] == Next(trace[i - 1], steps[i - 1]);
    if r + 1 < i {
      ChannelIs(trace, steps, r, i - 1, c, contest);
      RunInv(trace, steps, i - 1);
      ChannelStep(trace[i - 1], steps[i - 1], c);
      assert SnapshotInTime(trace, steps, i - 1, c) <==>
               steps[i - 1] == InsertSnapshot(c) && InRoom(trace[i - 1], c);
    }
  }

  lemma {:induction false} ChannelStep(s: State, step: Step, c: Client)
    requires Inv(s) && Enabled(s, step) && c in s.chans
    ensures c in Next(s, step).chans
    ensures Next(s, step).chans[c].taken == s.chans[c].taken + if step == Drain(c) then 1 else 0
    ensures Snapshots(Next(s, step).chans[c].sent) ==
              Snapshots(s.chans[c].sent) + if step == InsertSnapshot(c) && InRoom(s, c) then 1 else 0
    ensures step == InsertSnapshot(c) ==> Snapshots(s.chans[c].sent) == 0
  {
    assert ClientInv(s, c);
    AppendItem(s.chans[c].sent, Snapshot);
    if step.Broadcast? { AppendItem(s.chans[c].sent, Payload(step.v)); }
  }
}
