/** Pipes between the processes of a communication problem: which end becomes which file descriptor. */
module Wiring {
  import opened Types

  datatype Channel = Channel(from: int, to: int)

  /** The read (`inbound`) or write end of channel `c`'s pipe. */
  datatype End = End(c: nat, inbound: bool)

  datatype File = Nil | Log | Open(end: End)

  /** One process's wiring, as collected before it starts. `extraArgs` are the numbers put in argv. */
  datatype Proc = Proc(stdin: File, stdout: File, extraFiles: seq<End>, extraFDs: seq<int>, extraArgs: seq<int>)

  datatype Result = Wires(procs: seq<Proc>) | NoProcesses | BadTo(c: nat) | BadFrom(c: nat)

  /** Ends are handed out channel by channel, the read end before the write end. */
  function EndAt(k: nat): End {
    End(k / 2, k % 2 == 0)
  }

  function RankOf(e: End): nat {
    2 * e.c + if e.inbound then 0 else 1
  }

  /** The process an end belongs to. */
  function Owner(chs: seq<Channel>, e: End): int
    requires e.c < |chs|
  {
    if e.inbound then chs[e.c].to else chs[e.c].from
  }

  /** Some earlier channel already gave the owner of `e` an end of the same direction. */
  predicate Preceded(chs: seq<Channel>, e: End)
    requires e.c < |chs|
  {
    exists k :: 0 <= k < e.c && Owner(chs, End(k, e.inbound)) == Owner(chs, e)
  }

  predicate InRange(ch: Channel, n: nat) {
    0 <= ch.to < n && 0 <= ch.from < n
  }

  /** What descriptor `fd` of the started process refers to: stdin, stdout, or one of the files the
      parent installs from descriptor 3 on, the log pipe first. */
  function Descriptor(p: Proc, fd: int): File {
    var files := [Log] + seq(|p.extraFiles|, a requires 0 <= a < |p.extraFiles| => Open(p.extraFiles[a]));
    if fd == 0 then p.stdin else if fd == 1 then p.stdout
    else if 3 <= fd < 3 + |files| then files[fd - 3] else Nil
  }

  // ------------------------------------------------------------------ the specification

  /** The ends of process `i` beyond its first of each direction, among the first `k` handed out. */
  function Extras(chs: seq<Channel>, i: int, k: nat): seq<End>
    requires k <= 2 * |chs|
  {
    if k == 0 then []
    else
      var e := EndAt(k - 1);
      Extras(chs, i, k - 1) + if Owner(chs, e) == i && Preceded(chs, e) then [e] else []
  }

  /** `f` is the end of the first channel that has one of this direction for process `i`. */
  ghost predicate IsFirst(chs: seq<Channel>, i: int, k: nat, inbound: bool, f: File)
    requires k <= 2 * |chs|
  {
    if f.Open? then
      f.end.inbound == inbound && RankOf(f.end) < k && Owner(chs, f.end) == i && !Preceded(chs, f.end)
    else
      f.Nil? && forall e: End :: e.inbound == inbound && RankOf(e) < k ==> Owner(chs, e) != i
  }

  /** Process `i` holds its share of the first `k` ends. */
  ghost predicate Wired(chs: seq<Channel>, i: int, p: Proc, k: nat)
    requires k <= 2 * |chs|
  {
    && IsFirst(chs, i, k, true, p.stdin)
    && IsFirst(chs, i, k, false, p.stdout)
    && p.extraFiles == Extras(chs, i, k)
    && |p.extraFDs| == |p.extraFiles| && (forall a :: 0 <= a < |p.extraFDs| ==> p.extraFDs[a] == 4 + a)
    && p.extraArgs == p.extraFDs
  }

  // ------------------------------------------------------------------ the assignment

  /** One end handed to its process: the standard descriptor if still free, otherwise an extra one. */
  function Give(p: Proc, e: End): Proc {
    if e.inbound && p.stdin.Nil? then p.(stdin := Open(e))
    else if !e.inbound && p.stdout.Nil? then p.(stdout := Open(e))
    else
      var fd := 4 + |p.extraFiles|;
      p.(extraFiles := p.extraFiles + [e], extraFDs := p.extraFDs + [fd], extraArgs := p.extraArgs + [fd])
  }

  lemma {:induction false} FreeIff(chs: seq<Channel>, i: int, k: nat, f: File)
    requires k < 2 * |chs| && Owner(chs, EndAt(k)) == i && IsFirst(chs, i, k, EndAt(k).inbound, f)
    ensures f.Nil? <==> !Preceded(chs, EndAt(k))
  {
    var e := EndAt(k);
    if f.Nil? {
      forall c | 0 <= c < e.c ensures Owner(chs, End(c, e.inbound)) != i {
        assert RankOf(End(c, e.inbound)) < k;
      }
    } else {
      assert f.end == End(f.end.c, e.inbound);
      assert f.end.c < e.c;
    }
  }

  lemma {:induction false} FirstStep(chs: seq<Channel>, i: int, k: nat, inbound: bool, f: File)
    requires k < 2 * |chs| && IsFirst(chs, i, k, inbound, f)
    ensures IsFirst(chs, i, k + 1, inbound,
              if f.Nil? && EndAt(k).inbound == inbound && Owner(chs, EndAt(k)) == i then Open(EndAt(k)) else f)
  {
    var e := EndAt(k);
    assert RankOf(e) == k;
    if e.inbound == inbound && Owner(chs, e) == i {
      FreeIff(chs, i, k, f);
    }
    forall d: End | RankOf(d) < k + 1 ensures d == e || RankOf(d) < k { }
  }

  lemma {:induction false} HandOut(chs: seq<Channel>, i: int, p: Proc, k: nat)
    requires k < 2 * |chs| && Wired(chs, i, p, k)
    ensures Wired(chs, i, if Owner(chs, EndAt(k)) == i then Give(p, EndAt(k)) else p, k + 1)
  {
    FirstStep(chs, i, k, true, p.stdin);
    FirstStep(chs, i, k, false, p.stdout);
    var e := EndAt(k);
    if Owner(chs, e) == i {
      FreeIff(chs, i, k, if e.inbound then p.stdin else p.stdout);
    }
  }

  ghost predicate AllWired(chs: seq<Channel>, procs: seq<Proc>, k: nat) {
    k <= 2 * |chs| && forall i :: 0 <= i < |procs| ==> Wired(chs, i, procs[i], k)
  }

  ghost predicate FullyWired(n: nat, chs: seq<Channel>, procs: seq<Proc>) {
    |procs| == n && (forall c :: 0 <= c < |chs| ==> InRange(chs[c], n)) && AllWired(chs, procs, 2 * |chs|)
  }

  lemma {:induction false} AllHandOut(chs: seq<Channel>, was: seq<Proc>, now: seq<Proc>, k: nat)
    requires k < 2 * |chs| && 0 <= Owner(chs, EndAt(k)) < |was| && AllWired(chs, was, k)
    requires now == was[Owner(chs, EndAt(k)) := Give(was[Owner(chs, EndAt(k))], EndAt(k))]
    ensures AllWired(chs, now, k + 1)
  {
    forall i | 0 <= i < |now| ensures Wired(chs, i, now[i], k + 1) { HandOut(chs, i, was[i], k); }
  }

  method Attach(ghost chs: seq<Channel>, pp: array<Proc>, e: End, i: nat, ghost k: nat)
    requires e.c < |chs| && i == Owner(chs, e) && i < pp.Length && k == RankOf(e) && AllWired(chs, pp[..], k)
    modifies pp
    ensures AllWired(chs, pp[..], k + 1)
  {
    ghost var before := pp[..];
    pp[i] := Give(pp[i], e);
    assert EndAt(k) == e;
    assert pp[..] == before[i := Give(before[i], e)];
    AllHandOut(chs, before, pp[..], k);
  }

  lemma {:induction false} NothingHandedOut(chs: seq<Channel>, procs: seq<Proc>)
    requires forall i :: 0 <= i < |procs| ==> procs[i] == Proc(Nil, Nil, [], [], [])
    ensures AllWired(chs, procs, 0)
  {
  }

  /** ExecuteGroup's wiring of `n` processes. It fails on the first channel with an endpoint out of
      range, the recipient being checked first; otherwise every process holds its share of all ends. */
  method AssignFDs(n: nat, chs: seq<Channel>) returns (r: Result)
    ensures r.NoProcesses? <==> n == 0
    ensures r.Wires? <==> n > 0 && forall c :: 0 <= c < |chs| ==> InRange(chs[c], n)
    ensures r.Wires? ==> FullyWired(n, chs, r.procs)
    ensures r.BadTo? || r.BadFrom? ==> r.c < |chs| && forall c :: 0 <= c < r.c ==> InRange(chs[c], n)
    ensures r.BadTo? ==> !(0 <= chs[r.c].to < n)
    ensures r.BadFrom? ==> 0 <= chs[r.c].to < n && !(0 <= chs[r.c].from < n)
  {
    if n == 0 {
      return NoProcesses;
    }
    var pp := new Proc[n](_ => Proc(Nil, Nil, [], [], []));
    NothingHandedOut(chs, pp[..]);
    for ci := 0 to |chs|
      invariant AllWired(chs, pp[..], 2 * ci)
      invariant forall c :: 0 <= c < ci ==> InRange(chs[c], n)
    {
      var bad := Connect(chs, pp, ci);
      if bad.Some? {
        return bad.value;
      }
    }
    r := Wires(pp[..]);
  }

  /** One channel: its read end goes to the recipient, then its write end to the sender. */
  method Connect(chs: seq<Channel>, pp: array<Proc>, ci: nat) returns (bad: Option<Result>)
    requires ci < |chs| && AllWired(chs, pp[..], 2 * ci)
    modifies pp
    ensures bad.None? <==> InRange(chs[ci], pp.Length)
    ensures bad.None? ==> AllWired(chs, pp[..], 2 * (ci + 1))
    ensures bad.Some? ==> bad.value == if 0 <= chs[ci].to < pp.Length then BadFrom(ci) else BadTo(ci)
  {
    var n := pp.Length;
    assert RankOf(End(ci, true)) == 2 * ci && RankOf(End(ci, false)) == 2 * ci + 1;
    var to := chs[ci].to;
    if to < 0 || to >= n {
      return Some(BadTo(ci));
    }
    Attach(chs, pp, End(ci, true), to, 2 * ci);
    var from := chs[ci].from;
    if from < 0 || from >= n {
      return Some(BadFrom(ci));
    }
    Attach(chs, pp, End(ci, false), from, 2 * ci + 1);
    bad := None;
  }

  // ------------------------------------------------------------------ what the wiring guarantees

  lemma {:induction false} ExtrasAre(chs: seq<Channel>, i: int, k: nat)
    requires k <= 2 * |chs|
    ensures forall e: End :: e in Extras(chs, i, k) <==> RankOf(e) < k && Owner(chs, e) == i && Preceded(chs, e)
    ensures forall a, b :: 0 <= a < b < |Extras(chs, i, k)| ==>
              RankOf(Extras(chs, i, k)[a]) < RankOf(Extras(chs, i, k)[b])
  {
    if k > 0 {
      ExtrasAre(chs, i, k - 1);
      var e, xs := EndAt(k - 1), Extras(chs, i, k - 1);
      assert RankOf(e) == k - 1;
      forall d: End | RankOf(d) < k ensures d == e || RankOf(d) < k - 1 { RankUnique(d, e); }
      forall a | 0 <= a < |xs| ensures RankOf(xs[a]) < k - 1 { assert xs[a] in xs; }
    }
  }

  lemma {:induction false} RankUnique(d: End, e: End)
    ensures RankOf(d) == RankOf(e) ==> d == e
  {
  }

  /** Descriptor `fd` of process `i` is end `e`. */
  predicate At(procs: seq<Proc>, i: int, fd: int, e: End) {
    0 <= i < |procs| && Descriptor(procs[i], fd) == Open(e)
  }

  /** The numbers passed in argv are exactly the descriptors, behind the log pipe, at which the extra
      ends are installed, in channel order; beside them only 0, 1 and the log at 3 are in use. */
  lemma {:induction false} ArgvNamesTheExtras(n: nat, chs: seq<Channel>, procs: seq<Proc>, i: nat)
    requires FullyWired(n, chs, procs) && i < n
    ensures var p := procs[i];
            && Descriptor(p, 3) == Log && |p.extraArgs| == |p.extraFiles|
            && (forall a :: 0 <= a < |p.extraArgs| ==> Descriptor(p, p.extraArgs[a]) == Open(p.extraFiles[a]))
            && (forall fd :: Descriptor(p, fd).Open? && fd != 0 && fd != 1 ==> fd in p.extraArgs)
            && (forall a, b :: 0 <= a < b < |p.extraArgs| ==> p.extraArgs[a] < p.extraArgs[b])
            && (forall a, b :: 0 <= a < b < |p.extraFiles| ==> RankOf(p.extraFiles[a]) < RankOf(p.extraFiles[b]))
  {
    var p := procs[i];
    assert Wired(chs, i, p, 2 * |chs|);
    ExtrasAre(chs, i, 2 * |chs|);
    forall fd | Descriptor(p, fd).Open? && fd != 0 && fd != 1 ensures fd in p.extraArgs {
      assert p.extraArgs[fd - 4] == fd;
    }
  }

  /** An installed end belongs to the process, and which descriptor it has says whether it was the
      first of its direction. */
  lemma {:induction false} InstalledIs(n: nat, chs: seq<Channel>, procs: seq<Proc>, i: nat, fd: int, e: End)
    requires FullyWired(n, chs, procs) && At(procs, i, fd, e)
    ensures e.c < |chs| && Owner(chs, e) == i
    ensures if fd == 0 then e.inbound && !Preceded(chs, e) else if fd == 1 then !e.inbound && !Preceded(chs, e)
            else fd >= 4 && fd - 4 < |procs[i].extraFiles| && procs[i].extraFiles[fd - 4] == e && Preceded(chs, e)
  {
    assert Wired(chs, i, procs[i], 2 * |chs|);
    if fd != 0 && fd != 1 { ExtraIs(chs, procs[i], i, fd, e); }
  }

  lemma {:induction false} ExtraIs(chs: seq<Channel>, p: Proc, i: nat, fd: int, e: End)
    requires Wired(chs, i, p, 2 * |chs|) && fd != 0 && fd != 1 && Descriptor(p, fd) == Open(e)
    ensures e.c < |chs| && Owner(chs, e) == i && Preceded(chs, e)
    ensures fd >= 4 && fd - 4 < |p.extraFiles| && p.extraFiles[fd - 4] == e
  {
    ExtrasAre(chs, i, 2 * |chs|);
    assert p.extraFiles[fd - 4] == e && e in p.extraFiles;
  }

  lemma {:induction false} FirstUnique(chs: seq<Channel>, d: End, e: End)
    requires d.c < |chs| && e.c < |chs| && d.inbound == e.inbound && Owner(chs, d) == Owner(chs, e)
    requires !Preceded(chs, d) && !Preceded(chs, e)
    ensures d == e
  {
    assert d == End(d.c, e.inbound) && e == End(e.c, d.inbound);
    if d.c < e.c || e.c < d.c { assert false; }
  }

  lemma {:induction false} ExtraPosition(chs: seq<Channel>, i: int, k: nat, m: nat)
    requires k < m <= 2 * |chs| && Owner(chs, EndAt(k)) == i && Preceded(chs, EndAt(k))
    ensures |Extras(chs, i, k)| < |Extras(chs, i, m)| && Extras(chs, i, m)[|Extras(chs, i, k)|] == EndAt(k)
  {
    if m > k + 1 { ExtraPosition(chs, i, k, m - 1); }
  }

  lemma {:induction false} FirstPlaced(chs: seq<Channel>, p: Proc, e: End)
    requires e.c < |chs| && Wired(chs, Owner(chs, e), p, 2 * |chs|) && !Preceded(chs, e)
    ensures Descriptor(p, if e.inbound then 0 else 1) == Open(e)
  {
    var f := if e.inbound then p.stdin else p.stdout;
    assert IsFirst(chs, Owner(chs, e), 2 * |chs|, e.inbound, f) && RankOf(e) < 2 * |chs|;
    FirstUnique(chs, f.end, e);
  }

  lemma {:induction false} ExtraPlaced(chs: seq<Channel>, p: Proc, e: End) returns (fd: int)
    requires e.c < |chs| && Wired(chs, Owner(chs, e), p, 2 * |chs|) && Preceded(chs, e)
    ensures fd in p.extraArgs && Descriptor(p, fd) == Open(e)
  {
    var k, xs := RankOf(e), p.extraFiles;
    assert EndAt(k) == e;
    ExtraPosition(chs, Owner(chs, e), k, 2 * |chs|);
    var a := |Extras(chs, Owner(chs, e), k)|;
    assert xs[a] == e;
    fd := p.extraArgs[a];
  }

  /** Every end of every channel has a descriptor in the process it belongs to: stdin or stdout for the
      first of its direction, an extra one named in argv otherwise. */
  lemma {:induction false} EndPlaced(n: nat, chs: seq<Channel>, procs: seq<Proc>, e: End) returns (fd: int)
    requires FullyWired(n, chs, procs) && e.c < |chs|
    ensures At(procs, Owner(chs, e), fd, e)
    ensures !Preceded(chs, e) ==> fd == if e.inbound then 0 else 1
    ensures Preceded(chs, e) ==> fd in procs[Owner(chs, e)].extraArgs
  {
    var i := Owner(chs, e);
    assert InRange(chs[e.c], n);
    assert Wired(chs, i, procs[i], 2 * |chs|);
    if Preceded(chs, e) {
      fd := ExtraPlaced(chs, procs[i], e);
    } else {
      fd := if e.inbound then 0 else 1;
      FirstPlaced(chs, procs[i], e);
    }
  }

  /** No end is installed twice, in the same process or in two, self-loops included. */
  lemma {:induction false} EndPlacedOnce(n: nat, chs: seq<Channel>, procs: seq<Proc>, e: End, i: nat, fd: int, j: nat,
      gd: int)
    requires FullyWired(n, chs, procs) && At(procs, i, fd, e) && At(procs, j, gd, e)
    ensures i == j && fd == gd
  {
    InstalledIs(n, chs, procs, i, fd, e);
    InstalledIs(n, chs, procs, j, gd, e);
    ExtrasAre(chs, i, 2 * |chs|);
  }

  // ------------------------------------------------------------------ the argument vector

  datatype Arg = Word(s: string) | Num(n: int)

  function Nums(fds: seq<int>): (r: seq<Arg>)
    ensures |r| == |fds| && forall a :: 0 <= a < |fds| ==> r[a] == Num(fds[a])
  {
    seq(|fds|, a requires 0 <= a < |fds| => Num(fds[a]))
  }

  /** What ExecuteGroup starts process `i` with: the request's own arguments, its index, the extra
      descriptors. */
  function Argv(exe: Arg, args: seq<Arg>, i: nat, p: Proc): seq<Arg> {
    [exe] + args + [Num(i)] + Nums(p.extraArgs)
  }

  /** The documented convention: the index in argv[1] and the extra descriptors from argv[2] on. */
  predicate AsDocumented(argv: seq<Arg>, i: nat, p: Proc) {
    |argv| >= 2 && argv[1] == Num(i) && argv[2..] == Nums(p.extraArgs)
  }

  /** It holds exactly for requests that bring no arguments of their own. */
  lemma {:induction false} ArgvIff(exe: Arg, args: seq<Arg>, i: nat, p: Proc)
    ensures AsDocumented(Argv(exe, args, i, p), i, p) <==> args == []
  {
    var argv := Argv(exe, args, i, p);
    assert |argv[2..]| == |args| + |Nums(p.extraArgs)|;
    if args == [] { assert argv[2..] == Nums(p.extraArgs); }
  }

  /** The communication orchestrator already appends the index to the run command's arguments. */
  function CommArgs(cmd: seq<Arg>, i: nat): seq<Arg>
    requires cmd != []
  {
    cmd[1..] + [Num(i)]
  }

  /** So a contestant's process always finds its index twice, and each extra descriptor, which is installed
      where its number says, one place later than documented. */
  lemma {:induction false} ArgvLayout(n: nat, chs: seq<Channel>, procs: seq<Proc>, i: nat, cmd: seq<Arg>, a: nat)
    requires FullyWired(n, chs, procs) && i < n && cmd != []
    ensures var argv, p := Argv(cmd[0], CommArgs(cmd, i), i, procs[i]), procs[i];
            && argv[..|cmd|] == cmd && |argv| == |cmd| + 2 + |p.extraFiles|
            && argv[|cmd|] == argv[|cmd| + 1] == Num(i) && !AsDocumented(argv, i, p)
            && (a < |p.extraFiles| ==>
                argv[|cmd| + 2 + a].Num? && Descriptor(p, argv[|cmd| + 2 + a].n) == Open(p.extraFiles[a]))
  {
    ArgvNamesTheExtras(n, chs, procs, i);
    ArgvIff(cmd[0], CommArgs(cmd, i), i, procs[i]);
    assert cmd == [cmd[0]] + cmd[1..];
    if a < |procs[i].extraFiles| {
      assert Argv(cmd[0], CommArgs(cmd, i), i, procs[i])[|cmd| + 2 + a] == Nums(procs[i].extraArgs)[a];
    }
  }

  // ------------------------------------------------------------------ the documented parity

  /** The documented convention: among the extra descriptors of process `i`, even positions are read
      ends and odd ones write ends. */
  predicate Alternates(p: Proc) {
    forall a :: 0 <= a < |p.extraFiles| ==> (p.extraFiles[a].inbound <==> a % 2 == 0)
  }

  /** How many of the first `c` channels lead to process `i`, and how many lead from it. */
  function Incoming(chs: seq<Channel>, i: int, c: nat): nat
    requires c <= |chs|
  {
    if c == 0 then 0 else Incoming(chs, i, c - 1) + if chs[c - 1].to == i then 1 else 0
  }

  function Outgoing(chs: seq<Channel>, i: int, c: nat): nat
    requires c <= |chs|
  {
    if c == 0 then 0 else Outgoing(chs, i, c - 1) + if chs[c - 1].from == i then 1 else 0
  }

  /** All but the first. */
  function Surplus(n: nat): nat {
    if n == 0 then 0 else n - 1
  }

  lemma {:induction false} NoneBefore(chs: seq<Channel>, i: int, c: nat)
    requires c <= |chs|
    ensures Incoming(chs, i, c) == 0 <==> forall k :: 0 <= k < c ==> chs[k].to != i
    ensures Outgoing(chs, i, c) == 0 <==> forall k :: 0 <= k < c ==> chs[k].from != i
  {
    if c > 0 { NoneBefore(chs, i, c - 1); }
  }

  /** An end finds its standard descriptor taken exactly when an earlier channel counts. */
  lemma {:induction false} PrecededIff(chs: seq<Channel>, c: nat)
    requires c < |chs|
    ensures Preceded(chs, End(c, true)) <==> Incoming(chs, chs[c].to, c) > 0
    ensures Preceded(chs, End(c, false)) <==> Outgoing(chs, chs[c].from, c) > 0
  {
    NoneBefore(chs, chs[c].to, c);
    NoneBefore(chs, chs[c].from, c);
    if k :| 0 <= k < c && chs[k].to == chs[c].to { assert Owner(chs, End(k, true)) == Owner(chs, End(c, true)); }
    if k :| 0 <= k < c && chs[k].from == chs[c].from { assert Owner(chs, End(k, false)) == Owner(chs, End(c, false)); }
  }

  /** The number of extra descriptors handed out before a channel, and between its two ends. */
  lemma {:induction false} ExtrasCount(chs: seq<Channel>, i: int, c: nat)
    requires c <= |chs|
    ensures |Extras(chs, i, 2 * c)| == Surplus(Incoming(chs, i, c)) + Surplus(Outgoing(chs, i, c))
    ensures c < |chs| ==>
              |Extras(chs, i, 2 * c + 1)| == Surplus(Incoming(chs, i, c + 1)) + Surplus(Outgoing(chs, i, c))
  {
    if c > 0 {
      ExtrasCount(chs, i, c - 1);
      PrecededIff(chs, c - 1);
      assert EndAt(2 * c - 1) == End(c - 1, false);
    }
    if c < |chs| {
      PrecededIff(chs, c);
      assert EndAt(2 * c) == End(c, true);
    }
  }

  /** Channel `c` is a further one to, respectively from, process `i`. */
  predicate FurtherIn(chs: seq<Channel>, i: int, c: nat) {
    c < |chs| && chs[c].to == i && Incoming(chs, i, c) > 0
  }

  predicate FurtherOut(chs: seq<Channel>, i: int, c: nat) {
    c < |chs| && chs[c].from == i && Outgoing(chs, i, c) > 0
  }

  /** How many surplus ends of `i` precede its read end, respectively its write end; the latter comes
      after the channel's own read end, should it lead back to `i`. */
  function BeforeRead(chs: seq<Channel>, i: int, c: nat): nat
    requires c < |chs|
  {
    Surplus(Incoming(chs, i, c)) + Surplus(Outgoing(chs, i, c))
  }

  function BeforeWrite(chs: seq<Channel>, i: int, c: nat): nat
    requires c < |chs|
  {
    Surplus(Incoming(chs, i, c + 1)) + Surplus(Outgoing(chs, i, c))
  }

  /** Read off the channels alone: each further channel to `i` comes after an even number of surplus
      ends of `i`, and each further channel from `i` after an odd number. */
  predicate SurplusAlternates(chs: seq<Channel>, i: int) {
    && (forall c :: 0 <= c < |chs| && FurtherIn(chs, i, c) ==> BeforeRead(chs, i, c) % 2 == 0)
    && (forall c :: 0 <= c < |chs| && FurtherOut(chs, i, c) ==> BeforeWrite(chs, i, c) % 2 == 1)
  }

  lemma {:induction false} ReadPosition(chs: seq<Channel>, p: Proc, i: nat, c: nat)
    requires Wired(chs, i, p, 2 * |chs|) && FurtherIn(chs, i, c)
    ensures BeforeRead(chs, i, c) < |p.extraFiles| && p.extraFiles[BeforeRead(chs, i, c)] == End(c, true)
  {
    ExtrasCount(chs, i, c);
    PrecededIff(chs, c);
    assert EndAt(2 * c) == End(c, true);
    ExtraPosition(chs, i, 2 * c, 2 * |chs|);
  }

  lemma {:induction false} WritePosition(chs: seq<Channel>, p: Proc, i: nat, c: nat)
    requires Wired(chs, i, p, 2 * |chs|) && FurtherOut(chs, i, c)
    ensures BeforeWrite(chs, i, c) < |p.extraFiles| && p.extraFiles[BeforeWrite(chs, i, c)] == End(c, false)
  {
    ExtrasCount(chs, i, c);
    PrecededIff(chs, c);
    assert EndAt(2 * c + 1) == End(c, false);
    ExtraPosition(chs, i, 2 * c + 1, 2 * |chs|);
  }

  /** Every extra descriptor is one of those. */
  lemma {:induction false} ExtraCounted(chs: seq<Channel>, p: Proc, i: nat, a: nat)
    requires Wired(chs, i, p, 2 * |chs|) && a < |p.extraFiles|
    ensures var e := p.extraFiles[a];
            if e.inbound then FurtherIn(chs, i, e.c) && BeforeRead(chs, i, e.c) == a
            else FurtherOut(chs, i, e.c) && BeforeWrite(chs, i, e.c) == a
  {
    PositionOf(chs, i, a);
    var c := p.extraFiles[a].c;
    ExtrasCount(chs, i, c);
    PrecededIff(chs, c);
  }

  /** The convention holds for a process exactly when its surplus channels alternate. */
  lemma {:induction false} ParityIff(n: nat, chs: seq<Channel>, procs: seq<Proc>, i: nat)
    requires FullyWired(n, chs, procs) && i < n
    ensures Alternates(procs[i]) <==> SurplusAlternates(chs, i)
  {
    var p := procs[i];
    assert Wired(chs, i, p, 2 * |chs|);
    forall c: nat | FurtherIn(chs, i, c)
      ensures BeforeRead(chs, i, c) < |p.extraFiles| && p.extraFiles[BeforeRead(chs, i, c)] == End(c, true)
    {
      ReadPosition(chs, p, i, c);
    }
    forall c: nat | FurtherOut(chs, i, c)
      ensures BeforeWrite(chs, i, c) < |p.extraFiles| && p.extraFiles[BeforeWrite(chs, i, c)] == End(c, false)
    {
      WritePosition(chs, p, i, c);
    }
    if SurplusAlternates(chs, i) {
      forall a | 0 <= a < |p.extraFiles| ensures p.extraFiles[a].inbound <==> a % 2 == 0 { ExtraCounted(chs, p, i, a); }
    }
  }

  lemma {:induction false} PositionOf(chs: seq<Channel>, i: int, a: nat)
    requires a < |Extras(chs, i, 2 * |chs|)|
    ensures var e := Extras(chs, i, 2 * |chs|)[a];
            var k := RankOf(e);
            k < 2 * |chs| && Owner(chs, EndAt(k)) == i && Preceded(chs, EndAt(k)) && |Extras(chs, i, k)| == a &&
                EndAt(k) == e
  {
    var xs := Extras(chs, i, 2 * |chs|);
    var e := xs[a];
    ExtrasAre(chs, i, 2 * |chs|);
    assert e in xs && EndAt(RankOf(e)) == e;
    ExtraPosition(chs, i, RankOf(e), 2 * |chs|);
    var b := |Extras(chs, i, RankOf(e))|;
    assert xs[b] == xs[a] && a == b;
  }

  /** Two channels from process 0 to process 1 already break it: the first extra descriptor of process 0
      is a write end. */
  lemma {:induction false} ParityCounterexample(procs: seq<Proc>)
    requires FullyWired(2, [Channel(0, 1), Channel(0, 1)], procs)
    ensures !Alternates(procs[0])
  {
    var chs := [Channel(0, 1), Channel(0, 1)];
    assert Wired(chs, 0, procs[0], 4);
    assert Owner(chs, End(0, false)) == Owner(chs, End(1, false)) == 0;
    assert EndAt(3) == End(1, false) && Preceded(chs, EndAt(3));
    ExtraPosition(chs, 0, 3, 4);
    assert EndAt(0) == End(0, true) && EndAt(1) == End(0, false) && EndAt(2) == End(1, true);
    assert Extras(chs, 0, 1) == [] && Extras(chs, 0, 2) == [] && Extras(chs, 0, 3) == [];
    assert procs[0].extraFiles[0] == End(1, false);
  }
}
