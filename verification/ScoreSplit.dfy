/** Test-case archives: pairing the entries of a zip and splitting the problem's score over its cases. */
module ScoreSplit {
  import opened Types
  import opened Verdict

  /** An archive entry, by the pattern its name matches: "N.in", "N.out" or neither. */
  datatype Entry = Dir | In(n: int, name: string) | Out(n: int, name: string) | Other(name: string)

  datatype Warning = Ignored(name: string) | MissingOut(n: int) | MissingIn(n: int)

  datatype Parsed = Parsed(ok: bool, cases: seq<TestCase>, files: seq<string>, warns: seq<Warning>)

  /** Go's integer division truncates toward zero; the divisor is a positive length. */
  function Quot(a: int, b: int): int
    requires b > 0
  {
    if a >= 0 then a / b else -((-a) / b)
  }

  function Rem(a: int, b: int): int
    requires b > 0
  {
    a - b * Quot(a, b)
  }

  // ------------------------------------------------------------------ what the archive says

  /** The name of the last "n.in" entry, which overwrites earlier ones such as "0n.in". */
  predicate LastIn(es: seq<Entry>, n: int, name: string) {
    exists i :: 0 <= i < |es| && es[i] == In(n, name) && forall j :: i < j < |es| ==> !(es[j].In? && es[j].n == n)
  }

  predicate LastOut(es: seq<Entry>, n: int, name: string) {
    exists i :: 0 <= i < |es| && es[i] == Out(n, name) && forall j :: i < j < |es| ==> !(es[j].Out? && es[j].n == n)
  }

  predicate HasIn(es: seq<Entry>, n: int) {
    exists i :: 0 <= i < |es| && es[i].In? && es[i].n == n
  }

  predicate HasOut(es: seq<Entry>, n: int) {
    exists i :: 0 <= i < |es| && es[i].Out? && es[i].n == n
  }

  function Names(es: seq<Entry>): seq<string> {
    if es == [] then []
    else
      var e := es[|es| - 1];
      Names(es[..|es| - 1]) + if e.Dir? then [] else [e.name]
  }

  predicate Ascending(s: seq<int>) {
    forall i, j :: 0 <= i < j < |s| ==> s[i] < s[j]
  }

  ghost predicate Indexes(es: seq<Entry>, ins: map<int, string>, outs: map<int, string>) {
    && (forall n :: n in ins <==> HasIn(es, n)) && (forall n :: n in ins ==> LastIn(es, n, ins[n]))
    && (forall n :: n in outs <==> HasOut(es, n)) && (forall n :: n in outs ==> LastOut(es, n, outs[n]))
  }

  // ------------------------------------------------------------------ scores

  function ScoreSum(cs: seq<TestCase>): int {
    if cs == [] then 0 else ScoreSum(cs[..|cs| - 1]) + cs[|cs| - 1].score
  }

  /** An equal share each, with what does not divide added to the last case. */
  predicate Shares(cs: seq<TestCase>, base: int, extra: int) {
    && (forall i :: 0 <= i < |cs| - 1 ==> cs[i].score == base)
    && (cs != [] ==> cs[|cs| - 1].score == base + extra)
  }

  /** The rows for the archive: one per "N.in", ascending, paired with their outputs. */
  ghost predicate IsRows(es: seq<Entry>, cs: seq<TestCase>) {
    && (forall n :: HasIn(es, n) <==> exists i :: 0 <= i < |cs| && cs[i].ordinal == n)
    && (forall i, j :: 0 <= i < j < |cs| ==> cs[i].ordinal < cs[j].ordinal)
    && (forall i :: 0 <= i < |cs| ==> cs[i].group == 1 && LastIn(es, cs[i].ordinal, cs[i].input))
    && (forall i :: 0 <= i < |cs| ==>
          if HasOut(es, cs[i].ordinal) then LastOut(es, cs[i].ordinal, cs[i].output) else cs[i].output == "")
  }

  // ------------------------------------------------------------------ parsing

  lemma {:induction false} IndexStep(es: seq<Entry>, e: Entry, ins: map<int, string>, outs: map<int, string>)
    requires Indexes(es, ins, outs)
    ensures Indexes(es + [e], if e.In? then ins[e.n := e.name] else ins, if e.Out? then outs[e.n := e.name] else outs)
  {
    var es', ins', outs' := es + [e], if e.In? then ins[e.n := e.name] else ins,
        if e.Out? then outs[e.n := e.name] else outs;
    assert es'[|es|] == e;
    forall n ensures HasIn(es', n) <==> n in ins' { HasStep(es, e, n); }
    forall n ensures HasOut(es', n) <==> n in outs' { HasStep(es, e, n); }
    forall n | n in ins' ensures LastIn(es', n, ins'[n]) {
      if !(e.In? && e.n == n) {
        var i :| 0 <= i < |es| && es[i] == In(n, ins[n]) && forall j :: i < j < |es| ==> !(es[j].In? && es[j].n == n);
        assert es'[i] == In(n, ins[n]);
      }
    }
    forall n | n in outs' ensures LastOut(es', n, outs'[n]) {
      if !(e.Out? && e.n == n) {
        var i :| 0 <= i < |es| && es[i] == Out(n, outs[n]) && forall j :: i < j < |es| ==>
            !(es[j].Out? && es[j].n == n);
        assert es'[i] == Out(n, outs[n]);
      }
    }
  }

  lemma {:induction false} HasStep(es: seq<Entry>, e: Entry, n: int)
    ensures HasIn(es + [e], n) <==> HasIn(es, n) || (e.In? && e.n == n)
    ensures HasOut(es + [e], n) <==> HasOut(es, n) || (e.Out? && e.n == n)
  {
    var es' := es + [e];
    assert es'[|es|] == e && forall i :: 0 <= i < |es| ==> es'[i] == es[i];
  }

  /** The first loop: which inputs and outputs the archive holds, later duplicates winning. */
  method IndexEntries(es: seq<Entry>) returns (ins: map<int, string>, outs: map<int, string>, files: seq<string>,
      warns: seq<Warning>)
    ensures Indexes(es, ins, outs) && files == Names(es)
    ensures forall w :: w in warns <==> w.Ignored? && Other(w.name) in es
  {
    ins, outs, files, warns := map[], map[], [], [];
    for i := 0 to |es|
      invariant Indexes(es[..i], ins, outs) && files == Names(es[..i])
      invariant forall w :: w in warns <==> w.Ignored? && Other(w.name) in es[..i]
    {
      assert es[..i + 1] == es[..i] + [es[i]];
      assert es[..i + 1][..i] == es[..i];
      IndexStep(es[..i], es[i], ins, outs);
      match es[i] {
        case Dir =>
        case In(n, name) => files, ins := files + [name], ins[n := name];
        case Out(n, name) => files, outs := files + [name], outs[n := name];
        case Other(name) => files, warns := files + [name], warns + [Ignored(name)];
      }
    }
    assert es[..|es|] == es;
  }

  method Insert(s: seq<int>, x: int) returns (r: seq<int>)
    requires Ascending(s) && x !in s
    ensures Ascending(r) && |r| == |s| + 1 && forall y :: y in r <==> y in s || y == x
  {
    var k := 0;
    while k < |s| && s[k] < x
      invariant 0 <= k <= |s| && forall j :: 0 <= j < k ==> s[j] < x
    {
      k := k + 1;
    }
    assert forall j :: k <= j < |s| ==> x < s[j];
    r := s[..k] + [x] + s[k..];
    assert forall y :: y in s <==> y in s[..k] || y in s[k..] by { assert s == s[..k] + s[k..]; }
  }

  /** The map's keys, met in any order, sorted. */
  method SortedKeys(keys: set<int>) returns (nums: seq<int>)
    ensures Ascending(nums) && |nums| == |keys| && forall x :: x in nums <==> x in keys
  {
    var todo := keys;
    nums := [];
    while todo != {}
      invariant todo <= keys && Ascending(nums) && |nums| + |todo| == |keys|
      invariant forall x :: x in nums <==> x in keys - todo
      decreases |todo|
    {
      SomeMember(todo);
      var x :| x in todo;
      nums := Insert(nums, x);
      todo := todo - {x};
    }
  }

  /** One case per sorted number, the last of them also getting the remainder. */
  method MakeCases(nums: seq<int>, ins: map<int, string>, outs: map<int, string>, total: int)
    returns (cases: seq<TestCase>, warns: seq<Warning>)
    requires nums != [] && forall i :: 0 <= i < |nums| ==> nums[i] in ins
    ensures |cases| == |nums| && Shares(cases, Quot(total, |nums|), Rem(total, |nums|))
    ensures forall i :: 0 <= i < |nums| ==>
              cases[i].(id := 0, score := 0) == TestCase(0, 1, nums[i], ins[nums[i]],
                  if nums[i] in outs then outs[nums[i]] else "", 0)
    ensures forall w :: w in warns <==> w.MissingOut? && w.n in nums && (w.n !in outs || outs[w.n] == "")
  {
    var base, rem := Quot(total, |nums|), Rem(total, |nums|);
    cases, warns := [], [];
    for i := 0 to |nums|
      invariant |cases| == i
      invariant forall k :: 0 <= k < i ==> cases[k].score == if k == |nums| - 1 then base + rem else base
      invariant forall k :: 0 <= k < i ==>
                  cases[k].(id := 0, score := 0) == TestCase(0, 1, nums[k], ins[nums[k]],
                      if nums[k] in outs then outs[nums[k]] else "", 0)
      invariant forall w :: w in warns <==> w.MissingOut? && w.n in nums[..i] && (w.n !in outs || outs[w.n] == "")
    {
      assert nums[..i + 1] == nums[..i] + [nums[i]];
      var n := nums[i];
      var outPath := if n in outs then outs[n] else "";
      if outPath == "" {
        warns := warns + [MissingOut(n)];
      }
      var score := base;
      if i == |nums| - 1 {
        score := score + rem;
      }
      cases := cases + [TestCase(0, 1, n, ins[n], outPath, score)];
    }
    assert nums[..|nums|] == nums;
  }

  method OrphanOutputs(ins: map<int, string>, outs: map<int, string>) returns (warns: seq<Warning>)
    ensures forall w :: w in warns <==> w.MissingIn? && w.n in outs && w.n !in ins
  {
    warns := [];
    var todo := outs.Keys;
    while todo != {}
      invariant todo <= outs.Keys
      invariant forall w :: w in warns <==> w.MissingIn? && w.n in outs.Keys - todo && w.n !in ins
      decreases |todo|
    {
      SomeMember(todo);
      var n :| n in todo;
      todo := todo - {n};
      if n !in ins {
        warns := warns + [MissingIn(n)];
      }
    }
  }

  lemma {:induction false} RowsFromIndex(
      es: seq<Entry>, ins: map<int, string>, outs: map<int, string>, nums: seq<int>, cases: seq<TestCase>)
    requires Indexes(es, ins, outs) && Ascending(nums) && |cases| == |nums|
    requires (forall x :: x in ins ==> x in nums) && forall i :: 0 <= i < |nums| ==> nums[i] in ins
    requires forall i :: 0 <= i < |nums| ==>
               cases[i].(id := 0, score := 0) == TestCase(0, 1, nums[i], ins[nums[i]],
                   if nums[i] in outs then outs[nums[i]] else "", 0)
    ensures IsRows(es, cases)
  {
    forall i | 0 <= i < |cases|
      ensures cases[i].group == 1 && cases[i].ordinal == nums[i]
      ensures cases[i].input == ins[nums[i]] && cases[i].output == if nums[i] in outs then outs[nums[i]] else ""
    {
      var c := cases[i].(id := 0, score := 0);
      assert c.ordinal == cases[i].ordinal && c.group == cases[i].group && c.input == cases[i].input &&
          c.output == cases[i].output;
    }
    forall n ensures HasIn(es, n) <==> exists i :: 0 <= i < |cases| && cases[i].ordinal == n {
      if HasIn(es, n) {
        assert n in nums;
        var i :| 0 <= i < |nums| && nums[i] == n;
        assert cases[i].ordinal == n;
      }
      if i :| 0 <= i < |cases| && cases[i].ordinal == n { assert nums[i] in nums; }
    }
  }

  lemma {:induction false} EqualShares(cs: seq<TestCase>, base: int)
    requires forall i :: 0 <= i < |cs| ==> cs[i].score == base
    ensures ScoreSum(cs) == |cs| * base
  {
    if cs != [] { EqualShares(cs[..|cs| - 1], base); }
  }

  /** The split is exact for every total, negative ones included. */
  lemma {:induction false} SplitExact(cs: seq<TestCase>, total: int)
    requires cs != [] && Shares(cs, Quot(total, |cs|), Rem(total, |cs|))
    ensures ScoreSum(cs) == total
  {
    EqualShares(cs[..|cs| - 1], Quot(total, |cs|));
    assert (|cs| - 1) * Quot(total, |cs|) + Quot(total, |cs|) == |cs| * Quot(total, |cs|);
  }

  lemma {:induction false} SplitSigns(total: int, n: int)
    requires n > 0 && total >= 0
    ensures 0 <= Quot(total, n) && 0 <= Rem(total, n) < n && (total >= n ==> Quot(total, n) > 0)
  {
    assert total == n * (total / n) + total % n;
  }

  /** The scores sum to the total; a non-negative total gives non-negative scores in equal shares, the
      last case taking what does not divide, and one of at least the number of cases positive ones. A
      negative one is split toward zero. */
  predicate FairSplit(cs: seq<TestCase>, total: int) {
    && ScoreSum(cs) == total
    && (total >= 0 ==> forall i :: 0 <= i < |cs| ==> cs[i].score >= 0)
    && (total >= |cs| ==> forall i :: 0 <= i < |cs| ==> cs[i].score > 0)
    && (forall i, j :: 0 <= i < j < |cs| - 1 ==> cs[i].score == cs[j].score)
    && (total >= 0 ==> forall i :: 0 <= i < |cs| - 1 ==> 0 <= cs[|cs| - 1].score - cs[i].score < |cs|)
    && (total <= 0 ==> forall i :: 0 <= i < |cs| - 1 ==> -|cs| < cs[|cs| - 1].score - cs[i].score <= 0)
  }

  lemma {:induction false} SplitIsFair(cs: seq<TestCase>, total: int)
    requires cs != [] && Shares(cs, Quot(total, |cs|), Rem(total, |cs|))
    ensures FairSplit(cs, total)
  {
    SplitExact(cs, total);
    if total >= 0 { SplitSigns(total, |cs|); }
    if total <= 0 { NegativeSigns(total, |cs|); }
  }

  /** A negative score is split as its opposite is. */
  lemma {:induction false} NegativeSigns(total: int, n: int)
    requires n > 0 && total <= 0
    ensures -n < Rem(total, n) <= 0
  {
    SplitSigns(-total, n);
    Opposite(total, n);
  }

  lemma {:induction false} Opposite(total: int, n: int)
    requires n > 0
    ensures Quot(total, n) == -Quot(-total, n) && Rem(total, n) == -Rem(-total, n)
  {
    Product(n, Quot(-total, n));
  }

  lemma {:induction false} Product(n: int, q: int)
    ensures n * -q == -(n * q)
  {
  }

  /** What the administrator is warned about. */
  ghost predicate WarnsOf(es: seq<Entry>, warns: seq<Warning>) {
    forall w :: w in warns <==>
      match w
      case Ignored(name) => Other(name) in es
      case MissingOut(n) => HasIn(es, n) && (HasOut(es, n) ==> LastOut(es, n, ""))
      case MissingIn(n) => HasOut(es, n) && !HasIn(es, n)
  }

  lemma {:induction false} WarnsCollected(es: seq<Entry>, ins: map<int, string>, outs: map<int, string>,
                                          ignored: seq<Warning>, missing: seq<Warning>, orphans: seq<Warning>)
    requires Indexes(es, ins, outs)
    requires forall w :: w in ignored <==> w.Ignored? && Other(w.name) in es
    requires forall w :: w in missing <==> w.MissingOut? && w.n in ins && (w.n !in outs || outs[w.n] == "")
    requires forall w :: w in orphans <==> w.MissingIn? && w.n in outs && w.n !in ins
    ensures WarnsOf(es, ignored + missing + orphans)
  {
    forall n | n in outs ensures LastOut(es, n, "") <==> outs[n] == "" { LastOutUnique(es, n, outs[n], ""); }
  }

  /** Parsing fails exactly when there is no "N.in"; otherwise the rows are the archive's inputs and
      their scores split the problem's score exactly, whatever the entries are. */
  method ParseTestcaseEntries(es: seq<Entry>, total: int) returns (r: Parsed)
    ensures r.files == Names(es)
    ensures !r.ok <==> forall n :: !HasIn(es, n)
    ensures !r.ok ==> r.cases == []
    ensures r.ok ==> r.cases != [] && IsRows(es, r.cases) && FairSplit(r.cases, total) && WarnsOf(es, r.warns)
  {
    var ins, outs, files, warns := IndexEntries(es);
    if |ins| == 0 {
      return Parsed(false, [], files, warns);
    }
    var nums := SortedKeys(ins.Keys);
    forall i | 0 <= i < |nums| ensures nums[i] in ins { assert nums[i] in nums; }
    var cases, missing := MakeCases(nums, ins, outs, total);
    var orphans := OrphanOutputs(ins, outs);
    r := Parsed(true, cases, files, warns + missing + orphans);
    RowsFromIndex(es, ins, outs, nums, cases);
    SplitIsFair(cases, total);
    WarnsCollected(es, ins, outs, warns, missing, orphans);
    assert HasIn(es, nums[0]);
  }

  lemma {:induction false} LastOutUnique(es: seq<Entry>, n: int, a: string, b: string)
    requires LastOut(es, n, a)
    ensures LastOut(es, n, b) <==> a == b
  {
    if LastOut(es, n, b) {
      var i :| 0 <= i < |es| && es[i] == Out(n, a) && forall j :: i < j < |es| ==> !(es[j].Out? && es[j].n == n);
      var k :| 0 <= k < |es| && es[k] == Out(n, b) && forall j :: k < j < |es| ==> !(es[j].Out? && es[j].n == n);
      assert i == k;
    }
  }

  // ------------------------------------------------------------------ conservation

  /** Results of standard judging for the first cases of a task. */
  predicate Standard(cs: seq<TestCase>, rs: seq<CaseResult>) {
    && |rs| <= |cs|
    && forall i :: 0 <= i < |rs| ==>
        Ranked(rs[i].status) && rs[i].score == if rs[i].status == Accepted then cs[i].score else 0
  }

  lemma {:induction false} PrefixSum(cs: seq<TestCase>, k: nat)
    requires k <= |cs| && forall i :: 0 <= i < |cs| ==> cs[i].score >= 0
    ensures 0 <= ScoreSum(cs[..k]) <= ScoreSum(cs)
    decreases |cs|
  {
    if k < |cs| {
      assert cs[..|cs| - 1][..k] == cs[..k];
      PrefixSum(cs[..|cs| - 1], k);
    } else if cs != [] {
      assert cs[..k] == cs;
      PrefixSum(cs[..|cs| - 1], |cs| - 1);
    }
  }

  lemma {:induction false} EarnedSum(cs: seq<TestCase>, rs: seq<CaseResult>)
    requires |rs| == |cs| && Standard(cs, rs) && forall i :: 0 <= i < |cs| ==> cs[i].score >= 0
    ensures 0 <= Total(rs) <= ScoreSum(cs)
    ensures (forall i :: 0 <= i < |rs| ==> rs[i].status == Accepted) ==> Total(rs) == ScoreSum(cs)
    ensures (forall i :: 0 <= i < |cs| ==> cs[i].score > 0) && Total(rs) == ScoreSum(cs) ==>
              forall i :: 0 <= i < |rs| ==> rs[i].status == Accepted
  {
    if cs != [] {
      var n := |cs| - 1;
      EarnedSum(cs[..n], rs[..n]);
      if (forall i :: 0 <= i < |cs| ==> cs[i].score > 0) && Total(rs) == ScoreSum(cs) {
        assert rs[n].status == Accepted;
        forall i | 0 <= i < n ensures rs[i].status == Accepted { assert rs[..n][i].status == Accepted; }
      }
    }
  }

  /** End to end: the aggregated score of standard judging lies between zero and the problem's score,
      also when judging stopped early, and an Accepted run of every case earns all of it. When the
      problem's score gives every case a positive share, full score means Accepted. */
  lemma {:induction false} ScoreConserved(cs: seq<TestCase>, rs: seq<CaseResult>, total: int, status: Status,
      score: int)
    requires ScoreSum(cs) == total && forall i :: 0 <= i < |cs| ==> cs[i].score >= 0
    requires Standard(cs, rs) && IsAggregate(rs, true, status, score)
    ensures 0 <= score <= total
    ensures status == Accepted && |rs| == |cs| ==> score == total
    ensures cs != [] && (forall i :: 0 <= i < |cs| ==> cs[i].score > 0) && |rs| == |cs| && score == total ==>
              status == Accepted
  {
    PrefixSum(cs, |rs|);
    EarnedSum(cs[..|rs|], rs);
    AcceptedIff(rs, true, status, score);
    if |rs| == |cs| { assert cs[..|rs|] == cs; }
  }
}
