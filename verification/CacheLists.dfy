/** The mutex-guarded list and index of the testcase cache, updated in place. */
module CacheLists {
  import opened Types
  import opened CacheModel
  import opened CacheLru

  /** A directory entry found by Prune. */
  datatype FoundDir = FoundDir(name: string, isDir: bool, mtime: Time)

  // ------------------------------------------------------------------ names and ids

  const MAX_ID: int := 0x8000_0000_0000_0000

  predicate IsDigit(c: char) {
    '0' <= c <= '9'
  }

  predicate AllDigits(s: string) {
    forall i :: 0 <= i < |s| ==> IsDigit(s[i])
  }

  function Value(s: string): int
    requires AllDigits(s)
  {
    if s == [] then 0 else Value(s[..|s| - 1]) * 10 + (s[|s| - 1] as int - '0' as int)
  }

  /** strconv.ParseInt(s, 10, 64): an optional sign, then digits, within 64 bits. */
  function ParseInt(s: string): Option<ID> {
    var signed := s != [] && (s[0] == '-' || s[0] == '+');
    var body := if signed then s[1..] else s;
    if body == [] || !AllDigits(body) then None
    else
      var v: int := if signed && s[0] == '-' then 0 - Value(body) else Value(body);
      if -MAX_ID <= v < MAX_ID then Some(v) else None
  }

  function Digits(n: nat): string {
    if n < 10 then [('0' as int + n) as char] else Digits(n / 10) + [('0' as int + n % 10) as char]
  }

  /** The name the cache itself gives a problem's directory: strconv.FormatInt(id, 10). */
  function Decimal(id: ID): string {
    if id < 0 then "-" + Digits(-id) else Digits(id)
  }

  lemma {:induction false} DigitsValue(n: nat)
    ensures Digits(n) != [] && AllDigits(Digits(n)) && Value(Digits(n)) == n
  {
    if n < 10 {
      assert Digits(n)[..0] == [];
    } else {
      DigitsValue(n / 10);
      var d := Digits(n);
      assert d[..|d| - 1] == Digits(n / 10);
    }
  }

  /** Parsing the name of a problem's directory gives the problem back. */
  lemma {:induction false} DecimalParses(id: ID)
    requires -MAX_ID <= id < MAX_ID
    ensures ParseInt(Decimal(id)) == Some(id)
  {
    DigitsValue(if id < 0 then -id else id);
    if id < 0 {
      assert Decimal(id)[1..] == Digits(-id);
    } else {
      assert IsDigit(Decimal(id)[0]);
    }
  }

  function Zeros(k: nat): string {
    if k == 0 then "" else Zeros(k - 1) + "0"
  }

  lemma {:induction false} ZerosMore(k: nat)
    ensures AllDigits(Zeros(k)) && Zeros(k) + "0" == Zeros(k + 1)
  {
    if k > 0 { ZerosMore(k - 1); }
  }

  /** A string of digits spells its value, after some zeros. */
  lemma {:induction false} ValueSpelling(s: string) returns (k: nat)
    requires s != [] && AllDigits(s)
    ensures Value(s) >= 0 && s == Zeros(k) + Digits(Value(s))
  {
    var n := |s| - 1;
    assert s == s[..n] + [s[n]];
    if n == 0 {
      k := 0;
      assert Value(s[..0]) == 0;
      OneDigit(s[n]);
    } else {
      k := ValueSpelling(s[..n]);
      k := SpellMore(k, Value(s[..n]), s[n]);
    }
  }

  lemma {:induction false} OneDigit(c: char)
    requires IsDigit(c)
    ensures Zeros(0) + Digits(c as int - '0' as int) == [c]
  {
  }

  /** One more digit. */
  lemma {:induction false} SpellMore(k: nat, v: int, c: char) returns (m: nat)
    requires v >= 0 && IsDigit(c)
    ensures Zeros(k) + Digits(v) + [c] == Zeros(m) + Digits(v * 10 + (c as int - '0' as int))
  {
    if v == 0 {
      assert Digits(0) == "0";
      ZerosMore(k);
      OneDigit(c);
      m := k + 1;
      assert Zeros(0) == "";
    } else {
      m := k;
      assert Digits(v * 10 + (c as int - '0' as int)) == Digits(v) + [c];
    }
  }

  /** A name parses to an id exactly if it is the id's decimal, up to leading zeros and an optional sign. */
  lemma {:induction false} ParsedSpelling(s: string, id: ID) returns (sign: string, k: nat)
    requires ParseInt(s) == Some(id)
    ensures -MAX_ID <= id < MAX_ID && (sign == "" || sign == "-" || sign == "+")
    ensures s == sign + Zeros(k) + Digits(if id < 0 then -id else id) && (sign == "-" ==> id <= 0) &&
              (id < 0 ==> sign == "-")
  {
    var signed := s[0] == '-' || s[0] == '+';
    var body := if signed then s[1..] else s;
    sign := if signed then s[..1] else "";
    k := ValueSpelling(body);
    assert Value(body) == if id < 0 then -id else id;
    Joined(s, sign, body, Zeros(k), Digits(Value(body)));
  }

  lemma {:induction false} Joined(s: string, sign: string, body: string, a: string, b: string)
    requires body == a + b && s == sign + body
    ensures s == sign + a + b
  {
  }

  /** A hidden name never parses, so skipping hidden entries changes nothing. */
  lemma {:induction false} HiddenNeverParses(name: string)
    requires name != "" && name[0] == '.'
    ensures ParseInt(name).None?
  {
    assert !IsDigit(name[0]);
  }

  /** Go skips entries that are no directory, hidden, or not named by a number. */
  predicate IsProblemDir(d: FoundDir) {
    d.isDir && (d.name == "" || d.name[0] != '.') && ParseInt(d.name).Some?
  }

  function ProblemDirs(found: seq<FoundDir>): (r: seq<FoundDir>)
    ensures forall d :: d in r <==> d in found && d.isDir && ParseInt(d.name).Some?
  {
    if found == [] then []
    else
      var n := |found| - 1;
      assert found[n].name != "" && found[n].name[0] == '.' ==> ParseInt(found[n].name).None? by {
        if found[n].name != "" && found[n].name[0] == '.' { HiddenNeverParses(found[n].name); }
      }
      ProblemDirs(found[..n]) + if IsProblemDir(found[n]) then [found[n]] else []
  }

  predicate AllNumbered(order: seq<FoundDir>) {
    forall i :: 0 <= i < |order| ==> ParseInt(order[i].name).Some?
  }

  function EntriesOf(order: seq<FoundDir>): (r: seq<Entry>)
    requires AllNumbered(order)
    ensures |r| == |order|
    ensures forall i :: 0 <= i < |order| ==> r[i] == Entry(ParseInt(order[i].name).value, ZERO_TIME, 0, 0, -1 - i)
  {
    seq(|order|, i requires 0 <= i < |order| => Entry(ParseInt(order[i].name).value, ZERO_TIME, 0, 0, -1 - i))
  }

  predicate NewestFirst(order: seq<FoundDir>) {
    forall i, j :: 0 <= i < j < |order| ==> order[i].mtime >= order[j].mtime
  }

  class LruLists {
    const maxEntries: nat
    var lruList: seq<Entry>
    var index: set<ID>

    constructor (maxEntries: int)
      ensures lruList == [] && index == {}
      ensures this.maxEntries == (if maxEntries <= 0 then 200 else maxEntries)
    {
      this.maxEntries := if maxEntries <= 0 then 200 else maxEntries;
      lruList := [];
      index := {};
    }

    /** evictIfNeeded: drop from the back until the list fits; each dropped id goes to a deletion. */
    method EvictIfNeeded() returns (gone: seq<ID>)
      modifies this
      ensures lruList == Kept(old(lruList), maxEntries)
      ensures index == old(index) - Ids(Evicted(old(lruList), maxEntries))
      ensures multiset(gone) == multiset(IdSeq(Evicted(old(lruList), maxEntries)))
    {
      gone := [];
      ghost var was, ids := lruList, index;
      ghost var n := |was|;
      while |lruList| > maxEntries
        invariant n == |lruList| && Min(|was|, maxEntries) <= n <= |was| && lruList == was[..n]
        invariant index == ids - Ids(was[n..])
        invariant multiset(gone) == multiset(IdSeq(was[n..]))
        decreases |lruList|
      {
        var back := lruList[|lruList| - 1];
        lruList := lruList[..|lruList| - 1];
        index := index - {back.p};
        gone := gone + [back.p];
        n := n - 1;
        DropOne(was, n);
      }
    }

    /** promoteEntry. */
    method PromoteEntry(e: Entry) returns (gone: seq<ID>)
      modifies this
      ensures Lists(lruList, index) == Promoted(Lists(old(lruList), old(index)), e, maxEntries)
      ensures multiset(gone) == multiset(IdSeq(PromoteEvicts(Lists(old(lruList), old(index)), e, maxEntries)))
    {
      if e.p in index {
        lruList := ToFront(lruList, e);
        return [];
      }
      lruList := ToFront(lruList, e);
      index := index + {e.p};
      gone := EvictIfNeeded();
    }

    /** Prune, on an empty cache. */
    method Prune(found: seq<FoundDir>) returns (gone: seq<ID>, ghost order: seq<FoundDir>)
      requires lruList == [] && index == {}
      modifies this
      ensures multiset(order) == multiset(ProblemDirs(found)) && NewestFirst(order)
      ensures AllNumbered(order)
      ensures lruList == Kept(EntriesOf(order), maxEntries)
      ensures index == Ids(EntriesOf(order)) - Ids(Evicted(EntriesOf(order), maxEntries))
      ensures multiset(gone) == multiset(IdSeq(Evicted(EntriesOf(order), maxEntries)))
    {
      var dirs := CollectDirs(found);
      dirs := SortNewestFirst(dirs);
      order := dirs;
      forall i | 0 <= i < |dirs| ensures ParseInt(dirs[i].name).Some? {
        assert dirs[i] in multiset(dirs) && dirs[i] in ProblemDirs(found);
      }
      IndexDirs(dirs);
      gone := EvictIfNeeded();
    }

    method IndexDirs(dirs: seq<FoundDir>)
      requires lruList == [] && index == {} && AllNumbered(dirs)
      modifies this
      ensures lruList == EntriesOf(dirs) && index == Ids(EntriesOf(dirs))
    {
      ghost var es := EntriesOf(dirs);
      for i := 0 to |dirs|
        invariant lruList == es[..i] && index == Ids(es[..i])
      {
        var e := Entry(ParseInt(dirs[i].name).value, ZERO_TIME, 0, 0, -1 - i);
        assert e == es[i];
        lruList := lruList + [e];
        index := index + {e.p};
        assert es[..i + 1] == es[..i] + [es[i]];
        IdsAppend(es, i);
      }
      assert es[..|dirs|] == es;
    }
  }

  lemma {:induction false} IdsAppend(l: seq<Entry>, i: nat)
    requires i < |l|
    ensures Ids(l[..i + 1]) == Ids(l[..i]) + {l[i].p}
  {
  }

  lemma {:induction false} DropOne(l: seq<Entry>, n: nat)
    requires n < |l|
    ensures Ids(l[n..]) == Ids(l[n + 1..]) + {l[n].p}
    ensures multiset(IdSeq(l[n..])) == multiset(IdSeq(l[n + 1..])) + multiset{l[n].p}
  {
    var a, b := l[n..], l[n + 1..];
    assert a == [l[n]] + b;
    assert IdSeq(a) == [l[n].p] + IdSeq(b);
    forall i | 0 <= i < |b| ensures b[i].p in Ids(a) { assert a[i + 1] == b[i]; }
    assert a[0].p in Ids(a);
  }

  method CollectDirs(found: seq<FoundDir>) returns (dirs: seq<FoundDir>)
    ensures dirs == ProblemDirs(found)
  {
    dirs := [];
    for i := 0 to |found|
      invariant dirs == ProblemDirs(found[..i])
    {
      assert found[..i + 1][..i] == found[..i];
      if IsProblemDir(found[i]) {
        dirs := dirs + [found[i]];
      }
    }
    assert found[..|found|] == found;
  }

  /** sort.Slice by modification time, newest first. */
  method SortNewestFirst(dirs: seq<FoundDir>) returns (r: seq<FoundDir>)
    ensures NewestFirst(r) && multiset(r) == multiset(dirs)
  {
    r := [];
    for i := 0 to |dirs|
      invariant NewestFirst(r) && multiset(r) == multiset(dirs[..i])
    {
      assert dirs[..i + 1] == dirs[..i] + [dirs[i]];
      r := InsertByTime(r, dirs[i]);
    }
    assert dirs[..|dirs|] == dirs;
  }

  method InsertByTime(dirs: seq<FoundDir>, d: FoundDir) returns (r: seq<FoundDir>)
    requires NewestFirst(dirs)
    ensures NewestFirst(r) && multiset(r) == multiset(dirs) + multiset{d}
  {
    var k := |dirs|;
    while k > 0 && dirs[k - 1].mtime < d.mtime
      invariant 0 <= k <= |dirs|
      invariant forall j :: k <= j < |dirs| ==> dirs[j].mtime < d.mtime
    {
      k := k - 1;
    }
    r := dirs[..k] + [d] + dirs[k..];
    InsertedNewestFirst(dirs, d, k);
    InsertedOnce(dirs, d, k);
  }

  lemma {:induction false} InsertedOnce(dirs: seq<FoundDir>, d: FoundDir, k: nat)
    requires k <= |dirs|
    ensures multiset(dirs[..k] + [d] + dirs[k..]) == multiset(dirs) + multiset{d}
  {
    assert dirs == dirs[..k] + dirs[k..];
  }

  lemma {:induction false} InsertedNewestFirst(dirs: seq<FoundDir>, d: FoundDir, k: nat)
    requires NewestFirst(dirs) && k <= |dirs| && (k > 0 ==> dirs[k - 1].mtime >= d.mtime)
    requires forall j :: k <= j < |dirs| ==> dirs[j].mtime < d.mtime
    ensures NewestFirst(dirs[..k] + [d] + dirs[k..])
  {
    var r := dirs[..k] + [d] + dirs[k..];
    assert forall i :: 0 <= i < |r| ==> r[i] == if i < k then dirs[i] else if i == k then d else dirs[i - 1];
    forall i | 0 <= i < k ensures dirs[i].mtime >= d.mtime { assert i < k - 1 ==> dirs[i].mtime >= dirs[k - 1].mtime; }
  }

  // ------------------------------------------------------------------ what Prune establishes

  /** What Prune leaves in memory. */
  function Pruned(order: seq<FoundDir>, max: nat): Lists
    requires AllNumbered(order)
  {
    var l := EntriesOf(order);
    Lists(Kept(l, max), Ids(l) - Ids(Evicted(l, max)))
  }

  /** No directory that stays spells the same id as a later one. */
  predicate NoRespelling(order: seq<FoundDir>, max: nat) {
    forall i, j :: 0 <= i < j < |order| && i < max ==> ParseInt(order[i].name) != ParseInt(order[j].name)
  }

  /** After Prune the list and index are in bijection, within capacity and newest first, exactly when
      no directory kept spells the same id as another one found. */
  lemma {:induction false} PruneListsIff(order: seq<FoundDir>, max: nat)
    requires AllNumbered(order)
    ensures OkLists(Pruned(order, max), max, 0) <==> NoRespelling(order, max)
  {
    var l, n := EntriesOf(order), Min(|order|, max);
    if NoRespelling(order, max) { NoRespellingOk(order, max); }
    if OkLists(Pruned(order, max), max, 0) {
      forall i, j | 0 <= i < j < |order| && i < max ensures ParseInt(order[i].name) != ParseInt(order[j].name) {
        assert l[..n][i] == l[i] && l[i].p in Ids(Kept(l, max));
        if j < n {
          assert Kept(l, max)[j] == l[j];
        } else {
          assert Evicted(l, max)[j - n] == l[j];
          assert l[j].p in Ids(Evicted(l, max));
        }
      }
    }
  }

  lemma {:induction false} NoRespellingOk(order: seq<FoundDir>, max: nat)
    requires AllNumbered(order) && NoRespelling(order, max)
    ensures OkLists(Pruned(order, max), max, 0)
  {
    var l := EntriesOf(order);
    KeptIds(l, Min(|l|, max));
  }

  lemma {:induction false} KeptIds(l: seq<Entry>, n: nat)
    requires n <= |l| && forall i, j :: 0 <= i < j < |l| && i < n ==> l[i].p != l[j].p
    ensures Ids(l[..n]) == Ids(l) - Ids(l[n..])
  {
    var kept, gone := l[..n], l[n..];
    forall x | x in Ids(kept) ensures x in Ids(l) - Ids(gone) {
      var i :| 0 <= i < n && kept[i].p == x;
      assert l[i].p == x;
      assert forall j :: 0 <= j < |gone| ==> gone[j] == l[n + j];
    }
    forall x | x in Ids(l) - Ids(gone) ensures x in Ids(kept) {
      var i :| 0 <= i < |l| && l[i].p == x;
      assert forall j :: 0 <= j < |gone| ==> gone[j].p in Ids(gone) && gone[j] == l[n + j];
      assert i < n ==> kept[i].p == x;
    }
  }

  /** Directories the cache made itself, one per problem, are read back as those problems and satisfy
      the list invariant. */
  lemma {:induction false} PruneEstablishesLists(problems: seq<ID>, order: seq<FoundDir>, max: nat)
    requires |problems| == |order| && forall i, j :: 0 <= i < j < |problems| ==> problems[i] != problems[j]
    requires forall i :: 0 <= i < |order| ==> -MAX_ID <= problems[i] < MAX_ID && order[i].name == Decimal(problems[i])
    ensures AllNumbered(order) && OkLists(Pruned(order, max), max, 0)
    ensures forall i :: 0 <= i < |order| ==> EntriesOf(order)[i].p == problems[i]
  {
    forall i | 0 <= i < |order| ensures ParseInt(order[i].name) == Some(problems[i]) { DecimalParses(problems[i]); }
    PruneListsIff(order, max);
  }

  /** Directories "7" and "07" both parse to 7: the list gets two elements for one index key. */
  lemma {:induction false} PruneNeedsCanonicalNames()
    ensures var order := [FoundDir("7", true, 2), FoundDir("07", true, 1)];
            && NewestFirst(order) && (forall d :: d in order ==> IsProblemDir(d)) && AllNumbered(order)
            && order[0].name != order[1].name && !OkLists(Pruned(order, 5), 5, 0)
  {
    var order := [FoundDir("7", true, 2), FoundDir("07", true, 1)];
    assert "7"[..0] == "" && "07"[..1] == "0" && "0"[..0] == "";
    assert Value("0") == 0 && Value("7") == 7 && Value("07") == 7;
    assert ParseInt("7") == Some(7) && ParseInt("07") == Some(7);
    assert |order[0].name| == 1 && |order[1].name| == 2;
    PruneListsIff(order, 5);
    assert ParseInt(order[0].name) == ParseInt(order[1].name);
  }
}
