/** First blood: for each problem the earliest accepted entry, ties to the smaller user id. */
module FirstBlood {
  import opened Types
  import opened Cell
  import opened Ranking

  predicate Eligible(e: ScoreEntry) {
    e.accepted && e.bestSubmitTime != ZERO_TIME
  }

  predicate Earlier(a: ScoreEntry, b: ScoreEntry) {
    a.bestSubmitTime < b.bestSubmitTime || (a.bestSubmitTime == b.bestSubmitTime && a.userID < b.userID)
  }

  predicate Rivals(a: ScoreEntry, b: ScoreEntry) {
    Eligible(a) && Eligible(b) && a.problemID == b.problemID
  }

  /** Entry i owns first blood of its problem; of equally early entries the first listed wins. */
  predicate HoldsAt(es: seq<ScoreEntry>, i: int)
    requires 0 <= i < |es|
  {
    && Eligible(es[i])
    && (forall j :: 0 <= j < i && Rivals(es[i], es[j]) ==> Earlier(es[i], es[j]))
    && (forall j :: i < j < |es| && Rivals(es[i], es[j]) ==> !Earlier(es[j], es[i]))
  }

  function Flagged(es: seq<ScoreEntry>): (r: seq<ScoreEntry>)
    ensures |r| == |es|
    ensures forall i :: 0 <= i < |es| ==> r[i] == es[i].(isFirstBlood := HoldsAt(es, i))
  {
    seq(|es|, i requires 0 <= i < |es| => es[i].(isFirstBlood := HoldsAt(es, i)))
  }

  /** `first` maps each problem with an eligible entry among the first i to its holder among them. */
  predicate Owners(es: seq<ScoreEntry>, i: int, first: map<ID, int>)
    requires 0 <= i <= |es|
  {
    && (forall p :: p in first ==> 0 <= first[p] < i && es[first[p]].problemID == p && HoldsAt(es[..i], first[p]))
    && (forall j :: 0 <= j < i && Eligible(es[j]) ==> es[j].problemID in first)
  }

  /** assignFirstBlood. */
  method AssignFirstBlood(a: array<ScoreEntry>)
    modifies a
    ensures a[..] == Flagged(old(a[..]))
    ensures DistinctKeys(old(a[..])) ==>
              forall i :: 0 <= i < a.Length ==> (a[i].isFirstBlood <==> SolvedFirst(old(a[..]), old(a[i])))
  {
    ghost var es := a[..];
    var first := ClearAndCollect(a);
    MarkHolders(a, first);
    OwnersHold(es, first);
    if DistinctKeys(es) {
      forall i | 0 <= i < a.Length ensures a[i].isFirstBlood <==> SolvedFirst(es, es[i]) { FlaggedIff(es, i); }
    }
  }

  /** Nobody solved the problem at an earlier instant, nor at the same one with a smaller user id. */
  predicate SolvedFirst(es: seq<ScoreEntry>, e: ScoreEntry) {
    && e.accepted && e.bestSubmitTime != ZERO_TIME
    && forall f :: f in es && f.problemID == e.problemID && f.accepted && f.bestSubmitTime != ZERO_TIME ==>
        e.bestSubmitTime <= f.bestSubmitTime && (e.bestSubmitTime == f.bestSubmitTime ==> e.userID <= f.userID)
  }

  /** First blood goes exactly to whoever solved the problem first. */
  lemma {:induction false} FlaggedIff(es: seq<ScoreEntry>, i: int)
    requires DistinctKeys(es) && 0 <= i < |es|
    ensures Flagged(es)[i].isFirstBlood <==> SolvedFirst(es, es[i])
  {
    HolderIsLeast(es, i);
    if SolvedFirst(es, es[i]) {
      forall f | f in es && Rivals(es[i], f) && f.userID != es[i].userID ensures Earlier(es[i], f) { }
    }
    if Least(es, es[i]) {
      forall f | f in es && f.problemID == es[i].problemID && Eligible(f)
        ensures es[i].bestSubmitTime <= f.bestSubmitTime
        ensures es[i].bestSubmitTime == f.bestSubmitTime ==> es[i].userID <= f.userID
      {
        var j :| 0 <= j < |es| && es[j] == f;
        assert j != i ==> f.userID != es[i].userID;
      }
    }
  }

  method MarkHolders(a: array<ScoreEntry>, first: map<ID, int>)
    requires forall p :: p in first ==> 0 <= first[p] < a.Length && a[first[p]].problemID == p
    requires forall j :: 0 <= j < a.Length ==> !a[j].isFirstBlood
    modifies a
    ensures forall j :: 0 <= j < a.Length ==>
              a[j] == old(a[j]).(isFirstBlood := old(a[j]).problemID in first && first[old(a[j]).problemID] == j)
  {
    ghost var es := a[..];
    var todo := first.Keys;
    while todo != {}
      invariant todo <= first.Keys
      invariant forall j :: 0 <= j < a.Length ==>
                  a[j] == es[j].(isFirstBlood := es[j].problemID in first.Keys - todo && first[es[j].problemID] == j)
      decreases |todo|
    {
      SomeMember(todo);
      var p :| p in todo;
      todo := todo - {p};
      a[first[p]] := a[first[p]].(isFirstBlood := true);
    }
  }

  method ClearAndCollect(a: array<ScoreEntry>) returns (first: map<ID, int>)
    modifies a
    ensures Owners(old(a[..]), a.Length, first)
    ensures forall j :: 0 <= j < a.Length ==> a[j] == old(a[j]).(isFirstBlood := false)
  {
    ghost var es := a[..];
    first := map[];
    for i := 0 to a.Length
      invariant forall j :: 0 <= j < i ==> a[j] == es[j].(isFirstBlood := false)
      invariant forall j :: i <= j < a.Length ==> a[j] == es[j]
      invariant Owners(es, i, first)
    {
      a[i] := a[i].(isFirstBlood := false);
      ghost var was := first;
      if Eligible(a[i]) {
        var p := a[i].problemID;
        if p !in first || Earlier(a[i], a[first[p]]) {
          first := first[p := i];
        }
      }
      OwnersStep(es, i, was, first);
    }
  }

  lemma OwnersStep(es: seq<ScoreEntry>, i: int, was: map<ID, int>, first: map<ID, int>)
    requires 0 <= i < |es| && Owners(es, i, was)
    requires var p := es[i].problemID;
             first == if Eligible(es[i]) && (p !in was || Earlier(es[i], es[was[p]])) then was[p := i] else was
    ensures Owners(es, i + 1, first)
  {
    var a, b := es[..i], es[..i + 1];
    assert forall j :: 0 <= j < i ==> a[j] == b[j] == es[j];
    forall p | p in first ensures HoldsAt(b, first[p]) {
      var k := first[p];
      if k == i && p in was {
        var h := was[p];
        forall j | 0 <= j < i && Rivals(b[i], b[j]) ensures Earlier(b[i], b[j]) {
          assert Rivals(a[h], a[j]);
        }
      }
    }
  }

  lemma OwnersHold(es: seq<ScoreEntry>, first: map<ID, int>)
    requires Owners(es, |es|, first)
    ensures forall j :: 0 <= j < |es| ==> (HoldsAt(es, j) <==> es[j].problemID in first && first[es[j].problemID] == j)
  {
    assert es[..|es|] == es;
    forall j | 0 <= j < |es| && HoldsAt(es, j) ensures first[es[j].problemID] == j {
      HolderUnique(es, j, first[es[j].problemID]);
    }
  }

  /** At most one holder per problem, for any entries. */
  lemma HolderUnique(es: seq<ScoreEntry>, i: int, j: int)
    requires 0 <= i < |es| && 0 <= j < |es| && es[i].problemID == es[j].problemID
    requires HoldsAt(es, i) && HoldsAt(es, j)
    ensures i == j
  {
  }

  /** A problem has a holder as soon as one of its entries is eligible. */
  lemma {:induction false} HolderExists(es: seq<ScoreEntry>, k: int) returns (h: int)
    requires 0 <= k < |es| && Eligible(es[k])
    ensures 0 <= h < |es| && es[h].problemID == es[k].problemID && HoldsAt(es, h)
    ensures h == k || !Earlier(es[k], es[h])
  {
    h := k;
    for i := 0 to |es|
      invariant 0 <= h < |es| && Rivals(es[h], es[k])
      invariant h == k || !Earlier(es[k], es[h])
      invariant forall j :: 0 <= j < i && j < h && Rivals(es[h], es[j]) ==> Earlier(es[h], es[j])
      invariant forall j :: 0 <= j < i && h < j && Rivals(es[h], es[j]) ==> !Earlier(es[j], es[h])
    {
      if Rivals(es[i], es[k]) && ((i < h && !Earlier(es[h], es[i])) || (h < i && Earlier(es[i], es[h]))) {
        h := i;
      }
    }
  }

  /** With one entry per (user, problem): the holder is the least by (time, user). */
  predicate Least(es: seq<ScoreEntry>, e: ScoreEntry) {
    Eligible(e) && forall f :: f in es && Rivals(e, f) && f.userID != e.userID ==> Earlier(e, f)
  }

  lemma HolderIsLeast(es: seq<ScoreEntry>, i: int)
    requires DistinctKeys(es) && 0 <= i < |es|
    ensures HoldsAt(es, i) <==> Least(es, es[i])
  {
    if Least(es, es[i]) {
      assert forall j :: 0 <= j < |es| && j != i && Rivals(es[i], es[j]) ==>
          es[j] in es && es[j].userID != es[i].userID;
    }
  }

  function Unflagged(e: ScoreEntry): ScoreEntry {
    e.(isFirstBlood := false)
  }

  predicate Twins(a: ScoreEntry, b: ScoreEntry) {
    Unflagged(a) == Unflagged(b)
  }

  /** Every entry of `a` occurs in `b`, flags aside. */
  predicate Covers(a: seq<ScoreEntry>, b: seq<ScoreEntry>) {
    forall e :: e in a ==> exists f :: f in b && Twins(e, f)
  }

  lemma LeastTransfers(a: seq<ScoreEntry>, b: seq<ScoreEntry>, e: ScoreEntry, f: ScoreEntry)
    requires Covers(b, a) && Twins(e, f) && Least(a, e)
    ensures Least(b, f)
  {
    assert Eligible(f) && e.userID == f.userID && e.problemID == f.problemID && e.bestSubmitTime == f.bestSubmitTime;
    forall g | g in b && Rivals(f, g) && g.userID != f.userID ensures Earlier(f, g) {
      var h :| h in a && Twins(g, h);
      assert Eligible(h) && h.userID == g.userID && h.problemID == g.problemID && h.bestSubmitTime == g.bestSubmitTime;
      assert Rivals(e, h);
    }
  }

  /** The flags depend neither on the order of the entries nor on the flags they came with. */
  lemma FlagsDetermined(a: seq<ScoreEntry>, b: seq<ScoreEntry>, i: int, j: int)
    requires DistinctKeys(a) && DistinctKeys(b) && Covers(a, b) && Covers(b, a)
    requires 0 <= i < |a| && 0 <= j < |b| && Twins(a[i], b[j])
    ensures Flagged(a)[i] == Flagged(b)[j]
  {
    HolderIsLeast(a, i);
    HolderIsLeast(b, j);
    if Least(a, a[i]) { LeastTransfers(a, b, a[i], b[j]); }
    if Least(b, b[j]) { LeastTransfers(b, a, b[j], a[i]); }
    assert Flagged(a)[i] == Unflagged(a[i]).(isFirstBlood := HoldsAt(a, i));
    assert Flagged(b)[j] == Unflagged(b[j]).(isFirstBlood := HoldsAt(b, j));
  }

  lemma FlagsIdempotent(es: seq<ScoreEntry>)
    ensures Flagged(Flagged(es)) == Flagged(es)
  {
    var r := Flagged(es);
    forall i | 0 <= i < |es| ensures HoldsAt(r, i) <==> HoldsAt(es, i) {
      assert forall j :: 0 <= j < |es| ==> (Rivals(r[i], r[j]) <==> Rivals(es[i], es[j]));
      assert forall j :: 0 <= j < |es| ==> (Earlier(r[i], r[j]) <==> Earlier(es[i], es[j]));
      assert forall j :: 0 <= j < |es| ==> (Earlier(r[j], r[i]) <==> Earlier(es[j], es[i]));
    }
  }
}
