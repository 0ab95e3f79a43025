/** What revealing one hidden result of one cell does to everybody's rank. */
module RevealEffect {
  import opened Types
  import opened Cell
  import opened Ranking

  function RevealAt(es: seq<ScoreEntry>, i: int, start: Time, st: Settings): (r: seq<ScoreEntry>)
    requires 0 <= i < |es|
    ensures |r| == |es|
    ensures Users(r) == Users(es)
  {
    var r := es[i := RevealNext(es[i], start, st).0];
    assert forall j :: 0 <= j < |es| ==> r[j].userID == es[j].userID;
    assert forall v :: v in Users(es) ==> exists j :: 0 <= j < |es| && es[j].userID == v;
    assert forall v :: v in Users(r) ==> exists j :: 0 <= j < |r| && r[j].userID == v;
    r
  }

  /** Only the revealed user's totals move, and only by solving one problem more. */
  lemma {:induction false} TotalsAfterReveal(es: seq<ScoreEntry>, i: int, start: Time, st: Settings, v: ID)
    requires 0 <= i < |es| && CellInv(es[i])
    ensures var was, now := UserTotals(ICPC, es, v), UserTotals(ICPC, RevealAt(es, i, start, st), v);
            if v == es[i].userID && RevealNext(es[i], start, st).1 then now.score == was.score + 1
            else now == was
  {
    var r := RevealAt(es, i, start, st);
    TotalsRemove(ICPC, es, i, v);
    TotalsRemove(ICPC, r, i, v);
    assert r[..i] + r[i + 1..] == es[..i] + es[i + 1..];
  }

  /** The users ranked above v. */
  function Above(es: seq<ScoreEntry>, v: ID): set<ID> {
    set w | w in Users(es) && Better(ICPC, UserTotals(ICPC, es, w), UserTotals(ICPC, es, v))
  }

  /** The revealed user is never worse off. */
  lemma {:induction false} RevealHelpsOwner(es: seq<ScoreEntry>, i: int, start: Time, st: Settings)
    requires 0 <= i < |es| && CellInv(es[i])
    ensures RankOf(ICPC, RevealAt(es, i, start, st), es[i].userID) <= RankOf(ICPC, es, es[i].userID)
  {
    var r, u := RevealAt(es, i, start, st), es[i].userID;
    forall w { TotalsAfterReveal(es, i, start, st, w); }
    assert Above(r, u) <= Above(es, u);
    SubsetSize(Above(r, u), Above(es, u));
  }

  /** Everybody else keeps their totals and drops one place exactly when the revealed user
      overtakes them. */
  lemma {:induction false} RevealShiftsOthers(es: seq<ScoreEntry>, i: int, start: Time, st: Settings, v: ID)
    requires 0 <= i < |es| && CellInv(es[i]) && v != es[i].userID
    ensures UserTotals(ICPC, RevealAt(es, i, start, st), v) == UserTotals(ICPC, es, v)
    ensures var r, u := RevealAt(es, i, start, st), es[i].userID;
            var overtaken := Better(ICPC, UserTotals(ICPC, r, u), UserTotals(ICPC, r, v))
                          && !Better(ICPC, UserTotals(ICPC, es, u), UserTotals(ICPC, es, v));
            RankOf(ICPC, r, v) == RankOf(ICPC, es, v) + if overtaken then 1 else 0
  {
    var r, u := RevealAt(es, i, start, st), es[i].userID;
    forall w | w != u ensures UserTotals(ICPC, r, w) == UserTotals(ICPC, es, w) {
      TotalsAfterReveal(es, i, start, st, w);
    }
    TotalsAfterReveal(es, i, start, st, u);
    assert es[i] in es && u in Users(es);
    AboveChanges(es, r, u, v);
    assert RankOf(ICPC, r, v) == 1 + |Above(r, v)| && RankOf(ICPC, es, v) == 1 + |Above(es, v)|;
    if u in Above(r, v) && u !in Above(es, v) {
      assert Above(r, v) == Above(es, v) + {u};
    } else {
      assert Above(r, v) == Above(es, v);
    }
  }

  /** When only `u`'s totals moved, and upwards, `u` is the one user who can come to stand above `v`. */
  lemma {:induction false} AboveChanges(es: seq<ScoreEntry>, r: seq<ScoreEntry>, u: ID, v: ID)
    requires Users(r) == Users(es) && u in Users(es) && v != u
    requires forall w :: w != u ==> UserTotals(ICPC, r, w) == UserTotals(ICPC, es, w)
    requires UserTotals(ICPC, r, u) == UserTotals(ICPC, es, u) ||
               UserTotals(ICPC, r, u).score == UserTotals(ICPC, es, u).score + 1
    ensures Above(r, v) == Above(es, v) + (if u in Above(r, v) then {u} else {})
    ensures u in Above(r, v) <==> Better(ICPC, UserTotals(ICPC, r, u), UserTotals(ICPC, r, v))
    ensures u in Above(es, v) <==> Better(ICPC, UserTotals(ICPC, es, u), UserTotals(ICPC, es, v))
  {
    forall w ensures w in Above(r, v) <==> w in Above(es, v) + (if u in Above(r, v) then {u} else {}) {
      if w != u { assert w in Above(r, v) <==> w in Above(es, v); }
    }
  }
}
