/** Identifiers, instants, verdicts and contest settings shared by every component. */
module Types {

  type ID = int

  /** An instant in nanoseconds. Go's zero `time.Time` is the distinguished value ZERO_TIME. */
  type Time = int

  const ZERO_TIME: Time := 0

  const MINUTE: int := 60_000_000_000

  datatype Option<+T> = None | Some(value: T)

  datatype Status =
    | Pending
    | Compiling
    | Judging
    | Accepted
    | WrongAnswer
    | TLE
    | MLE
    | RE
    | CE
    | SE
    | Superseded

  datatype Settings = Settings(penaltyMinutes: nat, ceNoPenalty: bool, strictLast: bool)

  /** Go's `int(d.Minutes())`: whole minutes, truncated toward zero. */
  function Minutes(d: int): int {
    if d >= 0 then d / MINUTE else -((-d) / MINUTE)
  }

  lemma EmptyWithoutMembers(s: set<ID>)
    requires forall x :: x !in s
    ensures s == {}
  {
    assert forall x :: x in s <==> x in {};
  }

  lemma SomeMember(s: set<ID>)
    requires s != {}
    ensures exists x :: x in s
  {
    if forall x :: x !in s {
      EmptyWithoutMembers(s);
      assert false;
    }
  }

  lemma {:induction false} SubsetSize(a: set<ID>, b: set<ID>)
    requires a <= b
    ensures |a| <= |b|
  {
    assert b == a + (b - a);
  }
}
