/** Fair schedules of two handlers, and the descent argument for them. */
module FairDescent {

  /** Whose turn it is to make its next call: Reconcile's or CycleSync's. */
  datatype Turn = R | C

  ghost predicate Comes(schedule: nat -> Turn, n: nat, turn: Turn)
  {
    exists m: nat :: m >= n && schedule(m) == turn
  }

  /** Neither handler is ever put off forever. */
  ghost predicate Fair(schedule: nat -> Turn)
  {
    forall n: nat, turn: Turn :: Comes(schedule, n, turn)
  }

  /** At every turn the rank does not grow; a helpful turn lowers it; and who is helpful only
      changes when the rank does. */
  ghost predicate Descending(schedule: nat -> Turn, rank: nat -> nat, helpful: nat -> Turn)
  {
    forall n: nat ::
      && rank(n + 1) <= rank(n)
      && (rank(n) > 0 && schedule(n) == helpful(n) ==> rank(n + 1) < rank(n))
      && (rank(n + 1) == rank(n) ==> helpful(n + 1) == helpful(n))
  }

  lemma {:induction false} NeverGrows(schedule: nat -> Turn, rank: nat -> nat, helpful: nat -> Turn, n: nat, m: nat)
    requires Descending(schedule, rank, helpful) && n <= m
    ensures rank(m) <= rank(n)
    ensures rank(m) == rank(n) ==> helpful(m) == helpful(n)
    decreases m - n
  {
    if n < m {
      NeverGrows(schedule, rank, helpful, n, m - 1);
      assert rank(m - 1 + 1) <= rank(m - 1);
    }
  }

  /** What a handler's own calls bring to zero, and nobody else's raise, is zero at some later turn. */
  lemma {:induction false} Reaches(schedule: nat -> Turn, rank: nat -> nat, turn: Turn, n: nat, next: nat)
    returns (zero: nat)
    requires Fair(schedule) && next >= n && schedule(next) == turn
    requires forall m: nat | rank(m) > 0 :: rank(m + 1) <= rank(m) && (schedule(m) == turn ==> rank(m + 1) < rank(m))
    ensures zero >= n && rank(zero) == 0
    decreases rank(n), next - n
  {
    if rank(n) == 0 {
      zero := n;
    } else if schedule(n) == turn {
      assert rank(n + 1) < rank(n);
      assert Comes(schedule, n + 1, turn);
      var later: nat :| later >= n + 1 && schedule(later) == turn;
      zero := Reaches(schedule, rank, turn, n + 1, later);
    } else {
      assert rank(n + 1) <= rank(n);
      zero := Reaches(schedule, rank, turn, n + 1, next);
    }
  }

  /** Under a fair schedule the rank is zero from some turn on. */
  lemma {:induction false} ReachesZero(schedule: nat -> Turn, rank: nat -> nat, helpful: nat -> Turn, n: nat)
    returns (zero: nat)
    requires Descending(schedule, rank, helpful) && Fair(schedule)
    ensures zero >= n && forall m: nat | m >= zero :: rank(m) == 0
    decreases rank(n)
  {
    if rank(n) == 0 {
      zero := n;
      forall m: nat | m >= zero ensures rank(m) == 0 {
        NeverGrows(schedule, rank, helpful, zero, m);
      }
    } else {
      assert Comes(schedule, n, helpful(n));
      var k: nat :| k >= n && schedule(k) == helpful(n);
      NeverGrows(schedule, rank, helpful, n, k);
      assert rank(k + 1) < rank(n);
      zero := ReachesZero(schedule, rank, helpful, k + 1);
    }
  }
}
