/**
 * The round-scoring rule as functions of the parsed inputs: a base transfer
 * from the losing seats to the winner, then a "jin" (bonus count) transfer in
 * which every seat holding b > 0 jin takes b points from each of the other
 * three. The methods in module App compute exactly `Scores`; the lemmas here
 * say what `Scores` means.
 */
module Scoring {
  import opened Seats

  /** Positive part of a jin count: only a count above zero transfers anything. */
  function Pos(b: int): (p: nat)
    ensures b > 0 ==> p == b
    ensures b <= 0 ==> p == 0
  {
    if b > 0 then b else 0
  }

  /** Positive parts of a row of jin counts. */
  function Positive(jin: seq<int>): (ps: seq<int>)
    ensures |ps| == |jin|
    ensures forall k :: 0 <= k < |jin| ==> ps[k] == Pos(jin[k])
  {
    seq(|jin|, k requires 0 <= k < |jin| => Pos(jin[k]))
  }

  // ---------------------------------------------------------------------
  // Base transfer

  /** The losses with the winner's own slot read as 0: the winner's field is never consulted. */
  function Masked(winner: int, loss: seq<int>): (m: seq<int>)
    ensures |m| == |loss|
    ensures forall i :: 0 <= i < |loss| ==> m[i] == (if i == winner then 0 else loss[i])
  {
    seq(|loss|, i requires 0 <= i < |loss| => if i == winner then 0 else loss[i])
  }

  /** What the winner collects: the sum of every other seat's loss. */
  function TotalLost(winner: int, loss: seq<int>): (total: int)
  {
    Sum(Masked(winner, loss))
  }

  /**
   * The scores after the base pass: each loser pays its loss, the winner
   * receives the total. A winner index outside 0..3 names no seat, so then
   * every seat pays and nobody receives.
   */
  function Base(winner: int, loss: seq<int>): (b: seq<int>)
    requires |loss| == Count
    ensures |b| == Count
  {
    seq(Count, i requires 0 <= i < Count => if i == winner then TotalLost(winner, loss) else -loss[i])
  }

  // ---------------------------------------------------------------------
  // Jin transfer

  /** What seat k's jin does to seat j: +3b to itself, -b to each other seat, nothing if b <= 0. */
  function Effect(jin: seq<int>, k: nat, j: int): (e: int)
    requires k < |jin|
  {
    if jin[k] > 0 then (if j == k then 3 * jin[k] else -jin[k]) else 0
  }

  /** The jin effects of seats 0 .. n-1 on seat j, accumulated in seat order. */
  function Acc(jin: seq<int>, n: nat, j: int): (a: int)
    requires n <= |jin|
  {
    if n == 0 then 0 else Acc(jin, n - 1, j) + Effect(jin, n - 1, j)
  }

  /** The net jin transfer to every seat. */
  function JinPass(jin: seq<int>): (t: seq<int>)
    requires |jin| == Count
    ensures |t| == Count
  {
    seq(Count, j requires 0 <= j < Count => Acc(jin, Count, j))
  }

  /** The round's score deltas: base pass followed by jin pass. */
  function Scores(winner: int, loss: seq<int>, jin: seq<int>): (s: seq<int>)
    requires |loss| == Count && |jin| == Count
    ensures |s| == Count
  {
    seq(Count, i requires 0 <= i < Count => Base(winner, loss)[i] + JinPass(jin)[i])
  }

  // ---------------------------------------------------------------------
  // Properties of the base pass

  /** With a real winner the base pass moves points and creates none. */
  lemma BaseZeroSum(winner: int, loss: seq<int>)
    requires |loss| == Count && 0 <= winner < Count
    ensures Sum(Base(winner, loss)) == 0
  {
    SumFour(Masked(winner, loss));
    SumFour(Base(winner, loss));
  }

  /** The winner's base score is the sum of the other seats' losses; each loser's is minus its loss. */
  lemma BaseShares(winner: int, loss: seq<int>, i: int)
    requires |loss| == Count && 0 <= winner < Count && 0 <= i < Count
    ensures i != winner ==> Base(winner, loss)[i] == -loss[i]
    ensures i == winner ==> Base(winner, loss)[i] == Sum(loss) - loss[winner]
  {
    SumFour(loss);
    SumFour(Masked(winner, loss));
  }

  /** A winner index naming no seat: every seat pays its loss and the round loses their sum. */
  lemma BaseNoWinner(winner: int, loss: seq<int>)
    requires |loss| == Count && !(0 <= winner < Count)
    ensures forall i :: 0 <= i < Count ==> Base(winner, loss)[i] == -loss[i]
    ensures Sum(Base(winner, loss)) == -Sum(loss)
  {
    SumFour(loss);
    SumFour(Base(winner, loss));
  }

  // ---------------------------------------------------------------------
  // Properties of the jin pass

  /** Accumulated jin effect of seats 0 .. n-1 in closed form. */
  lemma {:induction false} AccClosedForm(jin: seq<int>, n: nat, j: int)
    requires n <= |jin| && 0 <= j
    ensures Acc(jin, n, j) == (if j < n then 4 * Pos(jin[j]) else 0) - Sum(Positive(jin)[..n])
  {
    if n == 0 {
      assert Positive(jin)[..0] == [];
    } else {
      AccClosedForm(jin, n - 1, j);
      SumPrefix(Positive(jin), n - 1);
    }
  }

  /** Closed form of the jin pass: 4 * J+[j] minus the sum of all positive jin counts. */
  lemma JinPassClosedForm(jin: seq<int>, j: int)
    requires |jin| == Count && 0 <= j < Count
    ensures JinPass(jin)[j] == 4 * Pos(jin[j]) - Sum(Positive(jin))
  {
    AccClosedForm(jin, Count, j);
    assert Positive(jin)[..Count] == Positive(jin);
  }

  /** The jin pass moves points and creates none, whatever the counts. */
  lemma JinPassZeroSum(jin: seq<int>)
    requires |jin| == Count
    ensures Sum(JinPass(jin)) == 0
  {
    JinPassClosedForm(jin, 0);
    JinPassClosedForm(jin, 1);
    JinPassClosedForm(jin, 2);
    JinPassClosedForm(jin, 3);
    SumFour(JinPass(jin));
    SumFour(Positive(jin));
  }

  /** A single seat k with b > 0 jin and no other jin: +3b to k, -b to everyone else. */
  lemma JinSingleSeat(jin: seq<int>, k: int)
    requires |jin| == Count && 0 <= k < Count && jin[k] > 0
    requires forall i :: 0 <= i < Count && i != k ==> jin[i] == 0
    ensures forall j :: 0 <= j < Count ==> JinPass(jin)[j] == (if j == k then 3 * jin[k] else -jin[k])
  {
    SumFour(Positive(jin));
    forall j | 0 <= j < Count
      ensures JinPass(jin)[j] == (if j == k then 3 * jin[k] else -jin[k])
    {
      JinPassClosedForm(jin, j);
    }
  }

  /** Jin counts of zero or below transfer nothing: only their positive parts matter. */
  lemma JinNonPositiveInert(jin: seq<int>)
    requires |jin| == Count
    ensures JinPass(Positive(jin)) == JinPass(jin)
  {
    var p := Positive(jin);
    assert Positive(p) == p;
    forall j | 0 <= j < Count
      ensures JinPass(p)[j] == JinPass(jin)[j]
    {
      JinPassClosedForm(jin, j);
      JinPassClosedForm(p, j);
    }
  }

  /** Two rows of non-negative jin counts: the transfer of their sum is the sum of their transfers. */
  lemma JinAdditive(a: seq<int>, b: seq<int>)
    requires |a| == Count && |b| == Count
    requires forall i :: 0 <= i < Count ==> a[i] >= 0 && b[i] >= 0
    ensures forall j :: 0 <= j < Count ==>
      JinPass(seq(Count, i requires 0 <= i < Count => a[i] + b[i]))[j] == JinPass(a)[j] + JinPass(b)[j]
  {
    var c := seq(Count, i requires 0 <= i < Count => a[i] + b[i]);
    SumFour(Positive(a));
    SumFour(Positive(b));
    SumFour(Positive(c));
    forall j | 0 <= j < Count
      ensures JinPass(c)[j] == JinPass(a)[j] + JinPass(b)[j]
    {
      JinPassClosedForm(a, j);
      JinPassClosedForm(b, j);
      JinPassClosedForm(c, j);
    }
  }

  // ---------------------------------------------------------------------
  // Properties of the whole round

  /** The four round scores always add up to exactly 0 when the winner is a seat. */
  lemma ScoresZeroSum(winner: int, loss: seq<int>, jin: seq<int>)
    requires |loss| == Count && |jin| == Count && 0 <= winner < Count
    ensures Sum(Scores(winner, loss, jin)) == 0
  {
    BaseZeroSum(winner, loss);
    JinPassZeroSum(jin);
    SumFour(Base(winner, loss));
    SumFour(JinPass(jin));
    SumFour(Scores(winner, loss, jin));
  }

  /** Closed form per seat: base share plus 4 * J+[i] minus the sum of all positive jin counts. */
  lemma ScoresClosedForm(winner: int, loss: seq<int>, jin: seq<int>, i: int)
    requires |loss| == Count && |jin| == Count && 0 <= winner < Count && 0 <= i < Count
    ensures Scores(winner, loss, jin)[i] ==
      (if i == winner then Sum(loss) - loss[winner] else -loss[i]) + 4 * Pos(jin[i]) - Sum(Positive(jin))
  {
    BaseShares(winner, loss, i);
    JinPassClosedForm(jin, i);
  }

  /** The winner's own loss entry never affects the round. */
  lemma WinnerLossIgnored(winner: int, loss: seq<int>, jin: seq<int>, x: int)
    requires |loss| == Count && |jin| == Count && 0 <= winner < Count
    ensures Scores(winner, loss[winner := x], jin) == Scores(winner, loss, jin)
  {
    assert Masked(winner, loss[winner := x]) == Masked(winner, loss);
    assert Base(winner, loss[winner := x]) == Base(winner, loss);
  }

  /** Clearing every field (all loss and jin values read as 0) gives an all-zero round. */
  lemma ClearedRoundIsZero(winner: int)
    ensures Scores(winner, [0, 0, 0, 0], [0, 0, 0, 0]) == [0, 0, 0, 0]
  {
    var z := [0, 0, 0, 0];
    SumFour(z);
    SumFour(Positive(z));
    if 0 <= winner < Count {
      BaseZeroSum(winner, z);
    } else {
      BaseNoWinner(winner, z);
    }
    forall j | 0 <= j < Count ensures Scores(winner, z, z)[j] == 0 {
      JinPassClosedForm(z, j);
      if 0 <= winner < Count {
        BaseShares(winner, z, j);
      }
    }
  }

  /** Winner 0, losses 5, 3, 2, no jin: [10, -5, -3, -2]. */
  lemma ExampleBaseOnly(x: int)
    ensures Scores(0, [x, 5, 3, 2], [0, 0, 0, 0]) == [10, -5, -3, -2]
  {
    ScoresClosedForm(0, [x, 5, 3, 2], [0, 0, 0, 0], 0);
    ScoresClosedForm(0, [x, 5, 3, 2], [0, 0, 0, 0], 1);
    ScoresClosedForm(0, [x, 5, 3, 2], [0, 0, 0, 0], 2);
    ScoresClosedForm(0, [x, 5, 3, 2], [0, 0, 0, 0], 3);
    SumFour([x, 5, 3, 2]);
    SumFour(Positive([0, 0, 0, 0]));
  }

  /** Winner 0, no losses, two jin on seat 0: [6, -2, -2, -2]. */
  lemma ExampleJinOnly()
    ensures Scores(0, [0, 0, 0, 0], [2, 0, 0, 0]) == [6, -2, -2, -2]
  {
    ScoresClosedForm(0, [0, 0, 0, 0], [2, 0, 0, 0], 0);
    ScoresClosedForm(0, [0, 0, 0, 0], [2, 0, 0, 0], 1);
    ScoresClosedForm(0, [0, 0, 0, 0], [2, 0, 0, 0], 2);
    ScoresClosedForm(0, [0, 0, 0, 0], [2, 0, 0, 0], 3);
    SumFour([0, 0, 0, 0]);
    SumFour(Positive([2, 0, 0, 0]));
  }

  /** Winner 1, seat 0 loses 4, seat 1 holds one jin: [-5, 7, -1, -1]. */
  lemma ExampleWinnerWithJin(x: int)
    ensures Scores(1, [4, x, 0, 0], [0, 1, 0, 0]) == [-5, 7, -1, -1]
  {
    ScoresClosedForm(1, [4, x, 0, 0], [0, 1, 0, 0], 0);
    ScoresClosedForm(1, [4, x, 0, 0], [0, 1, 0, 0], 1);
    ScoresClosedForm(1, [4, x, 0, 0], [0, 1, 0, 0], 2);
    ScoresClosedForm(1, [4, x, 0, 0], [0, 1, 0, 0], 3);
    SumFour([4, x, 0, 0]);
    SumFour(Positive([0, 1, 0, 0]));
  }
}
