/**
 * The page's two scoring routines as imperative code: reading the winner off
 * the radio group, and computing the round's four score deltas into a
 * four-slot array that is updated in place.
 */
module App {
  import opened Seats
  import opened Scoring

  /** One "winner" radio button: whether it is checked and its value, already parsed. */
  datatype Radio = Radio(checked: bool, value: int)

  /** The winner the radio group names: the value of the last checked radio, 0 if none is checked. */
  function WinnerOf(radios: seq<Radio>): (w: int)
  {
    if radios == [] then 0
    else if radios[|radios| - 1].checked then radios[|radios| - 1].value
    else WinnerOf(radios[..|radios| - 1])
  }

  /** With no radio checked the winner defaults to seat 0. */
  lemma {:induction false} WinnerOfNoneChecked(radios: seq<Radio>)
    requires forall k :: 0 <= k < |radios| ==> !radios[k].checked
    ensures WinnerOf(radios) == 0
  {
    if radios != [] {
      WinnerOfNoneChecked(radios[..|radios| - 1]);
    }
  }

  /** Otherwise the winner is the value of the checked radio that comes last. */
  lemma {:induction false} WinnerOfLastChecked(radios: seq<Radio>, k: int)
    requires 0 <= k < |radios| && radios[k].checked
    requires forall j :: k < j < |radios| ==> !radios[j].checked
    ensures WinnerOf(radios) == radios[k].value
  {
    if k < |radios| - 1 {
      WinnerOfLastChecked(radios[..|radios| - 1], k);
    }
  }

  /** When every radio carries a seat number, so does the winner. */
  lemma {:induction false} WinnerOfIsSeat(radios: seq<Radio>)
    requires forall k :: 0 <= k < |radios| ==> 0 <= radios[k].value < Count
    ensures 0 <= WinnerOf(radios) < Count
  {
    if radios != [] {
      WinnerOfIsSeat(radios[..|radios| - 1]);
    }
  }

  /** Scans the radio group in order, keeping the value of each checked radio it meets. */
  method GetWinnerIndex(radios: seq<Radio>) returns (winnerIndex: int)
    ensures winnerIndex == WinnerOf(radios)
  {
    winnerIndex := 0;
    for i := 0 to |radios|
      invariant winnerIndex == WinnerOf(radios[..i])
    {
      assert radios[..i + 1][..i] == radios[..i];
      if radios[i].checked {
        winnerIndex := radios[i].value;
      }
    }
    assert radios[..|radios|] == radios;
  }

  /**
   * Base transfer: every seat other than the winner pays its loss field, and
   * the winner's slot receives the total. The winner's own field is not read.
   */
  method BaseTransfer(scores: array<int>, winnerIndex: int, loss: seq<Option<int>>)
    requires scores.Length == Count && |loss| == Count
    modifies scores
    ensures forall t :: 0 <= t < Count ==> scores[t] == old(scores[t]) + Base(winnerIndex, CoerceAll(loss))[t]
  {
    ghost var lost := CoerceAll(loss);
    var totalLost := 0;
    for i := 0 to Count
      invariant totalLost == Sum(Masked(winnerIndex, lost)[..i])
      invariant forall t :: 0 <= t < Count ==>
        scores[t] == old(scores[t]) - (if t < i && t != winnerIndex then lost[t] else 0)
    {
      SumPrefix(Masked(winnerIndex, lost), i);
      if i != winnerIndex {
        var lostScore := Coerce(loss[i]);
        scores[i] := scores[i] - lostScore;
        totalLost := totalLost + lostScore;
      }
    }
    assert Masked(winnerIndex, lost)[..Count] == Masked(winnerIndex, lost);
    // An index that names no seat leaves all four slots alone.
    if 0 <= winnerIndex < Count {
      scores[winnerIndex] := scores[winnerIndex] + totalLost;
    }
  }

  /** Seat i's jin b > 0: seat i gains 3b, then each other seat loses b. */
  method TransferJin(scores: array<int>, i: int, myJin: int)
    requires scores.Length == Count && 0 <= i < Count
    modifies scores
    ensures forall t :: 0 <= t < Count ==> scores[t] == old(scores[t]) + (if t == i then 3 * myJin else -myJin)
  {
    scores[i] := scores[i] + 3 * myJin;
    for j := 0 to Count
      invariant forall t :: 0 <= t < Count ==>
        scores[t] == old(scores[t]) + (if t == i then 3 * myJin else if t < j then -myJin else 0)
    {
      if i != j {
        scores[j] := scores[j] - myJin;
      }
    }
  }

  /** Jin transfer: every seat with a positive count takes that many points from each other seat. */
  method JinTransfer(scores: array<int>, jinValues: array<int>)
    requires scores.Length == Count && jinValues.Length == Count && scores != jinValues
    modifies scores
    ensures forall t :: 0 <= t < Count ==> scores[t] == old(scores[t]) + JinPass(jinValues[..])[t]
  {
    ghost var bonus := jinValues[..];
    for i := 0 to Count
      invariant forall t :: 0 <= t < Count ==> scores[t] == old(scores[t]) + Acc(bonus, i, t)
    {
      var myJin := jinValues[i];
      if myJin > 0 {
        TransferJin(scores, i, myJin);
      }
    }
  }

  /**
   * Computes the round's score deltas from the radio group and the per-seat
   * loss and jin fields; an empty or unparseable field is `None` and counts as 0.
   */
  method CalculateScores(radios: seq<Radio>, loss: seq<Option<int>>, jin: seq<Option<int>>)
    returns (r: seq<int>)
    requires |loss| == Count && |jin| == Count
    ensures r == Scores(WinnerOf(radios), CoerceAll(loss), CoerceAll(jin))
  {
    var winnerIndex := GetWinnerIndex(radios);
    var scores := new int[Count](_ => 0);

    assert forall t :: 0 <= t < Count ==> scores[t] == 0;
    BaseTransfer(scores, winnerIndex, loss);
    ghost var base := scores[..];
    assert base == Base(winnerIndex, CoerceAll(loss));

    var jinValues := new int[Count];
    for i := 0 to Count
      invariant forall t :: 0 <= t < i ==> jinValues[t] == Coerce(jin[t])
      invariant scores[..] == base
    {
      jinValues[i] := Coerce(jin[i]);
    }
    assert jinValues[..] == CoerceAll(jin);

    JinTransfer(scores, jinValues);
    r := scores[..];
    assert forall t :: 0 <= t < Count ==> r[t] == base[t] + JinPass(CoerceAll(jin))[t];
  }

  // ---------------------------------------------------------------------
  // The page's round, end to end

  /** Whenever the selected winner is a seat, the four displayed deltas add up to 0. */
  lemma RoundZeroSum(radios: seq<Radio>, loss: seq<Option<int>>, jin: seq<Option<int>>)
    requires |loss| == Count && |jin| == Count && 0 <= WinnerOf(radios) < Count
    ensures Sum(Scores(WinnerOf(radios), CoerceAll(loss), CoerceAll(jin))) == 0
  {
    ScoresZeroSum(WinnerOf(radios), CoerceAll(loss), CoerceAll(jin));
  }

  /** Whatever the winner's own loss field holds (cleared, unparseable or a number), the round is the same. */
  lemma WinnerFieldIgnored(radios: seq<Radio>, loss: seq<Option<int>>, jin: seq<Option<int>>, field: Option<int>)
    requires |loss| == Count && |jin| == Count && 0 <= WinnerOf(radios) < Count
    ensures Scores(WinnerOf(radios), CoerceAll(loss[WinnerOf(radios) := field]), CoerceAll(jin))
         == Scores(WinnerOf(radios), CoerceAll(loss), CoerceAll(jin))
  {
    var w := WinnerOf(radios);
    assert CoerceAll(loss[w := field]) == CoerceAll(loss)[w := Coerce(field)];
    WinnerLossIgnored(w, CoerceAll(loss), CoerceAll(jin), Coerce(field));
  }

  /** An empty or unparseable field scores exactly as a field holding 0. */
  lemma AbsentFieldIsZero(w: int, loss: seq<Option<int>>, jin: seq<Option<int>>, i: int)
    requires |loss| == Count && |jin| == Count && 0 <= i < Count
    ensures Scores(w, CoerceAll(loss[i := None]), CoerceAll(jin)) == Scores(w, CoerceAll(loss[i := Some(0)]), CoerceAll(jin))
    ensures Scores(w, CoerceAll(loss), CoerceAll(jin[i := None])) == Scores(w, CoerceAll(loss), CoerceAll(jin[i := Some(0)]))
  {
    assert CoerceAll(loss[i := None]) == CoerceAll(loss[i := Some(0)]);
    assert CoerceAll(jin[i := None]) == CoerceAll(jin[i := Some(0)]);
  }

  /** The reset button empties every loss and jin field: the recomputed round is all zeros. */
  lemma ResetClearsRound(radios: seq<Radio>)
    ensures Scores(WinnerOf(radios), CoerceAll([None, None, None, None]), CoerceAll([None, None, None, None])) == [0, 0, 0, 0]
  {
    assert CoerceAll([None, None, None, None]) == [0, 0, 0, 0];
    ClearedRoundIsZero(WinnerOf(radios));
  }
}
