# Four-seat mahjong round scorer

A model of the scoring core of a small browser score tracker for a
four-player tile game (`app.js`). On every change of the form the page reads
the winner from a radio group and, for each of the four seats, a "loss" field
and a "jin" (bonus count) field, and computes the round's four score deltas:

1. **Base transfer**: every seat other than the winner loses the amount in its
   loss field; the winner gains the sum of those amounts. The winner's own
   loss field is never read.
2. **Jin transfer**: every seat whose jin count `b` is positive gains `3*b`
   and each of the other three seats loses `b`. The effects of all seats add
   up, and the winner's own jin counts like anyone else's.

An empty or unparseable field counts as 0 (`parseInt(...) || 0`); here a
field is an `Option<int>` and `None` reads as 0.

Files:

- `seats.dfy` (module `Seats`): the seat count, the `Option` field type and
  its coercion to an integer, and `Sum` over a row of seats.
- `scoring.dfy` (module `Scoring`): the scoring rule as functions —
  `Base` (base pass), `Effect`/`Acc`/`JinPass` (the jin pass accumulated seat
  by seat, as the nested loops do it), `Scores` (the round) — and the lemmas
  about them: each pass is zero-sum, the per-seat closed form, the winner's
  loss is ignored, non-positive jin is inert, jin transfers are additive, and
  the worked examples.
- `app.dfy` (module `App`): the page's routines as imperative code.
  `GetWinnerIndex` scans the radios in order; `CalculateScores` fills a
  four-slot array in place through `BaseTransfer` and `JinTransfer` (the two
  commented passes of the original function) and is proved to return exactly
  `Scoring.Scores` of its parsed inputs. The end-to-end lemmas tie the page's
  inputs to the properties proved in `Scoring`.

The winner index is an `int`, not a seat: the radio values come from the page
markup. When it names no seat (outside 0..3) the original's
`scores[winnerIndex] += totalLost` writes outside the four displayed slots, so
every seat pays and nobody receives; the model keeps that behaviour
(`Scoring.BaseNoWinner`) and states zero-sum for a winner that is a seat.

For the worked round with winner 1, seat 0 losing 4 and seat 1 holding one
jin, the code computes `[-5, 7, -1, -1]` (`Scoring.ExampleWinnerWithJin`).

## Model

| member | source | states |
|---|---|---|
| App.GetWinnerIndex | app.js:61-69 | the index returned is the value of the last checked radio in scan order, 0 when none is checked (as `WinnerOf`) |
| App.WinnerOfNoneChecked | app.js:61-69 | with no radio checked the winner is seat 0 |
| App.WinnerOfLastChecked | app.js:62-67 | when radio k is checked and no later radio is, the winner is radio k's value |
| App.WinnerOfIsSeat | app.js:61-69 | if every radio's value is a seat number, the winner is a seat number |
| App.BaseTransfer | app.js:76-92 | each slot gains exactly its base-pass share: minus its loss for a non-winner, the others' total for the winner |
| App.TransferJin | app.js:107-117 | one seat's positive jin b adds 3b to that seat and subtracts b from each of the other three, nothing else |
| App.JinTransfer | app.js:104-118 | each slot gains exactly the accumulated jin effect of all four seats, in seat order |
| App.CalculateScores | app.js:71-122 | the four deltas computed in place equal `Scores` of the selected winner and the coerced loss and jin fields |
| App.RoundZeroSum | app.js:71-118 | whenever the selected winner is a seat, the four deltas of the page's round sum to 0 |
| App.WinnerFieldIgnored | app.js:79-82 | the winner's own loss field, whatever it holds, does not change the round |
| App.AbsentFieldIsZero | app.js:82 | an empty or unparseable loss or jin field scores exactly like a field holding 0 |
| App.ResetClearsRound | app.js:41-45 | after the reset button empties every field the recomputed round is `[0, 0, 0, 0]` whoever wins |
| Scoring.BaseZeroSum | app.js:76-92 | with a winner that is a seat the base pass sums to 0 |
| Scoring.BaseShares | app.js:79-92 | after the base pass a non-winner holds minus its loss and the winner holds the sum of the other three losses |
| Scoring.BaseNoWinner | app.js:79-92 | a winner index naming no seat makes every seat pay its loss and the pass sum to minus the total loss |
| Scoring.AccClosedForm | app.js:105-118 | the jin effect of seats 0..n-1 on seat j is 4·J⁺[j] (when j < n) minus the sum of their positive counts |
| Scoring.JinPassClosedForm | app.js:105-118 | the jin pass gives seat j exactly 4·J⁺[j] minus the sum of all positive jin counts |
| Scoring.JinPassZeroSum | app.js:105-118 | the jin pass sums to 0 for any counts, the winner's included |
| Scoring.JinSingleSeat | app.js:107-117 | one seat holding b > 0 jin alone yields +3b for it and -b for each other seat |
| Scoring.JinNonPositiveInert | app.js:107 | replacing every count by its positive part changes nothing: zero or negative jin transfers nothing |
| Scoring.JinAdditive | app.js:105-118 | for non-negative counts the transfer of a sum of count rows is the sum of their transfers |
| Scoring.ScoresZeroSum | app.js:76-118 | the round's four deltas sum to exactly 0 for any integer inputs when the winner is a seat |
| Scoring.ScoresClosedForm | app.js:76-118 | seat i's delta is its base share plus 4·J⁺[i] minus the sum of all positive jin counts |
| Scoring.WinnerLossIgnored | app.js:79-82 | changing the winner's loss entry does not change the round |
| Scoring.ClearedRoundIsZero | app.js:41-45 | all-zero losses and jin give an all-zero round for any winner index |
| Scoring.ExampleBaseOnly | app.js:76-92 | winner 0, losses 5, 3, 2, no jin gives `[10, -5, -3, -2]` whatever the winner's own entry |
| Scoring.ExampleJinOnly | app.js:105-118 | winner 0, no losses, two jin on seat 0 gives `[6, -2, -2, -2]` |
| Scoring.ExampleWinnerWithJin | app.js:76-118 | winner 1, seat 0 losing 4, seat 1 holding one jin gives `[-5, 7, -1, -1]` |

## Left out

- Service-worker registration (app.js:1-11): a browser API with no scoring logic.
- DOM queries and event wiring (app.js:13-45): the model's inputs are the already-read fields; the reset button appears only as "every field empty" (`App.ResetClearsRound`).
- `updateWinnerState` (app.js:47-59): toggles a CSS class and clears the winner's loss field. The clearing does not affect the round computed for that winner, since the winner's field is never read (`App.WinnerFieldIgnored`). It does erase the entered value, so a seat that was the winner pays 0 after the winner changes until its field is refilled; that sequence of page events is not modelled.
- `updateScoreDisplay` (app.js:124-139): writes text and CSS classes; `App.CalculateScores` returns the four deltas it would be given instead of displaying them.
- JavaScript `parseInt` string semantics (such as `"3abc"` giving 3): a field is given already parsed, as `Some(n)`, or as `None` when empty or unparseable.
- A radio value that does not parse (`NaN`): not modelled; it would act like any winner index that names no seat.
- JavaScript numbers are doubles: the model uses unbounded integers, so sums beyond 2^53 in magnitude, where the original loses precision, are not modelled.
- App.CalculateScores: requires exactly four loss and four jin fields, as the page has one of each per seat; a missing field makes the original throw, which is not modelled.
- Round history, a ledger, persistence and cumulative totals are not part of this model: no code for them is present in `app.js`.
