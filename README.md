# X01 darts scoring, modelled in Dafny

This project models the scoring engine of an X01 darts counter (301/501/701):
the rules in `src/x01.ts`. That file has two layers, and the model follows them.

- **Visit evaluator** (`scoring.dfy`, module `Scoring`). `DartScore` and `IsDouble` turn one dart into points and say whether it is a double. `ApplyVisit` is the evaluator's loop over up to three darts, with its running score and its `break`. It busts on the first dart that overshoots, leaves 1, or reaches 0 without a double. A bust rolls the score back to the start of the visit. It finishes on a double that reaches exactly 0 and records that dart's index. Double-out is always enforced. The loop is proved equal to the recursive function `Visit`. `Visit` is then described a second way, by prefix sums of the darts (`Total`, `Proposed`, `Clear`, `StopsAt`, `BustsAt`, `FinishesAt`), in the lemmas `VisitBust`, `VisitFinish` and `VisitOutcomes`.
- **Leg/match coordinator** (`legs.dfy`, module `Legs`). `Leg` and `Match` are classes whose fields the methods update in place, as the source mutates its `LegState` and `MatchState` records.
  - The `Leg` constructor is `createLeg`. It runs the source's rotation loop (`RotateTo`) and its roster pass (`FillPlayers`).
  - The `Match` constructor is `createMatch`.
  - `Match.PlayVisit` is `playVisit`.
  - `Match.NextLeg` is `nextLeg`. It builds the new leg through `StartNextLeg`.
  - `Leg.Valid` is the leg invariant that every operation keeps: the turn order is a permutation of the player ids, the turn index points into the order, `finished` holds exactly when there is a winner, and a finished leg's turn index points at its winner.

A player record (`Record<string, Player>`) is a `map<string, Player>`. The leg also keeps `keys`, the order in which the players were entered, because `nextLeg` rebuilds the roster from `Object.values(players)` in that order (`Values`).

Points where the code behaves differently from what a reader might expect, all modelled as the code has them:
- **Who leads the next leg.** The comment at `src/x01.ts:163` says the next player starts. But after a finish, `activeIndex` is left pointing at the winner (`src/x01.ts:147-151`), so the winner leads the next leg. `Match.NextLeg` proves this, and `WinnerLeadsNextLeg` shows it on two players.
- **Legs-won tally.** It is credited in `playVisit` when a leg is won, not when the next leg starts.
- **No double-out flag.** `applyVisitX01` takes none and always requires a double to finish.
- **Treble bull.** It is scored 25 rather than rejected.
- **A finished leg.** `playVisit` on a finished leg reports the fixed visit `{0, no bust, finished, index 0}`, not an empty one.

## Model

| member | source | states |
|---|---|---|
| Scoring.DartScore | src/x01.ts:16-19 | the bull scores 50 exactly when its multiplier is 2 and 25 otherwise; on any other face a single scores the face value and a treble three times it; a double scores twice the face (the inner bull included); a dartboard dart scores 0..60 |
| Scoring.IsDouble | src/x01.ts:21-24 | a dart is a double exactly when its multiplier is 2; the inner-bull clause adds nothing |
| Scoring.Step | src/x01.ts:33-60 | the loop from dart i on: a bust keeps the start score and does not finish; a checkout index is present exactly on a finish, which leaves 0 and points at a double at or after i; a visit that neither busts nor finishes after a dart leaves at least 2 |
| Scoring.Visit | src/x01.ts:27-62 | a visit from the start score: an empty visit changes nothing; a bust keeps the start score with no index; a finish leaves 0 and its index points at a double among the darts |
| Scoring.ApplyVisit | src/x01.ts:27-63 | the source's loop, with its early exits on bust and finish, computes exactly the visit outcome `Visit` |
| Scoring.StepCases | src/x01.ts:33-60 | from any dart on, the loop either uses up every dart (all leave at least 2, score = start minus their total) or stops at the first dart that leaves less than 2, finishing if it is a double that reaches 0 and busting back to the start otherwise |
| Scoring.VisitBust | src/x01.ts:38-55 | a visit busts iff some dart, with no earlier stop, overshoots, leaves 1, or reaches 0 without a double; a bust returns the start score, not finished, no checkout index |
| Scoring.VisitFinish | src/x01.ts:45-51 | a visit finishes iff some dart, with no earlier stop, is a double reaching 0; then the score is 0, the checkout index is that dart, and the darts up to it add up to the start score |
| Scoring.VisitOutcomes | src/x01.ts:28-62 | never both bust and finished; checkout index present iff finished; a visit that does neither scores every dart, leaves at least 2 when a dart was thrown, and leaves the start for an empty visit |
| Scoring.VisitBounds | src/x01.ts:39-59 | from a non-negative score a visit never leaves a negative score, and with dartboard darts it never raises the score |
| Scoring.CheckoutFirstDart | src/x01.ts:46-51 | 40 with double 20 finishes at dart index 0 |
| Scoring.LeavingOneBusts | src/x01.ts:39-42 | 2 with single 1 busts and keeps 2 |
| Scoring.CheckoutSecondDart | src/x01.ts:46-59 | 32 with single 20 then double 6 finishes at dart index 1 |
| Scoring.MaximumVisit | src/x01.ts:58-62 | 501 with three treble 20s leaves 321, neither bust nor finished |
| Scoring.BullCheckouts | src/x01.ts:17-24 | 50 with the inner bull finishes; 25 with the outer bull reaches 0 on a single and busts |
| Legs.IndexOf | src/x01.ts:89-90 | the position the rotation loop stops at: the first occurrence of the id |
| Legs.Rotate | src/x01.ts:90 | a cyclic shift by k keeps every id, with the same multiplicity, and puts position k first |
| Legs.RotateAt | src/x01.ts:90 | a cyclic shift by k sends position i to (i + k) mod n |
| Legs.Forces | src/x01.ts:89 | rotation is asked for only by an id that is on the roster; a missing id and the empty string (falsy in JavaScript) never rotate |
| Legs.TurnOrder | src/x01.ts:88-91 | the new order is a permutation of the roster ids; with a non-empty forced first thrower on the roster it is the roster rotated so that player is first, otherwise the roster order unchanged |
| Legs.RotateTo | src/x01.ts:89-91 | the push/shift loop stops with the requested player at the front, having rotated the roster by that player's position |
| Legs.FillPlayers | src/x01.ts:92-95 | every roster id, and nothing else, gets a player record with its name and the starting score |
| Legs.Values | src/x01.ts:167 | the players of a leg, listed in entry order, have the leg's ids in that order and keep their names |
| Legs.Leg.constructor | src/x01.ts:83-104 | createLeg: valid leg (its turn order a permutation of its player ids), every player at the starting score, order as `TurnOrder`, first in the order active, no winner, not finished |
| Legs.Match.constructor | src/x01.ts:107-118 | createMatch: leg 1, every roster id has won 0 legs, the first leg in unrotated roster order |
| Legs.Match.PlayVisit | src/x01.ts:121-157 | on a finished leg: nothing changes, the stored winner is reported; otherwise only the active player's score changes, to the visit's result (unchanged on a bust); a finish records the winner, closes the leg, adds 1 to that player's legs won and keeps the turn index; any other visit passes the turn cyclically; the leg invariant is kept |
| Legs.Advance | src/x01.ts:155 | the next turn index stays below the number of players: one more, or back to 0 after the last player |
| Legs.AdvanceTimes | src/x01.ts:155 | after k > 0 non-finishing visits the turn index is below the number of players; after none it is unchanged |
| Legs.AdvanceTimesWraps | src/x01.ts:155 | k non-finishing visits from turn index i move it to i + k, wrapping once past the end |
| Legs.AdvanceCycle | src/x01.ts:155 | after one non-finishing visit per player the turn is back at its start, and not before |
| Legs.FirstOfNext | src/x01.ts:162-164 | the next leg's first thrower is `order[activeIndex]` when rotating and `order[0]` otherwise; there is one exactly when the old order is non-empty, and it is on that order |
| Legs.StartNextLeg | src/x01.ts:161-167 | the new leg has the same ids, names and starting score, every score reset, no winner, and is led by the player the old turn index points at (the winner after a finish) when rotating, and by the old first thrower otherwise |
| Legs.Match.NextLeg | src/x01.ts:160-169 | the leg counter becomes min(n + 1, totalLegs) and never exceeds totalLegs; legs won and total legs are untouched; the new leg is as in `StartNextLeg` |
| Legs.FirstVisitWinsLeg | src/x01.ts:132-151 | two players, 40 to go: double 20 on the first visit closes leg 1 for the first player and credits one leg won |
| Legs.WinnerLeadsNextLeg | src/x01.ts:147-164 | after that win, the next leg is leg 2, led by the winner, who keeps one leg won |

## Left out

- Object key order: JavaScript lists integer-like keys (such as "1", "2") before other keys, in ascending order, not in insertion order. The model keeps insertion order (`keys`). That is what `nextLeg` sees only when no player id is an integer-like string. The application's random ids are almost always non-numeric, but an all-digit id is possible.
- Legs.Match.PlayVisit: requires `leg.finished || |leg.order| > 0`. On an open leg with an empty turn order, the source looks up an undefined player and throws a TypeError (`src/x01.ts:141-143`). The model does not represent that exception.
- Duplicate roster ids: the constructors of `Leg` and `Match` require distinct ids. With duplicates, the source keeps one player record per id but repeats the id in the turn order.
- Numbers: scores and dart values are unbounded integers. Fractional or non-finite JavaScript numbers are not modelled.
- Aliasing: `playVisit` and `nextLeg` also return the match object they were given. The model returns only the other results, because the match is `this`.
- Malformed darts are not rejected. The source does not check dart values either; `ValidDart` only limits the bound in `VisitBounds`.
- The application's React pages, keypad, persistence, speech, shuffling (`Math.random`), averages (floating point) and a second scorer in `App.tsx` are not part of this model.
- A double-out switch, a starting-score override for the next leg and a roster argument to the next-leg call are not modelled. `src/x01.ts` has none of them.
