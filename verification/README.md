# Zole scorekeeper: round bookkeeping in Dafny

This project models the round bookkeeping of a scorekeeper for the Latvian
card game Zole, played by three or four players. It covers the reducer that
takes the session state and one action to the next session state. It does not
cover the card play itself.

- **Dealer and turn arithmetic** (`Dealer`). The current dealer is
  `(initialDealer + playedGames) % playerCount`. The seat that acts, and the
  seat that declares, is that dealer plus the recorded passes plus one, again
  taken modulo the player count. JavaScript's `%` is modelled exactly: the
  remainder takes the sign of the dividend, and a divisor of zero gives `NaN`
  (`JsValues`).
- **Bidding** (`SetGamestate`). A pass ("Garām") is appended to the pass
  list. A pass made while two passes are already recorded turns the round
  into a "Galdiņš". Declaring "Mazā zole", "Zole" or "Lielais" fixes the game
  type and the declaring seat.
- **Scoring and resolution** (`GameResult`). One seat of each round is its
  subject: the declarer, or the loser of a Galdiņš. The subject gets
  `c * (playerCount - 1)` and every other seat gets `-c`, where `c` is the
  point-table entry for the variant and result. The per-seat `diff` is added
  to the previous totals to give `scores`. Each of the three result handlers
  appends one scored game and resets the round.
- **Reducer and state** (`AppContext`, `Setup`, `Reducer`):
  - the state and its tagged unions;
  - the setup and dealer-select actions;
  - dispatch on the action tag;
  - lemmas over whole action sequences, including replay equivalence: the
    running totals always equal the sum of every recorded `diff`.
- **Numeric encoding** (`Types`). This is the integer coding of game types,
  bidding actions and solo grades, plus the conversion of a finished setup
  into a game state.
- **View logic** (`GameView`, `PlayedGames`). These are the pure decisions
  embedded in the two views:
  - which seat gets the bidding buttons;
  - the hand labels;
  - which action each result button dispatches;
  - cell colouring, the totals row, and the row separators.

The 15 point-table entries are a `PointTable` parameter. Every property holds
whatever their values are. Where a property needs the usual signs (wins
positive, losses negative), it says so through `SignConvention`.

The model follows the code's behaviour where it is permissive:

- The reducer rejects no transition:
  - a declaration made while a game type is already set overwrites it;
  - a result action is recorded with the type and player from its own
    payload, whatever the state's game type is;
  - an unknown action tag returns the state unchanged.
- The pass list is kept after a declaration. It is emptied only when the
  round is resolved or a dealer is selected.
- The dealer is not always a seat in `[0, playerCount)`. With the unset
  initial dealer `-1`, the current dealer is `-1` until the first game is
  recorded (`Dealer.UnsetDealerIsNegative`), because the code's `%` keeps the
  sign of the dividend. The acting and declaring seat is then still a seat,
  since `-1 + passes + 1` is non-negative (`SetGamestate.UnsetDealerStillSeats`);
  only an initial dealer below `-1` can make it negative
  (`SetGamestate.LowerDealerSeatsNegative`).

## Model

| member | source | states |
|---|---|---|
| JsValues.Add | src/AppContext/actions/GameResultAction.ts:186 | a sum of numbers is finite exactly when both operands are, and is then their integer sum |
| JsValues.Rem | src/AppContext/utils.ts:6 | JavaScript `%` by a length: `NaN` exactly for a zero divisor, the ordinary remainder for a non-negative dividend, and for a negative dividend the remainder in `(-n, 0]` that differs from it by a multiple of `n` (the truncated remainder) |
| Dealer.CalcCurrentDealer | src/AppContext/utils.ts:1-7 | the current dealer is `NaN` exactly when there are no players, and lies in `[0, playerCount)` when the initial dealer is non-negative |
| Dealer.FullRotation | src/AppContext/utils.ts:6 | after `playerCount` more games the same seat deals again |
| Dealer.AdvancesOneSeat | src/AppContext/utils.ts:6 | each further game moves the deal exactly one seat on, modulo the player count |
| Dealer.FirstDealerIsInitial | src/AppContext/utils.ts:6 | with no games played and a valid initial dealer, the current dealer is the initial dealer |
| Dealer.UnsetDealerIsNegative | src/AppContext/utils.ts:6 | with the default initial dealer `-1`, the current dealer is `-1`, not a seat |
| AppContext.Default | src/AppContext/AppContext.ts:51-57 | the initial state has no players, no games, no passes, no game type and initial dealer `-1` |
| AppContext.Declared | src/AppContext/AppContext.ts:21-42 | each declaration yields the game type of the same name, carrying the declaring seat |
| AppContext.GaldinsNeverDeclared | src/AppContext/AppContext.ts:21 | no bidding action declares a Galdiņš |
| SetGamestate.ActingSeat | src/AppContext/actions/SetGamestateAction.ts:27-38 | with a non-negative initial dealer and players present, the acting seat is `(currentDealer + passes + 1) % playerCount`, a seat at the table |
| SetGamestate.SetGamestateAction | src/AppContext/actions/SetGamestateAction.ts:8-43 | a pass with two passes recorded sets Galdiņš and keeps the pass list; any other pass appends one "Garām" and keeps the game type; a declaration sets the declared type for the acting seat; players, initial dealer and games never change |
| SetGamestate.PassListStaysShort | src/AppContext/actions/SetGamestateAction.ts:12-25 | from a pass list of at most two entries, any sequence of bidding actions keeps it at most two |
| SetGamestate.ThreePassesMakeGaldins | src/AppContext/actions/SetGamestateAction.ts:12-19 | three passes from an empty pass list give a Galdiņš with two recorded passes |
| SetGamestate.DeclarerIsSeated | src/AppContext/actions/SetGamestateAction.ts:36-38 | with a valid dealer, the declaring seat is in `[0, playerCount)` |
| SetGamestate.UnsetDealerStillSeats | src/AppContext/actions/SetGamestateAction.ts:36-38 | with the unset initial dealer `-1` and any number of games and passes, the acting and declaring seat is a seat in `[0, playerCount)` |
| SetGamestate.LowerDealerSeatsNegative | src/AppContext/actions/SetGamestateAction.ts:36-38 | with initial dealer `-2` at three seats, before any game or pass, the acting seat is `-1`, not a seat |
| SetGamestate.DealerNeverDeclaresAtFour | src/AppContext/actions/SetGamestateAction.ts:36-38 | at four players, after at most two passes, the declarer is never the current dealer |
| SetGamestate.DealerDeclaresThirdAtThree | src/AppContext/actions/SetGamestateAction.ts:36-38 | at three players, after two passes, the declarer is the current dealer |
| SetGamestate.DeclarationOverwrites | src/AppContext/actions/SetGamestateAction.ts:32-40 | a second declaration replaces the first; nothing guards an already-set game type |
| GameResult.Rate | src/AppContext/actions/GameResultAction.ts:99-120 | a Galdiņš uses the Galdiņš entry; a Mazā zole uses the win entry exactly when `didWin` and the loss entry otherwise |
| GameResult.PointsForPlayer | src/AppContext/actions/GameResultAction.ts:94-180 | the subject seat gets `c * (playerCount - 1)` and every other seat gets `-c`, for the entry `c` that `Rate` selects independently by variant and result |
| GameResult.ZoleIsLielaisWithOtherEntries | src/AppContext/actions/GameResultAction.ts:121-178 | Zole scores like Lielais once the six Zole entries and the six Lielais entries are exchanged |
| GameResult.SumAllButOne | src/AppContext/actions/GameResultAction.ts:99-178 | a vector with `-a` at every seat except one holding `x` sums to `x - a * (n - 1)` |
| GameResult.Diff | src/AppContext/actions/GameResultAction.ts:183-185 | `diff` has one entry per seat, split between subject and others as above; it sums to 0 when the subject is seated, and to `-c * n` otherwise |
| GameResult.WithScore | src/AppContext/actions/GameResultAction.ts:182-192 | `scores[i] == previousScores[i] + diff[i]` for each seat; a previous total with no matching seat becomes `NaN`; from integer totals over `n` seats, the new totals are their element-wise sum with `diff` |
| GameResult.GetPreviousScores | src/AppContext/actions/GameResultAction.ts:87-93 | the last game's `scores`, or one zero per player when no game is recorded |
| GameResult.PreviousScoresAreSum | src/AppContext/actions/GameResultAction.ts:87-93 | in a consistent history, the previous totals are the sum of all recorded `diff` vectors |
| GameResult.AppendConsistent | src/AppContext/actions/GameResultAction.ts:186 | appending a game whose totals extend the previous sums keeps every game's totals equal to the sum of the diffs so far |
| GameResult.ScoredKeepsConsistency | src/AppContext/actions/GameResultAction.ts:182-191 | scoring a game against `getPreviousScores` keeps a consistent history consistent |
| GameResult.RecordedDiff | src/AppContext/actions/GameResultAction.ts:182-185 | the diff a handler records is the scoring rule for its game at the table's seats, and is zero-sum for a seated subject |
| GameResult.SumAddVec | src/AppContext/actions/GameResultAction.ts:186 | summing the seat-wise addition of two vectors adds their sums |
| GameResult.TotalsZeroSum | src/AppContext/actions/GameResultAction.ts:182-191 | when every recorded round is zero-sum, the accumulated totals sum to zero |
| GameResult.SumDiffsIsRuleTotals | src/AppContext/actions/GameResultAction.ts:182-191 | when every recorded diff is the scoring rule for its outcome, the summed diffs equal the rule summed over the outcomes alone |
| GameResult.AppendScored | src/AppContext/actions/GameResultAction.ts:27-32 | exactly one game is appended, and it is the game scored by `withScore` against `getPreviousScores`; earlier games stay a prefix; game type and pass list are reset; players and dealer are kept; the new diff is zero-sum for a seated subject; consistency of totals and the rule-following of diffs are preserved |
| GameResult.GaldinsResultAction | src/AppContext/actions/GameResultAction.ts:18-33 | appends a Galdiņš lost by the action's `player`, scored against the previous totals: the loser's change is the Galdiņš entry times `n - 1`, every other seat's is minus the entry, and the changes sum to zero when the loser is seated; resets the round |
| GameResult.MazaZoleResultAction | src/AppContext/actions/GameResultAction.ts:39-54 | appends a Mazā zole whose declarer comes from the action's game type, not from the state, with the action's `didWin`, scored against the previous totals: the win or loss entry times `n - 1` for the declarer, minus it for every other seat, summing to zero for a seated declarer; resets the round |
| GameResult.LielaisResultAction | src/AppContext/actions/GameResultAction.ts:70-85 | appends a Zole or Lielais, whichever the action's game type says, with the action's grade, scored against the previous totals with that variant's entry for the grade: times `n - 1` for the declarer, negated for every other seat, summing to zero for a seated declarer; resets the round |
| Setup.SetupAction | src/AppContext/actions/SetupAction.ts:6-11 | the roster becomes the action's, of any length; every other field is unchanged |
| Setup.SetupIdempotent | src/AppContext/actions/SetupAction.ts:6-11 | applying the same setup twice equals applying it once |
| Setup.DealerSelectAction | src/AppContext/actions/DeakerSelectAction.ts:6-15 | the initial dealer becomes the action's dealer without a range check, and the pass list is emptied; players, games and game type are unchanged |
| Setup.DealerSelectIdempotent | src/AppContext/actions/DeakerSelectAction.ts:6-15 | selecting the same dealer twice equals selecting it once |
| Reducer.TagsIdentifyKinds | src/AppContext/actions/AppContextReducer.ts:23-36 | equal tags mean the same kind of action; together with the reducer's per-kind clauses, each tag reaches exactly one handler |
| Reducer.AppContextReducer | src/AppContext/actions/AppContextReducer.ts:19-38 | each kind of action reaches its own handler: setup, dealer select and bidding give exactly their handler's state; each result action appends the game its payload names, scored against the previous totals, and resets the round; only result actions lengthen `games`, by one, keeping the old games as a prefix; only setup changes players; only dealer select changes the initial dealer; an unknown tag returns the state unchanged |
| Reducer.StepKeepsInv | src/AppContext/actions/AppContextReducer.ts:19-38 | one action preserves "every diff is the scoring rule for its outcome, totals are sums of diffs, at most two passes", unless a setup resizes the roster under a non-empty history |
| Reducer.Replay | src/AppContext/actions/GameResultAction.ts:87-93 | after any roster-keeping actions: the invariant holds; the totals are the sum of every recorded diff; the history has grown by the number of result actions; old games are a prefix |
| Reducer.ReplayTotalsFollowRule | src/AppContext/actions/GameResultAction.ts:87-93 | after any roster-keeping actions, the running totals are the scoring rule summed over the recorded outcomes |
| Reducer.ReplayFromDefault | src/AppContext/AppContext.ts:51-57 | from the initial state plus a setup: the totals are the sum of one diff per result action and the scoring rule summed over the recorded outcomes, and at most two passes are recorded |
| Reducer.ThreeSeatBidding | src/AppContext/actions/SetGamestateAction.ts:12-40 | at three players with dealer 0, two passes and a Zole make seat 0 the declarer |
| Reducer.ThreeSeatZoleWin | src/AppContext/actions/GameResultAction.ts:156-159 | with the entry 6, a first won Zole (91 or more) by seat 0 at three players records diff and totals `12, -6, -6` |
| Types.GameTypeCode | src/types.ts:6-11 | each game type is coded as an integer in 0..3 |
| Types.VariantOfCode | src/types.ts:6-11 | exactly the codes 0..3 decode to a game type |
| Types.GameTypeCodesRoundTrip | src/types.ts:6-11 | decoding inverts encoding in both directions, so the four codes are distinct |
| Types.ActionCode | src/types.ts:13-17 | a bidding action is coded `-1` exactly when it is a pass |
| Types.ActionOfCode | src/types.ts:13-17 | the Galdiņš code does not decode to a bidding action |
| Types.ActionCodesRoundTrip | src/types.ts:13-17 | bidding codes round-trip; exactly `-1, 1, 2, 3` decode; a declaration's code is the code of the game it declares |
| Types.GradeCode | src/types.ts:62-71 | grades are coded as non-zero integers in -3..3 |
| Types.GradeOfCode | src/types.ts:62-71 | exactly the non-zero codes in -3..3 decode to a grade |
| Types.GradeCodes | src/types.ts:62-71 | a grade's code is positive exactly for the three win grades; codes round-trip |
| Types.ConvertGameStateFromSetup | src/types.ts:72-77 | the game state takes players and dealer from the setup and leaves games, passes and game type absent |
| Types.ConvertIgnoresPlayerCount | src/types.ts:72-77 | the setup's player count does not reach the game state |
| PlayedGames.GameResultClassName | src/Pages/Components/PlayedGames.tsx:54-84 | only the subject's cell is coloured: green when the round went its way (a won grade, or a won Mazā zole), red otherwise (always red for a Galdiņš loser) |
| PlayedGames.WonIffPositiveRate | src/Pages/Components/PlayedGames.tsx:55-81 | under the sign convention, a round goes the subject's way exactly when its table entry is positive |
| PlayedGames.ColourMatchesDiff | src/Pages/Components/PlayedGames.tsx:54-84 | with at least two seats, under the sign convention, and for a game whose diff is the scoring rule: the subject's cell is green exactly when the subject gained that round and red exactly when it lost; other cells have no class |
| PlayedGames.RecordedColourMatchesDiff | src/Pages/Components/PlayedGames.tsx:54-84 | with at least two seats, under the sign convention, for every game of a history whose diffs follow the scoring rule (every history the reducer builds without a setup that resizes the roster under recorded games): the subject's cell is green exactly when the subject gained and red exactly when it lost; other cells have no class |
| PlayedGames.Totals | src/Pages/Components/PlayedGames.tsx:7-13 | the totals row is the last game's scores, or one zero per player before any game |
| PlayedGames.TotalsAreSumOfDiffs | src/Pages/Components/PlayedGames.tsx:7-13 | the totals row equals `getPreviousScores`; in a consistent history it is the sum of all diffs and sums to zero when every round did |
| PlayedGames.RowSeparator | src/Pages/Components/PlayedGames.tsx:30 | a separator is only ever drawn when there are players |
| PlayedGames.SeparatorAfterFullRotation | src/Pages/Components/PlayedGames.tsx:30 | a separator follows row `i` exactly when game `i + 1` is dealt by the initial dealer again |
| GameView.ShouldGiveAction | src/Pages/Components/Game.tsx:55-58 | only while no game type is set; the seat lies within `(-playerCount, playerCount)`, and is non-negative for a non-negative dealer |
| GameView.ExactlyOneSeatActs | src/Pages/Components/Game.tsx:55-58 | while bidding with a valid dealer, exactly one seat, `(dealer + passes + 1) % playerCount`, gets the bidding buttons |
| GameView.ActingSeatDeclares | src/Pages/Components/Game.tsx:56-58 | a seat gets the bidding buttons exactly when no game type is set and a declaration in that state would name that seat |
| GameView.Roka | src/Pages/Components/Game.tsx:75-92 | a hand label, when shown, is 1, 2 or 3 |
| GameView.RokaLabels | src/Pages/Components/Game.tsx:80-87 | non-dealer seats are labelled with their distance after the dealer; the dealer has no label at four players and is the third hand at three |
| GameView.SeatButtons | src/Pages/Components/Game.tsx:126-186 | a Galdiņš cell offers "lost" for that seat; a Mazā zole cell offers two Mazā zole results, both with `didWin: true` and the state's game type; Zole and Lielais cells offer none |
| GameView.LostButtonRecordsWin | src/Pages/Components/Game.tsx:153-164 | the Mazā zole "Zaudēja" (lost) button records a won game and colours the declarer green |
| GameView.IntendedSeatButtons | src/Pages/Components/Game.tsx:149-180 | as the cell buttons, except that the Mazā zole "Zaudēja" button records `didWin: false` and "Uzvarēja" `didWin: true`, both with the state's game type |
| GameView.IntendedButtonsRecordOwnOutcome | src/Pages/Components/Game.tsx:153-177 | with the intended buttons, "Zaudēja" records a lost Mazā zole (red) and "Uzvarēja" a won one (green) |
| GameView.GradeButtons | src/Pages/Components/Game.tsx:188-274 | no grade buttons for Galdiņš or Mazā zole; six for Zole and Lielais, each carrying the declared game type |
| GameView.GradeButtonsDistinct | src/Pages/Components/Game.tsx:194-272 | the six grade buttons dispatch six distinct grades, covering every grade |

## Left out

- Rendering, React hooks, routing, scroll handling and local persistence of saved games are not modelled. They are presentation and I/O, not bookkeeping. The same goes for the link encoding (`compress`/`decompress`), which calls a foreign compression library and JSON.
- The point-table values: `PointTable.ts` is not part of this model. Its 15 entries are a parameter of every scoring function.
- Ambient state: `withScore` and the totals row read the player count from a process-wide global. The model passes the player count of the same reducer state explicitly.
- JavaScript numbers are modelled as unbounded integers plus `NaN`. Fractions, infinities and precision loss are not modelled. The program computes only with small integers.
- Reducer.Replay: stated only for action sequences in which every setup keeps the roster length. If a setup resizes the roster under a non-empty history, the source produces `NaN` totals or drops seats. `GameResult.WithScore` models that case, but no replay property holds there.
- The unreachable `return state` after the declaration branch of `SetGamestateAction`, and the unreachable `default: return 0` branches of the grade switches. The closed `Grade` and `GameStateAction` datatypes leave no input that reaches them.
- Purity of the reducer (equal inputs give equal outputs) holds for every Dafny function, so it has no lemma of its own.
- Payloads outside the declared types are not modelled: a grade string outside the six, or a game type that does not match the action tag. The action datatypes admit only well-typed payloads.

## Findings

| source | as written | input that shows it | evidently intended | confidence | as-written member | corrected member |
|---|---|---|---|---|---|---|
| src/Pages/Components/Game.tsx:153-164 | the Mazā zole "Zaudēja" (lost) button dispatches `didWin: true`, like the "Uzvarēja" (won) button | any declared Mazā zole; press "Zaudēja" in any seat's cell | dispatch `didWin: false`, so that the declarer is charged the loss entry and shown red | high; not executed | GameView.LostButtonRecordsWin | GameView.IntendedSeatButtons |
