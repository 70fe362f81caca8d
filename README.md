# WesGem scoring and session, in Dafny

This project models the game core of WesGem, a browser gem-matching slot game:

- the payline evaluator `evaluateGrid` and its helper `findLongestMatch` (`logic/scoring.ts`);
- the game session held by the `App` component (`App.tsx`):
  - the gem generator;
  - the spin guard, the token payment and the re-draw of unlocked gems;
  - the scoring of a spin (counts per gem type, base score, combo multiplier, winning type);
  - the game-over rule;
  - gem locking and restart.

The constants `GRID_SIZE = 3`, `INITIAL_TOKENS = 50` and `SPIN_COST = 1` and the gem types come from `constants.tsx` and `types.ts`.

Modules:

- `Wrappers` (`wrappers.dfy`): `Option`, for `null`.
- `Scoring` (`scoring.dfy`): the grid evaluator.
  - `EvaluateGrid` is the imperative evaluator, written loop for loop. It runs the first, discarded pass with `FindLongestMatch`, then the row pass.
  - `EvaluateGrid` is proved equal to `Evaluate`, a specification built from one payline per row.
  - The lemmas state what a payline is:
    - the longest prefix of the row whose non-wild cells all have one type;
    - its type is the first non-wild type, or wild when all its cells are wild;
    - the winning set is exactly the scatters plus the cells of the qualifying runs.
- `Gems` (`gems.dfy`): gems, gem types, game states and the constants, plus the pure helpers of `App.tsx`:
  - `generateRandomGem`;
  - the initial row;
  - the re-draw of unlocked gems;
  - the lock toggle.
- `SpinScoring` (`spin_scoring.dfy`): the scoring block that runs when a spin's animation ends.
  - `ScoreGems` is that block as a method. It counts with a map whose key order is the insertion order, as a JavaScript object with string keys has.
  - It is proved equal to the specification functions `MaxCount`, `BaseScore`, `SpinWin` and `WinningType`, which are characterised by lemmas.
- `Session` (`session.dfy`): class `Session`, whose fields are the component's state variables.
  - `handleSpin` is split at its timer: `Spin` is the synchronous part and `Settle` is the animation-end callback.
  - `CooldownElapsed` is the cooldown timer's callback.
  - `LockGem` is `handleLockGem` and `Restart` is `handleRestart`.
  - Every method keeps the invariant `Valid()`: unique gem ids, at most one locked gem, no negative tokens or score, and GAME_OVER only when a spin cannot be paid for.

`Math.random()` is replaced by draws, given as parameters: one index into `GEM_TYPES` per gem. The pay table and the grid dimensions that `logic/scoring.ts` imports are parameters too (`table`, `rows`, `cols`).

Where the evaluator's code differs from its own comments or from what a slot game usually does, the model follows the code:

- A row that starts with scatters is evaluated like any other row. It pays if the table has entries for the scatter type.
- A run of wilds takes the type of the first non-wild cell after it, and that cell extends the run. So `[WILD, WILD, WILD, X, Y]` is a run of at least four paid as `X`, not three wilds (`Scoring.WildPrefixAdoptsNextType`).
- The run length is not capped at 5. A run longer than the table's tiers finds no entry and pays nothing.
- The first pass over `Object.keys(PAY_TABLE)` does not affect the result: its totals are reset before the row pass. `EvaluateGrid` still runs it, and the result is proved independent of it.

## Model

| member | source | states |
|---|---|---|
| Scoring.EvaluateGrid | logic/scoring.ts:14-98 | for a grid of `rows` rows of `cols >= 1` cells, the result equals `Evaluate`: scatter ids plus the ids of every qualifying row run, the sum of the row payouts, and the number of scatter cells |
| Scoring.FindLongestMatch | logic/scoring.ts:100-129 | empty when the start cell is neither the target type nor wild; otherwise it starts with the start cell's id, and each later entry is the id of the first cell from the top of the next column that is the target or wild; it stops at the first column with no such cell, and never has more than `cols - startCol` entries |
| Scoring.ScanLine | logic/scoring.ts:64-83 | the collected cells are exactly the row's longest consistent prefix (`RunLength`), and the match type is null while only wilds have been seen, else the first non-wild type |
| Scoring.ScoreRow | logic/scoring.ts:85-93 | the total grows by the row's payout and the winning set by the run's ids exactly when the run has at least 3 cells and a non-zero table entry; otherwise both are unchanged |
| Scoring.FirstPass | logic/scoring.ts:29-48 | the discarded first pass only ever adds to the winning set it was given |
| Scoring.FlattenCells | logic/scoring.ts:19 | a cell is in `grid.flat()` exactly when it is a cell of some row |
| Scoring.ScatterIdsMembership | logic/scoring.ts:21-27 | an id is among the collected scatter ids exactly when some scatter cell has that id |
| Scoring.EffectiveTypeIsFirstNonWild | logic/scoring.ts:66-87 | a run's type is wild exactly when every cell is wild; otherwise it is the type of the first non-wild cell, all cells before which are wild |
| Scoring.ExtendRun | logic/scoring.ts:70-76 | appending a cell to a consistent run keeps it consistent exactly when the `symbolMatches` test accepts the cell |
| Scoring.EffectiveTypeLocks | logic/scoring.ts:77-79 | once a run has a non-wild type, no appended cells change it |
| Scoring.EffectiveTypeUnlocked | logic/scoring.ts:77-79 | while a run is all wild, the next cell's type becomes the run's type |
| Scoring.ConsistentPrefix | logic/scoring.ts:68-83 | every prefix of a consistent run is consistent |
| Scoring.RunFromIsMaximal | logic/scoring.ts:68-83 | extending a consistent prefix cell by cell reaches a consistent prefix that is either the whole row or cannot take the next cell |
| Scoring.RunLengthIsMaximal | logic/scoring.ts:68-83 | the run from column 0 is consistent, and the next cell (if any) would break it |
| Scoring.RunIsLongestConsistentPrefix | logic/scoring.ts:68-83 | a prefix is consistent exactly when it is no longer than the run: the run is the longest consistent prefix |
| Scoring.RunLengthUnique | logic/scoring.ts:68-83 | any consistent prefix that cannot be extended is the run |
| Scoring.RunStopsAtFirstMismatch | logic/scoring.ts:70-82 | every cell inside the run passes `symbolMatches` against the cells before it, and the cell after the run fails it |
| Scoring.IdsOfMembership | logic/scoring.ts:91 | the ids added for a run are exactly its cells' ids |
| Scoring.LinesIds | logic/scoring.ts:63-94 | after the first `n` rows, an id has been added by the row pass exactly when it belongs to a qualifying run of one of those rows |
| Scoring.ScatterCellsWin | logic/scoring.ts:56-60 | every scatter cell's id is in the winning set, wherever it is |
| Scoring.WinningSymbolsAccounted | logic/scoring.ts:56-97 | an id is in the winning set exactly when it is a scatter cell's id or belongs to a qualifying row run |
| Scoring.ScatterCountAppend | logic/scoring.ts:21-27 | the scatter count of two cell sequences joined is the sum of their counts |
| Scoring.ScatterCountSamePattern | logic/scoring.ts:21-27 | two sequences with scatters at the same positions have the same scatter count |
| Scoring.ScatterCountByPosition | logic/scoring.ts:21-27 | the scatter count of a grid depends only on where its scatters are, not on the other cells or the rows' runs |
| Scoring.FlattenScatters | logic/scoring.ts:19-27 | grids of one shape with scatters at the same positions flatten to equal scatter counts |
| Scoring.UniformPrefixRun | logic/scoring.ts:85-93 | a row whose first `C` cells share a non-wild type, followed by a cell that is neither that type nor wild, has run length exactly `C` and that type; for `C >= 3` it pays the table entry for (type, `C`) and highlights exactly those cells when the entry is non-zero |
| Scoring.AllWildLinePaysWild | logic/scoring.ts:87-88 | a run made only of wilds pays at the wild type's tier for its length |
| Scoring.AllWildRow | logic/scoring.ts:66-79 | a row of wilds is one run over the whole row |
| Scoring.WildPrefixAdoptsNextType | logic/scoring.ts:77-79 | wilds followed by a non-wild cell form a run that includes that cell and takes its type |
| Scoring.TotalWinNonNegative | logic/scoring.ts:89-90 | with a table of non-negative entries, the total win is never negative |
| Scoring.ThreeOfAKind | logic/scoring.ts:85-93 | a one-row grid of three cells of one plain type, with table `{type: {3: 50}}`, wins 50, highlights the three cells and counts no scatter |
| Gems.GenerateGem | App.tsx:16-20 | the generated gem keeps the id and lock flag it is given; its type is the drawn one, characterised by the next two lemmas |
| Gems.EveryTypeDrawable | App.tsx:16-20 | for every gem type there is a draw for which the generator produces a gem of that type, with the given id and lock |
| Gems.DrawsDistinguishTypes | App.tsx:18 | two draws give the generator the same type exactly when they are equal: each type has exactly one draw |
| Gems.GemId | App.tsx:32 | the id of the i-th initial gem is `gem-` followed by the digit of i, so the ids are `gem-0`, `gem-1`, `gem-2` |
| Gems.InitialGems | App.tsx:31-33 | the initial row has `GRID_SIZE` gems; the i-th has id `GemId(i)`, is unlocked and has the drawn type; the ids are distinct |
| Gems.Redraw | App.tsx:60-62 | a locked gem stays as it is; an unlocked gem keeps its id, stays unlocked and gets the drawn type; distinct ids and at most one lock are preserved |
| Gems.ToggleLock | App.tsx:110-116 | ids and types are kept; a gem ends up locked exactly when it has the toggled id and was unlocked; with distinct ids at most one gem is locked afterwards |
| Gems.ToggleTwice | App.tsx:110-116 | toggling the same id twice leaves locked only a gem with that id that was locked before |
| SpinScoring.CountPositive | App.tsx:67-70 | a type has a count exactly when some gem has that type |
| SpinScoring.CountPair | App.tsx:67-70 | the counts of two different types add up to at most the number of gems |
| SpinScoring.CountOfThree | App.tsx:67-70 | for three gems, a type's count is the number of the three with that type |
| SpinScoring.MaxUpTo | App.tsx:72 | the largest count among the first `n` gems' types is at least each of their counts and is the count of one of them (0 when `n` is 0) |
| SpinScoring.MaxCountIsMax | App.tsx:72 | `maxCount` bounds every type's count and is 0 for no gems, else the count of some gem's type |
| SpinScoring.MaxCountUnique | App.tsx:72 | any value that bounds every count and is reached (or is 0) is `maxCount` |
| SpinScoring.BaseScoreOfThree | App.tsx:72-75 | for three gems the base score is 50 exactly when all three match, 10 exactly when just two match, and 0 exactly when all differ |
| SpinScoring.FirstWithCount | App.tsx:81-86 | the first gem position at or after `from` whose type has the given count, or the end when there is none |
| SpinScoring.WinningTypeIsFirstMax | App.tsx:79-86 | no winning type without a base score; with one, the winning type is that of the first gem whose type reaches `maxCount`, and every gem before it has a smaller count |
| SpinScoring.WinningTypeUnique | App.tsx:79-86 | with three gems and a base score, the type that reaches `maxCount` is the winning type (only one can) |
| SpinScoring.WinIsExactProduct | App.tsx:87-88 | the integer win equals `baseScore * (1 + comboStreak * 0.1)` computed exactly |
| SpinScoring.CountSnoc | App.tsx:68-70 | one more gem adds one to its own type's count and leaves every other count unchanged |
| SpinScoring.TallySeen | App.tsx:68-70 | counting a gem whose type is already a key adds one to that key and keeps the key order |
| SpinScoring.TallyFresh | App.tsx:68-70 | counting a gem whose type is not yet a key adds the key last, with count 1, first seen at that gem |
| SpinScoring.TallyWinningType | App.tsx:79-86 | with a base score, the first key in insertion order whose count is `maxCount` is the winning type |
| SpinScoring.TallyMax | App.tsx:72 | the largest value in the count record is `maxCount` |
| SpinScoring.TallyFirstKey | App.tsx:81-86 | the first key in insertion order whose count is `maxCount` is the type of the first gem reaching `maxCount` |
| SpinScoring.Tally | App.tsx:67-70 | the record holds exactly the types that occur, each with its count, keyed in the order of each type's first occurrence |
| SpinScoring.MaxValue | App.tsx:72 | the result bounds every value in the record and is one of them, or 0 |
| SpinScoring.FirstKeyWithCount | App.tsx:81-86 | the `for...in` loop finds the first key in insertion order with the given count, and finds one whenever one exists |
| SpinScoring.HighestCount | App.tsx:72 | `Math.max` over the record's values equals `MaxCount` of the gems |
| SpinScoring.WinningKey | App.tsx:79-86 | the `for...in` search, run when there is a base score, yields `WinningType` of the gems |
| SpinScoring.ScoreGems | App.tsx:66-95 | `maxCount`, the base score, the win and the winning type equal `MaxCount`, `BaseScore`, `SpinWin` and `WinningType` of the gems |
| Session.Session.constructor | App.tsx:23-37 | the session starts IDLE with 50 tokens, score 0, combo 0, no last win, no winning type, and the initial row of gems shown |
| Session.Session.Restart | App.tsx:39-47 | tokens, score, combo, last win, winning type, state and gems return to their initial values |
| Session.Session.Spin | App.tsx:49-63 | a spin starts exactly when the state is neither SPINNING nor COOLDOWN and the tokens cover the cost. A refusal changes nothing, except GAME_OVER when the tokens are short. A start pays the cost, enters SPINNING, clears the last win and winning type, and re-draws the unlocked gems |
| Session.Session.Settle | App.tsx:65-104 | the last win and winning type are those of the gems. A win adds to the score and extends the combo, and no win resets the combo. The game ends when the spin used the last token and won nothing, otherwise the cooldown starts |
| Session.Session.CooldownElapsed | App.tsx:101 | the state returns to IDLE |
| Session.Session.LockGem | App.tsx:108-117 | while spinning the gems are unchanged; otherwise they are the lock toggle of the gems for that id |
| Session.SpinAfterGameOver | App.tsx:50-53 | once the game is over, a spin is refused and the state, tokens and gems stay as they are |

## Left out

- Rendering, styling, sound (`utils/audio.ts`) and the components under `components/` are not part of this model.
- `Symbol`, `SymbolType`, `PAY_TABLE`, `GRID_ROWS` and `GRID_COLS` are imported by `logic/scoring.ts`, but `types.ts` and `constants.tsx` do not define them. The symbol types are modelled as wild, scatter and named plain types, and the pay table and dimensions are parameters.
- `Scoring.EvaluateGrid` requires a grid of exactly `rows` rows of exactly `cols >= 1` cells. The source throws only on a grid with fewer than `GRID_ROWS` rows or a row shorter than `GRID_COLS`, where it reads `undefined.type`. Grid cells are never null in the model.
- Scoring.EvaluateGrid: larger grids are accepted by the source but excluded by `Shaped`. In the source, extra rows and cells beyond `GRID_COLS` go into `grid.flat()`, so they count towards `scatterCount` and the winning set, but they never join a payline.
- `Scoring.Payout` reads a missing pay-table entry as 0. For a missing inner length entry this is what `if(payout)` does in the source. For a symbol type with no row in the table, the source throws instead.
- `Scoring.FirstPass`: its result is discarded by the source, so its contract only states that it adds to the winning set; its totals are not characterised.
- `findLongestMatch`'s variable `lastMatchCol` and `handleLockGem`'s variable `isAlreadyLocked` are never read, so they are not modelled.
- `SpinScoring.ScoreGems` computes the win in integers as `baseScore * (10 + comboStreak) / 10`. The source computes `Math.round(baseScore * (1 + comboStreak * 0.1))` in floating point. The base score is 10 or 50, so the exact product is an integer (`SpinScoring.WinIsExactProduct`). Floating-point rounding error is not modelled.
- `Math.random()` is replaced by draw parameters, each an index below 6.
- Timers are not modelled as time.
  - `Session.Session.Settle` is the animation-end callback. It is modelled as running while its spin is still SPINNING and before any restart. It then reads the same gems and combo that the callback captured, and its `tokens - SPIN_COST` is the current balance. A restart during the animation is not modelled.
  - `Session.Session.CooldownElapsed` is the cooldown callback. It sets IDLE whatever the state is when it fires, as the source does.
- The component's first render, where `gems` is the empty array before the effect copies `initialGems` into it, is not modelled. The session starts with the initial gems shown.
- React's batching of state updates is not modelled: each method applies its updates together.
