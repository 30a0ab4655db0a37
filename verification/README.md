# BTC strategy: position state machine and per-bar indicator rules

This project models the decision core of `src/final_btc_strategy.py`, a
trading strategy that annotates a time-ordered series of OHLC price bars with
trading actions:

- `strat`, the position state machine. It walks the bars from index 1 and
  carries a stance `position` (flat 0, long 1, short -1) and the active
  take-profit `tp` and stop-loss `sl`. On every bar it first runs a silent exit
  check. It then applies one of two rule sets, chosen by whether ATR exceeds
  1200: KAMA/ADXR/TSI votes above it, the Bollinger vote otherwise. An entry
  writes an action code (`signals`: +1 long, +2 short reversal, -1 short,
  -2 long reversal), a `trade_type` label and `TP`/`SL` into that bar's row.
- The element-wise rules of `process_data`: the true range, the directional
  movements `+dm`/`-dm`, and the ADX and ADXR threshold votes.

Modules:

- `Optional` (optional.dfy): `Option<real>` stands for a column cell that may
  be NaN. It also gives the NaN-aware comparisons, which are false whenever a
  side is undefined.
- `Indicators` (indicators.dfy): true range, directional movement and the two
  ADX votes, as functions over optional reals.
- `Strategy` (strategy.dfy): the row datatypes and the one-bar specification.
  `ExitCheck`, `Entry` and `Step` describe one bar. `StateBefore` and
  `DecisionAt` describe the whole walk. The method `Strat` fills the output
  columns of an `array<Row>` in place, and is proved to leave exactly
  `DecisionAt` in every row.
- `StrategyProperties` (properties.dfy): lemmas about that specification.

The model follows the code where a symmetric reading of the strategy would
differ. The high-volatility short rule at line 124 requires only
`KAMA_signal == ADXR_signal`, not that both equal -1. So neutral votes (0, 0)
with TSI <= 0 open a short from flat. Bullish votes (1, 1) with TSI = -1 also
open a short from flat, because the long rule needs TSI >= 0. Votes (1, 1)
with TSI = 0 while long reverse the long, because the long rule is blocked by
`position <= 0`. All three cases are proved as stated
(`NeutralVotesOpenShort`, `BullishVotesBearishTsiOpenShort`,
`BullishVotesReverseLong`). When a bar touches both the TP and the SL of a
long or of a short, no tie-break is needed: either test closes it
(`ExitOnBothTargets`).

Prices are exact `real`s. ATR, ADX, ADXR and ±DI are `Option<real>`. The votes
consumed by `strat` are `int` columns, as `np.where` produces them. A row's
pandas label is its 0-based position.

## Model

| member | source | states |
|---|---|---|
| Indicators.TrueRange | src/final_btc_strategy.py:29-32 | the true range is the largest of high-low, abs(high-prev close) and abs(low-prev close): at least each and equal to one; it is non-negative, and undefined exactly when the previous close is |
| Indicators.TrueRangeAt | src/final_btc_strategy.py:29-32 | the `TR` column is undefined exactly at bar 0 (the shift has no predecessor); elsewhere it is at least high-low and non-negative |
| Indicators.UpMove | src/final_btc_strategy.py:39 | `upmove` is undefined exactly at bar 0 (the shift has no predecessor); elsewhere it is positive exactly when the high rose |
| Indicators.DownMove | src/final_btc_strategy.py:40 | `downmove` is undefined exactly at bar 0; elsewhere it is positive exactly when the low fell |
| Indicators.PlusDM | src/final_btc_strategy.py:39-41 | `+dm` is non-negative; it is positive exactly when the up-move is defined, beats the down-move and is positive, and then equals the up-move |
| Indicators.MinusDM | src/final_btc_strategy.py:39-42 | `-dm` is non-negative; it is positive exactly when the down-move is defined, beats the up-move and is positive, and then equals the down-move |
| Indicators.DirectionalMovementAt | src/final_btc_strategy.py:39-42 | on every bar `+dm` and `-dm` are non-negative and never both positive; on bar 0 both are 0, not NaN |
| Indicators.AdxSignal | src/final_btc_strategy.py:47 | the ADX vote is 0 or 1, and 1 exactly when ADX is defined and above 25 |
| Indicators.AdxrSignal | src/final_btc_strategy.py:50 | the ADXR vote is in {-1,0,1}; +1 exactly when ADXR >= 25 and +DI > -DI, -1 exactly when ADXR >= 25 and +DI < -DI, 0 when any operand is undefined |
| Strategy.ExitCheck | src/final_btc_strategy.py:109-114 | the exit check keeps TP/SL and only resets the stance to 0: a long closes iff high >= tp or low <= sl, a short iff low <= tp or high >= sl; a flat stance is untouched |
| Strategy.HighVolatility | src/final_btc_strategy.py:117 | the gate passes exactly when ATR is defined and above 1200; a NaN ATR never passes |
| Strategy.Entry | src/final_btc_strategy.py:116-144 | each action code comes with its label and the stance it needs (+1 "long" from flat, +2 "short_reversal" from a short, -1 "short" from flat, -2 "long_reversal" from a long); no action leaves state and row untouched; an entry sets the stance to its direction and TP/SL to close times 1.05/0.98, 0.95/1.02, 1.02/0.99 or 0.98/1.01 by branch and direction |
| Strategy.Step | src/final_btc_strategy.py:109-144 | one loop iteration, exit check then entry: without an action the state is the one the exit check left and the row keeps the defaults; a positive action makes the stance long and needs a post-exit stance <= 0, a negative one makes it short and needs a post-exit stance >= 0 |
| Strategy.StateBefore | src/final_btc_strategy.py:99-104 | the reference definition of the loop-carried `position`/`tp`/`sl` at the top of iteration i (defined by applying `Step` bar by bar); its contract states only that before bar 1 it is flat with TP = SL = 0.0, and how stance and TP/SL carry from bar to bar is proved in `ActionMatchesStance` (last ensures), `StanceInRange` and `CarriedTargets` |
| Strategy.DecisionAt | src/final_btc_strategy.py:95-144 | the written columns of row i: row 0 is never visited and keeps the defaults; every action code is in -2..2, and it is 0 exactly when the row holds the defaults |
| Strategy.ResetOutputs | src/final_btc_strategy.py:95-98 | every row's written columns become 0, "", 0.0, 0.0 and its read columns stay |
| Strategy.EnterAt | src/final_btc_strategy.py:116-144 | the imperative entry step writes row i and the new stance/TP/SL exactly as `Entry` prescribes, and changes no other row |
| Strategy.Strat | src/final_btc_strategy.py:95-145 | after the walk every row holds `DecisionAt` for its index, computed from the original bars, and the read columns are unchanged |
| StrategyProperties.StanceInRange | src/final_btc_strategy.py:101-144 | the carried stance is always in {-1,0,1} |
| StrategyProperties.ActionMatchesStance | src/final_btc_strategy.py:104-144 | bar 0 keeps the defaults; every action is in -2..2, is 0 only with the default row, and +1/+2/-1/-2 carry "long"/"short_reversal"/"short"/"long_reversal" and occur only from stance 0/-1/0/1 after the exit check; the next stance is the action's direction, or the post-exit stance when no action fires |
| StrategyProperties.TargetsAt | src/final_btc_strategy.py:97-144 | TP/SL of a bar are 0.0 unless an entry fired there; an entry writes close times its branch/direction multipliers; for a positive close TP and SL are non-zero exactly on entry bars |
| StrategyProperties.LastEntry | src/final_btc_strategy.py:119-144 | the latest bar before i where an entry fired (or 0): it has a non-zero action and every bar after it has action 0 |
| StrategyProperties.CarriedTargets | src/final_btc_strategy.py:99-144 | the active TP/SL are those written by the latest entry, unchanged on every bar since; before any entry the state is flat with TP = SL = 0.0; an open stance has that entry's direction |
| StrategyProperties.OpenPositionBracket | src/final_btc_strategy.py:122-144 | with positive closes, an open long has sl < opening close < tp and an open short has tp < opening close < sl |
| StrategyProperties.HighVolatilityRules | src/final_btc_strategy.py:117-129 | above the ATR threshold the outcome depends only on close and the KAMA/ADXR/TSI votes; a long fires iff KAMA = ADXR = 1, TSI >= 0 and stance <= 0; a short fires iff KAMA = ADXR, TSI <= 0, stance >= 0 and the long rule did not fire |
| StrategyProperties.LowVolatilityRules | src/final_btc_strategy.py:132-144 | at or below the threshold the outcome depends only on close and the Bollinger vote; a long fires iff BB = 1 and stance <= 0, a short iff BB = -1 and stance >= 0 |
| StrategyProperties.UndefinedAtrIsLowVolatility | src/final_btc_strategy.py:117 | a NaN ATR does not pass the `> 1200` gate |
| StrategyProperties.NeutralVotesOpenShort | src/final_btc_strategy.py:124-129 | high volatility, KAMA = ADXR = 0 and TSI <= 0 from flat give action -1 "short" with TP/SL = close × 0.95/1.02 |
| StrategyProperties.BullishVotesBearishTsiOpenShort | src/final_btc_strategy.py:118-129 | high volatility, KAMA = ADXR = 1 and TSI < 0 from flat give action -1 "short" with TP/SL = close × 0.95/1.02 |
| StrategyProperties.BullishVotesReverseLong | src/final_btc_strategy.py:118-129 | high volatility, KAMA = ADXR = 1 and TSI = 0 while long give action -2 "long_reversal" and a short stance |
| StrategyProperties.LongSignalAgainstShort | src/final_btc_strategy.py:109-123 | a high-volatility long signal reverses a short the bar does not stop out (+2 "short_reversal") and opens a plain long (+1 "long") when the exit check closed it first; either way the stance becomes long with TP/SL = close × 1.05/0.98 |
| StrategyProperties.ExitOnBothTargets | src/final_btc_strategy.py:109-114 | a bar touching both TP and SL of a long or of a short closes it, and without an entry the row keeps the defaults |
| StrategyProperties.QuietSeriesStaysFlat | src/final_btc_strategy.py:104-144 | when no bar is above the ATR threshold and every Bollinger vote is 0, the stance stays flat and every row holds |

## Left out

- Rolling means, standard deviations and quantiles, and `ewm` smoothing (Bollinger bands, ATR, ±DI, DX, ADX, TSI and its signal line, the KAMA efficiency ratio; lines 20-24, 33, 43-46, 57-63, 73-81): floating-point numerics done inside pandas/numpy. Their outputs are inputs of the model.
- The KAMA recurrence (lines 64-65): it is a float recurrence over the pandas-derived smoothing constant and a rolling-mean seed, so it only makes sense together with those numerics.
- The ADXR averaging (line 49), and the Bollinger, KAMA and TSI vote rules (lines 24, 67, 81): they read the smoothed columns and their rolling quantiles above. The ADXR value and the BB/KAMA/TSI votes are given columns.
- Floating-point rounding of `close * 1.05` and the other products: the model computes with exact reals.
- The column drop at the end of `strat` (line 146): dataframe plumbing. `Strat` leaves the read columns in place.
- `perform_backtest` and `main` (lines 150-180): CSV reading and writing and the remote backtest client are I/O and a foreign service.
- Strategy.Strat: models a frame whose labels are 0..n-1, so `data.loc[i, …]` and `iloc[i]` address the same row; other indexes are not modelled.
