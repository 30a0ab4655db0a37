/**
 * The element-wise rules of `process_data`: true range, directional movement
 * and the two ADX votes. The smoothed inputs these rules consume (ATR, +DI,
 * -DI, ADX, ADXR) are taken as given columns of optional reals.
 */
module Indicators {
  import opened Optional

  /** Threshold of both ADX votes. */
  const TrendThreshold: real := 25.0

  function Abs(x: real): real
  {
    if x < 0.0 then -x else x
  }

  function Max(a: real, b: real): real
  {
    if a >= b then a else b
  }

  /** A column shifted down by one row (`shift(1)`): undefined at bar 0. */
  function Previous(col: seq<real>, i: nat): Option<real>
    requires i < |col|
  {
    if i == 0 then None else Some(col[i - 1])
  }

  /**
   * True range of one bar: the largest of high - low, |high - previous close|
   * and |low - previous close|; NaN as soon as one of them is (`skipna=False`).
   */
  function TrueRange(high: real, low: real, prevClose: Option<real>): (r: Option<real>)
    ensures r.Some? <==> prevClose.Some?
    ensures r.Some? ==>
      r.value >= high - low &&
      r.value >= Abs(high - prevClose.value) &&
      r.value >= Abs(low - prevClose.value)
    ensures r.Some? ==>
      r.value == high - low ||
      r.value == Abs(high - prevClose.value) ||
      r.value == Abs(low - prevClose.value)
    ensures r.Some? ==> r.value >= 0.0
  {
    match prevClose
    case None => None
    case Some(pc) => Some(Max(high - low, Max(Abs(high - pc), Abs(low - pc))))
  }

  /** The `TR` column at bar `i`: undefined exactly at the first bar. */
  function TrueRangeAt(high: seq<real>, low: seq<real>, close: seq<real>, i: nat): (r: Option<real>)
    requires |high| == |low| == |close| && i < |close|
    ensures r.None? <==> i == 0
    ensures i > 0 ==> r.value >= high[i] - low[i] && r.value >= 0.0
  {
    TrueRange(high[i], low[i], Previous(close, i))
  }

  /** `upmove`: high[i] - high[i-1], undefined at bar 0. */
  function UpMove(high: seq<real>, i: nat): (r: Option<real>)
    requires i < |high|
    ensures r.None? <==> i == 0
    ensures r.Some? ==> (r.value > 0.0 <==> high[i] > high[i - 1])
  {
    if i == 0 then None else Some(high[i] - high[i - 1])
  }

  /** `downmove`: low[i-1] - low[i], undefined at bar 0. */
  function DownMove(low: seq<real>, i: nat): (r: Option<real>)
    requires i < |low|
    ensures r.None? <==> i == 0
    ensures r.Some? ==> (r.value > 0.0 <==> low[i] < low[i - 1])
  {
    if i == 0 then None else Some(low[i - 1] - low[i])
  }

  /**
   * `+dm`: the up-move when it beats the down-move and is positive, else 0.
   * `np.where` yields 0, not NaN, when a move is undefined.
   */
  function PlusDM(up: Option<real>, down: Option<real>): (r: real)
    ensures r >= 0.0
    ensures r > 0.0 <==> Greater(up, down) && up.value > 0.0
    ensures r > 0.0 ==> r == up.value
  {
    if Greater(up, down) && Greater(up, Some(0.0)) then up.value else 0.0
  }

  /** `-dm`: the down-move when it beats the up-move and is positive, else 0. */
  function MinusDM(up: Option<real>, down: Option<real>): (r: real)
    ensures r >= 0.0
    ensures r > 0.0 <==> Greater(down, up) && down.value > 0.0
    ensures r > 0.0 ==> r == down.value
  {
    if Greater(down, up) && Greater(down, Some(0.0)) then down.value else 0.0
  }

  /** `ADX_signal`: 1 when ADX is defined and above 25, else 0. */
  function AdxSignal(adx: Option<real>): (r: int)
    ensures r == 0 || r == 1
    ensures r == 1 <==> adx.Some? && adx.value > TrendThreshold
  {
    if Greater(adx, Some(TrendThreshold)) then 1 else 0
  }

  /**
   * `ADXR_signal`: +1 when ADXR >= 25 and +DI > -DI, -1 when ADXR >= 25 and
   * +DI < -DI, 0 otherwise (in particular when any operand is NaN).
   */
  function AdxrSignal(adxr: Option<real>, plusDi: Option<real>, minusDi: Option<real>): (r: int)
    ensures -1 <= r <= 1
    ensures r == 1 <==> adxr.Some? && adxr.value >= TrendThreshold && Greater(plusDi, minusDi)
    ensures r == -1 <==> adxr.Some? && adxr.value >= TrendThreshold && Less(plusDi, minusDi)
    ensures adxr.None? || plusDi.None? || minusDi.None? ==> r == 0
  {
    if AtLeast(adxr, Some(TrendThreshold)) && Greater(plusDi, minusDi) then 1
    else if AtLeast(adxr, Some(TrendThreshold)) && Less(plusDi, minusDi) then -1
    else 0
  }

  /**
   * On every bar `+dm` and `-dm` are non-negative, never both positive, and
   * both 0 on the first bar, where the moves are undefined.
   */
  lemma DirectionalMovementAt(high: seq<real>, low: seq<real>, i: nat)
    requires |high| == |low| && i < |high|
    ensures PlusDM(UpMove(high, i), DownMove(low, i)) >= 0.0
    ensures MinusDM(UpMove(high, i), DownMove(low, i)) >= 0.0
    ensures !(PlusDM(UpMove(high, i), DownMove(low, i)) > 0.0 &&
              MinusDM(UpMove(high, i), DownMove(low, i)) > 0.0)
    ensures i == 0 ==>
      PlusDM(UpMove(high, i), DownMove(low, i)) == 0.0 &&
      MinusDM(UpMove(high, i), DownMove(low, i)) == 0.0
  {
  }
}
