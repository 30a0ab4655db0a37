/**
 * The position state machine `strat`: it walks the bars from index 1,
 * carries a stance (`position`) and the active take-profit / stop-loss,
 * runs a silent exit check on every bar and then a volatility-gated entry
 * rule, and writes an action code, a trade-type label and TP/SL into the
 * row of every bar on which a position is opened.
 */
module Strategy {
  import opened Optional

  /** `atr_threshold`: above it the high-volatility rule set applies. */
  const AtrThreshold: real := 1200.0

  /** The columns of one row that `strat` reads. Votes are the -1/0/+1 columns. */
  datatype Bar = Bar(
    close: real, high: real, low: real, atr: Option<real>,
    kamaSignal: int, adxrSignal: int, tsiSignal: int, bbSignal: int)

  /** The columns of one row that `strat` writes: `signals`, `trade_type`, `TP`, `SL`. */
  datatype Decision = Decision(signal: int, tradeType: string, tp: real, sl: real)

  /** The value of the written columns on a bar where no entry fires. */
  const Hold := Decision(0, "", 0.0, 0.0)

  /** The loop-carried variables `position`, `tp` and `sl`. */
  datatype State = State(position: int, tp: real, sl: real)

  const Initial := State(0, 0.0, 0.0)

  /** The volatility gate; a NaN ATR does not exceed the threshold. */
  predicate HighVolatility(b: Bar)
    ensures HighVolatility(b) <==> b.atr.Some? && b.atr.value > AtrThreshold
    ensures b.atr.None? ==> !HighVolatility(b)
  {
    Greater(b.atr, Some(AtrThreshold))
  }

  /**
   * The exit check run before any entry logic: a long closes when the bar
   * reaches its take-profit from below or its stop-loss from above, a short
   * the other way round. Closing only resets the stance.
   */
  function ExitCheck(s: State, b: Bar): (r: State)
    ensures r.tp == s.tp && r.sl == s.sl
    ensures r.position == s.position || r.position == 0
    ensures s.position == 1 ==> (r.position == 0 <==> b.high >= s.tp || b.low <= s.sl)
    ensures s.position == -1 ==> (r.position == 0 <==> b.low <= s.tp || b.high >= s.sl)
    ensures s.position != 1 && s.position != -1 ==> r == s
  {
    if s.position == 1 then
      if b.high >= s.tp || b.low <= s.sl then s.(position := 0) else s
    else if s.position == -1 then
      if b.low <= s.tp || b.high >= s.sl then s.(position := 0) else s
    else
      s
  }

  /** Opening a long (`long`) or a short at `close` with the given multipliers. */
  function Open(s: State, close: real, long: bool, tpMult: real, slMult: real): (State, Decision)
  {
    var tp := close * tpMult;
    var sl := close * slMult;
    var d :=
      if long then
        Decision(if s.position == 0 then 1 else 2,
                 if s.position == 0 then "long" else "short_reversal", tp, sl)
      else
        Decision(if s.position == 0 then -1 else -2,
                 if s.position == 0 then "short" else "long_reversal", tp, sl);
    (State(if long then 1 else -1, tp, sl), d)
  }

  /**
   * The entry rules applied to the stance left by the exit check. The
   * high-volatility short rule is the one of the source: the KAMA and ADXR
   * votes need only be equal, not both -1.
   */
  function Entry(s: State, b: Bar): (r: (State, Decision))
    ensures r.1.signal == 0 ==> r.1 == Hold && r.0 == s
    ensures r.1.signal == 1 ==> s.position == 0 && r.1.tradeType == "long"
    ensures r.1.signal == 2 ==> s.position < 0 && r.1.tradeType == "short_reversal"
    ensures r.1.signal == -1 ==> s.position == 0 && r.1.tradeType == "short"
    ensures r.1.signal == -2 ==> s.position > 0 && r.1.tradeType == "long_reversal"
    ensures -2 <= r.1.signal <= 2
    ensures r.1.signal > 0 ==> r.0.position == 1
    ensures r.1.signal < 0 ==> r.0.position == -1
    ensures r.1.signal != 0 ==> r.0.tp == r.1.tp && r.0.sl == r.1.sl
    ensures r.1.signal > 0 && HighVolatility(b) ==> r.1.tp == b.close * 1.05 && r.1.sl == b.close * 0.98
    ensures r.1.signal < 0 && HighVolatility(b) ==> r.1.tp == b.close * 0.95 && r.1.sl == b.close * 1.02
    ensures r.1.signal > 0 && !HighVolatility(b) ==> r.1.tp == b.close * 1.02 && r.1.sl == b.close * 0.99
    ensures r.1.signal < 0 && !HighVolatility(b) ==> r.1.tp == b.close * 0.98 && r.1.sl == b.close * 1.01
  {
    if HighVolatility(b) then
      if b.kamaSignal == b.adxrSignal == 1 && b.tsiSignal >= 0 && s.position <= 0 then
        Open(s, b.close, true, 1.05, 0.98)
      else if b.kamaSignal == b.adxrSignal && b.tsiSignal <= 0 && s.position >= 0 then
        Open(s, b.close, false, 0.95, 1.02)
      else
        (s, Hold)
    else
      if b.bbSignal == 1 && s.position <= 0 then
        Open(s, b.close, true, 1.02, 0.99)
      else if b.bbSignal == -1 && s.position >= 0 then
        Open(s, b.close, false, 0.98, 1.01)
      else
        (s, Hold)
  }

  /**
   * One iteration of the loop: exit check, then entry. Without an action the
   * state is the one the exit check left; an action opens its direction from
   * a stance the exit check left on the other side or flat.
   */
  function Step(s: State, b: Bar): (r: (State, Decision))
    ensures r.1.signal == 0 ==> r.0 == ExitCheck(s, b) && r.1 == Hold
    ensures r.1.signal > 0 ==> r.0.position == 1 && ExitCheck(s, b).position <= 0
    ensures r.1.signal < 0 ==> r.0.position == -1 && ExitCheck(s, b).position >= 0
    ensures r.0.position == s.position || r.0.position == 0 || r.1.signal != 0
  {
    Entry(ExitCheck(s, b), b)
  }

  /** The loop-carried state at the top of iteration `i` (bars 1 .. i-1 done). */
  function StateBefore(bars: seq<Bar>, i: nat): (r: State)
    requires i <= |bars|
    ensures i <= 1 ==> r == Initial
  {
    if i <= 1 then Initial else Step(StateBefore(bars, i - 1), bars[i - 1]).0
  }

  /** What `strat` leaves in the written columns of row `i`; row 0 is never visited. */
  function DecisionAt(bars: seq<Bar>, i: nat): (r: Decision)
    requires i < |bars|
    ensures i == 0 ==> r == Hold
    ensures -2 <= r.signal <= 2
    ensures r.signal == 0 <==> r == Hold
  {
    if i == 0 then Hold else Step(StateBefore(bars, i), bars[i]).1
  }

  /** A dataframe row: the columns `strat` reads and the ones it writes. */
  datatype Row = Row(bar: Bar, out: Decision)

  function BarsOf(rows: seq<Row>): (bars: seq<Bar>)
    ensures |bars| == |rows|
    ensures forall k :: 0 <= k < |rows| ==> bars[k] == rows[k].bar
  {
    seq(|rows|, k requires 0 <= k < |rows| => rows[k].bar)
  }

  /**
   * `strat` on a frame whose index is 0 .. n-1: the written columns are reset
   * and then filled bar by bar, in place; the read columns stay as they were.
   */
  method Strat(data: array<Row>)
    modifies data
    ensures forall k :: 0 <= k < data.Length ==> data[k].bar == old(data[k].bar)
    ensures forall k :: 0 <= k < data.Length ==> data[k].out == DecisionAt(BarsOf(old(data[..])), k)
  {
    ghost var bars := BarsOf(data[..]);
    ResetOutputs(data);
    var tp, sl := 0.0, 0.0;
    var position := 0;
    var i := 1;
    while i < data.Length
      invariant 1 <= i && (data.Length == 0 || i <= data.Length)
      invariant forall k :: 0 <= k < data.Length ==> data[k].bar == bars[k]
      invariant forall k {:trigger DecisionAt(bars, k)} :: 0 <= k < i && k < data.Length ==> data[k].out == DecisionAt(bars, k)
      invariant forall k :: i <= k < data.Length ==> data[k].out == Hold
      invariant data.Length > 0 ==> State(position, tp, sl) == StateBefore(bars, i)
    {
      var b := data[i].bar;
      var highPrice, lowPrice := b.high, b.low;
      if position == 1 {
        if highPrice >= tp || lowPrice <= sl {
          position := 0;
        }
      } else if position == -1 {
        if lowPrice <= tp || highPrice >= sl {
          position := 0;
        }
      }
      assert State(position, tp, sl) == ExitCheck(StateBefore(bars, i), bars[i]);

      ghost var rows := data[..];
      position, tp, sl := EnterAt(data, i, position, tp, sl);
      ghost var step := Step(StateBefore(bars, i), bars[i]);
      assert State(position, tp, sl) == step.0 && data[i].out == step.1;
      assert StateBefore(bars, i + 1) == step.0;
      assert data[i].out == DecisionAt(bars, i);
      assert forall k :: 0 <= k < data.Length && k != i ==> data[k] == rows[k];
      i := i + 1;
    }
  }

  /** The column initialisation of `strat`: every written column back to its default. */
  method ResetOutputs(data: array<Row>)
    modifies data
    ensures forall k :: 0 <= k < data.Length ==> data[k] == Row(old(data[k].bar), Hold)
  {
    forall k | 0 <= k < data.Length {
      data[k] := data[k].(out := Hold);
    }
  }

  /**
   * The volatility-gated entry rules of one loop iteration, on the stance left
   * by the exit check: they may write row `i` and open or reverse a position.
   */
  method EnterAt(data: array<Row>, i: nat, position0: int, tp0: real, sl0: real)
    returns (position: int, tp: real, sl: real)
    requires i < data.Length && data[i].out == Hold
    modifies data
    ensures forall k :: 0 <= k < data.Length && k != i ==> data[k] == old(data[k])
    ensures data[i].bar == old(data[i].bar)
    ensures (State(position, tp, sl), data[i].out) == Entry(State(position0, tp0, sl0), data[i].bar)
  {
    var bar := data[i].bar;
    var closePrice := bar.close;
    position, tp, sl := position0, tp0, sl0;
    if HighVolatility(bar) {
      if bar.kamaSignal == bar.adxrSignal == 1 && bar.tsiSignal >= 0 && position <= 0 {
        data[i] := data[i].(out := Decision(
          if position == 0 then 1 else 2,
          if position == 0 then "long" else "short_reversal",
          closePrice * 1.05, closePrice * 0.98));
        position := 1;
        tp, sl := closePrice * 1.05, closePrice * 0.98;
      } else if bar.kamaSignal == bar.adxrSignal && bar.tsiSignal <= 0 && position >= 0 {
        data[i] := data[i].(out := Decision(
          if position == 0 then -1 else -2,
          if position == 0 then "short" else "long_reversal",
          closePrice * 0.95, closePrice * 1.02));
        position := -1;
        tp, sl := closePrice * 0.95, closePrice * 1.02;
      }
    } else {
      if bar.bbSignal == 1 && position <= 0 {
        data[i] := data[i].(out := Decision(
          if position == 0 then 1 else 2,
          if position == 0 then "long" else "short_reversal",
          closePrice * 1.02, closePrice * 0.99));
        position := 1;
        tp, sl := closePrice * 1.02, closePrice * 0.99;
      } else if bar.bbSignal == -1 && position >= 0 {
        data[i] := data[i].(out := Decision(
          if position == 0 then -1 else -2,
          if position == 0 then "short" else "long_reversal",
          closePrice * 0.98, closePrice * 1.01));
        position := -1;
        tp, sl := closePrice * 0.98, closePrice * 1.01;
      }
    }
  }
}
