/**
 * What the bar-by-bar specification of `strat` guarantees: the stance stays
 * in {-1, 0, 1}, action codes and labels match the stance left by the exit
 * check, TP/SL are written only on entries and are the ones carried until the
 * next entry, and the volatility gate selects one rule set or the other.
 */
module StrategyProperties {
  import opened Optional
  import opened Strategy

  /** The stance left by the exit check of bar `i`, before any entry rule. */
  function StanceAfterExit(bars: seq<Bar>, i: nat): int
    requires 1 <= i < |bars|
  {
    ExitCheck(StateBefore(bars, i), bars[i]).position
  }

  /** The stance is always flat, long or short. */
  lemma {:induction false} StanceInRange(bars: seq<Bar>, i: nat)
    requires i <= |bars|
    ensures -1 <= StateBefore(bars, i).position <= 1
  {
    if i > 1 {
      StanceInRange(bars, i - 1);
    }
  }

  /**
   * The action code and label of bar `i` agree with the stance the exit check
   * left: a long opens only from flat, reverses only a short, and the other
   * way round for shorts; the stance afterwards follows the action. Bar 0 is
   * never visited and keeps the defaults.
   */
  lemma ActionMatchesStance(bars: seq<Bar>, i: nat)
    requires i < |bars|
    ensures i == 0 ==> DecisionAt(bars, i) == Hold
    ensures -2 <= DecisionAt(bars, i).signal <= 2
    ensures DecisionAt(bars, i).signal == 0 <==> DecisionAt(bars, i) == Hold
    ensures DecisionAt(bars, i).signal == 1 ==>
      StanceAfterExit(bars, i) == 0 && DecisionAt(bars, i).tradeType == "long"
    ensures DecisionAt(bars, i).signal == 2 ==>
      StanceAfterExit(bars, i) == -1 && DecisionAt(bars, i).tradeType == "short_reversal"
    ensures DecisionAt(bars, i).signal == -1 ==>
      StanceAfterExit(bars, i) == 0 && DecisionAt(bars, i).tradeType == "short"
    ensures DecisionAt(bars, i).signal == -2 ==>
      StanceAfterExit(bars, i) == 1 && DecisionAt(bars, i).tradeType == "long_reversal"
    ensures i >= 1 ==>
      StateBefore(bars, i + 1).position ==
        (if DecisionAt(bars, i).signal > 0 then 1
         else if DecisionAt(bars, i).signal < 0 then -1
         else StanceAfterExit(bars, i))
  {
    StanceInRange(bars, i);
  }

  /**
   * TP/SL of bar `i` are 0.0 unless an entry fired there; an entry writes the
   * close times the multipliers of its branch and direction, which are
   * non-zero for a positive close.
   */
  lemma TargetsAt(bars: seq<Bar>, i: nat)
    requires i < |bars|
    ensures DecisionAt(bars, i).signal == 0 ==>
      DecisionAt(bars, i).tp == 0.0 && DecisionAt(bars, i).sl == 0.0
    ensures DecisionAt(bars, i).signal > 0 && HighVolatility(bars[i]) ==>
      DecisionAt(bars, i).tp == bars[i].close * 1.05 && DecisionAt(bars, i).sl == bars[i].close * 0.98
    ensures DecisionAt(bars, i).signal < 0 && HighVolatility(bars[i]) ==>
      DecisionAt(bars, i).tp == bars[i].close * 0.95 && DecisionAt(bars, i).sl == bars[i].close * 1.02
    ensures DecisionAt(bars, i).signal > 0 && !HighVolatility(bars[i]) ==>
      DecisionAt(bars, i).tp == bars[i].close * 1.02 && DecisionAt(bars, i).sl == bars[i].close * 0.99
    ensures DecisionAt(bars, i).signal < 0 && !HighVolatility(bars[i]) ==>
      DecisionAt(bars, i).tp == bars[i].close * 0.98 && DecisionAt(bars, i).sl == bars[i].close * 1.01
    ensures bars[i].close > 0.0 ==>
      (DecisionAt(bars, i).tp != 0.0 <==> DecisionAt(bars, i).signal != 0) &&
      (DecisionAt(bars, i).sl != 0.0 <==> DecisionAt(bars, i).signal != 0)
  {
  }

  /** The latest bar before `i` on which an entry fired, or 0 when there is none. */
  function LastEntry(bars: seq<Bar>, i: nat): (j: nat)
    requires i <= |bars|
    ensures j == 0 || j < i
    ensures j >= 1 ==> DecisionAt(bars, j).signal != 0
    ensures forall k :: j < k < i ==> DecisionAt(bars, k).signal == 0
  {
    if i <= 1 then 0
    else if DecisionAt(bars, i - 1).signal != 0 then i - 1
    else LastEntry(bars, i - 1)
  }

  /**
   * The active TP/SL are the ones written by the latest entry and are carried
   * unchanged across all bars since; before the first entry the machine is
   * flat with TP = SL = 0.0, and an open stance has the direction of that entry.
   */
  lemma {:induction false} CarriedTargets(bars: seq<Bar>, i: nat)
    requires i <= |bars|
    ensures LastEntry(bars, i) == 0 ==> StateBefore(bars, i) == Initial
    ensures LastEntry(bars, i) >= 1 ==>
      StateBefore(bars, i).tp == DecisionAt(bars, LastEntry(bars, i)).tp &&
      StateBefore(bars, i).sl == DecisionAt(bars, LastEntry(bars, i)).sl
    ensures LastEntry(bars, i) >= 1 && StateBefore(bars, i).position != 0 ==>
      StateBefore(bars, i).position == (if DecisionAt(bars, LastEntry(bars, i)).signal > 0 then 1 else -1)
  {
    if i > 1 {
      CarriedTargets(bars, i - 1);
      var s := StateBefore(bars, i - 1);
      assert StateBefore(bars, i) == Step(s, bars[i - 1]).0;
      assert DecisionAt(bars, i - 1) == Step(s, bars[i - 1]).1;
    }
  }

  /**
   * With positive closes, an open long has TP above and SL below the close of
   * the bar that opened it, and an open short the other way round.
   */
  lemma OpenPositionBracket(bars: seq<Bar>, i: nat)
    requires i <= |bars|
    requires forall k :: 0 <= k < |bars| ==> bars[k].close > 0.0
    ensures StateBefore(bars, i).position == 1 ==>
      1 <= LastEntry(bars, i) &&
      StateBefore(bars, i).sl < bars[LastEntry(bars, i)].close < StateBefore(bars, i).tp
    ensures StateBefore(bars, i).position == -1 ==>
      1 <= LastEntry(bars, i) &&
      StateBefore(bars, i).tp < bars[LastEntry(bars, i)].close < StateBefore(bars, i).sl
  {
    CarriedTargets(bars, i);
    var j := LastEntry(bars, i);
    if j >= 1 {
      TargetsAt(bars, j);
    }
  }

  /**
   * Above the ATR threshold only the KAMA, ADXR and TSI votes matter. The
   * long rule needs KAMA = ADXR = 1; the short rule, as written, needs only
   * KAMA = ADXR, and yields to the long rule where both hold.
   */
  lemma HighVolatilityRules(s: State, b: Bar, b': Bar)
    requires HighVolatility(b) && HighVolatility(b')
    requires b'.close == b.close && b'.kamaSignal == b.kamaSignal
    requires b'.adxrSignal == b.adxrSignal && b'.tsiSignal == b.tsiSignal
    ensures Entry(s, b) == Entry(s, b')
    ensures Entry(s, b).1.signal > 0 <==>
      b.kamaSignal == b.adxrSignal == 1 && b.tsiSignal >= 0 && s.position <= 0
    ensures Entry(s, b).1.signal < 0 <==>
      b.kamaSignal == b.adxrSignal && b.tsiSignal <= 0 && s.position >= 0 &&
      !(b.kamaSignal == 1 && b.tsiSignal == 0 && s.position == 0)
  {
  }

  /**
   * At or below the threshold, and whenever ATR is undefined, only the
   * Bollinger vote matters.
   */
  lemma LowVolatilityRules(s: State, b: Bar, b': Bar)
    requires !HighVolatility(b) && !HighVolatility(b')
    requires b'.close == b.close && b'.bbSignal == b.bbSignal
    ensures Entry(s, b) == Entry(s, b')
    ensures Entry(s, b).1.signal > 0 <==> b.bbSignal == 1 && s.position <= 0
    ensures Entry(s, b).1.signal < 0 <==> b.bbSignal == -1 && s.position >= 0
  {
  }

  /** An undefined ATR sends the bar to the low-volatility rules. */
  lemma UndefinedAtrIsLowVolatility(b: Bar)
    requires b.atr.None?
    ensures !HighVolatility(b)
  {
  }

  /** As written, neutral KAMA and ADXR votes with TSI <= 0 open a short from flat. */
  lemma NeutralVotesOpenShort(s: State, b: Bar)
    requires HighVolatility(b) && s.position == 0
    requires b.kamaSignal == 0 && b.adxrSignal == 0 && b.tsiSignal <= 0
    ensures Entry(s, b).1 == Decision(-1, "short", b.close * 0.95, b.close * 1.02)
    ensures Entry(s, b).0 == State(-1, b.close * 0.95, b.close * 1.02)
  {
  }

  /**
   * As written, bullish KAMA and ADXR votes with a bearish TSI vote open a
   * short from flat: the long rule needs TSI >= 0, the short rule only
   * KAMA = ADXR.
   */
  lemma BullishVotesBearishTsiOpenShort(s: State, b: Bar)
    requires HighVolatility(b) && s.position == 0
    requires b.kamaSignal == 1 && b.adxrSignal == 1 && b.tsiSignal < 0
    ensures Entry(s, b).1 == Decision(-1, "short", b.close * 0.95, b.close * 1.02)
    ensures Entry(s, b).0 == State(-1, b.close * 0.95, b.close * 1.02)
  {
  }

  /**
   * As written, bullish KAMA and ADXR votes with TSI = 0 while long reverse
   * the long into a short: the long rule is blocked by the open long.
   */
  lemma BullishVotesReverseLong(s: State, b: Bar)
    requires HighVolatility(b) && s.position == 1
    requires b.kamaSignal == 1 && b.adxrSignal == 1 && b.tsiSignal == 0
    ensures Entry(s, b).1 == Decision(-2, "long_reversal", b.close * 0.95, b.close * 1.02)
    ensures Entry(s, b).0.position == -1
  {
  }

  /**
   * A short whose TP/SL the bar does not touch is reversed by a high-volatility
   * long signal; one the bar does touch is closed first, so the same signal
   * opens a plain long.
   */
  lemma LongSignalAgainstShort(s: State, b: Bar)
    requires HighVolatility(b) && s.position == -1
    requires b.kamaSignal == 1 && b.adxrSignal == 1 && b.tsiSignal >= 0
    ensures b.low > s.tp && b.high < s.sl ==>
      Step(s, b).1 == Decision(2, "short_reversal", b.close * 1.05, b.close * 0.98)
    ensures b.low <= s.tp || b.high >= s.sl ==>
      Step(s, b).1 == Decision(1, "long", b.close * 1.05, b.close * 0.98)
    ensures Step(s, b).0 == State(1, b.close * 1.05, b.close * 0.98)
  {
  }

  /**
   * A bar that reaches both the TP and the SL of a long, or of a short, closes
   * it; closing is silent, so without an entry the bar keeps the defaults.
   */
  lemma ExitOnBothTargets(s: State, b: Bar)
    requires (s.position == 1 && b.high >= s.tp && b.low <= s.sl) ||
             (s.position == -1 && b.low <= s.tp && b.high >= s.sl)
    ensures ExitCheck(s, b).position == 0
    ensures Step(s, b).1.signal == 0 ==> Step(s, b) == (State(0, s.tp, s.sl), Hold)
  {
  }

  /**
   * A series with no Bollinger vote and no bar above the ATR threshold (a
   * constant price, say) never leaves flat and holds on every bar.
   */
  lemma {:induction false} QuietSeriesStaysFlat(bars: seq<Bar>, i: nat)
    requires i <= |bars|
    requires forall k :: 0 <= k < |bars| ==> !HighVolatility(bars[k]) && bars[k].bbSignal == 0
    ensures StateBefore(bars, i) == Initial
    ensures i < |bars| ==> DecisionAt(bars, i) == Hold
  {
    if i > 1 {
      QuietSeriesStaysFlat(bars, i - 1);
    }
  }
}
