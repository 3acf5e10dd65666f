/**
 The crossover detector of the EMA alert script: it looks at the last two
 points of the short (span 9) and the long (span 26) exponential moving
 averages of one symbol and decides whether the short average has just
 crossed the long one upwards, downwards, or not at all.

 The averages are abstract reals here: the rule only compares them.
 */
module Crossover {

  /** The three outcomes of one check; exactly one alert kind, or none. */
  datatype Signal = Bullish | Bearish | NoCross

  /** Where the short average sits relative to the long one at one candle. */
  datatype Side = Below | Level | Above

  /** The side of `short` relative to `long`: an independent reading of one
      candle against which the classifier is specified. */
  function SideOf(short: real, long: real): Side
  {
    if short < long then Below
    else if short == long then Level
    else Above
  }

  /** The side at the latest candle. */
  function SideNow(short: seq<real>, long: seq<real>): Side
    requires |short| >= 1 && |long| >= 1
  {
    SideOf(short[|short| - 1], long[|long| - 1])
  }

  /** The side one candle before the latest. */
  function SidePrev(short: seq<real>, long: seq<real>): Side
    requires |short| >= 2 && |long| >= 2
  {
    SideOf(short[|short| - 2], long[|long| - 2])
  }

  /** The decision rule, in the order the script evaluates it: a bullish
      cross first, then a bearish one, otherwise nothing.

      Stated against the sides: a cross is reported exactly when the short
      average is strictly on one side now and was not strictly on that side
      one candle earlier; being level now, or staying on the same side, is
      no cross. */
  function Classify(short: seq<real>, long: seq<real>): (r: Signal)
    requires |short| >= 2 && |long| >= 2
    ensures r == Bullish <==> SideNow(short, long) == Above && SidePrev(short, long) != Above
    ensures r == Bearish <==> SideNow(short, long) == Below && SidePrev(short, long) != Below
    ensures r == NoCross <==> SideNow(short, long) == Level || SideNow(short, long) == SidePrev(short, long)
  {
    var shortNow, shortPrev := short[|short| - 1], short[|short| - 2];
    var longNow, longPrev := long[|long| - 1], long[|long| - 2];
    if shortNow > longNow && shortPrev <= longPrev then Bullish
    else if shortNow < longNow && shortPrev >= longPrev then Bearish
    else NoCross
  }

  /** The signal seen from the other average's point of view. */
  function Mirror(s: Signal): Signal
  {
    match s
    case Bullish => Bearish
    case Bearish => Bullish
    case NoCross => NoCross
  }

  /** Bullish in terms of the raw comparisons of the script. */
  lemma BullishExactly(short: seq<real>, long: seq<real>)
    requires |short| >= 2 && |long| >= 2
    ensures Classify(short, long) == Bullish <==>
              short[|short| - 1] > long[|long| - 1] && short[|short| - 2] <= long[|long| - 2]
  {
  }

  /** Bearish in terms of the raw comparisons of the script. The `elif`
      order does not matter: this holds without assuming the bullish test failed. */
  lemma BearishExactly(short: seq<real>, long: seq<real>)
    requires |short| >= 2 && |long| >= 2
    ensures Classify(short, long) == Bearish <==>
              short[|short| - 1] < long[|long| - 1] && short[|short| - 2] >= long[|long| - 2]
  {
  }

  /** Equal averages at the latest candle never make a cross, whatever came before. */
  lemma LevelNowIsNoCross(short: seq<real>, long: seq<real>)
    requires |short| >= 2 && |long| >= 2
    requires short[|short| - 1] == long[|long| - 1]
    ensures Classify(short, long) == NoCross
  {
  }

  /** Leaving exact equality counts as a cross in the direction taken. */
  lemma LeavingLevelIsCross(short: seq<real>, long: seq<real>)
    requires |short| >= 2 && |long| >= 2
    requires short[|short| - 2] == long[|long| - 2]
    ensures short[|short| - 1] > long[|long| - 1] ==> Classify(short, long) == Bullish
    ensures short[|short| - 1] < long[|long| - 1] ==> Classify(short, long) == Bearish
  {
  }

  /** Staying strictly on the same side at both candles is no cross. */
  lemma SameSideIsNoCross(short: seq<real>, long: seq<real>)
    requires |short| >= 2 && |long| >= 2
    requires SideNow(short, long) == SidePrev(short, long)
    ensures Classify(short, long) == NoCross
  {
  }

  /** Exchanging the two series turns bullish into bearish and back, and
      leaves no cross unchanged. */
  lemma SwapMirrors(short: seq<real>, long: seq<real>)
    requires |short| >= 2 && |long| >= 2
    ensures Classify(long, short) == Mirror(Classify(short, long))
  {
  }

  /** Only the last two entries of each series are read. */
  lemma OnlyLastTwoMatter(short: seq<real>, long: seq<real>, short': seq<real>, long': seq<real>)
    requires |short| >= 2 && |long| >= 2 && |short'| >= 2 && |long'| >= 2
    requires short[|short| - 2..] == short'[|short'| - 2..]
    requires long[|long| - 2..] == long'[|long'| - 2..]
    ensures Classify(short, long) == Classify(short', long')
  {
    assert short[|short| - 1] == short[|short| - 2..][1] == short'[|short'| - 1];
    assert short[|short| - 2] == short[|short| - 2..][0] == short'[|short'| - 2];
    assert long[|long| - 1] == long[|long| - 2..][1] == long'[|long'| - 1];
    assert long[|long| - 2] == long[|long| - 2..][0] == long'[|long'| - 2];
  }

  /** Earlier history prepended to either series never changes the result. */
  lemma HistoryIgnored(older: seq<real>, short: seq<real>, olderLong: seq<real>, long: seq<real>)
    requires |short| >= 2 && |long| >= 2
    ensures Classify(older + short, olderLong + long) == Classify(short, long)
  {
    OnlyLastTwoMatter(older + short, olderLong + long, short, long);
  }

  /** Three sample windows of (short, long) pairs: (9,10) to (11,10) crosses
      up, (11,10) to (9,10) crosses down, and (10,10) to (11,12) also crosses
      down, because leaving equality to strictly below is a bearish cross. */
  lemma SampleWindows()
    ensures Classify([9.0, 11.0], [10.0, 10.0]) == Bullish
    ensures Classify([11.0, 9.0], [10.0, 10.0]) == Bearish
    ensures Classify([10.0, 11.0], [10.0, 12.0]) == Bearish
  {
  }
}
