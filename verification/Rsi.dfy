/** The relative strength index, candle by candle and in one batch; a candle counts by its close. */
module Rsi {
  import opened Wrappers

  datatype Averages = Averages(gain: real, loss: real)

  function Gain(change: real): real {
    if change > 0.0 then change else 0.0
  }

  function Loss(change: real): real {
    Gain(-change)
  }

  /** Gains and losses of the steps between the first n closes. */
  function Sums(closes: seq<real>, n: nat): Averages
    requires n <= |closes|
  {
    if n < 2 then Averages(0.0, 0.0)
    else
      var s, d := Sums(closes, n - 1), closes[n - 1] - closes[n - 2];
      Averages(s.gain + Gain(d), s.loss + Loss(d))
  }

  function Smooth(average: real, x: real, p: nat): real
    requires p > 0
  {
    (average * (p as real - 1.0) + x) / p as real
  }

  /** Wilder's averages: the mean of the first p steps, then smoothed step by step. */
  function Wilder(closes: seq<real>, p: nat): Averages
    requires 0 < p < |closes|
  {
    var n := |closes|;
    if n == p + 1 then
      var s := Sums(closes, n);
      Averages(s.gain / p as real, s.loss / p as real)
    else
      var w, d := Wilder(closes[..n - 1], p), closes[n - 1] - closes[n - 2];
      Averages(Smooth(w.gain, Gain(d), p), Smooth(w.loss, Loss(d), p))
  }

  predicate Proper(w: Averages) {
    w.gain >= 0.0 && w.loss >= 0.0
  }

  function Strength(w: Averages): (rs: real)
    requires Proper(w)
    ensures rs >= 0.0
  {
    if w.loss == 0.0 then 100.0
    else
      QuotientSign(w.gain, w.loss);
      w.gain / w.loss
  }

  function Index(w: Averages): real
    requires Proper(w)
  {
    100.0 - 100.0 / (1.0 + Strength(w))
  }

  lemma Share(x: real)
    requires x >= 0.0
    ensures 0.0 < 100.0 / (1.0 + x) <= 100.0
    ensures 100.0 / (1.0 + x) == 50.0 <==> x == 1.0
  {
    var y := 100.0 / (1.0 + x);
    assert y * (1.0 + x) == 100.0;
    QuotientSign(100.0, 1.0 + x);
    assert y * x >= 0.0;
  }

  lemma QuotientSign(a: real, b: real)
    requires a >= 0.0 && b > 0.0
    ensures a / b >= 0.0
  {}

  lemma {:induction false} SumsAreProper(closes: seq<real>, n: nat)
    requires n <= |closes|
    ensures Proper(Sums(closes, n))
  {
    if n >= 2 {
      SumsAreProper(closes, n - 1);
    }
  }

  lemma SmoothKeepsSign(average: real, x: real, p: nat)
    requires p > 0 && average >= 0.0 && x >= 0.0
    ensures Smooth(average, x, p) >= 0.0
  {
    QuotientSign(average * (p as real - 1.0) + x, p as real);
  }

  lemma {:induction false} WilderIsProper(closes: seq<real>, p: nat)
    requires 0 < p < |closes|
    ensures Proper(Wilder(closes, p))
  {
    var n := |closes|;
    if n == p + 1 {
      SumsAreProper(closes, n);
      QuotientSign(Sums(closes, n).gain, p as real);
      QuotientSign(Sums(closes, n).loss, p as real);
    } else {
      WilderIsProper(closes[..n - 1], p);
      var w, d := Wilder(closes[..n - 1], p), closes[n - 1] - closes[n - 2];
      SmoothKeepsSign(w.gain, Gain(d), p);
      SmoothKeepsSign(w.loss, Loss(d), p);
    }
  }

  /** The index after all the closes. */
  function IndexAt(closes: seq<real>, p: nat): (r: real)
    requires 0 < p < |closes|
  {
    WilderIsProper(closes, p);
    Index(Wilder(closes, p))
  }

  /** Wherever it is defined, it lies between 0 and 100. */
  lemma IndexIsPercentage(closes: seq<real>, p: nat)
    requires 0 < p < |closes|
    ensures 0.0 <= IndexAt(closes, p) < 100.0
  {
    WilderIsProper(closes, p);
    Share(Strength(Wilder(closes, p)));
  }

  /** It is 50 exactly when gains and losses balance. */
  lemma BalancedIndex(closes: seq<real>, p: nat)
    requires 0 < p < |closes|
    ensures IndexAt(closes, p) == 50.0 <==> Wilder(closes, p).gain == Wilder(closes, p).loss != 0.0
  {
    WilderIsProper(closes, p);
    var w := Wilder(closes, p);
    Share(Strength(w));
    if w.loss != 0.0 {
      UnitQuotient(w.gain, w.loss);
    }
  }

  lemma UnitQuotient(a: real, b: real)
    requires b > 0.0
    ensures a / b == 1.0 <==> a == b
  {
    assert a / b * b == a;
  }

  // ----- the index in terms of price moves -----------------------------------------------

  /** How far the closes rose in all, over their rising steps. */
  function Rise(closes: seq<real>): real {
    if |closes| < 2 then 0.0
    else
      var before, last := closes[|closes| - 2], closes[|closes| - 1];
      Rise(closes[..|closes| - 1]) + if before < last then last - before else 0.0
  }

  /** How far they fell. */
  function Fall(closes: seq<real>): real {
    if |closes| < 2 then 0.0
    else
      var before, last := closes[|closes| - 2], closes[|closes| - 1];
      Fall(closes[..|closes| - 1]) + if last < before then before - last else 0.0
  }

  /** What goes up and does not come down is the net move. */
  lemma {:induction false} RiseMinusFall(closes: seq<real>)
    requires closes != []
    ensures Rise(closes) - Fall(closes) == closes[|closes| - 1] - closes[0]
    ensures Rise(closes) >= 0.0 && Fall(closes) >= 0.0
  {
    if |closes| >= 2 {
      RiseMinusFall(closes[..|closes| - 1]);
    }
  }

  lemma {:induction false} SumsAreMoves(closes: seq<real>, n: nat)
    requires n <= |closes|
    ensures Sums(closes, n) == Averages(Rise(closes[..n]), Fall(closes[..n]))
  {
    if n >= 2 {
      SumsAreMoves(closes, n - 1);
      assert closes[..n][..n - 1] == closes[..n - 1];
    }
  }

  /** The first averages, times the period, are the rise and the fall of the first period; */
  lemma FirstAverages(closes: seq<real>, p: nat)
    requires 0 < p && |closes| == p + 1
    ensures var w := Wilder(closes, p);
      p as real * w.gain == Rise(closes) && p as real * w.loss == Fall(closes)
  {
    SumsAreMoves(closes, p + 1);
    assert closes[..p + 1] == closes;
  }

  /** after is before with one part in p of it given up for one p-th of the move, if that is upwards. */
  predicate Smoothed(before: real, after: real, move: real, p: nat) {
    p as real * after == (p as real - 1.0) * before + if move > 0.0 then move else 0.0
  }

  /** from then on every move upwards feeds the gain, and every move downwards the loss. */
  lemma NextAverages(closes: seq<real>, p: nat)
    requires 0 < p && |closes| > p + 1
    ensures
      var n := |closes| - 1;
      var w, w', move := Wilder(closes[..n], p), Wilder(closes, p), closes[n] - closes[n - 1];
      Smoothed(w.gain, w'.gain, move, p) && Smoothed(w.loss, w'.loss, -move, p)
  {
    hide Smooth, Smoothed, Gain;
    var n := |closes| - 1;
    var w, move := Wilder(closes[..n], p), closes[n] - closes[n - 1];
    SmoothIsSmoothed(w.gain, move, p);
    SmoothIsSmoothed(w.loss, -move, p);
  }

  lemma SmoothIsSmoothed(average: real, change: real, p: nat)
    requires p > 0
    ensures Smoothed(average, Smooth(average, Gain(change), p), change, p)
  {}

  /**
   * The index is the gain's share of gain and loss, in percent; without losses it is 100 - 100/101, even if
   * there were no gains either. So it is above 50 exactly when gains outweigh losses, or nothing was lost.
   */
  lemma IndexIsTheShareOfGains(closes: seq<real>, p: nat)
    requires 0 < p < |closes|
    ensures
      var w, r := Wilder(closes, p), IndexAt(closes, p);
      && (w.loss == 0.0 ==> r == 100.0 - 100.0 / 101.0)
      && (w.loss != 0.0 ==> r * (w.gain + w.loss) == 100.0 * w.gain)
      && (r > 50.0 <==> w.gain > w.loss || w.loss == 0.0)
  {
    hide Wilder;
    WilderIsProper(closes, p);
    var w := Wilder(closes, p);
    if w.loss != 0.0 {
      ShareOf(w.gain, w.loss);
      AboveHalf(w.gain, w.loss, IndexAt(closes, p));
    }
  }

  lemma ShareOf(gain: real, loss: real)
    requires gain >= 0.0 && loss > 0.0
    ensures gain / loss >= 0.0
    ensures (100.0 - 100.0 / (1.0 + gain / loss)) * (gain + loss) == 100.0 * gain
  {
    var rs := gain / loss;
    QuotientSign(gain, loss);
    var y := 100.0 / (1.0 + rs);
    assert rs * loss == gain && y * (1.0 + rs) == 100.0;
    assert y * (gain + loss) == y * (1.0 + rs) * loss;
    assert (100.0 - y) * (gain + loss) == 100.0 * (gain + loss) - y * (gain + loss);
  }

  lemma SignOfProduct(x: real, y: real, z: real)
    requires y > 0.0 && x * y == z
    ensures z > 0.0 <==> x > 0.0
  {}

  lemma AboveHalf(gain: real, loss: real, r: real)
    requires gain >= 0.0 && loss > 0.0 && r * (gain + loss) == 100.0 * gain
    ensures r > 50.0 <==> gain > loss
  {
    var d, total := r - 50.0, gain + loss;
    assert d * total == r * total - 50.0 * total;
    SignOfProduct(d, total, 50.0 * (gain - loss));
  }

  /** One more close. */
  lemma WilderStep(closes: seq<real>, p: nat, n: nat)
    requires 0 < p < n < |closes|
    ensures var w, d := Wilder(closes[..n], p), closes[n] - closes[n - 1];
      Wilder(closes[..n + 1], p) == Averages(Smooth(w.gain, Gain(d), p), Smooth(w.loss, Loss(d), p))
  {
    assert closes[..n + 1][..n] == closes[..n];
  }

  // ----- the batch form ------------------------------------------------------------------

  /** Entry m of the batch: 50 up to and including entry p, the index after m + 1 closes from there on. */
  function Entry(closes: seq<real>, p: nat, m: nat): real
    requires 0 < p && m < |closes|
  {
    if m <= p then 50.0 else IndexAt(closes[..m + 1], p)
  }

  method ComputeRSI(closes: seq<real>, period: nat) returns (rsiData: seq<real>)
    requires period > 0
    ensures |closes| < 2 ==> rsiData == []
    ensures |closes| >= 2 ==> |rsiData| == |closes|
    ensures forall m | 0 <= m < |rsiData| :: rsiData[m] == if m <= period then 50.0 else IndexAt(closes[..m + 1], period)
  {
    hide Wilder, Index, IndexAt, Smooth, Entry;
    if |closes| < 2 {
      return [];
    }
    var gains, losses := [], [];
    for i := 1 to |closes|
      invariant |gains| == |losses| == i - 1
      invariant forall k | 0 <= k < i - 1 :: gains[k] == Gain(closes[k + 1] - closes[k]) && losses[k] == Loss(closes[k + 1] - closes[k])
    {
      var diff := closes[i] - closes[i - 1];
      gains, losses := gains + [Gain(diff)], losses + [Loss(diff)];
    }
    var avgGain, avgLoss := gains[0], losses[0];
    if |gains| >= period {
      var sumGain, sumLoss := 0.0, 0.0;
      for i := 0 to period
        invariant Averages(sumGain, sumLoss) == Sums(closes, i + 1)
      {
        sumGain, sumLoss := sumGain + gains[i], sumLoss + losses[i];
      }
      avgGain, avgLoss := sumGain / period as real, sumLoss / period as real;
      FirstWilder(closes, period);
    }
    rsiData := [];
    for i := 0 to if |closes| < period + 1 then |closes| else period + 1
      invariant |rsiData| == i && forall m | 0 <= m < i :: rsiData[m] == 50.0
    {
      rsiData := rsiData + [50.0];
    }
    Entries(closes, period);
    var i := period;
    while i < |gains|
      invariant period <= i && (i <= |gains| || |gains| < period)
      invariant |gains| >= period ==> Averages(avgGain, avgLoss) == Wilder(closes[..i + 1], period)
      invariant |rsiData| == if |gains| < period then |closes| else i + 1
      invariant forall m | 0 <= m < |rsiData| :: rsiData[m] == Entry(closes, period, m)
    {
      WilderStep(closes, period, i + 1);
      WilderIsProper(closes[..i + 2], period);
      avgGain, avgLoss := Smooth(avgGain, gains[i], period), Smooth(avgLoss, losses[i], period);
      EntryIs(closes, period, i + 1);
      rsiData := rsiData + [Index(Averages(avgGain, avgLoss))];
      i := i + 1;
    }
  }

  lemma Entries(closes: seq<real>, p: nat)
    requires p > 0
    ensures forall m | 0 <= m < |closes| :: Entry(closes, p, m) == if m <= p then 50.0 else IndexAt(closes[..m + 1], p)
  {}

  lemma FirstWilder(closes: seq<real>, p: nat)
    requires 0 < p < |closes|
    ensures var s := Sums(closes, p + 1);
      Wilder(closes[..p + 1], p) == Averages(s.gain / p as real, s.loss / p as real)
  {
    PrefixSums(closes, p + 1, p + 1);
  }

  lemma EntryIs(closes: seq<real>, p: nat, m: nat)
    requires 0 < p < m < |closes|
    ensures Proper(Wilder(closes[..m + 1], p)) && Entry(closes, p, m) == Index(Wilder(closes[..m + 1], p))
  {
    WilderIsProper(closes[..m + 1], p);
  }

  lemma {:induction false} PrefixSums(closes: seq<real>, n: nat, k: nat)
    requires k <= n <= |closes|
    ensures Sums(closes[..n], k) == Sums(closes, k)
  {
    if k >= 2 {
      PrefixSums(closes, n, k - 1);
    }
  }

  // ----- the incremental form ------------------------------------------------------------

  /** The last closes that fit the buffer. */
  function Kept(seen: seq<real>, maxLen: nat): seq<real> {
    if |seen| <= maxLen then seen else seen[|seen| - maxLen..]
  }

  /** The averages kept after these closes; a buffer too small for a first mean never starts. */
  function Cache(seen: seq<real>, p: nat, maxLen: nat): Option<Averages>
    requires p > 0
  {
    if p + 1 <= maxLen && p + 1 <= |seen| then Some(Wilder(seen, p)) else None
  }

  class AruAlgo {
    const rsiPeriod: nat
    const maxLen: nat
    var candles: seq<real>
    var prevAvg: Option<Averages>
    ghost var seen: seq<real>

    ghost predicate Valid()
      reads this
    {
      rsiPeriod > 0 && maxLen > 0 && candles == Kept(seen, maxLen) && prevAvg == Cache(seen, rsiPeriod, maxLen)
    }

    constructor (rsiPeriod: nat, maxLen: nat)
      requires rsiPeriod > 0 && maxLen > 0
      ensures Valid() && seen == [] && this.rsiPeriod == rsiPeriod && this.maxLen == maxLen
    {
      this.rsiPeriod, this.maxLen, candles, prevAvg, seen := rsiPeriod, maxLen, [], None, [];
    }

    /** The index after one more candle, once there are enough of them. */
    method ProcessCandle(close: real) returns (rsi: Option<real>)
      requires Valid()
      modifies this
      ensures Valid() && seen == old(seen) + [close]
      ensures rsi == if rsiPeriod + 1 <= maxLen && rsiPeriod + 1 <= |seen| then Some(IndexAt(seen, rsiPeriod)) else None
    {
      hide Wilder, Index, Smooth, IndexAt;
      ghost var before := seen;
      PushCandle(close);
      seen := seen + [close];
      assert candles == Kept(seen, maxLen);
      assert seen[..|before|] == before;
      if |candles| < 2 {
        return None;
      }
      rsi := UpdateRSI();
    }

    /** The last candle is new: the averages still stand for the closes before it. */
    method UpdateRSI() returns (rsi: Option<real>)
      requires rsiPeriod > 0 && maxLen > 0 && |seen| >= 2 && candles == Kept(seen, maxLen) && |candles| >= 2
      requires prevAvg == Cache(seen[..|seen| - 1], rsiPeriod, maxLen)
      modifies `prevAvg
      ensures Valid()
      ensures rsi == if rsiPeriod + 1 <= maxLen && rsiPeriod + 1 <= |seen| then Some(IndexAt(seen, rsiPeriod)) else None
    {
      hide Wilder, Index, Smooth, Sums;
      var n := |candles|;
      assert candles[n - 1] == seen[|seen| - 1] && candles[n - 2] == seen[|seen| - 2];
      var change := candles[n - 1] - candles[n - 2];
      if prevAvg.None? {
        if n < rsiPeriod + 1 {
          return None;
        }
        assert n == |seen| == rsiPeriod + 1 && candles == seen;
        var sums := SumSteps(n - rsiPeriod, n);
        FirstWilder(seen, rsiPeriod);
        assert seen[..n] == seen;
        prevAvg := Some(Averages(sums.gain / rsiPeriod as real, sums.loss / rsiPeriod as real));
      } else {
        var avg := prevAvg.value;
        WilderStep(seen, rsiPeriod, |seen| - 1);
        assert seen[..|seen|] == seen;
        prevAvg := Some(Averages(Smooth(avg.gain, Gain(change), rsiPeriod), Smooth(avg.loss, Loss(change), rsiPeriod)));
      }
      WilderIsProper(seen, rsiPeriod);
      return Some(Index(prevAvg.value));
    }

    /** The seeding loop: gains and losses of the steps into candles lo to hi - 1. */
    method SumSteps(lo: nat, hi: nat) returns (sums: Averages)
      requires 1 == lo <= hi <= |candles|
      ensures sums == Sums(candles, hi)
    {
      var sumGain, sumLoss := 0.0, 0.0;
      for i := lo to hi
        invariant Averages(sumGain, sumLoss) == Sums(candles, i)
      {
        var d := candles[i] - candles[i - 1];
        sumGain, sumLoss := sumGain + Gain(d), sumLoss + Loss(d);
      }
      return Averages(sumGain, sumLoss);
    }

    method PushCandle(close: real)
      requires maxLen > 0 && |candles| <= maxLen
      modifies `candles
      ensures candles == Kept(old(candles) + [close], maxLen)
    {
      candles := candles + [close];
      if |candles| > maxLen {
        candles := candles[1..];
      }
    }
  }

  /**
   * Fed the same closes, the two forms agree from entry p + 1 on. At entry p the batch still says 50;
   * with a buffer of at most p candles the incremental form never says anything.
   */
  method Compare(closes: seq<real>, p: nat, maxLen: nat) returns (live: seq<Option<real>>, batch: seq<real>)
    requires p > 0 && maxLen > 0 && |closes| >= 2
    ensures |live| == |batch| == |closes|
    ensures forall m | 0 <= m < |closes| :: live[m].Some? <==> p <= m && p < maxLen
    ensures p < maxLen ==> forall m | p < m < |closes| :: live[m] == Some(batch[m])
    ensures p < maxLen && p < |closes| ==>
      (live[p] == Some(batch[p]) <==> Wilder(closes[..p + 1], p).gain == Wilder(closes[..p + 1], p).loss != 0.0)
  {
    hide Wilder, IndexAt;
    batch := ComputeRSI(closes, p);
    var algo := new AruAlgo(p, maxLen);
    live := [];
    for i := 0 to |closes|
      invariant algo.Valid() && fresh(algo) && algo.seen == closes[..i] && algo.rsiPeriod == p && algo.maxLen == maxLen
      invariant |live| == i && forall m | 0 <= m < i ::
        live[m] == if p < maxLen && p <= m then Some(IndexAt(closes[..m + 1], p)) else None
    {
      var rsi := algo.ProcessCandle(closes[i]);
      assert closes[..i + 1] == closes[..i] + [closes[i]];
      live := live + [rsi];
    }
    if p < maxLen && p < |closes| {
      BalancedIndex(closes[..p + 1], p);
    }
  }
}
