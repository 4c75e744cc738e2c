/** The look-ahead peak limiter of media/score.py, in exact arithmetic. */
module Limiter {
  const FLOOR := 1.0 / 1_000_000_000_000.0

  /** A signal is frames of channels, as many in each. */
  ghost predicate IsSignal(x: seq<seq<real>>) {
    x != [] && forall i :: 0 <= i < |x| ==> x[i] != []
  }

  function Abs(v: real): real { if v < 0.0 then -v else v }

  function Min(a: real, b: real): real { if b < a then b else a }

  function Peak(frame: seq<real>): (p: real)
    requires frame != []
    ensures forall c :: 0 <= c < |frame| ==> Abs(frame[c]) <= p
    ensures p >= 0.0
  {
    if |frame| == 1 then Abs(frame[0])
    else
      var rest := Peak(frame[1..]);
      assert forall c :: 1 <= c < |frame| ==> frame[c] == frame[1..][c - 1];
      if rest < Abs(frame[0]) then Abs(frame[0]) else rest
  }

  lemma {:induction false} PeakReached(frame: seq<real>) returns (c: nat)
    requires frame != []
    ensures c < |frame| && Abs(frame[c]) == Peak(frame)
  {
    c := 0;
    if |frame| > 1 && Peak(frame[1..]) >= Abs(frame[0]) {
      var d := PeakReached(frame[1..]);
      c := d + 1;
    }
  }

  function Level(frame: seq<real>): (l: real)
    requires frame != []
    ensures l > 0.0 && Peak(frame) <= l
  {
    if Peak(frame) < FLOOR then FLOOR else Peak(frame)
  }

  /** The gain that would bring each frame to the ceiling at once. */
  function Raw(x: seq<seq<real>>, ceiling: real): (raw: seq<real>)
    requires IsSignal(x)
    ensures |raw| == |x| > 0
  {
    seq(|x|, i requires 0 <= i < |x| && IsSignal(x) => Min(1.0, ceiling / Level(x[i])))
  }

  /** mode="nearest": beyond the ends the last sample repeats. */
  function Nearest(s: seq<real>, j: int): real
    requires s != []
  {
    if j < 0 then s[0] else if j >= |s| then s[|s| - 1] else s[j]
  }

  function Least(s: seq<real>, lo: int, hi: int): real
    requires s != [] && lo < hi
    decreases hi - lo
  {
    if lo + 1 == hi then Nearest(s, lo) else Min(Nearest(s, lo), Least(s, lo + 1, hi))
  }

  function Sum(s: seq<real>, lo: int, hi: int): real
    requires s != [] && lo <= hi
    decreases hi - lo
  {
    if lo == hi then 0.0 else Nearest(s, lo) + Sum(s, lo + 1, hi)
  }

  /** `minimum_filter1d` over `half` samples on each side. */
  function Held(raw: seq<real>, half: nat): (held: seq<real>)
    requires raw != []
    ensures |held| == |raw|
  {
    seq(|raw|, i requires 0 <= i < |raw| => Least(raw, i - half, i + half + 1))
  }

  /** `uniform_filter1d` of size half + 1: from (half + 1) / 2 samples before. */
  function Smoothed(held: seq<real>, half: nat): (smooth: seq<real>)
    requires held != []
    ensures |smooth| == |held|
  {
    seq(|held|, i requires 0 <= i < |held| =>
      Sum(held, i - (half + 1) / 2, i - (half + 1) / 2 + half + 1) / (half + 1) as real)
  }

  function Gain(x: seq<seq<real>>, ceiling: real, half: nat): (gain: seq<real>)
    requires IsSignal(x)
    ensures |gain| == |x|
  {
    var raw := Raw(x, ceiling);
    var smooth := Smoothed(Held(raw, half), half);
    seq(|x|, i requires 0 <= i < |x| => Min(smooth[i], raw[i]))
  }

  function Scaled(frame: seq<real>, gain: real): (out: seq<real>)
    ensures |out| == |frame|
  {
    seq(|frame|, c requires 0 <= c < |frame| => frame[c] * gain)
  }

  function ScaledBy(x: seq<seq<real>>, gain: seq<real>): (out: seq<seq<real>>)
    requires |gain| == |x|
    ensures |out| == |x| && forall i :: 0 <= i < |x| ==> |out[i]| == |x[i]|
  {
    seq(|x|, i requires 0 <= i < |x| => Scaled(x[i], gain[i]))
  }

  function Limit(x: seq<seq<real>>, ceiling: real, half: nat): (out: seq<seq<real>>)
    requires IsSignal(x)
    ensures |out| == |x| && forall i :: 0 <= i < |x| ==> |out[i]| == |x[i]|
  {
    ScaledBy(x, Gain(x, ceiling, half))
  }

  // ---------------------------------------------------------------------------------
  // Windows

  lemma {:induction false} LeastBounds(s: seq<real>, lo: int, hi: int, j: int)
    requires s != [] && lo <= j < hi
    ensures Least(s, lo, hi) <= Nearest(s, j)
    decreases hi - lo
  {
    if lo < j { LeastBounds(s, lo + 1, hi, j); }
  }

  lemma {:induction false} LeastReached(s: seq<real>, lo: int, hi: int) returns (j: int)
    requires s != [] && lo < hi
    ensures lo <= j < hi && Least(s, lo, hi) == Nearest(s, j)
    decreases hi - lo
  {
    if lo + 1 == hi || Nearest(s, lo) <= Least(s, lo + 1, hi) { j := lo; } else { j := LeastReached(s, lo + 1, hi); }
  }

  lemma {:induction false} SumBounds(s: seq<real>, lo: int, hi: int, low: real, high: real)
    requires s != [] && lo <= hi && forall j :: lo <= j < hi ==> low <= Nearest(s, j) <= high
    ensures low * (hi - lo) as real <= Sum(s, lo, hi) <= high * (hi - lo) as real
    decreases hi - lo
  {
    if lo < hi { SumBounds(s, lo + 1, hi, low, high); }
  }

  /** A sum of values of at most 1 that reaches the number of values has nothing below 1. */
  lemma {:induction false} FullSum(s: seq<real>, lo: int, hi: int, j: int)
    requires s != [] && lo <= j < hi && forall k :: lo <= k < hi ==> Nearest(s, k) <= 1.0
    requires Sum(s, lo, hi) == (hi - lo) as real
    ensures Nearest(s, j) == 1.0
    decreases hi - lo
  {
    SumBounds1(s, lo + 1, hi);
    if lo < j { FullSum(s, lo + 1, hi, j); }
  }

  lemma {:induction false} SumBounds1(s: seq<real>, lo: int, hi: int)
    requires s != [] && lo <= hi && forall k :: lo <= k < hi ==> Nearest(s, k) <= 1.0
    ensures Sum(s, lo, hi) <= (hi - lo) as real
    decreases hi - lo
  {
    if lo < hi { SumBounds1(s, lo + 1, hi); }
  }

  // ---------------------------------------------------------------------------------
  // The gain

  lemma RawIsGain(x: seq<seq<real>>, ceiling: real, i: nat)
    requires IsSignal(x) && ceiling > 0.0 && i < |x|
    ensures 0.0 < Raw(x, ceiling)[i] <= 1.0
    ensures Raw(x, ceiling)[i] * Level(x[i]) <= ceiling
    ensures Raw(x, ceiling)[i] == 1.0 <==> Level(x[i]) <= ceiling
  {
    var level := Level(x[i]);
    Quotient(ceiling, level);
  }

  lemma Quotient(a: real, b: real)
    requires a > 0.0 && b > 0.0
    ensures a / b > 0.0 && (a / b) * b == a && (b <= a <==> a / b >= 1.0)
  {
    if b <= a { Scale(1.0, a / b, b); }
  }

  lemma Scale(p: real, q: real, b: real)
    requires b > 0.0 && p * b <= q * b
    ensures p <= q
  {
  }

  /** Each held value near i is no more than the raw gain at i, at the edges too. */
  lemma HeldBelowRaw(raw: seq<real>, half: nat, i: nat, k: int)
    requires i < |raw| && i - half <= k <= i + half
    ensures Nearest(Held(raw, half), k) <= raw[i]
  {
    var c := if k < 0 then 0 else if k >= |raw| then |raw| - 1 else k;
    assert Nearest(Held(raw, half), k) == Least(raw, c - half, c + half + 1);
    LeastBounds(raw, c - half, c + half + 1, i);
  }

  lemma SmoothedAt(held: seq<real>, half: nat, i: nat)
    requires i < |held|
    ensures var lo := i - (half + 1) / 2;
      && i - half <= lo && lo + half <= i + half
      && Smoothed(held, half)[i] == Sum(held, lo, lo + half + 1) / (half + 1) as real
  {
  }

  /** The mean of a window lies between any bounds of its values. */
  lemma WindowMean(held: seq<real>, lo: int, n: nat, low: real, high: real)
    requires held != [] && n > 0 && forall k :: lo <= k < lo + n ==> low <= Nearest(held, k) <= high
    ensures low <= Sum(held, lo, lo + n) / n as real <= high
  {
    SumBounds(held, lo, lo + n, low, high);
    Mean(Sum(held, lo, lo + n), n, low, high);
  }

  /** A window of held values around `i` lies between a positive value and the raw gain at `i`. */
  lemma HeldWindow(raw: seq<real>, half: nat, i: nat, lo: int) returns (low: real)
    requires i < |raw| && (forall j :: 0 <= j < |raw| ==> 0.0 < raw[j]) && i - half <= lo && lo + half <= i + half
    ensures 0.0 < low && forall k :: lo <= k < lo + half + 1 ==> low <= Nearest(Held(raw, half), k) <= raw[i]
  {
    var held := Held(raw, half);
    var j := LeastReached(held, lo, lo + half + 1);
    low := Nearest(held, j);
    HeldPositive(raw, half, j);
    forall k | lo <= k < lo + half + 1
      ensures low <= Nearest(held, k) <= raw[i]
    {
      HeldBelowRaw(raw, half, i, k);
      LeastBounds(held, lo, lo + half + 1, k);
    }
  }

  /** The smoothed gain never exceeds the raw gain, so the final minimum changes nothing. */
  lemma SmoothedBelowRaw(raw: seq<real>, half: nat, i: nat)
    requires i < |raw| && forall j :: 0 <= j < |raw| ==> 0.0 < raw[j]
    ensures 0.0 < Smoothed(Held(raw, half), half)[i] <= raw[i]
  {
    var lo := i - (half + 1) / 2;
    SmoothedAt(Held(raw, half), half, i);
    var low := HeldWindow(raw, half, i, lo);
    WindowMean(Held(raw, half), lo, half + 1, low, raw[i]);
  }

  lemma HeldPositive(raw: seq<real>, half: nat, k: int)
    requires raw != [] && forall j :: 0 <= j < |raw| ==> 0.0 < raw[j]
    ensures 0.0 < Nearest(Held(raw, half), k)
  {
    var c := if k < 0 then 0 else if k >= |raw| then |raw| - 1 else k;
    var j := LeastReached(raw, c - half, c + half + 1);
  }

  lemma Mean(sum: real, n: nat, low: real, high: real)
    requires n > 0 && low * n as real <= sum <= high * n as real
    ensures low <= sum / n as real <= high
  {
    assert (sum / n as real) * n as real == sum;
    Scale(low, sum / n as real, n as real);
    Scale(sum / n as real, high, n as real);
  }

  /** The gain is positive, at most 1 and at most the raw gain; the smoothing alone already
      guarantees that. */
  lemma GainIsSmoothed(x: seq<seq<real>>, ceiling: real, half: nat, i: nat)
    requires IsSignal(x) && ceiling > 0.0 && i < |x|
    ensures 0.0 < Gain(x, ceiling, half)[i] <= Raw(x, ceiling)[i] <= 1.0
    ensures Gain(x, ceiling, half)[i] == Smoothed(Held(Raw(x, ceiling), half), half)[i]
  {
    var raw := Raw(x, ceiling);
    forall j | 0 <= j < |raw| ensures 0.0 < raw[j] { RawIsGain(x, ceiling, j); }
    SmoothedBelowRaw(raw, half, i);
    RawIsGain(x, ceiling, i);
  }

  /** Main result: no sample of the output exceeds the ceiling on any channel. */
  lemma LimitHolds(x: seq<seq<real>>, ceiling: real, half: nat, i: nat, c: nat)
    requires IsSignal(x) && ceiling > 0.0 && i < |x| && c < |x[i]|
    ensures Abs(Limit(x, ceiling, half)[i][c]) <= ceiling
  {
    GainIsSmoothed(x, ceiling, half, i);
    RawIsGain(x, ceiling, i);
    ScaledHolds(x, Gain(x, ceiling, half), Raw(x, ceiling)[i], Level(x[i]), ceiling, i, c);
  }

  lemma ScaledHolds(x: seq<seq<real>>, gain: seq<real>, raw: real, level: real, ceiling: real, i: nat, c: nat)
    requires |gain| == |x| && i < |x| && c < |x[i]|
    requires Abs(x[i][c]) <= level && 0.0 < gain[i] <= raw && raw * level <= ceiling
    ensures Abs(ScaledBy(x, gain)[i][c]) <= ceiling
  {
    Product(x[i][c], gain[i], raw, level, ceiling);
  }

  lemma Ordered(a: real, b: real, factor: real)
    requires a <= b && factor >= 0.0
    ensures a * factor <= b * factor
  {
  }

  lemma Product(v: real, gain: real, raw: real, level: real, ceiling: real)
    requires Abs(v) <= level && 0.0 < gain <= raw && raw * level <= ceiling
    ensures Abs(v * gain) <= ceiling
  {
    AbsProduct(v, gain);
    Ordered(Abs(v), level, gain);
    Ordered(gain, raw, level);
    assert level * gain == gain * level;
  }

  lemma AbsProduct(v: real, gain: real)
    requires gain > 0.0
    ensures Abs(v * gain) == Abs(v) * gain
  {
    if v < 0.0 {
      Ordered(v, 0.0, gain);
      assert (-v) * gain == -(v * gain);
    } else {
      Ordered(0.0, v, gain);
    }
  }

  /** The sample that stands for index k. */
  function Near(n: int, k: int): (c: int)
    requires n > 0
    ensures 0 <= c < n
  {
    if k < 0 then 0 else if k >= n then n - 1 else k
  }

  /** No sample of the frame is louder than the ceiling. */
  ghost predicate Below(frame: seq<real>, ceiling: real) {
    forall c :: 0 <= c < |frame| ==> -ceiling <= frame[c] <= ceiling
  }

  /** Nothing within the first window around k is louder than the ceiling... */
  ghost predicate Quiet(x: seq<seq<real>>, ceiling: real, half: nat, k: int)
    requires IsSignal(x)
  {
    forall j :: Near(|x|, k) - half <= j <= Near(|x|, k) + half ==> Below(x[Near(|x|, j)], ceiling)
  }

  /** ...for any k within the second window around i. */
  ghost predicate QuietAround(x: seq<seq<real>>, ceiling: real, half: nat, i: int)
    requires IsSignal(x)
  {
    forall k :: i - (half + 1) / 2 <= k <= i - (half + 1) / 2 + half ==> Quiet(x, ceiling, half, k)
  }

  lemma LevelIsBelow(frame: seq<real>, ceiling: real)
    requires frame != []
    ensures Level(frame) <= ceiling <==> FLOOR <= ceiling && Below(frame, ceiling)
  {
    var c := PeakReached(frame);
    assert Below(frame, ceiling) ==> Abs(frame[c]) <= ceiling;
    assert forall d :: 0 <= d < |frame| ==> Abs(frame[d]) <= Peak(frame);
  }

  lemma HeldFullIffQuiet(x: seq<seq<real>>, ceiling: real, half: nat, k: int)
    requires IsSignal(x) && ceiling > 0.0
    ensures Nearest(Held(Raw(x, ceiling), half), k) <= 1.0
    ensures Nearest(Held(Raw(x, ceiling), half), k) == 1.0 <==> FLOOR <= ceiling && Quiet(x, ceiling, half, k)
  {
    var raw := Raw(x, ceiling);
    var c := Near(|x|, k);
    var lo, hi := c - half, c + half + 1;
    forall j
      ensures Nearest(raw, j) == raw[Near(|x|, j)] <= 1.0
      ensures Nearest(raw, j) == 1.0 <==> FLOOR <= ceiling && Below(x[Near(|x|, j)], ceiling)
    {
      RawIsGain(x, ceiling, Near(|x|, j));
      LevelIsBelow(x[Near(|x|, j)], ceiling);
    }
    assert Nearest(Held(raw, half), k) == Least(raw, lo, hi);
    var j := LeastReached(raw, lo, hi);
    if Least(raw, lo, hi) == 1.0 {
      LeastBounds(raw, lo, hi, lo);
      forall j | lo <= j < hi ensures Below(x[Near(|x|, j)], ceiling) { LeastBounds(raw, lo, hi, j); }
    }
  }

  lemma SmoothedFullIffHeldFull(held: seq<real>, half: nat, i: nat)
    requires i < |held| && forall k :: Nearest(held, k) <= 1.0
    ensures Smoothed(held, half)[i] == 1.0 <==>
      forall k :: i - (half + 1) / 2 <= k <= i - (half + 1) / 2 + half ==> Nearest(held, k) == 1.0
  {
    var lo := i - (half + 1) / 2;
    var hi := lo + half + 1;
    var sum := Sum(held, lo, hi);
    if Smoothed(held, half)[i] == 1.0 {
      FullMean(sum, half + 1);
      forall k | lo <= k < hi ensures Nearest(held, k) == 1.0 { FullSum(held, lo, hi, k); }
    }
    if forall k :: lo <= k <= lo + half ==> Nearest(held, k) == 1.0 {
      SumBounds(held, lo, hi, 1.0, 1.0);
      Mean(sum, half + 1, 1.0, 1.0);
    }
  }

  lemma FullMean(sum: real, n: nat)
    requires n > 0 && sum / n as real == 1.0
    ensures sum == n as real
  {
    assert (sum / n as real) * n as real == sum;
  }

  /** Main result: a frame is left alone exactly when nothing in the combined windows around it
      is louder than the ceiling. (A ceiling below the floor of the level leaves nothing alone.) */
  lemma UnchangedIffQuiet(x: seq<seq<real>>, ceiling: real, half: nat, i: nat)
    requires IsSignal(x) && ceiling > 0.0 && i < |x|
    ensures Gain(x, ceiling, half)[i] == 1.0 <==> FLOOR <= ceiling && QuietAround(x, ceiling, half, i)
    ensures FLOOR <= ceiling && QuietAround(x, ceiling, half, i) ==> Limit(x, ceiling, half)[i] == x[i]
  {
    var held := Held(Raw(x, ceiling), half);
    GainIsSmoothed(x, ceiling, half, i);
    forall k
      ensures Nearest(held, k) <= 1.0
      ensures Nearest(held, k) == 1.0 <==> FLOOR <= ceiling && Quiet(x, ceiling, half, k)
    {
      HeldFullIffQuiet(x, ceiling, half, k);
    }
    SmoothedFullIffHeldFull(held, half, i);
    assert Nearest(held, i - (half + 1) / 2) == 1.0 ==> FLOOR <= ceiling;
  }

  // ---------------------------------------------------------------------------------
  // What the gain is

  /** The gain that brings a frame to the ceiling, if it is louder. A frame of less than the floor counts as
      one of the floor. */
  ghost predicate BringsDown(frame: seq<real>, ceiling: real, g: real) {
    if FLOOR <= ceiling && Below(frame, ceiling) then g == 1.0
    else exists c :: 0 <= c < |frame| && IsLoudest(frame, frame[c]) && BringsTo(Abs(frame[c]), ceiling, g)
  }

  predicate BringsTo(loudest: real, ceiling: real, g: real) {
    if loudest < FLOOR then g == ceiling / FLOOR else g == ceiling / loudest
  }

  ghost predicate IsLoudest(frame: seq<real>, v: real) { Below(frame, Abs(v)) }

  /** The least such gain within `half` frames of the k-th, at the edges of the nearest. */
  ghost predicate LeastAround(x: seq<seq<real>>, ceiling: real, half: nat, k: int, g: real)
    requires IsSignal(x)
  {
    var c := Near(|x|, k);
    && (exists j :: c - half <= j <= c + half && BringsDown(x[Near(|x|, j)], ceiling, g))
    && forall j, other :: c - half <= j <= c + half && BringsDown(x[Near(|x|, j)], ceiling, other) ==> g <= other
  }

  function Total(values: seq<real>): real {
    if values == [] then 0.0 else values[0] + Total(values[1..])
  }

  lemma LoudestIsPeak(frame: seq<real>, v: real)
    requires v in frame
    ensures IsLoudest(frame, v) <==> Abs(v) == Peak(frame)
  {
    var d := PeakReached(frame);
    assert IsLoudest(frame, v) ==> Abs(frame[d]) <= Abs(v);
  }

  /** There is one such gain. */
  lemma BringsDownBy(frame: seq<real>, ceiling: real, g: real)
    requires frame != [] && ceiling > 0.0
    ensures BringsDown(frame, ceiling, g) <==>
      g == if FLOOR <= ceiling && Below(frame, ceiling) then 1.0 else ceiling / Level(frame)
  {
    var loudest := PeakReached(frame);
    assert BringsTo(Abs(frame[loudest]), ceiling, ceiling / Level(frame));
    forall c: nat | c < |frame| ensures IsLoudest(frame, frame[c]) <==> Abs(frame[c]) == Peak(frame) {
      LoudestIsPeak(frame, frame[c]);
    }
  }

  lemma RawBringsDown(x: seq<seq<real>>, ceiling: real, i: nat, g: real)
    requires IsSignal(x) && ceiling > 0.0 && i < |x|
    ensures BringsDown(x[i], ceiling, g) <==> g == Raw(x, ceiling)[i]
  {
    RawIsGain(x, ceiling, i);
    LevelIsBelow(x[i], ceiling);
    BringsDownBy(x[i], ceiling, g);
  }

  lemma RawNearest(x: seq<seq<real>>, ceiling: real, j: int, g: real)
    requires IsSignal(x) && ceiling > 0.0
    ensures BringsDown(x[Near(|x|, j)], ceiling, g) <==> g == Nearest(Raw(x, ceiling), j)
  {
    RawBringsDown(x, ceiling, Near(|x|, j), g);
  }

  lemma HeldIsLeast(x: seq<seq<real>>, ceiling: real, half: nat, k: int)
    requires IsSignal(x) && ceiling > 0.0
    ensures LeastAround(x, ceiling, half, k, Nearest(Held(Raw(x, ceiling), half), k))
  {
    var raw, c := Raw(x, ceiling), Near(|x|, k);
    var lo, hi := c - half, c + half + 1;
    var g := Least(raw, lo, hi);
    assert Nearest(Held(raw, half), k) == g;
    var j := LeastReached(raw, lo, hi);
    RawNearest(x, ceiling, j, g);
    forall i, other | lo <= i < hi && BringsDown(x[Near(|x|, i)], ceiling, other)
      ensures g <= other
    {
      RawNearest(x, ceiling, i, other);
      LeastBounds(raw, lo, hi, i);
    }
  }

  lemma {:induction false} SumIsTotal(s: seq<real>, lo: int, hi: int) returns (values: seq<real>)
    requires s != [] && lo <= hi
    ensures |values| == hi - lo && (forall k :: 0 <= k < |values| ==> values[k] == Nearest(s, lo + k))
    ensures Sum(s, lo, hi) == Total(values)
    decreases hi - lo
  {
    if lo == hi {
      values := [];
    } else {
      var rest := SumIsTotal(s, lo + 1, hi);
      values := [Nearest(s, lo)] + rest;
      assert values[1..] == rest;
    }
  }

  lemma HeldValues(x: seq<seq<real>>, ceiling: real, half: nat, lo: int) returns (least: seq<real>)
    requires IsSignal(x) && ceiling > 0.0
    ensures |least| == half + 1 && Sum(Held(Raw(x, ceiling), half), lo, lo + half + 1) == Total(least)
    ensures forall k :: 0 <= k < |least| ==> LeastAround(x, ceiling, half, lo + k, least[k])
  {
    least := SumIsTotal(Held(Raw(x, ceiling), half), lo, lo + half + 1);
    forall k | 0 <= k < |least|
      ensures LeastAround(x, ceiling, half, lo + k, least[k])
    {
      HeldIsLeast(x, ceiling, half, lo + k);
    }
  }

  /** The gain of a frame is the mean, over the second window, of the least gains that bring the frames
      of the first window to the ceiling. */
  lemma GainMeans(x: seq<seq<real>>, ceiling: real, half: nat, i: nat) returns (least: seq<real>)
    requires IsSignal(x) && ceiling > 0.0 && i < |x|
    ensures |least| == half + 1 && Gain(x, ceiling, half)[i] == Total(least) / (half + 1) as real
    ensures forall k :: 0 <= k < |least| ==> LeastAround(x, ceiling, half, i - (half + 1) / 2 + k, least[k])
  {
    GainIsSmoothed(x, ceiling, half, i);
    SmoothedAt(Held(Raw(x, ceiling), half), half, i);
    least := HeldValues(x, ceiling, half, i - (half + 1) / 2);
  }

  lemma ScaledAt(x: seq<seq<real>>, gain: seq<real>, i: nat, c: nat)
    requires |gain| == |x| && i < |x| && c < |x[i]|
    ensures ScaledBy(x, gain)[i][c] == x[i][c] * gain[i]
  {
  }

  /** All channels of a frame are multiplied by its gain. */
  lemma LimitScales(x: seq<seq<real>>, ceiling: real, half: nat, i: nat, c: nat)
    requires IsSignal(x) && i < |x| && c < |x[i]|
    ensures Limit(x, ceiling, half)[i][c] == x[i][c] * Gain(x, ceiling, half)[i]
  {
    ScaledAt(x, Gain(x, ceiling, half), i, c);
  }
}
