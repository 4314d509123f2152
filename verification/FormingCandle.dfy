/** The bar still forming, and the finished bars the rollup has not stored yet,
    apps/api/src/market/formingCandle.ts.

    Stored one-minute rows are a sequence in order of their minutes; bars of the timeframe itself
    are a sequence in order of their times.  Prices and volumes are exact numbers. */
module FormingCandle {
  import opened Wrappers
  import opened Candles

  // ---------- buckets ----------

  datatype Timeframe = M1 | M5 | M15 | H1 | H4 | D1 | W1

  function Seconds(tf: Timeframe): int {
    match tf
    case M1 => 60
    case M5 => 300
    case M15 => 900
    case H1 => 3600
    case H4 => 14400
    case D1 => 86400
    case W1 => 604800
  }

  function Millis(tf: Timeframe): int { Seconds(tf) * 1000 }

  const MONDAY_EPOCH_OFFSET_MS: int := 3 * 86_400_000

  function Offset(tf: Timeframe): int { if tf.W1? then MONDAY_EPOCH_OFFSET_MS else 0 }

  /** `bucketStartMs`. */
  function BucketStart(now: int, tf: Timeframe): int {
    (now + Offset(tf)) / Millis(tf) * Millis(tf) - Offset(tf)
  }

  lemma TimesMonotone(a: int, b: int, d: int)
    requires d > 0
    ensures a <= b ==> a * d <= b * d
  {
  }

  lemma QuotientIs(x: int, d: int, q: int)
    requires d > 0 && q * d <= x < q * d + d
    ensures x / d == q
  {
    var p := x / d;
    assert p * d <= x < p * d + d;
    TimesMonotone(p + 1, q, d);
    TimesMonotone(q + 1, p, d);
  }

  lemma FloorsPartition(x: int, y: int, d: int)
    requires d > 0
    ensures x / d * d <= x < x / d * d + d
    ensures y / d * d == x / d * d <==> x / d * d <= y < x / d * d + d
  {
    if x / d * d <= y < x / d * d + d {
      QuotientIs(y, d, x / d);
    }
  }

  /** Every time lies in its bucket, and shares it with exactly the times in it. */
  lemma BucketsPartition(t: int, u: int, tf: Timeframe)
    ensures var start := BucketStart(t, tf);
      && start <= t < start + Millis(tf)
      && (BucketStart(u, tf) == start <==> start <= u < start + Millis(tf))
  {
    assert Millis(tf) > 0;
    hide Millis, Offset;
    FloorsPartition(t + Offset(tf), u + Offset(tf), Millis(tf));
  }

  lemma BlocksNest(q: int, p: int, m: int, k: int)
    requires m > 0 && p * k <= q && q + 1 <= p * k + k
    ensures p * (m * k) <= q * m && q * m + m <= p * (m * k) + m * k
  {
    var a := p * k;
    TimesMonotone(a, q, m);
    TimesMonotone(q + 1, a + k, m);
    assert a * m == p * (m * k);
  }

  lemma QuotientTwice(x: int, m: int, k: int)
    requires m > 0 && k > 0 && m * k > 0
    ensures x / (m * k) == x / m / k
    ensures x / m / k * (m * k) <= x / m * m && x / m * m + m <= x / m / k * (m * k) + m * k
  {
    var q := x / m;
    BlocksNest(q, q / k, m, k);
    QuotientIs(x, m * k, q / k);
  }

  /** Rounding down to m and then to a multiple of m is rounding down to the multiple. */
  lemma FloorTwice(x: int, m: int, k: int)
    requires m > 0 && k > 0 && m * k > 0
    ensures x / (m * k) * (m * k) <= x / m * m
    ensures x / m * m + m <= x / (m * k) * (m * k) + m * k
    ensures x / m * m / (m * k) == x / (m * k)
  {
    QuotientTwice(x, m, k);
    QuotientTwice(x / m * m, m, k);
    QuotientIs(x / m * m, m, x / m);
  }

  lemma FloorShift(x: int, m: int, n: int)
    requires m > 0
    ensures (x + n * m) / m * m == x / m * m + n * m
  {
    var q := x / m;
    assert q * m <= x < q * m + m;
    assert (q + n) * m == q * m + n * m;
    QuotientIs(x + n * m, m, q + n);
  }

  /** How many of the finer bucket make the coarser one. */
  function Ratio(fine: Timeframe, coarse: Timeframe): (k: int)
    requires Seconds(fine) <= Seconds(coarse)
    ensures k > 0 && Millis(fine) * k == Millis(coarse)
  {
    Seconds(coarse) / Seconds(fine)
  }

  lemma OffsetsDiffer(fine: Timeframe, coarse: Timeframe) returns (n: int)
    requires Seconds(fine) <= Seconds(coarse)
    ensures Offset(coarse) == Offset(fine) + n * Millis(fine)
  {
    n := (Offset(coarse) - Offset(fine)) / Millis(fine);
  }

  /** A finer bucket lies inside one coarser bucket: weeks from Monday hold whole days. */
  lemma BucketsNest(t: int, fine: Timeframe, coarse: Timeframe)
    requires Seconds(fine) <= Seconds(coarse)
    ensures var f, c := BucketStart(t, fine), BucketStart(t, coarse);
      c <= f && f + Millis(fine) <= c + Millis(coarse) && BucketStart(f, coarse) == c
  {
    var m, k := Millis(fine), Ratio(fine, coarse);
    var n := OffsetsDiffer(fine, coarse);
    hide Millis, Ratio, Offset;
    FloorTwice(t + Offset(coarse), m, k);
    FloorShift(t + Offset(fine), m, n);
    assert BucketStart(t, fine) + Offset(coarse) == (t + Offset(coarse)) / m * m;
  }

  /** A bucket starts on a whole minute, so a tick is in it from its start on exactly when its
      minute is. */
  lemma MinutesAgree(start: int, tf: Timeframe, now: int, t: Tick)
    requires start == BucketStart(now, tf)
    ensures Minute(t) >= start <==> t.ts >= start
  {
    var q, k := (now + Offset(tf)) / Millis(tf), Ratio(M1, tf);
    assert Millis(M1) == MINUTE;
    var n := q * k - Offset(tf) / MINUTE;
    assert q * (MINUTE * k) == q * k * MINUTE;
    assert start == n * MINUTE;
    if t.ts >= start && t.ts / MINUTE < n {
      assert false;
    }
  }

  lemma MultipleIs(q: int, d: int)
    requires d > 0
    ensures (q * d) % d == 0
  {
    QuotientIs(q * d, d, q);
  }

  /** Weeks start on Mondays, the first of which is four days into the epoch; every other bucket
      starts on a multiple of its length. */
  lemma BucketStartsAt(t: int, tf: Timeframe)
    ensures (BucketStart(t, tf) - if tf.W1? then 345_600_000 else 0) % (1000 * Seconds(tf)) == 0
  {
    var q, d := (t + Offset(tf)) / Millis(tf), Millis(tf);
    if tf.W1? {
      assert q * d - d == (q - 1) * d;
      MultipleIs(q - 1, d);
    } else {
      MultipleIs(q, d);
    }
  }

  // ---------- the forming bar ----------

  /** A stored bar of the timeframe. */
  datatype Bar = Bar(ts: int, close: real)

  datatype Candidate = Candidate(close: real, end: int)

  datatype Forming = Forming(
    ts: int,
    open: real,
    high: real,
    low: real,
    close: real,
    volume: real,
    buyVolume: real,
    sellVolume: real)

  /** The rows from `start` on. */
  function From(cs: seq<Candle>, start: int): seq<Candle>
    decreases |cs|
  {
    if cs == [] then []
    else
      var c := cs[|cs| - 1];
      From(cs[..|cs| - 1], start) + if c.minute >= start then [c] else []
  }

  /** The latest bar that starts before `start`. */
  function LastBefore(bars: seq<Bar>, start: int): Option<Bar>
    decreases |bars|
  {
    if bars == [] then None
    else if bars[|bars| - 1].ts < start then Some(bars[|bars| - 1])
    else LastBefore(bars[..|bars| - 1], start)
  }

  function BarsOf(cs: seq<Candle>): (bars: seq<Bar>)
    ensures |bars| == |cs|
  {
    seq(|cs|, i requires 0 <= i < |cs| => Bar(cs[i].minute, cs[i].close))
  }

  /** What the timeframe's own table holds: for 1m that is the minutes themselves. */
  function BarsSeen(rows: seq<Candle>, bars: seq<Bar>, tf: Timeframe): seq<Bar> {
    if tf.M1? then BarsOf(rows) else bars
  }

  function Ending(b: Option<Bar>, length: int): seq<Candidate> {
    if b.None? then [] else [Candidate(b.value.close, b.value.ts + length)]
  }

  /** The previous closes that could be the latest, in the order they are collected. */
  function Candidates(rows: seq<Candle>, bars: seq<Bar>, lastClosed: Option<Closed>, open: Option<Candle>, start: int,
                      tf: Timeframe): seq<Candidate>
  {
    Ending(LastBefore(BarsOf(rows), start), MINUTE)
    + Ending(LastBefore(BarsSeen(rows, bars, tf), start), Millis(tf))
    + (if lastClosed.Some? && lastClosed.value.minute < start
       then [Candidate(lastClosed.value.close, lastClosed.value.minute + MINUTE)] else [])
    + (if open.Some? && open.value.minute < start
       then [Candidate(open.value.close, open.value.minute + MINUTE)] else [])
  }

  /** The head of the candidates sorted by end, latest first; the sort keeps the order of equals. */
  function Latest(cands: seq<Candidate>): (r: Option<Candidate>)
    ensures r.None? <==> cands == []
    ensures r.Some? ==> exists i :: FirstLatest(cands, i, r.value)
  {
    if cands == [] then None
    else
      var rest := Latest(cands[1..]);
      if rest.None? || cands[0].end >= rest.value.end then
        assert FirstLatest(cands, 0, cands[0]) by {
          assert forall j :: 1 <= j < |cands| ==> cands[j] == cands[1..][j - 1];
        }
        Some(cands[0])
      else
        LatestShifts(cands, rest.value);
        rest
  }

  /** Candidate i is r, none ends later, and none before it as late. */
  predicate FirstLatest(cands: seq<Candidate>, i: int, r: Candidate) {
    && 0 <= i < |cands| && cands[i] == r
    && (forall j :: 0 <= j < |cands| ==> cands[j].end <= r.end)
    && (forall j :: 0 <= j < i ==> cands[j].end < r.end)
  }

  lemma LatestShifts(cands: seq<Candidate>, r: Candidate)
    requires cands != [] && cands[0].end < r.end && exists i :: FirstLatest(cands[1..], i, r)
    ensures exists i :: FirstLatest(cands, i, r)
  {
    var i :| FirstLatest(cands[1..], i, r);
    assert forall j :: 1 <= j < |cands| ==> cands[j] == cands[1..][j - 1];
    assert FirstLatest(cands, i + 1, r);
  }

  function Close(c: Option<Candidate>): Option<real> { if c.None? then None else Some(c.value.close) }

  function PrevClose(rows: seq<Candle>, bars: seq<Bar>, lastClosed: Option<Closed>, open: Option<Candle>, start: int,
                     tf: Timeframe): Option<real>
  {
    Close(Latest(Candidates(rows, bars, lastClosed, open, start, tf)))
  }

  function MaxHigh(cs: seq<Candle>): (high: Option<real>)
    ensures high.None? <==> cs == []
    decreases |cs|
  {
    if cs == [] then None
    else
      var c, before := cs[|cs| - 1], MaxHigh(cs[..|cs| - 1]);
      Some(Max(before.GetOr(c.high), c.high))
  }

  function MinLow(cs: seq<Candle>): (low: Option<real>)
    ensures low.None? <==> cs == []
    decreases |cs|
  {
    if cs == [] then None
    else
      var c, before := cs[|cs| - 1], MinLow(cs[..|cs| - 1]);
      Some(Min(before.GetOr(c.low), c.low))
  }

  function Total(f: Candle -> real, cs: seq<Candle>): real
    decreases |cs|
  {
    if cs == [] then 0.0 else Total(f, cs[..|cs| - 1]) + f(cs[|cs| - 1])
  }

  function VolumeIn(c: Candle): real { c.volume }

  function BuyIn(c: Candle): real { c.buyVolume }

  function SellIn(c: Candle): real { c.sellVolume }

  /** The minutes of the bucket that are read: the stored ones, and the open one if it is newer. */
  function Minutes(rows: seq<Candle>, open: Option<Candle>, start: int): seq<Candle> {
    var stored := From(rows, start);
    if open.Some? && open.value.minute >= start && (stored == [] || stored[|stored| - 1].minute < open.value.minute)
    then stored + [open.value] else stored
  }

  /** The bar of these minutes, opened at the previous close if there is one. */
  function BarOf(start: int, cs: seq<Candle>, prev: Option<real>): Option<Forming> {
    if cs == [] && prev.None? then None
    else
      var open := if prev.Some? then prev.value else cs[0].open;
      Some(Forming(start, open, Max(open, MaxHigh(cs).GetOr(open)), Min(open, MinLow(cs).GetOr(open)),
                   if cs == [] then open else cs[|cs| - 1].close,
                   Total(VolumeIn, cs), Total(BuyIn, cs), Total(SellIn, cs)))
  }

  function FormingBar(rows: seq<Candle>, bars: seq<Bar>, lastClosed: Option<Closed>, open: Option<Candle>, tf: Timeframe,
                      now: int): Option<Forming>
  {
    var start := BucketStart(now, tf);
    BarOf(start, Minutes(rows, open, start), PrevClose(rows, bars, lastClosed, open, start, tf))
  }

  lemma Snoc(cs: seq<Candle>, c: Candle)
    ensures MaxHigh(cs + [c]) == Some(Max(MaxHigh(cs).GetOr(c.high), c.high))
    ensures MinLow(cs + [c]) == Some(Min(MinLow(cs).GetOr(c.low), c.low))
    ensures forall f :: Total(f, cs + [c]) == Total(f, cs) + f(c)
    ensures forall start :: From(cs + [c], start) == From(cs, start) + if c.minute >= start then [c] else []
  {
    assert (cs + [c])[..|cs|] == cs;
  }

  /** `getFormingCandle`: the sums, maxima and ends over the stored minutes come from the database,
      the open minute is added to them here. */
  method GetFormingCandle(rows: seq<Candle>, bars: seq<Bar>, lastClosed: Option<Closed>, openMinute: Option<Candle>,
                          tf: Timeframe, now: int) returns (r: Option<Forming>)
    ensures r == FormingBar(rows, bars, lastClosed, openMinute, tf, now)
  {
    hide BucketStart, From, LastBefore, BarsOf, Millis, Latest, MaxHigh, MinLow, Total;
    var start := BucketStart(now, tf);
    var inBucket := From(rows, start);
    var prevCandidates := Ending(LastBefore(BarsOf(rows), start), MINUTE)
                          + Ending(LastBefore(BarsSeen(rows, bars, tf), start), Millis(tf));
    if lastClosed.Some? && lastClosed.value.minute < start {
      prevCandidates := prevCandidates + [Candidate(lastClosed.value.close, lastClosed.value.minute + MINUTE)];
    }
    if openMinute.Some? && openMinute.value.minute < start {
      prevCandidates := prevCandidates + [Candidate(openMinute.value.close, openMinute.value.minute + MINUTE)];
    }
    assert prevCandidates == Candidates(rows, bars, lastClosed, openMinute, start, tf);
    var prevClose := Close(Latest(prevCandidates));

    var n := |inBucket|;
    var first := if n == 0 then None else Some(inBucket[0].open);
    var high, low := MaxHigh(inBucket), MinLow(inBucket);
    var close := if n == 0 then None else Some(inBucket[n - 1].close);
    var volume, buyVolume, sellVolume := Total(VolumeIn, inBucket), Total(BuyIn, inBucket), Total(SellIn, inBucket);
    if openMinute.Some? && openMinute.value.minute >= start
       && (n == 0 || openMinute.value.minute > inBucket[n - 1].minute) {
      var m := openMinute.value;
      Snoc(inBucket, m);
      if first.None? {
        first := Some(m.open);
      }
      high, low := Some(Max(high.GetOr(m.high), m.high)), Some(Min(low.GetOr(m.low), m.low));
      close := Some(m.close);
      volume, buyVolume, sellVolume := volume + m.volume, buyVolume + m.buyVolume, sellVolume + m.sellVolume;
    }
    ghost var minutes := Minutes(rows, openMinute, start);
    assert first == if minutes == [] then None else Some(minutes[0].open);
    assert close == if minutes == [] then None else Some(minutes[|minutes| - 1].close);
    assert high == MaxHigh(minutes) && low == MinLow(minutes);
    assert volume == Total(VolumeIn, minutes) && buyVolume == Total(BuyIn, minutes) && sellVolume == Total(SellIn, minutes);
    hide Minutes, Candidates, Max, Min;

    var open := if prevClose.Some? then prevClose else first;
    if open.None? {
      return None;
    }
    var o := open.value;
    r := Some(Forming(start, o, Max(o, high.GetOr(o)), Min(o, low.GetOr(o)), close.GetOr(o), volume, buyVolume, sellVolume));
  }

  // ---------- the previous close ----------

  predicate BarsIncrease(bars: seq<Bar>) { forall i, j :: 0 <= i < j < |bars| ==> bars[i].ts < bars[j].ts }

  /** One of the stored minutes starts before `start`, closes at `close` and ends at `end`. */
  ghost predicate MinuteFinished(rows: seq<Candle>, start: int, close: real, end: int) {
    exists i :: 0 <= i < |rows| && rows[i].minute < start && close == rows[i].close && end == rows[i].minute + 60_000
  }

  ghost predicate BarFinished(bars: seq<Bar>, length: int, start: int, close: real, end: int) {
    exists i :: 0 <= i < |bars| && bars[i].ts < start && close == bars[i].close && end == bars[i].ts + length
  }

  /** So does one of the stored minutes or bars, the last flushed minute or the one in memory. */
  ghost predicate Finished(rows: seq<Candle>, bars: seq<Bar>, lastClosed: Option<Closed>, open: Option<Candle>, start: int,
                           tf: Timeframe, close: real, end: int)
  {
    || MinuteFinished(rows, start, close, end)
    || (!tf.M1? && BarFinished(bars, 1000 * Seconds(tf), start, close, end))
    || (lastClosed.Some? && lastClosed.value.minute < start && close == lastClosed.value.close
        && end == lastClosed.value.minute + 60_000)
    || (open.Some? && open.value.minute < start && close == open.value.close && end == open.value.minute + 60_000)
  }

  lemma {:induction false} LastBeforeIsLatest(bars: seq<Bar>, start: int)
    requires BarsIncrease(bars)
    ensures var b := LastBefore(bars, start);
      && (b.Some? ==> b.value in bars && b.value.ts < start)
      && forall k :: 0 <= k < |bars| && bars[k].ts < start ==> b.Some? && bars[k].ts <= b.value.ts
    decreases |bars|
  {
    if bars != [] {
      LastBeforeIsLatest(bars[..|bars| - 1], start);
      assert forall k :: 0 <= k < |bars| - 1 ==> bars[..|bars| - 1][k] == bars[k];
    }
  }

  /** The candidate of one source ends `length` after the latest bar that starts in time. */
  lemma EndingIsLatest(bars: seq<Bar>, start: int, length: int)
    requires BarsIncrease(bars)
    ensures var cands := Ending(LastBefore(bars, start), length);
      && |cands| <= 1
      && (cands != [] ==> BarFinished(bars, length, start, cands[0].close, cands[0].end))
      && forall close, end :: BarFinished(bars, length, start, close, end) ==> cands != [] && end <= cands[0].end
  {
    LastBeforeIsLatest(bars, start);
  }

  lemma MinutesAreBars(rows: seq<Candle>, start: int, close: real, end: int)
    requires Increasing(rows)
    ensures BarsIncrease(BarsOf(rows))
    ensures MinuteFinished(rows, start, close, end) <==> BarFinished(BarsOf(rows), MINUTE, start, close, end)
  {
    var bars := BarsOf(rows);
    if i :| 0 <= i < |rows| && rows[i].minute < start && close == rows[i].close && end == rows[i].minute + 60_000 {
      assert bars[i].ts < start;
    }
  }

  /** What the two sources in the database give is finished. */
  lemma StoredIsFinished(rows: seq<Candle>, bars: seq<Bar>, lastClosed: Option<Closed>, open: Option<Candle>, start: int,
                         tf: Timeframe, c: Candidate)
    requires Increasing(rows) && BarsIncrease(bars)
    requires || c in Ending(LastBefore(BarsOf(rows), start), MINUTE)
             || c in Ending(LastBefore(BarsSeen(rows, bars, tf), start), Millis(tf))
    ensures Finished(rows, bars, lastClosed, open, start, tf, c.close, c.end)
  {
    MinutesAreBars(rows, start, c.close, c.end);
    if c in Ending(LastBefore(BarsOf(rows), start), MINUTE) {
      EndingIsLatest(BarsOf(rows), start, MINUTE);
    } else {
      EndingIsLatest(BarsSeen(rows, bars, tf), start, Millis(tf));
    }
    hide LastBefore, Ending, BarsOf, BarFinished, MinuteFinished, BarsIncrease, Increasing;
  }

  lemma CandidateIsFinished(rows: seq<Candle>, bars: seq<Bar>, lastClosed: Option<Closed>, open: Option<Candle>, start: int,
                            tf: Timeframe, c: Candidate)
    requires Increasing(rows) && BarsIncrease(bars) && c in Candidates(rows, bars, lastClosed, open, start, tf)
    ensures Finished(rows, bars, lastClosed, open, start, tf, c.close, c.end)
  {
    var a, b := Ending(LastBefore(BarsOf(rows), start), MINUTE), Ending(LastBefore(BarsSeen(rows, bars, tf), start), Millis(tf));
    if c in a || c in b {
      StoredIsFinished(rows, bars, lastClosed, open, start, tf, c);
    }
    hide LastBefore, Ending, BarsOf, BarsSeen, BarFinished, MinuteFinished, BarsIncrease, Increasing, Millis, Seconds;
  }

  lemma FinishedHasCandidate(rows: seq<Candle>, bars: seq<Bar>, lastClosed: Option<Closed>, open: Option<Candle>, start: int,
                             tf: Timeframe, close: real, end: int) returns (c: Candidate)
    requires Increasing(rows) && BarsIncrease(bars) && Finished(rows, bars, lastClosed, open, start, tf, close, end)
    ensures c in Candidates(rows, bars, lastClosed, open, start, tf) && end <= c.end
  {
    MinutesAreBars(rows, start, close, end);
    EndingIsLatest(BarsOf(rows), start, MINUTE);
    EndingIsLatest(BarsSeen(rows, bars, tf), start, Millis(tf));
    hide LastBefore, Ending, BarsOf, BarFinished, MinuteFinished, BarsIncrease, Increasing;
    var a, b := Ending(LastBefore(BarsOf(rows), start), MINUTE), Ending(LastBefore(BarsSeen(rows, bars, tf), start), Millis(tf));
    if MinuteFinished(rows, start, close, end) {
      c := a[0];
    } else if !tf.M1? && BarFinished(bars, 1000 * Seconds(tf), start, close, end) {
      c := b[0];
    } else if lastClosed.Some? && lastClosed.value.minute < start && end == lastClosed.value.minute + 60_000 {
      c := Candidate(lastClosed.value.close, lastClosed.value.minute + MINUTE);
    } else {
      c := Candidate(open.value.close, open.value.minute + MINUTE);
    }
  }

  /** A finished bar closes at `close`, and none ends later. */
  ghost predicate LatestFinished(rows: seq<Candle>, bars: seq<Bar>, lastClosed: Option<Closed>, open: Option<Candle>,
                                 start: int, tf: Timeframe, close: real, last: int)
  {
    && Finished(rows, bars, lastClosed, open, start, tf, close, last)
    && forall other, end :: Finished(rows, bars, lastClosed, open, start, tf, other, end) ==> end <= last
  }

  /** The previous close is that of a minute or bar which ends last of all finished ones; there is
      none only when none is finished. */
  lemma PrevCloseIsLatest(rows: seq<Candle>, bars: seq<Bar>, lastClosed: Option<Closed>, open: Option<Candle>, start: int,
                          tf: Timeframe)
    requires Increasing(rows) && BarsIncrease(bars)
    ensures var prev := PrevClose(rows, bars, lastClosed, open, start, tf);
      && (prev.None? ==> forall close, end :: !Finished(rows, bars, lastClosed, open, start, tf, close, end))
      && (prev.Some? ==> exists last :: LatestFinished(rows, bars, lastClosed, open, start, tf, prev.value, last))
  {
    hide Finished, Candidates, Latest, Increasing, BarsIncrease;
    var cands := Candidates(rows, bars, lastClosed, open, start, tf);
    if cands == [] {
      forall close, end ensures !Finished(rows, bars, lastClosed, open, start, tf, close, end) {
        if Finished(rows, bars, lastClosed, open, start, tf, close, end) {
          var c := FinishedHasCandidate(rows, bars, lastClosed, open, start, tf, close, end);
        }
      }
    } else {
      var last := Latest(cands).value;
      var i :| FirstLatest(cands, i, last);
      CandidateIsFinished(rows, bars, lastClosed, open, start, tf, last);
      forall close, end | Finished(rows, bars, lastClosed, open, start, tf, close, end) ensures end <= last.end {
        var c := FinishedHasCandidate(rows, bars, lastClosed, open, start, tf, close, end);
        var k :| 0 <= k < |cands| && cands[k] == c;
      }
      assert LatestFinished(rows, bars, lastClosed, open, start, tf, last.close, last.end);
    }
  }

  // ---------- flush timing ----------

  lemma {:induction false} FromBefore(cs: seq<Candle>, start: int)
    requires forall c :: c in cs ==> c.minute < start
    ensures From(cs, start) == []
    decreases |cs|
  {
    if cs != [] {
      assert cs[|cs| - 1] in cs;
      FromBefore(cs[..|cs| - 1], start);
    }
  }

  lemma {:induction false} FromIsPart(cs: seq<Candle>, start: int)
    ensures forall c :: c in From(cs, start) ==> c in cs
    decreases |cs|
  {
    if cs != [] {
      FromIsPart(cs[..|cs| - 1], start);
    }
  }

  /** An open minute later than all stored counts as the next stored one. */
  lemma OpenCountsAsStored(rows: seq<Candle>, c: Candle, start: int)
    requires forall r :: r in rows ==> r.minute < c.minute
    ensures Minutes(rows, Some(c), start) == Minutes(rows + [c], None, start) == From(rows + [c], start)
  {
    Snoc(rows, c);
    FromIsPart(rows, start);
    var stored := From(rows, start);
    if stored != [] {
      assert stored[|stored| - 1] in rows;
    }
  }

  lemma BarsOfSnoc(rows: seq<Candle>, c: Candle)
    ensures BarsOf(rows + [c]) == BarsOf(rows) + [Bar(c.minute, c.close)]
  {
  }

  lemma BeforeSnoc(bars: seq<Bar>, b: Bar, start: int)
    ensures LastBefore(bars + [b], start) == if b.ts < start then Some(b) else LastBefore(bars, start)
  {
    assert (bars + [b])[..|bars|] == bars;
  }

  lemma {:induction false} BeforeIsPart(bars: seq<Bar>, start: int)
    ensures LastBefore(bars, start).Some? ==> LastBefore(bars, start).value in bars && LastBefore(bars, start).value.ts < start
    decreases |bars|
  {
    if bars != [] {
      BeforeIsPart(bars[..|bars| - 1], start);
    }
  }

  /** The last stored minute is before the bucket and not what the timeframe's own last bar says of
      the same end. */
  predicate Disagree(bars: seq<Bar>, c: Candle, start: int, tf: Timeframe) {
    && !tf.M1? && c.minute < start
    && var b := LastBefore(bars, start);
       b.Some? && b.value.ts + Millis(tf) == c.minute + MINUTE && b.value.close != c.close
  }

  /** What the aggregator remembers as closed is the last stored minute, or nothing since boot. */
  predicate Remembers(lastClosed: Option<Closed>, rows: seq<Candle>) {
    lastClosed.Some? ==> rows != [] && lastClosed.value == Closed(rows[|rows| - 1].minute, rows[|rows| - 1].close)
  }

  /** A remembered minute before the bucket is the stored one that is already a candidate. */
  lemma RememberedIsStored(rows: seq<Candle>, lastClosed: Option<Closed>, start: int)
    requires Remembers(lastClosed, rows) && lastClosed.Some? && lastClosed.value.minute < start
    ensures Ending(LastBefore(BarsOf(rows), start), MINUTE)
      == [Candidate(lastClosed.value.close, lastClosed.value.minute + MINUTE)]
  {
    var n := |rows| - 1;
    assert BarsOf(rows)[n] == Bar(rows[n].minute, rows[n].close);
  }

  /** The candidates that do not depend on the last minute. */
  function Own(rows: seq<Candle>, start: int): seq<Candidate> { Ending(LastBefore(BarsOf(rows), start), MINUTE) }

  /** A repeated first candidate changes nothing. */
  lemma LatestOfRepeat(a: seq<Candidate>, b: seq<Candidate>)
    requires |a| <= 1 && |b| <= 1
    ensures Latest(a + b + a) == Latest(a + b)
  {
    if a != [] && b != [] {
      assert a + b + a == [a[0], b[0], a[0]] && a + b == [a[0], b[0]];
      assert [a[0], b[0], a[0]][1..] == [b[0], a[0]] && [b[0], a[0]][1..] == [a[0]] && [a[0], b[0]][1..] == [b[0]];
      LatestOne(a[0]);
      LatestOne(b[0]);
    } else if a != [] {
      assert a + b + a == [a[0], a[0]] && a + b == [a[0]];
      assert [a[0], a[0]][1..] == [a[0]];
      LatestOne(a[0]);
    } else {
      assert a + b + a == a + b;
    }
  }

  lemma LatestOne(c: Candidate)
    ensures Latest([c]) == Some(c)
  {
  }

  /** With the last minute inside the bucket the previous close does not see it. */
  lemma PrevInside(rows: seq<Candle>, c: Candle, bars: seq<Bar>, lastClosed: Option<Closed>, start: int, tf: Timeframe)
    requires Remembers(lastClosed, rows) && c.minute >= start
    ensures PrevClose(rows, bars, lastClosed, Some(c), start, tf)
      == PrevClose(rows + [c], bars, Some(Closed(c.minute, c.close)), None, start, tf)
  {
    BarsOfSnoc(rows, c);
    BeforeSnoc(BarsOf(rows), Bar(c.minute, c.close), start);
    var own := Own(rows, start);
    var seen := Ending(LastBefore(BarsSeen(rows, bars, tf), start), Millis(tf));
    assert Candidates(rows + [c], bars, Some(Closed(c.minute, c.close)), None, start, tf) == own + seen;
    if lastClosed.Some? && lastClosed.value.minute < start {
      RememberedIsStored(rows, lastClosed, start);
      assert Candidates(rows, bars, lastClosed, Some(c), start, tf) == own + seen + own;
      LatestOfRepeat(own, seen);
    } else {
      assert Candidates(rows, bars, lastClosed, Some(c), start, tf) == own + seen;
    }
  }

  /** The latest of up to four candidates, the last of which ends latest save for the second. */
  lemma LatestOfOpen(own: seq<Candidate>, seen: seq<Candidate>, closed: seq<Candidate>, c: Candidate)
    requires |own| <= 1 && |seen| <= 1 && |closed| <= 1
    requires forall k :: k in own + closed ==> k.end < c.end
    ensures Latest(own + seen + closed + [c]) == if seen != [] && seen[0].end >= c.end then Some(seen[0]) else Some(c)
  {
    var all := own + seen + closed + [c];
    assert forall k :: 0 <= k < |own| ==> all[k] in own + closed;
    assert forall k :: |own| + |seen| <= k < |all| - 1 ==> all[k] in own + closed;
    assert all[|all| - 1] == c && (seen != [] ==> all[|own|] == seen[0]);
    var i :| FirstLatest(all, i, Latest(all).value);
    assert !(i < |own|) && !(|own| + |seen| <= i < |all| - 1);
  }

  lemma LatestOfStored(c: Candidate, seen: seq<Candidate>)
    requires |seen| <= 1
    ensures Latest([c] + seen + [c]) == if seen != [] && seen[0].end > c.end then Some(seen[0]) else Some(c)
  {
    LatestOfRepeat([c], seen);
    if seen != [] {
      assert [c] + seen == [c, seen[0]] && [c, seen[0]][1..] == [seen[0]];
      LatestOne(seen[0]);
    } else {
      assert [c] + seen == [c];
      LatestOne(c);
    }
  }

  lemma PrevBeforeFlush(rows: seq<Candle>, c: Candle, bars: seq<Bar>, lastClosed: Option<Closed>, start: int, tf: Timeframe)
    requires Remembers(lastClosed, rows) && c.minute < start
    requires forall r :: r in rows ==> r.minute < c.minute
    ensures var b := LastBefore(BarsSeen(rows, bars, tf), start);
      PrevClose(rows, bars, lastClosed, Some(c), start, tf)
      == Some(if b.Some? && b.value.ts + Millis(tf) >= c.minute + MINUTE then b.value.close else c.close)
  {
    BeforeIsPart(BarsOf(rows), start);
    var own := Own(rows, start);
    var cand := Candidate(c.close, c.minute + MINUTE);
    var closed := if lastClosed.Some? && lastClosed.value.minute < start
      then [Candidate(lastClosed.value.close, lastClosed.value.minute + MINUTE)] else [];
    var seen := Ending(LastBefore(BarsSeen(rows, bars, tf), start), Millis(tf));
    hide Latest, LastBefore, Millis;
    assert Candidates(rows, bars, lastClosed, Some(c), start, tf) == own + seen + closed + [cand];
    LatestOfOpen(own, seen, closed, cand);
  }

  lemma PrevAfterFlush(rows: seq<Candle>, c: Candle, bars: seq<Bar>, start: int, tf: Timeframe)
    requires c.minute < start
    ensures var b := LastBefore(BarsSeen(rows + [c], bars, tf), start);
      PrevClose(rows + [c], bars, Some(Closed(c.minute, c.close)), None, start, tf)
      == Some(if b.Some? && b.value.ts + Millis(tf) > c.minute + MINUTE then b.value.close else c.close)
  {
    BarsOfSnoc(rows, c);
    BeforeSnoc(BarsOf(rows), Bar(c.minute, c.close), start);
    var cand := Candidate(c.close, c.minute + MINUTE);
    var seen := Ending(LastBefore(BarsSeen(rows + [c], bars, tf), start), Millis(tf));
    hide Latest, LastBefore, Millis;
    assert Candidates(rows + [c], bars, Some(Closed(c.minute, c.close)), None, start, tf) == [cand] + seen + [cand];
    LatestOfStored(cand, seen);
  }

  /** With it before the bucket both see it, save that an equal end prefers the timeframe's own bar
      before the flush and the minute after. */
  lemma PrevBefore(rows: seq<Candle>, c: Candle, bars: seq<Bar>, lastClosed: Option<Closed>, start: int, tf: Timeframe)
    requires Remembers(lastClosed, rows) && c.minute < start
    requires forall r :: r in rows ==> r.minute < c.minute
    ensures (PrevClose(rows, bars, lastClosed, Some(c), start, tf)
        == PrevClose(rows + [c], bars, Some(Closed(c.minute, c.close)), None, start, tf))
      <==> !Disagree(bars, c, start, tf)
  {
    PrevBeforeFlush(rows, c, bars, lastClosed, start, tf);
    PrevAfterFlush(rows, c, bars, start, tf);
    BarsOfSnoc(rows, c);
    BeforeSnoc(BarsOf(rows), Bar(c.minute, c.close), start);
    BeforeIsPart(BarsOf(rows), start);
    assert Millis(M1) == MINUTE;
    hide PrevClose, LastBefore, Millis;
  }

  lemma BarOpensAt(start: int, cs: seq<Candle>, a: Option<real>, b: Option<real>)
    requires cs == [] && a.Some? && b.Some?
    ensures (BarOf(start, cs, a) == BarOf(start, cs, b)) <==> (a == b)
  {
  }

  /** Whether the newest minute is still in memory or already stored, the forming bar is the same;
      exactly when the minute lies before the bucket and the timeframe's own last bar ends with it
      at another close, it is not. */
  lemma SameBarIff(rows: seq<Candle>, c: Candle, bars: seq<Bar>, lastClosed: Option<Closed>, tf: Timeframe, now: int)
    requires Increasing(rows + [c]) && Remembers(lastClosed, rows)
    ensures (FormingBar(rows, bars, lastClosed, Some(c), tf, now)
        == FormingBar(rows + [c], bars, Some(Closed(c.minute, c.close)), None, tf, now))
      <==> !Disagree(bars, c, BucketStart(now, tf), tf)
  {
    var start := BucketStart(now, tf);
    forall r | r in rows ensures r.minute < c.minute {
      var i :| 0 <= i < |rows| && rows[i] == r;
      assert (rows + [c])[i] == r && (rows + [c])[|rows|] == c;
    }
    OpenCountsAsStored(rows, c, start);
    if c.minute >= start {
      PrevInside(rows, c, bars, lastClosed, start, tf);
    } else {
      PrevBefore(rows, c, bars, lastClosed, start, tf);
      FromBefore(rows + [c], start);
      assert Candidates(rows, bars, lastClosed, Some(c), start, tf) != [];
      assert Candidates(rows + [c], bars, Some(Closed(c.minute, c.close)), None, start, tf) != [];
      var before := PrevClose(rows, bars, lastClosed, Some(c), start, tf);
      var after := PrevClose(rows + [c], bars, Some(Closed(c.minute, c.close)), None, start, tf);
      hide BucketStart, PrevClose, From, Disagree, Candidates;
      BarOpensAt(start, [], before, after);
    }
  }
}
