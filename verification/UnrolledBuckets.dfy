/** Finished bars that the rollup has not stored yet, `getUnrolledBuckets` of
    apps/api/src/market/formingCandle.ts. */
module UnrolledBuckets {
  import opened Wrappers
  import opened Candles
  import opened FormingCandle
  import opened FormingFold

  const MAX_UNROLLED_BUCKETS: int := 2

  /** The rows from `from` on and before `to`. */
  function Between(cs: seq<Candle>, from: int, to: int): seq<Candle>
    decreases |cs|
  {
    if cs == [] then []
    else
      var c := cs[|cs| - 1];
      Between(cs[..|cs| - 1], from, to) + if from <= c.minute < to then [c] else []
  }

  /** The rows of one bucket. */
  function OfBucket(cs: seq<Candle>, ts: int, tf: Timeframe): seq<Candle>
    decreases |cs|
  {
    if cs == [] then []
    else
      var c := cs[|cs| - 1];
      OfBucket(cs[..|cs| - 1], ts, tf) + if BucketStart(c.minute, tf) == ts then [c] else []
  }

  /** What the query, and the rollup, make of the rows of one bucket. */
  function Aggregate(ts: int, cs: seq<Candle>): Forming
    requires cs != []
  {
    Forming(ts, cs[0].open, MaxHigh(cs).value, MinLow(cs).value, cs[|cs| - 1].close,
            Total(VolumeIn, cs), Total(BuyIn, cs), Total(SellIn, cs))
  }

  predicate IsAggregate(row: Forming, cs: seq<Candle>, tf: Timeframe) {
    var own := OfBucket(cs, row.ts, tf);
    own != [] && row == Aggregate(row.ts, own)
  }

  predicate HasBucket(rows: seq<Forming>, ts: int) { exists i :: 0 <= i < |rows| && rows[i].ts == ts }

  predicate InOrder(rows: seq<Forming>) { forall i, j :: 0 <= i < j < |rows| ==> rows[i].ts < rows[j].ts }

  /** These rows are the grouping of those minutes by bucket, in order. */
  ghost predicate IsGrouping(rows: seq<Forming>, cs: seq<Candle>, tf: Timeframe) {
    && InOrder(rows)
    && (forall row :: row in rows ==> IsAggregate(row, cs, tf))
    && (forall c :: c in cs ==> HasBucket(rows, BucketStart(c.minute, tf)))
  }

  // ---------- a grouping is unique ----------

  lemma {:induction false} OfBucketNonempty(cs: seq<Candle>, ts: int, tf: Timeframe)
    ensures OfBucket(cs, ts, tf) != [] <==> exists c :: c in cs && BucketStart(c.minute, tf) == ts
    decreases |cs|
  {
    hide BucketStart;
    if cs != [] {
      var n := |cs| - 1;
      OfBucketNonempty(cs[..n], ts, tf);
      assert cs == cs[..n] + [cs[n]] && cs[n] in cs;
      assert forall c :: c in cs <==> c in cs[..n] || c == cs[n];
    }
  }

  lemma GroupingHas(a: seq<Forming>, b: seq<Forming>, cs: seq<Candle>, tf: Timeframe, ts: int)
    requires IsGrouping(a, cs, tf) && IsGrouping(b, cs, tf) && HasBucket(a, ts)
    ensures HasBucket(b, ts)
  {
    hide BucketStart, OfBucket;
    var i :| 0 <= i < |a| && a[i].ts == ts;
    assert a[i] in a && IsAggregate(a[i], cs, tf);
    OfBucketNonempty(cs, ts, tf);
  }

  /** Ordered rows with the same times, each a function of its time, are the same. */
  lemma {:induction false} SameTimesSameRows(a: seq<Forming>, b: seq<Forming>, cs: seq<Candle>, tf: Timeframe)
    requires InOrder(a) && InOrder(b) && forall ts :: HasBucket(a, ts) <==> HasBucket(b, ts)
    requires forall row :: row in a || row in b ==> IsAggregate(row, cs, tf)
    ensures a == b
    decreases |a|
  {
    hide IsAggregate;
    assert b != [] ==> HasBucket(b, b[0].ts);
    if a != [] {
      var m := |a| - 1;
      assert HasBucket(a, a[m].ts);
      var n := |b| - 1;
      assert HasBucket(b, b[n].ts);
      assert a[m].ts == b[n].ts;
      SameAggregate(a[m], b[n], cs, tf);
      forall ts ensures HasBucket(a[..m], ts) <==> HasBucket(b[..n], ts) {
        BeforeLast(a, ts);
        BeforeLast(b, ts);
      }
      SameTimesSameRows(a[..m], b[..n], cs, tf);
    }
  }

  lemma SameAggregate(a: Forming, b: Forming, cs: seq<Candle>, tf: Timeframe)
    requires a.ts == b.ts && IsAggregate(a, cs, tf) && IsAggregate(b, cs, tf)
    ensures a == b
  {
  }

  lemma BeforeLast(rows: seq<Forming>, ts: int)
    requires InOrder(rows) && rows != []
    ensures HasBucket(rows[..|rows| - 1], ts) <==> HasBucket(rows, ts) && ts != rows[|rows| - 1].ts
  {
    var n := |rows| - 1;
    if HasBucket(rows, ts) && ts != rows[n].ts {
      var i :| 0 <= i < |rows| && rows[i].ts == ts;
      assert rows[..n][i].ts == ts;
    }
    if HasBucket(rows[..n], ts) {
      var i :| 0 <= i < n && rows[..n][i].ts == ts;
      assert rows[i].ts == ts;
    }
  }

  /** So whatever computes a grouping computes the same rows: the ones the rollup later stores. */
  lemma GroupingUnique(a: seq<Forming>, b: seq<Forming>, cs: seq<Candle>, tf: Timeframe)
    requires IsGrouping(a, cs, tf) && IsGrouping(b, cs, tf)
    ensures a == b
  {
    hide IsAggregate, BucketStart;
    forall ts ensures HasBucket(a, ts) <==> HasBucket(b, ts) {
      if HasBucket(a, ts) {
        GroupingHas(a, b, cs, tf, ts);
      }
      if HasBucket(b, ts) {
        GroupingHas(b, a, cs, tf, ts);
      }
    }
    SameTimesSameRows(a, b, cs, tf);
  }

  // ---------- one more minute ----------

  /** The minutes with one more, in its place. */
  function WithMinute(cs: seq<Candle>, c: Candle): seq<Candle>
    decreases |cs|
  {
    if cs == [] || cs[|cs| - 1].minute < c.minute then cs + [c]
    else WithMinute(cs[..|cs| - 1], c) + [cs[|cs| - 1]]
  }

  /** The minute itself or a later one of its own bucket is among them. */
  ghost predicate Shadowed(cs: seq<Candle>, c: Candle, tf: Timeframe) {
    exists k :: k in cs && c.minute <= k.minute && BucketStart(k.minute, tf) == BucketStart(c.minute, tf)
  }

  lemma OfBucketSnoc(cs: seq<Candle>, c: Candle, ts: int, tf: Timeframe)
    ensures OfBucket(cs + [c], ts, tf) == OfBucket(cs, ts, tf) + Part(c, ts, tf)
  {
    assert (cs + [c])[..|cs|] == cs;
  }

  /** What one minute adds to a bucket. */
  function Part(c: Candle, ts: int, tf: Timeframe): seq<Candle> { if BucketStart(c.minute, tf) == ts then [c] else [] }

  lemma OfBucketLast(cs: seq<Candle>, ts: int, tf: Timeframe)
    requires cs != []
    ensures OfBucket(cs, ts, tf) == OfBucket(cs[..|cs| - 1], ts, tf) + Part(cs[|cs| - 1], ts, tf)
  {
  }

  /** A minute of another bucket can be moved past. */
  lemma PartsSwap(a: seq<Candle>, c: Candle, d: Candle, ts: int, tf: Timeframe)
    requires BucketStart(c.minute, tf) != BucketStart(d.minute, tf)
    ensures a + Part(c, ts, tf) + Part(d, ts, tf) == a + Part(d, ts, tf) + Part(c, ts, tf)
  {
    hide BucketStart;
  }

  /** Where none of its bucket comes later, the minute is the last of its bucket, and other buckets
      do not change. */
  lemma {:induction false} OfBucketWith(cs: seq<Candle>, c: Candle, ts: int, tf: Timeframe)
    requires !Shadowed(cs, c, tf)
    ensures OfBucket(WithMinute(cs, c), ts, tf) == OfBucket(cs, ts, tf) + Part(c, ts, tf)
    decreases |cs|
  {
    hide BucketStart;
    if cs == [] || cs[|cs| - 1].minute < c.minute {
      OfBucketSnoc(cs, c, ts, tf);
    } else {
      var n := |cs| - 1;
      assert cs[n] in cs && forall k :: k in cs[..n] ==> k in cs;
      assert BucketStart(cs[n].minute, tf) != BucketStart(c.minute, tf);
      assert WithMinute(cs, c) == WithMinute(cs[..n], c) + [cs[n]];
      OfBucketWith(cs[..n], c, ts, tf);
      hide OfBucket, Part, WithMinute, Shadowed;
      OfBucketSnoc(WithMinute(cs[..n], c), cs[n], ts, tf);
      OfBucketLast(cs, ts, tf);
      PartsSwap(OfBucket(cs[..n], ts, tf), c, cs[n], ts, tf);
    }
  }

  lemma {:induction false} WithMinuteHas(cs: seq<Candle>, c: Candle)
    ensures forall k :: k in WithMinute(cs, c) <==> k in cs || k == c
    decreases |cs|
  {
    if cs != [] && cs[|cs| - 1].minute >= c.minute {
      WithMinuteHas(cs[..|cs| - 1], c);
      assert cs == cs[..|cs| - 1] + [cs[|cs| - 1]];
    }
  }

  /** Rows of other buckets do not change. */
  lemma OtherBucketsStay(row: Forming, cs: seq<Candle>, c: Candle, tf: Timeframe)
    requires IsAggregate(row, cs, tf) && row.ts != BucketStart(c.minute, tf) && !Shadowed(cs, c, tf)
    ensures IsAggregate(row, WithMinute(cs, c), tf)
  {
    OfBucketWith(cs, c, row.ts, tf);
    assert OfBucket(WithMinute(cs, c), row.ts, tf) == OfBucket(cs, row.ts, tf);
  }

  function Only(ts: int, c: Candle): Forming {
    Forming(ts, c.open, c.high, c.low, c.close, c.volume, c.buyVolume, c.sellVolume)
  }

  function With(row: Forming, c: Candle): Forming {
    row.(high := Max(row.high, c.high), low := Min(row.low, c.low), close := c.close,
         volume := row.volume + c.volume, buyVolume := row.buyVolume + c.buyVolume, sellVolume := row.sellVolume + c.sellVolume)
  }

  lemma OnlyIsAggregate(cs: seq<Candle>, c: Candle, tf: Timeframe)
    requires OfBucket(cs, BucketStart(c.minute, tf), tf) == [] && !Shadowed(cs, c, tf)
    ensures IsAggregate(Only(BucketStart(c.minute, tf), c), WithMinute(cs, c), tf)
  {
    var ts := BucketStart(c.minute, tf);
    OfBucketWith(cs, c, ts, tf);
    assert OfBucket(WithMinute(cs, c), ts, tf) == [c];
    assert [] + [c] == [c];
    Snoc([], c);
  }

  lemma WithIsAggregate(row: Forming, cs: seq<Candle>, c: Candle, tf: Timeframe)
    requires IsAggregate(row, cs, tf) && row.ts == BucketStart(c.minute, tf) && !Shadowed(cs, c, tf)
    ensures IsAggregate(With(row, c), WithMinute(cs, c), tf)
  {
    OfBucketWith(cs, c, row.ts, tf);
    Snoc(OfBucket(cs, row.ts, tf), c);
    hide OfBucket, Total, MaxHigh, MinLow, BucketStart, WithMinute;
  }

  /** A row put after all that are not later. */
  function Inserted(rows: seq<Forming>, row: Forming): seq<Forming> {
    if rows == [] || rows[|rows| - 1].ts <= row.ts then rows + [row]
    else Inserted(rows[..|rows| - 1], row) + [rows[|rows| - 1]]
  }

  lemma {:induction false} InsertedHas(rows: seq<Forming>, row: Forming)
    ensures forall r :: r in Inserted(rows, row) <==> r in rows || r == row
    decreases |rows|
  {
    if rows != [] && rows[|rows| - 1].ts > row.ts {
      InsertedHas(rows[..|rows| - 1], row);
      assert rows == rows[..|rows| - 1] + [rows[|rows| - 1]];
    }
  }

  lemma AppendKeepsOrder(rows: seq<Forming>, row: Forming)
    requires InOrder(rows) && forall r :: r in rows ==> r.ts < row.ts
    ensures InOrder(rows + [row])
  {
  }

  lemma LastIsLatest(rows: seq<Forming>)
    requires InOrder(rows) && rows != []
    ensures forall r :: r in rows[..|rows| - 1] ==> r.ts < rows[|rows| - 1].ts
  {
  }

  /** Inserting a row of a new time keeps the order. */
  lemma {:induction false} InsertKeepsOrder(rows: seq<Forming>, row: Forming)
    requires InOrder(rows) && forall r :: r in rows ==> r.ts != row.ts
    ensures InOrder(Inserted(rows, row))
    decreases |rows|
  {
    if rows == [] {
      assert Inserted(rows, row) == [row];
    } else {
      var n := |rows| - 1;
      assert rows[n] in rows && InOrder(rows[..n]) && forall r :: r in rows[..n] ==> r in rows;
      LastIsLatest(rows);
      assert rows == rows[..n] + [rows[n]];
      hide InOrder;
      if rows[n].ts <= row.ts {
        AppendKeepsOrder(rows, row);
      } else {
        InsertKeepsOrder(rows[..n], row);
        InsertedHas(rows[..n], row);
        AppendKeepsOrder(Inserted(rows[..n], row), rows[n]);
      }
    }
  }

  lemma HasIn(rows: seq<Forming>, ts: int)
    ensures HasBucket(rows, ts) <==> exists r :: r in rows && r.ts == ts
  {
    if HasBucket(rows, ts) {
      var i :| 0 <= i < |rows| && rows[i].ts == ts;
      assert rows[i] in rows;
    }
  }

  lemma InsertKeepsGrouping(rows: seq<Forming>, cs: seq<Candle>, c: Candle, tf: Timeframe)
    requires IsGrouping(rows, cs, tf) && !Shadowed(cs, c, tf) && !HasBucket(rows, BucketStart(c.minute, tf))
    ensures IsGrouping(Inserted(rows, Only(BucketStart(c.minute, tf), c)), WithMinute(cs, c), tf)
  {
    var ts := BucketStart(c.minute, tf);
    var row := Only(ts, c);
    var next := Inserted(rows, row);
    assert row.ts == ts;
    OfBucketNonempty(cs, ts, tf);
    OnlyIsAggregate(cs, c, tf);
    HasIn(rows, ts);
    InsertKeepsOrder(rows, row);
    InsertedHas(rows, row);
    WithMinuteHas(cs, c);
    hide IsAggregate, BucketStart, Shadowed, Inserted, WithMinute, InOrder;
    forall r | r in next ensures IsAggregate(r, WithMinute(cs, c), tf) {
      if r != row {
        OtherBucketsStay(r, cs, c, tf);
      }
    }
    forall k | k in WithMinute(cs, c) ensures HasBucket(next, BucketStart(k.minute, tf)) {
      HasIn(rows, BucketStart(k.minute, tf));
      HasIn(next, BucketStart(k.minute, tf));
    }
  }

  lemma MergeKeepsGrouping(rows: seq<Forming>, cs: seq<Candle>, c: Candle, tf: Timeframe, i: nat)
    requires IsGrouping(rows, cs, tf) && !Shadowed(cs, c, tf) && i < |rows| && rows[i].ts == BucketStart(c.minute, tf)
    ensures IsGrouping(rows[i := With(rows[i], c)], WithMinute(cs, c), tf)
  {
    assert rows[i] in rows;
    WithIsAggregate(rows[i], cs, c, tf);
    WithMinuteHas(cs, c);
    var next := rows[i := With(rows[i], c)];
    hide IsAggregate, BucketStart, OfBucket, Shadowed, WithMinute;
    assert forall k :: 0 <= k < |rows| ==> next[k].ts == rows[k].ts;
    forall row | row in next ensures IsAggregate(row, WithMinute(cs, c), tf) {
      var k :| 0 <= k < |next| && next[k] == row;
      if k != i {
        assert rows[k] in rows;
        assert rows[k].ts != rows[i].ts;
        OtherBucketsStay(row, cs, c, tf);
      }
    }
    forall k | k in WithMinute(cs, c) ensures HasBucket(next, BucketStart(k.minute, tf)) {
      if k == c {
        assert next[i].ts == BucketStart(c.minute, tf);
      } else {
        var j :| 0 <= j < |rows| && rows[j].ts == BucketStart(k.minute, tf);
        assert next[j].ts == BucketStart(k.minute, tf);
      }
    }
  }

  // ---------- the window ----------

  function WindowFrom(tf: Timeframe, lastStored: Option<int>, current: int): int {
    var from := current - MAX_UNROLLED_BUCKETS * Millis(tf);
    if lastStored.Some? && lastStored.value + Millis(tf) > from then lastStored.value + Millis(tf) else from
  }

  lemma WholeBuckets(now: int, tf: Timeframe, n: int)
    ensures var start := BucketStart(now, tf) - n * Millis(tf); BucketStart(start, tf) == start
  {
    var d := Millis(tf);
    var q := (now + Offset(tf)) / d;
    assert q * d - n * d == (q - n) * d;
    QuotientIs((q - n) * d, d, q - n);
  }

  /** A bucket of minutes in the window is one of the last two whole ones. */
  lemma BucketInWindow(now: int, tf: Timeframe, minute: int)
    requires BucketStart(now, tf) - 2 * Millis(tf) <= minute < BucketStart(now, tf)
    ensures var d := BucketStart(now, tf) - BucketStart(minute, tf); d == Millis(tf) || d == 2 * Millis(tf)
  {
    var d := Millis(tf);
    var current := BucketStart(now, tf);
    WholeBuckets(now, tf, 0);
    WholeBuckets(now, tf, 1);
    WholeBuckets(now, tf, 2);
    BucketsPartition(current - d, minute, tf);
    BucketsPartition(current - 2 * d, minute, tf);
  }

  lemma {:induction false} BetweenIsBetween(cs: seq<Candle>, from: int, to: int)
    ensures forall c :: c in Between(cs, from, to) ==> c in cs && from <= c.minute < to
    decreases |cs|
  {
    if cs != [] {
      BetweenIsBetween(cs[..|cs| - 1], from, to);
    }
  }

  /** There are at most two such bars. */
  lemma AtMostTwo(rows: seq<Forming>, cs: seq<Candle>, tf: Timeframe, lastStored: Option<int>, now: int)
    requires var current := BucketStart(now, tf);
      IsGrouping(rows, Between(cs, WindowFrom(tf, lastStored, current), current), tf)
    ensures |rows| <= MAX_UNROLLED_BUCKETS
  {
    var current := BucketStart(now, tf);
    var from := WindowFrom(tf, lastStored, current);
    var window := Between(cs, from, current);
    BetweenIsBetween(cs, from, current);
    hide BucketStart, Between, OfBucket, Millis;
    assert |rows| > 2 ==> rows[0] in rows && rows[1] in rows && rows[2] in rows && rows[0].ts < rows[1].ts < rows[2].ts;
    forall row | row in rows ensures current - row.ts == Millis(tf) || current - row.ts == 2 * Millis(tf) {
      assert IsAggregate(row, window, tf);
      OfBucketNonempty(window, row.ts, tf);
      var c :| c in window && BucketStart(c.minute, tf) == row.ts;
      BucketInWindow(now, tf, c.minute);
    }
  }

  // ---------- the function ----------

  /** The finished minutes of the window that are served: the stored ones, and the one in memory
      unless it, or a later minute of its own bucket, is stored. */
  ghost function Served(window: seq<Candle>, open: Option<Candle>, from: int, to: int, tf: Timeframe): seq<Candle> {
    if open.Some? && from <= open.value.minute < to && !Shadowed(window, open.value, tf)
    then WithMinute(window, open.value) else window
  }

  method FindBucket(rows: seq<Forming>, ts: int) returns (i: int)
    ensures i == -1 <==> !HasBucket(rows, ts)
    ensures i != -1 ==> 0 <= i < |rows| && rows[i].ts == ts
  {
    i := 0;
    while i < |rows|
      invariant 0 <= i <= |rows|
      invariant forall k :: 0 <= k < i ==> rows[k].ts != ts
    {
      if rows[i].ts == ts {
        return;
      }
      i := i + 1;
    }
    i := -1;
  }

  /** The newest minute of each row's bucket, as the query gives it beside the row. */
  predicate AreLast(lasts: seq<int>, rows: seq<Forming>, cs: seq<Candle>, tf: Timeframe) {
    && |lasts| == |rows|
    && forall i :: 0 <= i < |rows| ==>
         var own := OfBucket(cs, rows[i].ts, tf);
         own != [] && lasts[i] == own[|own| - 1].minute
  }

  lemma {:induction false} OfBucketIsPart(cs: seq<Candle>, ts: int, tf: Timeframe)
    ensures forall c :: c in OfBucket(cs, ts, tf) ==> c in cs && BucketStart(c.minute, tf) == ts
    decreases |cs|
  {
    hide BucketStart;
    if cs != [] {
      OfBucketIsPart(cs[..|cs| - 1], ts, tf);
    }
  }

  lemma {:induction false} LastOfBucket(cs: seq<Candle>, c: Candle, ts: int, tf: Timeframe)
    requires Increasing(cs) && c in cs && BucketStart(c.minute, tf) == ts
    ensures var own := OfBucket(cs, ts, tf); own != [] && c.minute <= own[|own| - 1].minute
    decreases |cs|
  {
    hide BucketStart;
    var n := |cs| - 1;
    if BucketStart(cs[n].minute, tf) == ts {
      var i :| 0 <= i < |cs| && cs[i] == c;
      assert i == n || cs[i].minute < cs[n].minute;
    } else {
      assert c in cs[..n];
      LastOfBucket(cs[..n], c, ts, tf);
    }
  }

  lemma {:induction false} BetweenIncreases(cs: seq<Candle>, from: int, to: int)
    requires Increasing(cs)
    ensures Increasing(Between(cs, from, to))
    decreases |cs|
  {
    if cs != [] {
      var n := |cs| - 1;
      BetweenIncreases(cs[..n], from, to);
      BetweenIsBetween(cs[..n], from, to);
      var before := Between(cs[..n], from, to);
      forall k | k in before ensures k.minute < cs[n].minute {
        var i :| 0 <= i < n && cs[i] == k;
      }
    }
  }

  /** The minute is shadowed exactly when its bucket has a row whose newest minute is not older. */
  lemma ShadowedIff(window: seq<Candle>, rows: seq<Forming>, lasts: seq<int>, m: Candle, tf: Timeframe, i: int)
    requires Increasing(window) && IsGrouping(rows, window, tf) && AreLast(lasts, rows, window, tf)
    requires i == -1 <==> !HasBucket(rows, BucketStart(m.minute, tf))
    requires i != -1 ==> 0 <= i < |rows| && rows[i].ts == BucketStart(m.minute, tf)
    ensures Shadowed(window, m, tf) <==> i != -1 && m.minute <= lasts[i]
  {
    hide BucketStart, OfBucket, IsAggregate;
    var ts := BucketStart(m.minute, tf);
    OfBucketIsPart(window, ts, tf);
    if i != -1 {
      var own := OfBucket(window, ts, tf);
      assert own[|own| - 1] in own;
    }
    if k :| k in window && m.minute <= k.minute && BucketStart(k.minute, tf) == ts {
      LastOfBucket(window, k, ts, tf);
    }
  }

  /** Above one minute.  `rows` and `lasts` are what the query answers for the stored minutes in the
      window; the answer is the grouping of the minutes served.  A finished minute in memory is lost
      exactly when it is not stored and a later minute of its own bucket is. */
  method GetUnrolledBuckets(stored: seq<Candle>, rows: seq<Forming>, lasts: seq<int>, open: Option<Candle>, tf: Timeframe,
                            lastStored: Option<int>, now: int) returns (out: seq<Forming>)
    requires !tf.M1? && Increasing(stored)
    requires var current := BucketStart(now, tf);
      var window := Between(stored, WindowFrom(tf, lastStored, current), current);
      IsGrouping(rows, window, tf) && AreLast(lasts, rows, window, tf)
    ensures var current := BucketStart(now, tf);
      var from := WindowFrom(tf, lastStored, current);
      IsGrouping(out, Served(Between(stored, from, current), open, from, current, tf), tf)
  {
    var current := BucketStart(now, tf);
    var from := WindowFrom(tf, lastStored, current);
    ghost var window := Between(stored, from, current);
    BetweenIncreases(stored, from, current);
    CurrentIsPast(now, tf);
    hide OfBucket, IsAggregate, Between, BucketStart, Shadowed, WithMinute;
    if from >= current {
      EmptyWindow(stored, from, current);
      return [];
    }
    out := rows;
    if open.Some? && from <= open.value.minute < MinuteFloor(now) && open.value.minute < current {
      var m := open.value;
      var bucket := BucketStart(m.minute, tf);
      var i := FindBucket(rows, bucket);
      ShadowedIff(window, rows, lasts, m, tf, i);
      if i == -1 {
        InsertKeepsGrouping(rows, window, m, tf);
        out := Inserted(rows, Only(bucket, m));
      } else if lasts[i] < m.minute {
        MergeKeepsGrouping(rows, window, m, tf, i);
        out := rows[i := With(rows[i], m)];
      }
    }
  }

  lemma EmptyWindow(cs: seq<Candle>, from: int, to: int)
    requires from >= to
    ensures Between(cs, from, to) == []
  {
    BetweenIsBetween(cs, from, to);
    var window := Between(cs, from, to);
    assert forall i :: 0 <= i < |window| ==> window[i] in window;
  }

  /** A minute before the current bucket is over. */
  lemma CurrentIsPast(now: int, tf: Timeframe)
    ensures BucketStart(now, tf) <= MinuteFloor(now)
  {
    assert BucketStart(now, M1) == MinuteFloor(now);
    BucketsNest(now, M1, tf);
  }

  lemma BetweenSnoc(cs: seq<Candle>, c: Candle, from: int, to: int)
    ensures Between(cs + [c], from, to) == Between(cs, from, to) + if from <= c.minute < to then [c] else []
  {
    assert (cs + [c])[..|cs|] == cs;
  }

  /** A minute newer than all stored is served as if it were stored. */
  lemma NewestIsServed(stored: seq<Candle>, c: Candle, from: int, to: int, tf: Timeframe)
    requires Increasing(stored + [c])
    ensures Served(Between(stored, from, to), Some(c), from, to, tf) == Between(stored + [c], from, to)
  {
    forall r | r in stored ensures r.minute < c.minute {
      var i :| 0 <= i < |stored| && stored[i] == r;
      assert (stored + [c])[i] == r && (stored + [c])[|stored|] == c;
    }
    var window := Between(stored, from, to);
    BetweenIsBetween(stored, from, to);
    BetweenSnoc(stored, c, from, to);
    assert !Shadowed(window, c, tf);
    assert window != [] ==> window[|window| - 1] in window;
    assert WithMinute(window, c) == window + [c];
  }

  /** Whether the newest finished minute is still in memory or already stored, what is served is
      the same. */
  lemma SameRowsEitherWay(stored: seq<Candle>, c: Candle, before: seq<Forming>, after: seq<Forming>, tf: Timeframe,
                          lastStored: Option<int>, now: int)
    requires Increasing(stored + [c])
    requires var current := BucketStart(now, tf);
      var from := WindowFrom(tf, lastStored, current);
      IsGrouping(before, Served(Between(stored, from, current), Some(c), from, current, tf), tf)
      && IsGrouping(after, Served(Between(stored + [c], from, current), None, from, current, tf), tf)
    ensures before == after && |after| <= MAX_UNROLLED_BUCKETS
  {
    var current := BucketStart(now, tf);
    var from := WindowFrom(tf, lastStored, current);
    NewestIsServed(stored, c, from, current, tf);
    hide BucketStart, Between, IsGrouping, WindowFrom;
    GroupingUnique(before, after, Between(stored + [c], from, current), tf);
    AtMostTwo(after, stored + [c], tf, lastStored, now);
  }

  /** What a lost minute costs: the bucket's row stays that of its stored minutes alone, so its
      volume is short by the minute's. */
  lemma LostMinute(window: seq<Candle>, m: Candle, rows: seq<Forming>, full: seq<Forming>, tf: Timeframe, i: nat, k: nat)
    requires IsGrouping(rows, window, tf) && IsGrouping(full, WithMinute(window, m), tf)
    requires i < |rows| && k < |full| && rows[i].ts == full[k].ts == BucketStart(m.minute, tf)
    ensures full[k].volume == rows[i].volume + m.volume
  {
    assert rows[i] in rows && full[k] in full;
    VolumeWith(window, m, rows[i].ts, tf);
    hide BucketStart, OfBucket, WithMinute, Total;
  }

  function VolumePart(c: Candle, ts: int, tf: Timeframe): real { if BucketStart(c.minute, tf) == ts then c.volume else 0.0 }

  lemma PartAdds(a: seq<Candle>, c: Candle, ts: int, tf: Timeframe)
    ensures Total(VolumeIn, a + Part(c, ts, tf)) == Total(VolumeIn, a) + VolumePart(c, ts, tf)
  {
    hide BucketStart;
    if BucketStart(c.minute, tf) == ts {
      Snoc(a, c);
    } else {
      assert a + [] == a;
    }
  }

  lemma {:induction false} VolumeWith(cs: seq<Candle>, c: Candle, ts: int, tf: Timeframe)
    requires ts == BucketStart(c.minute, tf)
    ensures Total(VolumeIn, OfBucket(WithMinute(cs, c), ts, tf)) == Total(VolumeIn, OfBucket(cs, ts, tf)) + c.volume
    decreases |cs|
  {
    assert VolumePart(c, ts, tf) == c.volume;
    if cs == [] || cs[|cs| - 1].minute < c.minute {
      OfBucketSnoc(cs, c, ts, tf);
      PartAdds(OfBucket(cs, ts, tf), c, ts, tf);
    } else {
      var n := |cs| - 1;
      var front := WithMinute(cs[..n], c);
      assert WithMinute(cs, c) == front + [cs[n]];
      VolumeWith(cs[..n], c, ts, tf);
      OfBucketSnoc(front, cs[n], ts, tf);
      OfBucketLast(cs, ts, tf);
      hide OfBucket, WithMinute, Part, VolumePart, Total, BucketStart;
      PartAdds(OfBucket(front, ts, tf), cs[n], ts, tf);
      PartAdds(OfBucket(cs[..n], ts, tf), cs[n], ts, tf);
    }
  }

  // ---------- rows are of their ticks ----------

  /** The ticks from `from` on and before `to`. */
  function TicksIn(ticks: seq<Tick>, from: int, to: int): seq<Tick>
    decreases |ticks|
  {
    if ticks == [] then []
    else
      var t := ticks[|ticks| - 1];
      TicksIn(ticks[..|ticks| - 1], from, to) + if from <= t.ts < to then [t] else []
  }

  lemma {:induction false} TicksInAppend(a: seq<Tick>, b: seq<Tick>, from: int, to: int)
    ensures TicksIn(a + b, from, to) == TicksIn(a, from, to) + TicksIn(b, from, to)
    decreases |b|
  {
    if b == [] {
      assert a + b == a;
    } else {
      var last := |b| - 1;
      assert (a + b)[..|a| + last] == a + b[..last];
      TicksInAppend(a, b[..last], from, to);
    }
  }

  lemma {:induction false} TicksInOrOut(ticks: seq<Tick>, from: int, to: int, all: bool)
    requires forall t :: t in ticks ==> (from <= t.ts < to <==> all)
    ensures TicksIn(ticks, from, to) == if all then ticks else []
    decreases |ticks|
  {
    if ticks != [] {
      var rest, t := ticks[..|ticks| - 1], ticks[|ticks| - 1];
      assert t in ticks && rest + [t] == ticks;
      TicksInOrOut(rest, from, to, all);
    }
  }

  /** A tick is in a bucket exactly when its minute is. */
  lemma BucketOfMinute(ts: int, tf: Timeframe, t: Tick)
    requires ts == BucketStart(ts, tf)
    ensures BucketStart(Minute(t), tf) == ts <==> ts <= t.ts < ts + Millis(tf)
  {
    BucketsPartition(ts, Minute(t), tf);
    WholeBuckets(ts, tf, -1);
    MinutesAgree(ts, tf, ts, t);
    MinutesAgree(ts + Millis(tf), tf, ts + Millis(tf), t);
  }

  /** The ticks of one minute are in a bucket, or none of them is. */
  lemma MinuteInBucket(own: seq<Tick>, minute: int, ts: int, tf: Timeframe)
    requires ts == BucketStart(ts, tf) && forall t :: t in own ==> Minute(t) == minute
    ensures TicksIn(own, ts, ts + Millis(tf)) == if BucketStart(minute, tf) == ts then own else []
  {
    hide BucketStart, Millis, TicksIn;
    forall t | t in own ensures ts <= t.ts < ts + Millis(tf) <==> BucketStart(minute, tf) == ts {
      BucketOfMinute(ts, tf, t);
    }
    TicksInOrOut(own, ts, ts + Millis(tf), BucketStart(minute, tf) == ts);
  }

  lemma LastOfPartition(cs: seq<Candle>, ticks: seq<Tick>)
    requires Partition(cs, ticks) && cs != []
    ensures var c := cs[|cs| - 1];
      && c.ticks <= |ticks| && IsBar(c, ticks[|ticks| - c.ticks..]) && Partition(cs[..|cs| - 1], ticks[..|ticks| - c.ticks])
      && forall t :: t in ticks[|ticks| - c.ticks..] ==> Minute(t) == c.minute
  {
    hide IsBar;
  }

  lemma BucketStep(front: seq<Candle>, c: Candle, ticks: seq<Tick>, own: seq<Tick>, ts: int, tf: Timeframe)
    requires ts == BucketStart(ts, tf) && IsBar(c, own) && forall t :: t in own ==> Minute(t) == c.minute
    requires Folds(OfBucket(front, ts, tf), TicksIn(ticks, ts, ts + Millis(tf)))
    ensures Folds(OfBucket(front + [c], ts, tf), TicksIn(ticks + own, ts, ts + Millis(tf)))
  {
    hide IsBar, BucketStart, Millis, Folds, TicksIn, OfBucket, Minute;
    MinuteInBucket(own, c.minute, ts, tf);
    OfBucketSnoc(front, c, ts, tf);
    var cs, to := OfBucket(front, ts, tf), ts + Millis(tf);
    TicksInAppend(ticks, own, ts, to);
    if BucketStart(c.minute, tf) == ts {
      FoldsAdds(cs, TicksIn(ticks, ts, to), c, own);
    } else {
      assert TicksIn(ticks, ts, to) + [] == TicksIn(ticks, ts, to) && cs + [] == cs;
    }
  }

  lemma NothingFolds(ticks: seq<Tick>, ts: int, tf: Timeframe)
    requires Partition([], ticks)
    ensures Folds(OfBucket([], ts, tf), TicksIn(ticks, ts, ts + Millis(tf)))
  {
    assert OfBucket([], ts, tf) == [] && TicksIn([], ts, ts + Millis(tf)) == [];
  }

  /** The candles of one bucket fold its ticks. */
  lemma {:induction false} BucketFolds(cs: seq<Candle>, ticks: seq<Tick>, ts: int, tf: Timeframe)
    requires Partition(cs, ticks) && ts == BucketStart(ts, tf)
    ensures Folds(OfBucket(cs, ts, tf), TicksIn(ticks, ts, ts + Millis(tf)))
    decreases |cs|
  {
    hide IsBar, BucketStart, Millis, Folds, TicksIn, Partition, OfBucket;
    if cs == [] {
      NothingFolds(ticks, ts, tf);
    } else {
      LastOfPartition(cs, ticks);
      var n := |cs| - 1;
      var k := |ticks| - cs[n].ticks;
      BucketFolds(cs[..n], ticks[..k], ts, tf);
      BucketStep(cs[..n], cs[n], ticks[..k], ticks[k..], ts, tf);
      assert ticks[..k] + ticks[k..] == ticks && cs[..n] + [cs[n]] == cs;
    }
  }

  /** A window that holds a bucket holds all its minutes. */
  lemma {:induction false} BucketInside(cs: seq<Candle>, from: int, to: int, ts: int, tf: Timeframe)
    requires ts == BucketStart(ts, tf) && from <= ts && ts + Millis(tf) <= to
    ensures OfBucket(Between(cs, from, to), ts, tf) == OfBucket(cs, ts, tf)
    decreases |cs|
  {
    if cs == [] {
      assert OfBucket([], ts, tf) == [];
    } else {
      var n := |cs| - 1;
      BucketInside(cs[..n], from, to, ts, tf);
      BucketsPartition(ts, cs[n].minute, tf);
      hide BucketStart, Millis;
      var before := Between(cs[..n], from, to);
      if from <= cs[n].minute < to {
        assert (before + [cs[n]])[..|before|] == before;
      } else {
        assert before + [] == before;
        assert OfBucket(cs[..n], ts, tf) + [] == OfBucket(cs[..n], ts, tf);
      }
    }
  }

  /** The bar of these ticks: first, highest, lowest and last price, and the volumes of all, of the
      bought and of the sold. */
  ghost predicate IsBarOf(row: Forming, ticks: seq<Tick>) {
    && ticks != [] && row.open == ticks[0].price && row.close == ticks[|ticks| - 1].price
    && IsHighest(row.high, ticks) && IsLowest(row.low, ticks)
    && row.volume == Volume(ticks)
    && row.buyVolume == Volume(OfSide(ticks, Buy)) && row.sellVolume == Volume(OfSide(ticks, Sell))
  }

  lemma AggregateIsBar(row: Forming, own: seq<Candle>, ticks: seq<Tick>)
    requires own != [] && row == Aggregate(row.ts, own) && Folds(own, ticks)
    ensures IsBarOf(row, ticks)
  {
    SumIsVolume(ticks);
    SideSum(BuyOf, ticks, Buy);
    SideSum(SellOf, ticks, Sell);
    hide SumOf, Volume, OfSide, Total, MaxHigh, MinLow, IsHighest, IsLowest;
  }

  lemma RowInWindow(cs: seq<Candle>, ticks: seq<Tick>, from: int, to: int, tf: Timeframe, row: Forming)
    requires Partition(cs, ticks) && IsAggregate(row, Between(cs, from, to), tf)
    requires from <= row.ts && row.ts + Millis(tf) <= to
    ensures IsBarOf(row, TicksIn(ticks, row.ts, row.ts + Millis(tf)))
  {
    hide Between, IsBarOf, Partition, Folds, Aggregate, Millis, BucketStart, OfBucket, TicksIn;
    var window := Between(cs, from, to);
    OfBucketNonempty(window, row.ts, tf);
    var c :| c in window && BucketStart(c.minute, tf) == row.ts;
    StartsItself(c.minute, tf);
    BucketInside(cs, from, to, row.ts, tf);
    BucketFolds(cs, ticks, row.ts, tf);
    AggregateIsBar(row, OfBucket(cs, row.ts, tf), TicksIn(ticks, row.ts, row.ts + Millis(tf)));
  }

  lemma StartsItself(t: int, tf: Timeframe)
    ensures BucketStart(BucketStart(t, tf), tf) == BucketStart(t, tf)
  {
    WholeBuckets(t, tf, 0);
  }

  /** After every run of ticks and due flushes: each row of the grouping of any window that holds
      its bucket is the bar of exactly the accepted ticks of the bucket, in the order they came. */
  lemma RowIsOfTicks(evs: seq<Event>, from: int, to: int, tf: Timeframe, rows: seq<Forming>, row: Forming)
    requires Unseeded(evs) && row in rows && IsGrouping(rows, Between(All(Run(EMPTY, evs)), from, to), tf)
    requires from <= row.ts && row.ts + Millis(tf) <= to
    ensures IsBarOf(row, TicksIn(Accepted(EMPTY, evs), row.ts, row.ts + Millis(tf)))
  {
    hide Run, Accepted, All, Between, IsBarOf, Partition, Millis, IsAggregate, TicksIn, BucketStart, Ordered, Increasing;
    RunIsPartition(evs);
    assert IsAggregate(row, Between(All(Run(EMPTY, evs)), from, to), tf);
    RowInWindow(All(Run(EMPTY, evs)), Accepted(EMPTY, evs), from, to, tf, row);
  }
}
