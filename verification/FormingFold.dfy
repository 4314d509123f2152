/** What the aggregator and the forming bar do together: the bar served is that of the ticks
    themselves, apps/api/src/market/candleAggregator.ts and formingCandle.ts. */
module FormingFold {
  import opened Wrappers
  import opened Candles
  import opened FormingCandle

  /** The ticks from `start` on. */
  function TicksFrom(ticks: seq<Tick>, start: int): seq<Tick>
    decreases |ticks|
  {
    if ticks == [] then []
    else
      var t := ticks[|ticks| - 1];
      TicksFrom(ticks[..|ticks| - 1], start) + if t.ts >= start then [t] else []
  }

  lemma {:induction false} TicksFromAppend(a: seq<Tick>, b: seq<Tick>, start: int)
    ensures TicksFrom(a + b, start) == TicksFrom(a, start) + TicksFrom(b, start)
    decreases |b|
  {
    if b == [] {
      assert a + b == a;
    } else {
      var last := |b| - 1;
      assert (a + b)[..|a| + last] == a + b[..last];
      TicksFromAppend(a, b[..last], start);
    }
  }

  lemma {:induction false} TicksFromOneSide(ticks: seq<Tick>, start: int, all: bool)
    requires forall t :: t in ticks ==> (t.ts >= start <==> all)
    ensures TicksFrom(ticks, start) == if all then ticks else []
    decreases |ticks|
  {
    if ticks != [] {
      assert ticks[|ticks| - 1] in ticks;
      TicksFromOneSide(ticks[..|ticks| - 1], start, all);
    }
  }

  /** These candles together are the bar of these ticks. */
  ghost predicate Folds(cs: seq<Candle>, ticks: seq<Tick>) {
    && (cs == [] <==> ticks == [])
    && (cs != [] ==>
          && cs[0].open == ticks[0].price
          && cs[|cs| - 1].close == ticks[|ticks| - 1].price
          && IsHighest(MaxHigh(cs).GetOr(0.0), ticks)
          && IsLowest(MinLow(cs).GetOr(0.0), ticks))
    && Total(VolumeIn, cs) == SumOf(VolumeOf, ticks)
    && Total(BuyIn, cs) == SumOf(BuyOf, ticks)
    && Total(SellIn, cs) == SumOf(SellOf, ticks)
  }

  lemma HighestOfBoth(a: real, left: seq<Tick>, b: real, right: seq<Tick>)
    requires IsHighest(b, right) && (left != [] ==> IsHighest(a, left))
    ensures IsHighest(if left == [] then b else Max(a, b), left + right)
  {
    assert forall t :: t in left + right <==> t in left || t in right;
  }

  lemma LowestOfBoth(a: real, left: seq<Tick>, b: real, right: seq<Tick>)
    requires IsLowest(b, right) && (left != [] ==> IsLowest(a, left))
    ensures IsLowest(if left == [] then b else Min(a, b), left + right)
  {
    assert forall t :: t in left + right <==> t in left || t in right;
  }

  lemma FoldsAdds(cs: seq<Candle>, ticks: seq<Tick>, c: Candle, own: seq<Tick>)
    requires Folds(cs, ticks) && IsBar(c, own)
    ensures Folds(cs + [c], ticks + own)
  {
    Snoc(cs, c);
    SumAppend(VolumeOf, ticks, own);
    SumAppend(BuyOf, ticks, own);
    SumAppend(SellOf, ticks, own);
    HighestOfBoth(MaxHigh(cs).GetOr(0.0), ticks, c.high, own);
    LowestOfBoth(MinLow(cs).GetOr(0.0), ticks, c.low, own);
    hide IsHighest, IsLowest, SumOf, Total, MaxHigh, MinLow;
  }

  lemma {:induction false} PartitionFolds(cs: seq<Candle>, ticks: seq<Tick>, start: int, now: int, tf: Timeframe)
    requires Partition(cs, ticks) && start == BucketStart(now, tf)
    ensures Folds(From(cs, start), TicksFrom(ticks, start))
    decreases |cs|
  {
    hide IsBar, BucketStart;
    if cs != [] {
      var n := |cs| - 1;
      var c := cs[n];
      var k := |ticks| - c.ticks;
      PartitionFolds(cs[..n], ticks[..k], start, now, tf);
      assert cs == cs[..n] + [c] && ticks == ticks[..k] + ticks[k..];
      Snoc(cs[..n], c);
      TicksFromAppend(ticks[..k], ticks[k..], start);
      forall t | t in ticks[k..] ensures t.ts >= start <==> c.minute >= start {
        MinutesAgree(start, tf, now, t);
      }
      TicksFromOneSide(ticks[k..], start, c.minute >= start);
      hide Folds, From, TicksFrom, Partition;
      if c.minute >= start {
        FoldsAdds(From(cs[..n], start), TicksFrom(ticks[..k], start), c, ticks[k..]);
      } else {
        assert From(cs, start) == From(cs[..n], start) && TicksFrom(ticks, start) == TicksFrom(ticks[..k], start);
      }
    }
  }

  /** The minutes read are the flushed ones and the open one. */
  lemma MinutesAreAll(p: Pair, start: int)
    requires Ordered(p)
    ensures Minutes(p.flushed, p.open, start) == From(All(p), start)
  {
    if p.open.Some? {
      forall r | r in p.flushed ensures r.minute < p.open.value.minute {
        var i :| 0 <= i < |p.flushed| && p.flushed[i] == r;
      }
      OpenCountsAsStored(p.flushed, p.open.value, start);
    } else {
      assert All(p) == p.flushed;
    }
  }

  /** The bar of these ticks, opened at the previous close if there is one. */
  ghost predicate IsFormingBar(f: Forming, ticks: seq<Tick>, prev: Option<real>) {
    && f.open == (if prev.Some? then prev.value else if ticks == [] then f.open else ticks[0].price)
    && f.close == (if ticks == [] then f.open else ticks[|ticks| - 1].price)
    && f.low <= f.open <= f.high && f.low <= f.close <= f.high
    && (forall t :: t in ticks ==> f.low <= t.price <= f.high)
    && (f.high == f.open || exists t :: t in ticks && t.price == f.high)
    && (f.low == f.open || exists t :: t in ticks && t.price == f.low)
    && f.volume == SumOf(VolumeOf, ticks)
    && f.buyVolume == SumOf(BuyOf, ticks)
    && f.sellVolume == SumOf(SellOf, ticks)
  }

  lemma FoldsForm(start: int, cs: seq<Candle>, ticks: seq<Tick>, prev: Option<real>)
    requires Folds(cs, ticks)
    ensures BarOf(start, cs, prev).None? <==> ticks == [] && prev.None?
    ensures BarOf(start, cs, prev).Some? ==> IsFormingBar(BarOf(start, cs, prev).value, ticks, prev)
  {
    if ticks != [] {
      assert ticks[0] in ticks && ticks[|ticks| - 1] in ticks;
    }
    hide SumOf, Total, MaxHigh, MinLow;
  }

  /** After every run of ticks and due flushes, with the flushed candles as the stored rows, the
      forming bar of any timeframe is that of exactly the accepted ticks from its bucket's start
      on, whatever has been flushed when; there is none only with no tick and no previous close. */
  lemma FormingBarIsOfTicks(evs: seq<Event>, bars: seq<Bar>, tf: Timeframe, now: int)
    requires Unseeded(evs)
    ensures var p := Run(EMPTY, evs);
      var start := BucketStart(now, tf);
      var bar := FormingBar(p.flushed, bars, p.lastClosed, p.open, tf, now);
      var ticks := TicksFrom(Accepted(EMPTY, evs), start);
      var prev := PrevClose(p.flushed, bars, p.lastClosed, p.open, start, tf);
      && (bar.None? <==> ticks == [] && prev.None?)
      && (bar.Some? ==> bar.value.ts == start && IsFormingBar(bar.value, ticks, prev))
  {
    var p := Run(EMPTY, evs);
    var start := BucketStart(now, tf);
    RunIsPartition(evs);
    MinutesAreAll(p, start);
    PartitionFolds(All(p), Accepted(EMPTY, evs), start, now, tf);
    hide Partition, Folds, IsFormingBar, TicksFrom, PrevClose, From, BucketStart, Run, Accepted, Ordered, Minutes;
    FoldsForm(start, From(All(p), start), TicksFrom(Accepted(EMPTY, evs), start),
              PrevClose(p.flushed, bars, p.lastClosed, p.open, start, tf));
  }

  /** So a due flush that takes place changes the forming bar exactly where the timeframe's own
      last bar disagrees with the flushed minute. */
  lemma FlushKeepsBarIff(p: Pair, cutoff: int, bars: seq<Bar>, tf: Timeframe, now: int)
    requires Ordered(p) && p.open.Some? && p.open.value.minute < cutoff
    ensures var q := FlushDue(p, cutoff);
      (FormingBar(p.flushed, bars, p.lastClosed, p.open, tf, now) == FormingBar(q.flushed, bars, q.lastClosed, q.open, tf, now))
      <==> !Disagree(bars, p.open.value, BucketStart(now, tf), tf)
  {
    OrderedIncreases(p);
    assert Remembers(p.lastClosed, p.flushed);
    assert FlushDue(p, cutoff).lastClosed == Some(Closed(p.open.value.minute, p.open.value.close));
    hide FormingBar, Disagree, BucketStart;
    SameBarIff(p.flushed, p.open.value, bars, p.lastClosed, tf, now);
  }
}
