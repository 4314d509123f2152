/** The one-minute candle aggregator, apps/api/src/market/candleAggregator.ts.

    Prices and volumes are exact numbers.  One Pair holds what the module's maps hold for one
    pair, with the candles it has handed to `flushCandle` so far. */
module Candles {
  import opened Wrappers

  datatype Side = Buy | Sell | NoSide

  datatype Tick = Tick(price: real, volume: real, ts: int, side: Side)

  /** `minute` is the minute's start in milliseconds. */
  datatype Candle = Candle(
    minute: int,
    open: real,
    high: real,
    low: real,
    close: real,
    volume: real,
    buyVolume: real,
    sellVolume: real,
    ticks: nat)

  datatype Closed = Closed(minute: int, close: real)

  datatype Pair = Pair(open: Option<Candle>, latest: Option<int>, lastClosed: Option<Closed>, flushed: seq<Candle>)

  const EMPTY := Pair(None, None, None, [])

  const MINUTE: int := 60_000

  function MinuteFloor(ts: int): int { ts / MINUTE * MINUTE }

  function Minute(t: Tick): int { MinuteFloor(t.ts) }

  function Max(a: real, b: real): real { if a < b then b else a }

  function Min(a: real, b: real): real { if b < a then b else a }

  function BuyOf(t: Tick): real { if t.side.Buy? then t.volume else 0.0 }

  function SellOf(t: Tick): real { if t.side.Sell? then t.volume else 0.0 }

  function Opened(t: Tick): Candle {
    Candle(Minute(t), t.price, t.price, t.price, t.price, t.volume, BuyOf(t), SellOf(t), 1)
  }

  function Extended(c: Candle, t: Tick): Candle {
    c.(high := if t.price > c.high then t.price else c.high,
       low := if t.price < c.low then t.price else c.low,
       close := t.price,
       volume := c.volume + t.volume,
       buyVolume := c.buyVolume + BuyOf(t),
       sellVolume := c.sellVolume + SellOf(t),
       ticks := c.ticks + 1)
  }

  /** The synchronous part of `flushCandle`. */
  function Flush(p: Pair, c: Candle): Pair {
    var newer := p.lastClosed.None? || p.lastClosed.value.minute < c.minute;
    p.(open := None, flushed := p.flushed + [c],
       lastClosed := if newer then Some(Closed(c.minute, c.close)) else p.lastClosed)
  }

  predicate TooLate(p: Pair, t: Tick) {
    p.latest.Some? && (Minute(t) < p.latest.value || (Minute(t) == p.latest.value && p.open.None?))
  }

  /** `aggregateTick`. */
  function TickStep(p: Pair, t: Tick): Pair {
    if TooLate(p, t) then p
    else if p.open.None? then p.(latest := Some(Minute(t)), open := Some(Opened(t)))
    else if p.open.value.minute != Minute(t)
    then Flush(p, p.open.value).(latest := Some(Minute(t)), open := Some(Opened(t)))
    else p.(open := Some(Extended(p.open.value, t)))
  }

  /** One pair's turn in `flushDueCandles`. */
  function FlushDue(p: Pair, cutoff: int): Pair {
    if p.open.None? || p.open.value.minute >= cutoff then p else Flush(p, p.open.value)
  }

  /** The exchange's snapshot of the minute in progress. */
  datatype Snap = Snap(minute: int, open: real, high: real, low: real, close: real, volume: real)

  function Merged(c: Candle, s: Snap): Candle {
    c.(open := s.open,
       high := if s.high > c.high then s.high else c.high,
       low := if s.low < c.low then s.low else c.low,
       volume := if s.volume > c.volume then s.volume else c.volume)
  }

  function Seeded(s: Snap): Candle { Candle(s.minute, s.open, s.high, s.low, s.close, s.volume, 0.0, 0.0, 0) }

  /** `seedOpenCandle`. */
  function Seed(p: Pair, s: Snap): Pair {
    if p.latest.Some? && s.minute < p.latest.value then p
    else if p.open.Some? && p.open.value.minute == s.minute then p.(open := Some(Merged(p.open.value, s)))
    else if p.latest.Some? && s.minute == p.latest.value then p
    else p.(latest := Some(s.minute), open := Some(Seeded(s)))
  }

  // ---------- runs ----------

  datatype Event = Ticked(tick: Tick) | FlushedDue(cutoff: int) | SeededOpen(snap: Snap)

  function Step(p: Pair, ev: Event): Pair {
    match ev
    case Ticked(t) => TickStep(p, t)
    case FlushedDue(cutoff) => FlushDue(p, cutoff)
    case SeededOpen(s) => Seed(p, s)
  }

  function Run(p: Pair, evs: seq<Event>): Pair
    decreases |evs|
  {
    if evs == [] then p else Run(Step(p, evs[0]), evs[1..])
  }

  /** The ticks a step takes in: one, or none. */
  function Taken(p: Pair, ev: Event): seq<Tick> {
    if ev.Ticked? && !TooLate(p, ev.tick) then [ev.tick] else []
  }

  /** The ticks a run takes in. */
  function Accepted(p: Pair, evs: seq<Event>): seq<Tick>
    decreases |evs|
  {
    if evs == [] then [] else Taken(p, evs[0]) + Accepted(Step(p, evs[0]), evs[1..])
  }

  // ---------- minutes only move forward ----------

  /** Flushed minutes strictly increase, the open candle is for the newest minute and later than
      all flushed, and the last closed minute is the last flushed.  With none open the newest is flushed. */
  ghost predicate Ordered(p: Pair) {
    && (forall i, j :: 0 <= i < j < |p.flushed| ==> p.flushed[i].minute < p.flushed[j].minute)
    && (forall i :: 0 <= i < |p.flushed| ==>
          p.latest.Some? && if p.open.Some? then p.flushed[i].minute < p.latest.value else p.flushed[i].minute <= p.latest.value)
    && (p.open.Some? ==> p.latest == Some(p.open.value.minute))
    && (p.open.None? && p.latest.Some? ==>
          p.flushed != [] && p.flushed[|p.flushed| - 1].minute == p.latest.value)
    && p.lastClosed == (if p.flushed == [] then None
                        else Some(Closed(p.flushed[|p.flushed| - 1].minute, p.flushed[|p.flushed| - 1].close)))
  }

  predicate NotBefore(a: Option<int>, b: Option<int>) { a.Some? ==> b.Some? && a.value <= b.value }

  lemma FlushKeepsOrdered(p: Pair)
    requires Ordered(p) && p.open.Some?
    ensures Ordered(Flush(p, p.open.value))
  {
  }

  lemma StepKeepsOrdered(p: Pair, ev: Event)
    requires Ordered(p)
    ensures Ordered(Step(p, ev)) && NotBefore(p.latest, Step(p, ev).latest) && p.flushed <= Step(p, ev).flushed
  {
    if p.open.Some? {
      FlushKeepsOrdered(p);
    }
  }

  /** Over every run, seeds included, the newest minute never goes back, nothing flushed is taken
      back, and each minute is flushed at most once, in increasing order. */
  lemma {:induction false} RunKeepsOrdered(p: Pair, evs: seq<Event>)
    requires Ordered(p)
    ensures Ordered(Run(p, evs)) && NotBefore(p.latest, Run(p, evs).latest) && p.flushed <= Run(p, evs).flushed
    decreases |evs|
  {
    hide Step, Ordered;
    if evs != [] {
      StepKeepsOrdered(p, evs[0]);
      RunKeepsOrdered(Step(p, evs[0]), evs[1..]);
    }
  }

  /** A tick is dropped exactly when its minute has been flushed, or a newer one has been opened
      or flushed. */
  lemma DroppedIff(p: Pair, t: Tick)
    requires Ordered(p)
    ensures TooLate(p, t) <==>
      || (exists i :: 0 <= i < |p.flushed| && p.flushed[i].minute >= Minute(t))
      || (p.open.Some? && p.open.value.minute > Minute(t))
  {
    if TooLate(p, t) && p.open.None? {
      assert p.flushed[|p.flushed| - 1].minute >= Minute(t);
    }
  }

  // ---------- what a candle is ----------

  function SumOf(f: Tick -> real, ticks: seq<Tick>): real
    decreases |ticks|
  {
    if ticks == [] then 0.0 else SumOf(f, ticks[..|ticks| - 1]) + f(ticks[|ticks| - 1])
  }

  function VolumeOf(t: Tick): real { t.volume }

  predicate IsHighest(high: real, ticks: seq<Tick>) {
    (exists t :: t in ticks && t.price == high) && forall t :: t in ticks ==> t.price <= high
  }

  predicate IsLowest(low: real, ticks: seq<Tick>) {
    (exists t :: t in ticks && t.price == low) && forall t :: t in ticks ==> low <= t.price
  }

  /** The candle of these ticks, in this order. */
  ghost predicate IsBar(c: Candle, ticks: seq<Tick>) {
    && ticks != []
    && c.open == ticks[0].price
    && c.close == ticks[|ticks| - 1].price
    && IsHighest(c.high, ticks)
    && IsLowest(c.low, ticks)
    && c.volume == SumOf(VolumeOf, ticks)
    && c.buyVolume == SumOf(BuyOf, ticks)
    && c.sellVolume == SumOf(SellOf, ticks)
    && c.ticks == |ticks|
  }

  /** Everything a pair has: the flushed candles, then the open one. */
  function All(p: Pair): seq<Candle> { p.flushed + if p.open.Some? then [p.open.value] else [] }

  /** The ticks, cut into as many pieces as there are candles: each candle is the bar of its piece,
      whose ticks are all of its minute. */
  ghost predicate Partition(cs: seq<Candle>, ticks: seq<Tick>)
    decreases |cs|
  {
    if cs == [] then ticks == []
    else
      var c := cs[|cs| - 1];
      c.ticks <= |ticks|
      && var k := |ticks| - c.ticks;
         && IsBar(c, ticks[k..])
         && (forall t :: t in ticks[k..] ==> Minute(t) == c.minute)
         && Partition(cs[..|cs| - 1], ticks[..k])
  }

  lemma OpenedIsBar(t: Tick)
    ensures IsBar(Opened(t), [t])
  {
    assert t in [t];
    assert [t][..0] == [];
    assert forall f: Tick -> real :: SumOf(f, [t]) == SumOf(f, []) + f(t);
  }

  lemma SumSnoc(f: Tick -> real, ticks: seq<Tick>, t: Tick)
    ensures SumOf(f, ticks + [t]) == SumOf(f, ticks) + f(t)
  {
    assert (ticks + [t])[..|ticks|] == ticks;
  }

  lemma ExtendedIsBar(c: Candle, ticks: seq<Tick>, t: Tick)
    requires IsBar(c, ticks)
    ensures IsBar(Extended(c, t), ticks + [t])
  {
    SumSnoc(VolumeOf, ticks, t);
    SumSnoc(BuyOf, ticks, t);
    SumSnoc(SellOf, ticks, t);
    var more := ticks + [t];
    assert t == more[|ticks|] && t in more;
    assert forall u :: u in ticks ==> u in more;
    hide SumOf;
  }

  lemma PartitionAdds(cs: seq<Candle>, c: Candle, ticks: seq<Tick>, own: seq<Tick>)
    requires Partition(cs, ticks) && IsBar(c, own) && forall t :: t in own ==> Minute(t) == c.minute
    ensures Partition(cs + [c], ticks + own)
  {
    var all, both := ticks + own, cs + [c];
    assert c.ticks == |own|;
    hide IsBar;
    assert all[|ticks|..] == own && all[..|ticks|] == ticks;
    assert both[..|cs|] == cs && both[|cs|] == c && |both| == |cs| + 1;
  }

  lemma PartitionOpens(cs: seq<Candle>, ticks: seq<Tick>, t: Tick)
    requires Partition(cs, ticks)
    ensures Partition(cs + [Opened(t)], ticks + [t])
  {
    OpenedIsBar(t);
    hide Partition, IsBar;
    PartitionAdds(cs, Opened(t), ticks, [t]);
  }

  lemma PartitionExtends(cs: seq<Candle>, c: Candle, ticks: seq<Tick>, t: Tick)
    requires Partition(cs + [c], ticks) && Minute(t) == c.minute
    ensures Partition(cs + [Extended(c, t)], ticks + [t])
  {
    hide IsBar;
    assert (cs + [c])[..|cs|] == cs;
    var k := |ticks| - c.ticks;
    ExtendedIsBar(c, ticks[k..], t);
    assert Partition(cs, ticks[..k]);
    hide Partition;
    PartitionAdds(cs, Extended(c, t), ticks[..k], ticks[k..] + [t]);
    assert ticks[..k] + (ticks[k..] + [t]) == ticks + [t];
  }

  lemma StepKeepsPartition(p: Pair, ev: Event, ticks: seq<Tick>)
    requires Ordered(p) && Partition(All(p), ticks) && !ev.SeededOpen?
    ensures Partition(All(Step(p, ev)), ticks + Taken(p, ev))
  {
    hide Partition;
    var after := Step(p, ev);
    if Taken(p, ev) == [] {
      assert All(after) == All(p) && ticks + [] == ticks;
    } else {
      var t := ev.tick;
      if p.open.Some? && p.open.value.minute == Minute(t) {
        PartitionExtends(p.flushed, p.open.value, ticks, t);
      } else {
        assert All(after) == All(p) + [Opened(t)];
        PartitionOpens(All(p), ticks, t);
      }
    }
  }

  /** No seed happens. */
  predicate Unseeded(evs: seq<Event>) { forall ev :: ev in evs ==> !ev.SeededOpen? }

  lemma {:induction false} RunKeepsPartition(p: Pair, evs: seq<Event>, ticks: seq<Tick>)
    requires Ordered(p) && Partition(All(p), ticks) && Unseeded(evs)
    ensures Partition(All(Run(p, evs)), ticks + Accepted(p, evs))
    decreases |evs|
  {
    hide Step, Ordered, Partition, All, Taken;
    if evs == [] {
      assert ticks + [] == ticks;
    } else {
      var ev := evs[0];
      assert ev in evs;
      StepKeepsPartition(p, ev, ticks);
      StepKeepsOrdered(p, ev);
      RunKeepsPartition(Step(p, ev), evs[1..], ticks + Taken(p, ev));
      assert ticks + Taken(p, ev) + Accepted(Step(p, ev), evs[1..]) == ticks + Accepted(p, evs);
    }
  }

  /** The ticks of one minute. */
  function OfMinute(ticks: seq<Tick>, minute: int): seq<Tick>
    decreases |ticks|
  {
    if ticks == [] then []
    else
      var t := ticks[|ticks| - 1];
      OfMinute(ticks[..|ticks| - 1], minute) + if Minute(t) == minute then [t] else []
  }

  lemma {:induction false} OfMinuteAppend(a: seq<Tick>, b: seq<Tick>, minute: int)
    ensures OfMinute(a + b, minute) == OfMinute(a, minute) + OfMinute(b, minute)
    decreases |b|
  {
    if b == [] {
      assert a + b == a;
    } else {
      var last := |b| - 1;
      assert (a + b)[..|a| + last] == a + b[..last];
      OfMinuteAppend(a, b[..last], minute);
    }
  }

  lemma {:induction false} OfOneMinute(ticks: seq<Tick>, minute: int, other: int)
    requires forall t :: t in ticks ==> Minute(t) == minute
    ensures OfMinute(ticks, other) == if minute == other then ticks else []
    decreases |ticks|
  {
    hide Minute;
    if ticks != [] {
      var rest, t := ticks[..|ticks| - 1], ticks[|ticks| - 1];
      OfOneMinute(rest, minute, other);
      assert Minute(t) == minute && rest + [t] == ticks;
    }
  }

  predicate Increasing(cs: seq<Candle>) { forall i, j :: 0 <= i < j < |cs| ==> cs[i].minute < cs[j].minute }

  /** The last candle's piece holds all the ticks of its minute that the piece before does not. */
  lemma LastPiece(cs: seq<Candle>, ticks: seq<Tick>, minute: int)
    requires Partition(cs, ticks) && cs != []
    ensures var n := |cs| - 1; var k := |ticks| - cs[n].ticks;
      && k >= 0 && Partition(cs[..n], ticks[..k]) && IsBar(cs[n], ticks[k..])
      && OfMinute(ticks, minute) == OfMinute(ticks[..k], minute) + if cs[n].minute == minute then ticks[k..] else []
  {
    hide IsBar;
    var k := |ticks| - cs[|cs| - 1].ticks;
    assert ticks == ticks[..k] + ticks[k..];
    OfMinuteAppend(ticks[..k], ticks[k..], minute);
    OfOneMinute(ticks[k..], cs[|cs| - 1].minute, minute);
  }

  lemma {:induction false} NoneOfMinute(cs: seq<Candle>, ticks: seq<Tick>, minute: int)
    requires Partition(cs, ticks) && forall c :: c in cs ==> c.minute != minute
    ensures OfMinute(ticks, minute) == []
    decreases |cs|
  {
    if cs == [] {
      assert ticks == [];
    } else {
      LastPiece(cs, ticks, minute);
      hide Partition, IsBar, OfMinute;
      var n := |cs| - 1;
      assert cs[n] in cs;
      NoneOfMinute(cs[..n], ticks[..|ticks| - cs[n].ticks], minute);
    }
  }

  lemma {:induction false} PartitionMinutes(cs: seq<Candle>, ticks: seq<Tick>, i: nat)
    requires Partition(cs, ticks) && Increasing(cs) && i < |cs|
    ensures IsBar(cs[i], OfMinute(ticks, cs[i].minute))
    decreases |cs|
  {
    hide IsBar, OfMinute, Partition;
    var n := |cs| - 1;
    LastPiece(cs, ticks, cs[i].minute);
    var k := |ticks| - cs[n].ticks;
    if i < n {
      PartitionMinutes(cs[..n], ticks[..k], i);
      assert OfMinute(ticks, cs[i].minute) == OfMinute(ticks[..k], cs[i].minute);
    } else {
      NoneOfMinute(cs[..n], ticks[..k], cs[n].minute);
      assert OfMinute(ticks, cs[i].minute) == ticks[k..];
    }
  }

  /** In every run without seeds each flushed candle, and the open one, is the bar of exactly the
      accepted ticks of its minute, in the order they came. */
  lemma CandlesAreTheirTicks(evs: seq<Event>, i: nat)
    requires Unseeded(evs) && i < |All(Run(EMPTY, evs))|
    ensures var c := All(Run(EMPTY, evs))[i];
      IsBar(c, OfMinute(Accepted(EMPTY, evs), c.minute))
  {
    hide Partition, IsBar, Run, Accepted;
    var p := Run(EMPTY, evs);
    RunIsPartition(evs);
    PartitionMinutes(All(p), Accepted(EMPTY, evs), i);
  }

  lemma OrderedIncreases(p: Pair)
    requires Ordered(p)
    ensures Increasing(All(p))
  {
  }

  lemma RunIsPartition(evs: seq<Event>)
    requires Unseeded(evs)
    ensures Partition(All(Run(EMPTY, evs)), Accepted(EMPTY, evs))
    ensures Ordered(Run(EMPTY, evs)) && Increasing(All(Run(EMPTY, evs)))
  {
    assert Partition(All(EMPTY), []) && Ordered(EMPTY);
    hide Run, Accepted, Partition, Ordered, Increasing, Unseeded;
    RunKeepsPartition(EMPTY, evs, []);
    RunKeepsOrdered(EMPTY, evs);
    OrderedIncreases(Run(EMPTY, evs));
    assert [] + Accepted(EMPTY, evs) == Accepted(EMPTY, evs);
  }

  // ---------- no volume is lost ----------

  function TotalVolume(cs: seq<Candle>): real
    decreases |cs|
  {
    if cs == [] then 0.0 else TotalVolume(cs[..|cs| - 1]) + cs[|cs| - 1].volume
  }

  lemma {:induction false} SumAppend(f: Tick -> real, a: seq<Tick>, b: seq<Tick>)
    ensures SumOf(f, a + b) == SumOf(f, a) + SumOf(f, b)
    decreases |b|
  {
    if b == [] {
      assert a + b == a;
    } else {
      var last := |b| - 1;
      assert (a + b)[..|a| + last] == a + b[..last];
      SumAppend(f, a, b[..last]);
    }
  }

  lemma {:induction false} PartitionVolume(cs: seq<Candle>, ticks: seq<Tick>)
    requires Partition(cs, ticks)
    ensures TotalVolume(cs) == SumOf(VolumeOf, ticks)
    decreases |cs|
  {
    if cs != [] {
      var n := |cs| - 1;
      var k := |ticks| - cs[n].ticks;
      PartitionVolume(cs[..n], ticks[..k]);
      assert ticks == ticks[..k] + ticks[k..];
      SumAppend(VolumeOf, ticks[..k], ticks[k..]);
    }
  }

  /** In every run without seeds the accepted volume is the flushed volume plus the open one. */
  lemma VolumeIsConserved(evs: seq<Event>)
    requires Unseeded(evs)
    ensures var p := Run(EMPTY, evs);
      SumOf(VolumeOf, Accepted(EMPTY, evs)) == TotalVolume(p.flushed) + (if p.open.Some? then p.open.value.volume else 0.0)
  {
    var p := Run(EMPTY, evs);
    RunIsPartition(evs);
    PartitionVolume(All(p), Accepted(EMPTY, evs));
    hide Partition;
    if p.open.Some? {
      assert All(p)[..|p.flushed|] == p.flushed;
    } else {
      assert All(p) == p.flushed;
    }
  }

  // ---------- what a seed loses ----------

  /** A seed throws a candle away, neither flushed nor open any more, exactly when it is for a
      minute newer than the open one. */
  lemma SeedLosesIff(p: Pair, s: Snap)
    requires Ordered(p)
    ensures (p.open.Some? && !(exists c :: c in All(Seed(p, s)) && c.minute == p.open.value.minute))
      <==> (p.open.Some? && p.open.value.minute < s.minute)
  {
    if p.open.Some? {
      var after := Seed(p, s);
      var m := p.open.value.minute;
      if m < s.minute {
        forall c | c in All(after) ensures c.minute != m {
          if c in p.flushed {
            var i :| 0 <= i < |p.flushed| && p.flushed[i] == c;
          }
        }
      } else {
        assert after.open.value in All(after) && after.open.value.minute == m;
      }
    }
  }

  // ---------- in numbers ----------

  /** The ticks of one side, in their order. */
  function OfSide(ticks: seq<Tick>, side: Side): seq<Tick>
    decreases |ticks|
  {
    if ticks == [] then []
    else OfSide(ticks[..|ticks| - 1], side) + if ticks[|ticks| - 1].side == side then [ticks[|ticks| - 1]] else []
  }

  function Volume(ticks: seq<Tick>): real
    decreases |ticks|
  {
    if ticks == [] then 0.0 else Volume(ticks[..|ticks| - 1]) + ticks[|ticks| - 1].volume
  }

  lemma VolumeSnoc(ticks: seq<Tick>, t: Tick)
    ensures Volume(ticks + [t]) == Volume(ticks) + t.volume
  {
    assert (ticks + [t])[..|ticks|] == ticks;
  }

  lemma {:induction false} SumIsVolume(ticks: seq<Tick>)
    ensures SumOf(VolumeOf, ticks) == Volume(ticks)
    decreases |ticks|
  {
    if ticks != [] {
      SumIsVolume(ticks[..|ticks| - 1]);
    }
  }

  lemma {:induction false} SideSum(f: Tick -> real, ticks: seq<Tick>, side: Side)
    requires forall t :: f(t) == if t.side == side then t.volume else 0.0
    ensures SumOf(f, ticks) == Volume(OfSide(ticks, side))
    decreases |ticks|
  {
    if ticks != [] {
      var rest, t := ticks[..|ticks| - 1], ticks[|ticks| - 1];
      SideSum(f, rest, side);
      hide Volume;
      VolumeSnoc(OfSide(rest, side), t);
      assert OfSide(rest, side) + [] == OfSide(rest, side);
    }
  }

  /** The tick is in the minute that starts at `minute`. */
  predicate Within(t: Tick, minute: int) { minute <= t.ts < minute + 60_000 }

  lemma MinuteIs(t: Tick, minute: int)
    requires minute % 60_000 == 0
    ensures Minute(t) == minute <==> Within(t, minute)
    ensures Minute(t) % 60_000 == 0
  {
  }

  /** The accepted ticks of a minute: exactly those within it, in their order. */
  lemma {:induction false} OfMinuteIs(ticks: seq<Tick>, minute: int)
    requires minute % 60_000 == 0
    ensures forall t :: t in OfMinute(ticks, minute) <==> t in ticks && Within(t, minute)
    decreases |ticks|
  {
    if ticks != [] {
      OfMinuteIs(ticks[..|ticks| - 1], minute);
      MinuteIs(ticks[|ticks| - 1], minute);
      assert forall t :: t in ticks <==> t in ticks[..|ticks| - 1] || t == ticks[|ticks| - 1];
      hide Minute, Within;
    }
  }

  lemma BarMinute(c: Candle, own: seq<Tick>, ticks: seq<Tick>)
    requires IsBar(c, own) && own == OfMinute(ticks, c.minute)
    ensures c.minute % 60_000 == 0
  {
    SomeMinute(ticks, c.minute);
  }

  lemma {:induction false} SomeMinute(ticks: seq<Tick>, minute: int)
    requires OfMinute(ticks, minute) != []
    ensures minute % 60_000 == 0
    decreases |ticks|
  {
    var n := |ticks| - 1;
    if Minute(ticks[n]) != minute {
      SomeMinute(ticks[..n], minute);
    }
  }

  /** In every run without seeds each candle starts on a minute, is of exactly the accepted ticks
      within that minute, and its volumes are those of all, of the bought and of the sold ones. */
  lemma CandleInNumbers(evs: seq<Event>, i: nat)
    requires Unseeded(evs) && i < |All(Run(EMPTY, evs))|
    ensures var c, ticks := All(Run(EMPTY, evs))[i], Accepted(EMPTY, evs);
      var own := OfMinute(ticks, c.minute);
      && c.minute % 60_000 == 0 && (forall t :: t in own <==> t in ticks && Within(t, c.minute))
      && c.volume == Volume(own) && c.buyVolume == Volume(OfSide(own, Buy)) && c.sellVolume == Volume(OfSide(own, Sell))
  {
    CandlesAreTheirTicks(evs, i);
    var c, ticks := All(Run(EMPTY, evs))[i], Accepted(EMPTY, evs);
    hide Run, Accepted, All;
    var own := OfMinute(ticks, c.minute);
    BarMinute(c, own, ticks);
    OfMinuteIs(ticks, c.minute);
    SumIsVolume(own);
    SideSum(BuyOf, own, Buy);
    SideSum(SellOf, own, Sell);
  }

  /** A pair's turn in the flush takes its open candle exactly when the candle's minute is over. */
  lemma FlushDueIff(p: Pair, now: int)
    requires p.open.Some? && p.open.value.minute % 60_000 == 0
    ensures var c, after := p.open.value, FlushDue(p, MinuteFloor(now));
      if c.minute + 60_000 <= now then after.open.None? && after.flushed == p.flushed + [c] else after == p
  {
  }

  predicate LargerOf(x: real, a: real, b: real) { x >= a && x >= b && (x == a || x == b) }

  predicate SmallerOf(x: real, a: real, b: real) { x <= a && x <= b && (x == a || x == b) }

  /** The open candle taken together with the exchange's: its open, both ranges, the live close and
      sides, the larger volume. */
  predicate TakesSnap(was: Candle, c: Candle, s: Snap) {
    && c.minute == was.minute && c.open == s.open && c.close == was.close
    && LargerOf(c.high, was.high, s.high) && SmallerOf(c.low, was.low, s.low) && LargerOf(c.volume, was.volume, s.volume)
    && c.buyVolume == was.buyVolume && c.sellVolume == was.sellVolume && c.ticks == was.ticks
  }

  /** A candle of the exchange's figures alone. */
  predicate IsSnap(c: Candle, s: Snap) {
    && c.minute == s.minute && c.open == s.open && c.high == s.high && c.low == s.low && c.close == s.close
    && c.volume == s.volume && c.buyVolume == c.sellVolume == 0.0 && c.ticks == 0
  }

  /** A seed of the open minute is merged into its candle, one of a newer minute opens its own, and
      one of an older or a flushed minute changes nothing; nothing is flushed. */
  lemma SeedIs(p: Pair, s: Snap)
    requires Ordered(p)
    ensures var after := Seed(p, s);
      && after.flushed == p.flushed && after.lastClosed == p.lastClosed
      && if p.open.Some? && s.minute == p.open.value.minute
         then after.open.Some? && TakesSnap(p.open.value, after.open.value, s) && after.latest == p.latest
         else if p.latest.None? || p.latest.value < s.minute
         then after.open.Some? && IsSnap(after.open.value, s) && after.latest == Some(s.minute)
         else after == p
  {
  }

  // ---------- the module as it runs ----------

  /** The module's maps, updated in place; `flushed` is ghost, the calls of `flushCandle`. */
  class CandleAggregator {
    var openCandles: map<string, Candle>
    var latestMinute: map<string, int>
    var lastClosed: map<string, Closed>
    ghost var flushed: map<string, seq<Candle>>

    ghost function View(id: string): Pair
      reads this
    {
      Pair(if id in openCandles then Some(openCandles[id]) else None,
           if id in latestMinute then Some(latestMinute[id]) else None,
           if id in lastClosed then Some(lastClosed[id]) else None,
           if id in flushed then flushed[id] else [])
    }

    constructor ()
      ensures forall id :: View(id) == EMPTY
    {
      openCandles, latestMinute, lastClosed, flushed := map[], map[], map[], map[];
    }

    /** Takes the pair's candle out and flushes it. */
    method FlushCandle(id: string)
      requires id in openCandles
      modifies this
      ensures View(id) == Flush(old(View(id)), old(openCandles[id]))
      ensures forall other :: other != id ==> View(other) == old(View(other))
      ensures openCandles == old(openCandles) - {id} && latestMinute == old(latestMinute)
    {
      var candle := openCandles[id];
      openCandles := openCandles - {id};
      flushed := flushed[id := View(id).flushed + [candle]];
      if id !in lastClosed || lastClosed[id].minute < candle.minute {
        lastClosed := lastClosed[id := Closed(candle.minute, candle.close)];
      }
    }

    method AggregateTick(id: string, t: Tick)
      modifies this
      ensures View(id) == TickStep(old(View(id)), t)
      ensures forall other :: other != id ==> View(other) == old(View(other))
    {
      var minuteKey := MinuteFloor(t.ts);
      if id in latestMinute
         && (minuteKey < latestMinute[id] || (minuteKey == latestMinute[id] && id !in openCandles)) {
        return;
      }
      if id !in openCandles || openCandles[id].minute != minuteKey {
        if id in openCandles {
          FlushCandle(id);
        }
        latestMinute := latestMinute[id := minuteKey];
        openCandles := openCandles[id := Opened(t)];
        return;
      }
      var c := openCandles[id];
      if t.price > c.high {
        c := c.(high := t.price);
      }
      if t.price < c.low {
        c := c.(low := t.price);
      }
      c := c.(close := t.price, volume := c.volume + t.volume);
      c := c.(buyVolume := c.buyVolume + BuyOf(t), sellVolume := c.sellVolume + SellOf(t), ticks := c.ticks + 1);
      openCandles := openCandles[id := c];
    }

    /** Every pair takes its turn once. */
    method FlushDueCandles(now: int)
      modifies this
      ensures forall id :: View(id) == FlushDue(old(View(id)), MinuteFloor(now))
    {
      var cutoff := MinuteFloor(now);
      var left := openCandles.Keys;
      while left != {}
        invariant left <= openCandles.Keys
        invariant forall id :: View(id) == if id in left then old(View(id)) else FlushDue(old(View(id)), cutoff)
        decreases |left|
      {
        var id :| id in left;
        left := left - {id};
        if openCandles[id].minute < cutoff {
          FlushCandle(id);
        }
      }
    }

    method SeedOpenCandle(id: string, s: Snap)
      modifies this
      ensures View(id) == Seed(old(View(id)), s)
      ensures forall other :: other != id ==> View(other) == old(View(other))
    {
      if id in latestMinute && s.minute < latestMinute[id] {
        return;
      }
      if id in openCandles && openCandles[id].minute == s.minute {
        var c := openCandles[id].(open := s.open);
        if s.high > c.high {
          c := c.(high := s.high);
        }
        if s.low < c.low {
          c := c.(low := s.low);
        }
        if s.volume > c.volume {
          c := c.(volume := s.volume);
        }
        openCandles := openCandles[id := c];
        return;
      }
      if id in latestMinute && s.minute == latestMinute[id] {
        return;
      }
      latestMinute := latestMinute[id := s.minute];
      openCandles := openCandles[id := Seeded(s)];
    }
  }
}
