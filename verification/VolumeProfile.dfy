/** The volume profile, apps/api/src/indicators/vpvr.ts, over exact numbers. */
module VolumeProfile {
  import opened Wrappers

  const NUM_BUCKETS: int := 60

  const VALUE_AREA_PCT: real := 0.7

  datatype Candle = Candle(high: real, low: real, volume: real)

  datatype Bucket = Bucket(priceLow: real, priceHigh: real, volume: real)

  datatype Profile = Profile(
    poc: real,
    vah: real,
    val: real,
    min: real,
    max: real,
    bucketSize: real,
    buckets: seq<Bucket>)

  // ---------- range ----------

  predicate IsLowest(min: real, cs: seq<Candle>) {
    (exists c :: c in cs && c.low == min) && forall c :: c in cs ==> min <= c.low
  }

  predicate IsHighest(max: real, cs: seq<Candle>) {
    (exists c :: c in cs && c.high == max) && forall c :: c in cs ==> c.high <= max
  }

  method FindRange(cs: seq<Candle>) returns (min: real, max: real)
    requires cs != []
    ensures IsLowest(min, cs) && IsHighest(max, cs)
  {
    min, max := cs[0].low, cs[0].high;
    var i := 1;
    while i < |cs|
      invariant 1 <= i <= |cs|
      invariant exists k :: 0 <= k < i && cs[k].low == min
      invariant exists k :: 0 <= k < i && cs[k].high == max
      invariant forall k :: 0 <= k < i ==> min <= cs[k].low && cs[k].high <= max
    {
      if cs[i].low < min {
        min := cs[i].low;
      }
      if cs[i].high > max {
        max := cs[i].high;
      }
      i := i + 1;
    }
  }

  // ---------- buckets ----------

  /** Which bucket a price falls into. */
  function Index(price: real, min: real, size: real): int
    requires size > 0.0
  {
    ((price - min) / size).Floor
  }

  function First(c: Candle, min: real, size: real): int
    requires size > 0.0
  {
    if Index(c.low, min, size) < 0 then 0 else Index(c.low, min, size)
  }

  function Last(c: Candle, min: real, size: real): int
    requires size > 0.0
  {
    if Index(c.high, min, size) > NUM_BUCKETS - 1 then NUM_BUCKETS - 1 else Index(c.high, min, size)
  }

  /** What a candle puts into bucket b: an even share of its volume, if it covers b. */
  function Share(c: Candle, min: real, size: real, b: int): real
    requires size > 0.0
  {
    var lo, hi := First(c, min, size), Last(c, min, size);
    if lo <= b <= hi then c.volume / (hi - lo + 1) as real else 0.0
  }

  /** What all candles put into bucket b. */
  function At(cs: seq<Candle>, min: real, size: real, b: int): real
    requires size > 0.0
    decreases |cs|
  {
    if cs == [] then 0.0 else At(cs[..|cs| - 1], min, size, b) + Share(cs[|cs| - 1], min, size, b)
  }

  lemma AtSnoc(cs: seq<Candle>, i: nat, min: real, size: real, b: int)
    requires size > 0.0 && i < |cs|
    ensures At(cs[..i + 1], min, size, b) == At(cs[..i], min, size, b) + Share(cs[i], min, size, b)
  {
    assert cs[..i + 1][..i] == cs[..i];
  }

  /** Adds one candle's shares. */
  method AddCandle(buckets: array<real>, c: Candle, min: real, size: real)
    requires size > 0.0 && buckets.Length == NUM_BUCKETS
    modifies buckets
    ensures forall b :: 0 <= b < NUM_BUCKETS ==> buckets[b] == old(buckets[b]) + Share(c, min, size, b)
  {
    var lo, hi := First(c, min, size), Last(c, min, size);
    var span := hi - lo + 1;
    var b := lo;
    while b <= hi
      invariant lo <= b
      invariant lo <= hi ==> b <= hi + 1
      invariant lo > hi ==> b == lo
      invariant forall k :: 0 <= k < NUM_BUCKETS ==>
          buckets[k] == old(buckets[k]) + if k < b then Share(c, min, size, k) else 0.0
    {
      buckets[b] := buckets[b] + c.volume / span as real;
      b := b + 1;
    }
  }

  method FillBuckets(cs: seq<Candle>, min: real, size: real) returns (buckets: array<real>)
    requires size > 0.0
    ensures fresh(buckets) && buckets.Length == NUM_BUCKETS
    ensures forall b :: 0 <= b < NUM_BUCKETS ==> buckets[b] == At(cs, min, size, b)
  {
    hide Share;
    buckets := new real[NUM_BUCKETS](_ => 0.0);
    var i := 0;
    while i < |cs|
      invariant i <= |cs|
      invariant forall b :: 0 <= b < NUM_BUCKETS ==> buckets[b] == At(cs[..i], min, size, b)
    {
      AddCandle(buckets, cs[i], min, size);
      forall b | 0 <= b < NUM_BUCKETS
        ensures At(cs[..i + 1], min, size, b) == At(cs[..i], min, size, b) + Share(cs[i], min, size, b)
      {
        AtSnoc(cs, i, min, size, b);
      }
      i := i + 1;
    }
    assert cs[..i] == cs;
  }

  // ---------- what the buckets hold ----------

  function VolumeOf(cs: seq<Candle>): real
    decreases |cs|
  {
    if cs == [] then 0.0 else VolumeOf(cs[..|cs| - 1]) + cs[|cs| - 1].volume
  }

  /** The volume of the candles whose low is the top price. */
  function FlatAtTop(cs: seq<Candle>, max: real): real
    decreases |cs|
  {
    if cs == [] then 0.0
    else FlatAtTop(cs[..|cs| - 1], max) + if cs[|cs| - 1].low == max then cs[|cs| - 1].volume else 0.0
  }

  /** All that is in the first n buckets. */
  function InBuckets(cs: seq<Candle>, min: real, size: real, n: nat): real
    requires size > 0.0
  {
    if n == 0 then 0.0 else InBuckets(cs, min, size, n - 1) + At(cs, min, size, n - 1)
  }

  function Shares(c: Candle, min: real, size: real, n: nat): real
    requires size > 0.0
  {
    if n == 0 then 0.0 else Shares(c, min, size, n - 1) + Share(c, min, size, n - 1)
  }

  /** How many of the buckets lo to hi are among the first n. */
  function Covered(lo: int, hi: int, n: int): int { if n <= lo || hi < lo then 0 else if n <= hi then n - lo else hi - lo + 1 }

  function Times(k: int, each: real): real { k as real * each }

  lemma OneMore(k: int, each: real)
    ensures Times(k + 1, each) == Times(k, each) + each && Times(0, each) == 0.0
  {
  }

  lemma {:induction false} SharesAre(c: Candle, min: real, size: real, n: nat)
    requires size > 0.0 && n <= NUM_BUCKETS && First(c, min, size) <= Last(c, min, size)
    ensures var lo, hi := First(c, min, size), Last(c, min, size);
      Shares(c, min, size, n) == Times(Covered(lo, hi, n), c.volume / (hi - lo + 1) as real)
  {
    if n == 0 {
      OneMore(0, c.volume / (Last(c, min, size) - First(c, min, size) + 1) as real);
    } else {
      SharesAre(c, min, size, n - 1);
      var lo, hi := First(c, min, size), Last(c, min, size);
      var each := c.volume / (hi - lo + 1) as real;
      assert Share(c, min, size, n - 1) == if lo <= n - 1 <= hi then each else 0.0;
      hide First, Last, Share, Times;
      OneMore(Covered(lo, hi, n - 1), each);
    }
  }

  lemma {:induction false} NoShares(c: Candle, min: real, size: real, n: nat)
    requires size > 0.0 && First(c, min, size) > Last(c, min, size)
    ensures Shares(c, min, size, n) == 0.0
  {
    if n > 0 {
      NoShares(c, min, size, n - 1);
    }
  }

  lemma QuotientBelow(x: real, d: real, k: real)
    requires d > 0.0
    ensures x / d < k <==> x < k * d
  {
    var q := x / d;
    assert q * d == x;
    if q < k {
      assert (k - q) * d > 0.0;
    } else {
      assert (q - k) * d >= 0.0;
    }
  }

  /** A candle inside the range reaches some bucket unless its low is the top price. */
  lemma ReachesIff(c: Candle, min: real, max: real, size: real)
    requires size > 0.0 && max - min == 60.0 * size && min <= c.low <= c.high <= max
    ensures First(c, min, size) <= Last(c, min, size) <==> c.low < max
  {
    QuotientBelow(c.low - min, size, 60.0);
    QuotientBelow(c.low - min, size, 0.0);
    var a, b := (c.low - min) / size, (c.high - min) / size;
    QuotientBelow(c.low - min, size, b);
    assert b * size == c.high - min;
    if c.low == c.high {
      assert a == b;
    } else {
      assert a < b;
    }
    assert a.Floor <= b.Floor;
  }

  lemma CandleIsKept(c: Candle, min: real, max: real, size: real)
    requires size > 0.0 && max - min == 60.0 * size && min <= c.low <= c.high <= max
    ensures Shares(c, min, size, NUM_BUCKETS) == if c.low == max then 0.0 else c.volume
  {
    ReachesIff(c, min, max, size);
    if c.low == max {
      NoShares(c, min, size, NUM_BUCKETS);
    } else {
      SharesAre(c, min, size, NUM_BUCKETS);
      var lo, hi := First(c, min, size), Last(c, min, size);
      assert Covered(lo, hi, NUM_BUCKETS) == hi - lo + 1;
      var span := (hi - lo + 1) as real;
      assert span * (c.volume / span) == c.volume;
    }
  }

  lemma {:induction false} BucketsSplit(cs: seq<Candle>, min: real, size: real, n: nat)
    requires size > 0.0 && cs != []
    ensures InBuckets(cs, min, size, n)
      == InBuckets(cs[..|cs| - 1], min, size, n) + Shares(cs[|cs| - 1], min, size, n)
  {
    hide Share;
    if n > 0 {
      BucketsSplit(cs, min, size, n - 1);
    }
  }

  lemma {:induction false} NothingInBuckets(min: real, size: real, n: nat)
    requires size > 0.0
    ensures InBuckets([], min, size, n) == 0.0
  {
    if n > 0 {
      NothingInBuckets(min, size, n - 1);
    }
  }

  /** The buckets together hold the candles' volume, less that of the flat candles at the top
      price, which reach no bucket. */
  lemma {:induction false} VolumeKept(cs: seq<Candle>, min: real, max: real, size: real)
    requires size > 0.0 && max - min == 60.0 * size
    requires forall c :: c in cs ==> min <= c.low <= c.high <= max
    ensures InBuckets(cs, min, size, NUM_BUCKETS) + FlatAtTop(cs, max) == VolumeOf(cs)
    decreases |cs|
  {
    if cs == [] {
      NothingInBuckets(min, size, NUM_BUCKETS);
    } else {
      var n := |cs| - 1;
      assert cs[n] in cs;
      hide InBuckets, Shares;
      VolumeKept(cs[..n], min, max, size);
      BucketsSplit(cs, min, size, NUM_BUCKETS);
      CandleIsKept(cs[n], min, max, size);
    }
  }

  // ---------- point of control ----------

  /** The first fullest bucket; bucket 0 when none holds more than nothing. */
  predicate IsPoc(v: seq<real>, poc: int) {
    && 0 <= poc < |v|
    && ((poc == 0 && forall i :: 0 <= i < |v| ==> v[i] <= 0.0)
        || (v[poc] > 0.0 && (forall i :: 0 <= i < |v| ==> v[i] <= v[poc]) && forall i :: 0 <= i < poc ==> v[i] < v[poc]))
  }

  method FindPoc(buckets: array<real>) returns (poc: int, total: real)
    requires buckets.Length == NUM_BUCKETS
    ensures IsPoc(buckets[..], poc) && total == Range(buckets[..], 0, NUM_BUCKETS)
  {
    var maxVolume := 0.0;
    poc, total := 0, 0.0;
    var i := 0;
    while i < NUM_BUCKETS
      invariant 0 <= i <= NUM_BUCKETS && 0 <= poc < NUM_BUCKETS
      invariant total == Range(buckets[..], 0, i)
      invariant maxVolume >= 0.0 && forall k :: 0 <= k < i ==> buckets[k] <= maxVolume
      invariant (poc == 0 && maxVolume == 0.0) || (poc < i && buckets[poc] == maxVolume > 0.0)
      invariant forall k :: 0 <= k < poc ==> buckets[k] < maxVolume
    {
      total := total + buckets[i];
      if buckets[i] > maxVolume {
        maxVolume, poc := buckets[i], i;
      }
      i := i + 1;
    }
  }

  // ---------- value area ----------

  /** The volume of buckets from lo up to but not including hi. */
  function Range(v: seq<real>, lo: int, hi: int): real
    requires 0 <= lo <= hi <= |v|
    decreases hi - lo
  {
    if lo == hi then 0.0 else Range(v, lo, hi - 1) + v[hi - 1]
  }

  lemma {:induction false} RangeGrowsDown(v: seq<real>, lo: int, hi: int)
    requires 0 < lo <= hi <= |v|
    ensures Range(v, lo - 1, hi) == v[lo - 1] + Range(v, lo, hi)
    decreases hi - lo
  {
    if lo < hi {
      RangeGrowsDown(v, lo, hi - 1);
    } else {
      assert Range(v, lo - 1, lo) == Range(v, lo - 1, lo - 1) + v[lo - 1];
    }
  }

  lemma RangeGrowsUp(v: seq<real>, lo: int, hi: int)
    requires 0 <= lo <= hi < |v|
    ensures Range(v, lo, hi + 1) == Range(v, lo, hi) + v[hi] && Range(v, lo, lo) == 0.0
  {
  }

  /** Whether the area lo to hi, which can still grow, grows at its lower end. */
  predicate GrowsDown(v: seq<real>, lo: int, hi: int)
    requires 0 <= lo <= hi < |v|
  {
    var below := if lo > 0 then v[lo - 1] else 0.0;
    var above := if hi + 1 < |v| then v[hi + 1] else 0.0;
    (below >= above && lo > 0) || hi + 1 == |v|
  }

  predicate Done(v: seq<real>, lo: int, hi: int, target: real)
    requires 0 <= lo <= hi < |v|
  {
    Range(v, lo, hi + 1) >= target || (lo == 0 && hi + 1 == |v|)
  }

  /** The area grown from lo to hi, one bucket at a time. */
  function Grown(v: seq<real>, lo: int, hi: int, target: real): (r: (int, int))
    requires 0 <= lo <= hi < |v|
    ensures 0 <= r.0 <= lo && hi <= r.1 < |v| && Done(v, r.0, r.1, target)
    decreases lo + |v| - hi
  {
    if Done(v, lo, hi, target) then (lo, hi)
    else if GrowsDown(v, lo, hi) then Grown(v, lo - 1, hi, target)
    else Grown(v, lo, hi + 1, target)
  }

  /** Without the bucket at one of its ends, the last it took, the area was short of the target;
      and that bucket was at least as full as the one beyond the other end. */
  predicate EndsShort(v: seq<real>, lo: int, hi: int, target: real)
    requires 0 <= lo <= hi < |v|
  {
    || (lo < hi && Range(v, lo + 1, hi + 1) < target && (hi + 1 == |v| || v[lo] >= v[hi + 1]))
    || (lo < hi && Range(v, lo, hi) < target && (lo == 0 || v[hi] > v[lo - 1]))
  }

  /** The area stops as soon as it reaches the target: it did not grow, or it was short of it
      before its last step. */
  lemma {:induction false} GrownIsMinimal(v: seq<real>, lo: int, hi: int, target: real)
    requires 0 <= lo <= hi < |v|
    ensures var r := Grown(v, lo, hi, target); r == (lo, hi) || EndsShort(v, r.0, r.1, target)
    decreases lo + |v| - hi
  {
    if !Done(v, lo, hi, target) {
      if GrowsDown(v, lo, hi) {
        GrownIsMinimal(v, lo - 1, hi, target);
      } else {
        GrownIsMinimal(v, lo, hi + 1, target);
      }
    }
  }

  method GrowValueArea(buckets: array<real>, poc: int, target: real) returns (val: int, vah: int)
    requires buckets.Length == NUM_BUCKETS && 0 <= poc < NUM_BUCKETS
    ensures (val, vah) == Grown(buckets[..], poc, poc, target)
  {
    hide Range;
    ghost var v := buckets[..];
    var valueArea := new int[NUM_BUCKETS](_ => 0);
    var vaVolume := buckets[poc];
    RangeGrowsUp(v, poc, poc);
    valueArea[poc] := 1;
    var lo, hi := poc - 1, poc + 1;
    while vaVolume < target && (lo >= 0 || hi < NUM_BUCKETS)
      invariant -1 <= lo < poc < hi <= NUM_BUCKETS && buckets[..] == v
      invariant vaVolume == Range(v, lo + 1, hi)
      invariant forall k :: 0 <= k < NUM_BUCKETS ==> valueArea[k] == if lo < k < hi then 1 else 0
      invariant Grown(v, lo + 1, hi - 1, target) == Grown(v, poc, poc, target)
      decreases lo + NUM_BUCKETS - hi
    {
      var loVol := if lo >= 0 then buckets[lo] else 0.0;
      var hiVol := if hi < NUM_BUCKETS then buckets[hi] else 0.0;
      if loVol >= hiVol && lo >= 0 {
        RangeGrowsDown(v, lo + 1, hi);
        vaVolume := vaVolume + loVol;
        valueArea[lo] := 1;
        lo := lo - 1;
      } else if hi < NUM_BUCKETS {
        RangeGrowsUp(v, lo + 1, hi);
        vaVolume := vaVolume + hiVol;
        valueArea[hi] := 1;
        hi := hi + 1;
      } else {
        RangeGrowsDown(v, lo + 1, hi);
        vaVolume := vaVolume + loVol;
        valueArea[lo] := 1;
        lo := lo - 1;
      }
    }
    assert Grown(v, lo + 1, hi - 1, target) == (lo + 1, hi - 1);
    val, vah := poc, poc;
    var i := 0;
    while i < NUM_BUCKETS
      invariant 0 <= i <= NUM_BUCKETS
      invariant val == if i <= lo + 1 then poc else lo + 1
      invariant vah == if i <= poc then poc else if i < hi then i - 1 else hi - 1
    {
      if valueArea[i] != 0 {
        if i > vah {
          vah := i;
        }
        if i < val {
          val := i;
        }
      }
      i := i + 1;
    }
  }

  // ---------- the whole profile ----------

  /** The price so many buckets above the lowest. */
  function PriceAt(min: real, size: real, buckets: real): real { min + buckets * size }

  /** The profile's volumes are each bucket's shares; its prices are the first fullest bucket's
      middle and the ends of the area grown from it to 70 percent of all that is in the buckets. */
  ghost predicate IsProfile(p: Profile, cs: seq<Candle>, min: real, max: real)
    requires max > min
  {
    var size := (max - min) / 60.0;
    && p.min == min && p.max == max && p.bucketSize == size
    && |p.buckets| == NUM_BUCKETS
    && (forall b :: 0 <= b < NUM_BUCKETS ==>
          p.buckets[b] == Bucket(PriceAt(min, size, b as real), PriceAt(min, size, (b + 1) as real), At(cs, min, size, b)))
    && exists poc :: IsPocOf(p, cs, min, size, poc)
  }

  function Volumes(cs: seq<Candle>, min: real, size: real): (v: seq<real>)
    requires size > 0.0
    ensures |v| == NUM_BUCKETS && forall b :: 0 <= b < NUM_BUCKETS ==> v[b] == At(cs, min, size, b)
  {
    seq(NUM_BUCKETS, b requires 0 <= b < NUM_BUCKETS => At(cs, min, size, b))
  }

  ghost predicate IsPocOf(p: Profile, cs: seq<Candle>, min: real, size: real, poc: int)
    requires size > 0.0
  {
    var v := Volumes(cs, min, size);
    && IsPoc(v, poc)
    && var (val, vah) := Grown(v, poc, poc, Range(v, 0, NUM_BUCKETS) * VALUE_AREA_PCT);
    && p.poc == PriceAt(min, size, poc as real + 0.5)
    && p.vah == PriceAt(min, size, (vah + 1) as real)
    && p.val == PriceAt(min, size, val as real)
  }

  /** Some price range is covered. */
  ghost predicate HasRange(cs: seq<Candle>) {
    exists lo, hi :: IsLowest(lo, cs) && IsHighest(hi, cs) && lo < hi
  }

  ghost predicate IsProfileOf(p: Profile, cs: seq<Candle>) {
    IsLowest(p.min, cs) && IsHighest(p.max, cs) && p.min < p.max && IsProfile(p, cs, p.min, p.max)
  }

  /** `computeVolumeProfile`. */
  method ComputeVolumeProfile(cs: seq<Candle>) returns (r: Option<Profile>)
    ensures r.Some? <==> HasRange(cs)
    ensures r.Some? ==> IsProfileOf(r.value, cs) && Says(r.value, cs)
  {
    hide At, Grown, Range, IsPoc, IsLowest, IsHighest, PriceAt, Says;
    if cs == [] {
      NoRange();
      return None;
    }
    var min, max := FindRange(cs);
    OneRange(cs, min, max);
    if max <= min {
      return None;
    }
    var size := (max - min) / NUM_BUCKETS as real;
    var buckets := FillBuckets(cs, min, size);
    assert buckets[..] == Volumes(cs, min, size);
    var poc, total := FindPoc(buckets);
    var val, vah := GrowValueArea(buckets, poc, total * VALUE_AREA_PCT);
    var rows := seq(NUM_BUCKETS, b requires 0 <= b < NUM_BUCKETS reads buckets =>
      Bucket(PriceAt(min, size, b as real), PriceAt(min, size, (b + 1) as real), buckets[b]));
    var p := Profile(PriceAt(min, size, poc as real + 0.5), PriceAt(min, size, (vah + 1) as real),
                     PriceAt(min, size, val as real), min, max, size, rows);
    assert IsPocOf(p, cs, min, size, poc);
    hide IsPocOf, Volumes;
    assert size == (max - min) / 60.0;
    assert forall b :: 0 <= b < NUM_BUCKETS ==>
        rows[b] == Bucket(PriceAt(min, size, b as real), PriceAt(min, size, (b + 1) as real), At(cs, min, size, b));
    assert IsProfile(p, cs, min, max);
    ProfileSays(p, cs);
    r := Some(p);
  }

  lemma NoRange()
    ensures !HasRange([])
  {
  }

  lemma OneRange(cs: seq<Candle>, min: real, max: real)
    requires IsLowest(min, cs) && IsHighest(max, cs)
    ensures forall lo, hi :: IsLowest(lo, cs) && IsHighest(hi, cs) ==> lo == min && hi == max
  {
  }

  lemma {:induction false} RangeIsInBuckets(cs: seq<Candle>, min: real, size: real, n: nat)
    requires size > 0.0 && n <= NUM_BUCKETS
    ensures Range(Volumes(cs, min, size), 0, n) == InBuckets(cs, min, size, n)
  {
    if n > 0 {
      RangeIsInBuckets(cs, min, size, n - 1);
    }
  }

  /** Over every list of candles that have a range: the buckets hold all volume but that of flat
      candles at the top price, and all of it exactly when that is nothing. */
  lemma ProfileKeepsVolumeIff(cs: seq<Candle>, min: real, max: real)
    requires IsLowest(min, cs) && IsHighest(max, cs) && min < max
    requires forall c :: c in cs ==> c.low <= c.high
    ensures var total := Range(Volumes(cs, min, (max - min) / 60.0), 0, NUM_BUCKETS);
      total + FlatAtTop(cs, max) == VolumeOf(cs) && (total == VolumeOf(cs) <==> FlatAtTop(cs, max) == 0.0)
  {
    var size := (max - min) / 60.0;
    RangeIsInBuckets(cs, min, size, NUM_BUCKETS);
    VolumeKept(cs, min, max, size);
  }

  /** The value area is one run of buckets that contains the fullest; it holds 70 percent of all or
      is everything; and it was short of that before its last step. */
  lemma ValueAreaIs(v: seq<real>, poc: int)
    requires IsPoc(v, poc)
    ensures var target := Range(v, 0, |v|) * VALUE_AREA_PCT;
      var (val, vah) := Grown(v, poc, poc, target);
      && 0 <= val <= poc <= vah < |v|
      && (Range(v, val, vah + 1) >= target || (val == 0 && vah + 1 == |v|))
      && (val < vah ==> EndsShort(v, val, vah, target))
  {
    GrownIsMinimal(v, poc, poc, Range(v, 0, |v|) * VALUE_AREA_PCT);
  }

  // ---------- the result's own fields ----------

  /** The rows share the range from `min` to `max` out, one after the other, in equal widths. */
  predicate SplitsRange(p: Profile) {
    && |p.buckets| == 60 && p.buckets[0].priceLow == p.min && p.buckets[59].priceHigh == p.max
    && (forall i :: 0 <= i < 60 ==> p.buckets[i].priceHigh - p.buckets[i].priceLow == p.bucketSize)
    && (forall i :: 0 < i < 60 ==> p.buckets[i].priceLow == p.buckets[i - 1].priceHigh)
  }

  /** The candle trades in the row's prices, the lower one included. */
  predicate TradesIn(c: Candle, row: Bucket) { c.low < row.priceHigh && row.priceLow <= c.high }

  function RowsOf(c: Candle, rows: seq<Bucket>): nat {
    if rows == [] then 0
    else RowsOf(c, rows[..|rows| - 1]) + if TradesIn(c, rows[|rows| - 1]) then 1 else 0
  }

  /** What a candle puts into a row: its volume over the number of rows it trades in. */
  function PutInto(c: Candle, rows: seq<Bucket>, row: Bucket): real {
    if TradesIn(c, row) && RowsOf(c, rows) > 0 then c.volume / RowsOf(c, rows) as real else 0.0
  }

  function PutByAll(cs: seq<Candle>, rows: seq<Bucket>, row: Bucket): real
    decreases |cs|
  {
    if cs == [] then 0.0 else PutByAll(cs[..|cs| - 1], rows, row) + PutInto(cs[|cs| - 1], rows, row)
  }

  /** Every row holds what the candles that trade in it put there. */
  predicate HoldsShares(p: Profile, cs: seq<Candle>) {
    forall i :: 0 <= i < |p.buckets| ==> p.buckets[i].volume == PutByAll(cs, p.buckets, p.buckets[i])
  }

  function Total(rows: seq<Bucket>): real {
    if rows == [] then 0.0 else Total(rows[..|rows| - 1]) + rows[|rows| - 1].volume
  }

  /** Row k is the first with the largest volume, or row 0 when none has any. */
  predicate FirstFullest(rows: seq<Bucket>, k: int) {
    && 0 <= k < |rows|
    && ((k == 0 && forall i :: 0 <= i < |rows| ==> rows[i].volume <= 0.0)
        || (rows[k].volume > 0.0 && (forall i :: 0 <= i < |rows| ==> rows[i].volume <= rows[k].volume)
            && forall i :: 0 <= i < k ==> rows[i].volume < rows[k].volume))
  }

  /** Rows lo to hi hold the target or are all rows. */
  predicate Enough(rows: seq<Bucket>, lo: int, hi: int, target: real)
    requires 0 <= lo <= hi < |rows|
  {
    Total(rows[lo..hi + 1]) >= target || (lo == 0 && hi == |rows| - 1)
  }

  /** Rows lo to hi are too few, and one more row is taken: the fuller of the two beside them, the
      lower one when they are equal. */
  predicate TakesFuller(rows: seq<Bucket>, lo: int, hi: int, lo': int, hi': int, target: real) {
    && 0 <= lo <= hi < |rows| && !Enough(rows, lo, hi, target)
    && (|| (lo' == lo - 1 && hi' == hi && lo > 0 && (hi == |rows| - 1 || rows[lo - 1].volume >= rows[hi + 1].volume))
        || (lo' == lo && hi' == hi + 1 && hi < |rows| - 1 && (lo == 0 || rows[hi + 1].volume > rows[lo - 1].volume)))
  }

  datatype Run = Run(lo: int, hi: int)

  predicate FollowsAt(rows: seq<Bucket>, runs: seq<Run>, i: int, target: real)
    requires 0 < i < |runs|
  {
    TakesFuller(rows, runs[i - 1].lo, runs[i - 1].hi, runs[i].lo, runs[i].hi, target)
  }

  /** The runs of rows from the fullest one alone to the last, which is enough. */
  predicate GrowsTo(rows: seq<Bucket>, runs: seq<Run>, target: real) {
    && |runs| > 0 && (forall i :: 0 <= i < |runs| ==> 0 <= runs[i].lo <= runs[i].hi < |rows|)
    && (forall i :: 0 < i < |runs| ==> FollowsAt(rows, runs, i, target))
    && Enough(rows, runs[|runs| - 1].lo, runs[|runs| - 1].hi, target)
  }

  /** `poc` is the middle of row k; `val` and `vah` are the outer prices of the last of the runs. */
  predicate AreaIs(p: Profile, k: int, runs: seq<Run>) {
    && FirstFullest(p.buckets, k) && p.poc == (p.buckets[k].priceLow + p.buckets[k].priceHigh) / 2.0
    && GrowsTo(p.buckets, runs, 0.7 * Total(p.buckets)) && runs[0] == Run(k, k)
    && p.val == p.buckets[runs[|runs| - 1].lo].priceLow && p.vah == p.buckets[runs[|runs| - 1].hi].priceHigh
  }

  /** The rows around the fullest between `val` and `vah` hold 70 percent of all or are all rows;
      without the row last taken they held less. */
  predicate AreaLaw(p: Profile, k: int, lo: int, hi: int) {
    && 0 <= lo <= k <= hi < |p.buckets| && p.val == p.buckets[lo].priceLow && p.vah == p.buckets[hi].priceHigh
    && var target := 0.7 * Total(p.buckets);
    && Enough(p.buckets, lo, hi, target)
    && (lo < hi ==> (lo < k && Total(p.buckets[lo + 1..hi + 1]) < target) || (k < hi && Total(p.buckets[lo..hi]) < target))
  }

  /** What a profile of these candles says, in its own fields. */
  ghost predicate Says(p: Profile, cs: seq<Candle>) {
    && IsLowest(p.min, cs) && IsHighest(p.max, cs) && p.min < p.max
    && SplitsRange(p) && HoldsShares(p, cs) && exists k, runs :: AreaIs(p, k, runs)
  }

  lemma RowTraded(c: Candle, min: real, size: real, b: int, row: Bucket)
    requires size > 0.0 && 0 <= b < NUM_BUCKETS
    requires row.priceLow == PriceAt(min, size, b as real) && row.priceHigh == PriceAt(min, size, (b + 1) as real)
    ensures TradesIn(c, row) <==> First(c, min, size) <= b <= Last(c, min, size)
  {
    QuotientBelow(c.low - min, size, (b + 1) as real);
    QuotientBelow(c.high - min, size, b as real);
    FloorBelow((c.low - min) / size, b + 1);
    FloorBelow((c.high - min) / size, b);
  }

  lemma FloorBelow(x: real, n: int)
    ensures x < n as real <==> x.Floor < n
  {
  }

  /** The rows stand at their prices. */
  predicate RowsAt(rows: seq<Bucket>, min: real, size: real) {
    forall b :: 0 <= b < |rows| ==>
      rows[b].priceLow == PriceAt(min, size, b as real) && rows[b].priceHigh == PriceAt(min, size, (b + 1) as real)
  }

  lemma {:induction false} RowsOfIs(c: Candle, rows: seq<Bucket>, min: real, size: real)
    requires size > 0.0 && |rows| <= NUM_BUCKETS && RowsAt(rows, min, size)
    ensures RowsOf(c, rows) == Covered(First(c, min, size), Last(c, min, size), |rows|)
  {
    var n := |rows|;
    hide PriceAt;
    if n > 0 {
      RowsOfIs(c, rows[..n - 1], min, size);
      RowTraded(c, min, size, n - 1, rows[n - 1]);
    }
    hide TradesIn;
    assert First(c, min, size) >= 0;
  }

  lemma PutIsShare(c: Candle, rows: seq<Bucket>, min: real, size: real, b: int)
    requires size > 0.0 && |rows| == NUM_BUCKETS && RowsAt(rows, min, size) && 0 <= b < NUM_BUCKETS
    ensures PutInto(c, rows, rows[b]) == Share(c, min, size, b)
  {
    RowsOfIs(c, rows, min, size);
    RowTraded(c, min, size, b, rows[b]);
    assert Last(c, min, size) < NUM_BUCKETS;
    hide First, Last, TradesIn, RowsAt, RowsOf;
  }

  lemma {:induction false} PutByAllIsAt(cs: seq<Candle>, rows: seq<Bucket>, min: real, size: real, b: int)
    requires size > 0.0 && |rows| == NUM_BUCKETS && RowsAt(rows, min, size) && 0 <= b < NUM_BUCKETS
    ensures PutByAll(cs, rows, rows[b]) == At(cs, min, size, b)
    decreases |cs|
  {
    hide PutInto, Share, RowsAt;
    if cs != [] {
      PutByAllIsAt(cs[..|cs| - 1], rows, min, size, b);
      PutIsShare(cs[|cs| - 1], rows, min, size, b);
    }
  }

  /** The rows' own volumes. */
  predicate HasVolumes(rows: seq<Bucket>, v: seq<real>) {
    |rows| == |v| && forall i :: 0 <= i < |v| ==> rows[i].volume == v[i]
  }

  lemma {:induction false} TotalIsRange(rows: seq<Bucket>, v: seq<real>, lo: int, hi: int)
    requires HasVolumes(rows, v) && 0 <= lo <= hi <= |rows|
    ensures Total(rows[lo..hi]) == Range(v, lo, hi)
    decreases hi - lo
  {
    if lo < hi {
      TotalIsRange(rows, v, lo, hi - 1);
      assert rows[lo..hi][..hi - lo - 1] == rows[lo..hi - 1];
    }
  }

  lemma EnoughIsDone(rows: seq<Bucket>, v: seq<real>, lo: int, hi: int, target: real)
    requires HasVolumes(rows, v) && 0 <= lo <= hi < |rows|
    ensures Enough(rows, lo, hi, target) <==> Done(v, lo, hi, target)
  {
    TotalIsRange(rows, v, lo, hi + 1);
  }

  /** The greedy growth, as the runs of rows it goes through. */
  lemma {:induction false} GrowthRuns(rows: seq<Bucket>, v: seq<real>, lo: int, hi: int, target: real)
    returns (runs: seq<Run>)
    requires HasVolumes(rows, v) && 0 <= lo <= hi < |rows|
    ensures |runs| > 0 && GrowsTo(rows, runs, target) && runs[0] == Run(lo, hi)
    ensures var r := Grown(v, lo, hi, target); runs[|runs| - 1] == Run(r.0, r.1)
    decreases lo + |rows| - hi
  {
    hide Enough, Done, GrowsTo, TakesFuller;
    EnoughIsDone(rows, v, lo, hi, target);
    if Done(v, lo, hi, target) {
      runs := [Run(lo, hi)];
      LastRun(rows, lo, hi, target);
    } else if GrowsDown(v, lo, hi) {
      NotAll(v, lo, hi, target);
      var rest := GrowthRuns(rows, v, lo - 1, hi, target);
      OneMoreRun(rows, lo, hi, rest, target, v);
      runs := [Run(lo, hi)] + rest;
    } else {
      var rest := GrowthRuns(rows, v, lo, hi + 1, target);
      OneMoreRun(rows, lo, hi, rest, target, v);
      runs := [Run(lo, hi)] + rest;
    }
  }

  lemma NotAll(v: seq<real>, lo: int, hi: int, target: real)
    requires 0 <= lo <= hi < |v| && !Done(v, lo, hi, target)
    ensures lo > 0 || hi + 1 < |v|
  {
  }

  lemma LastRun(rows: seq<Bucket>, lo: int, hi: int, target: real)
    requires 0 <= lo <= hi < |rows| && Enough(rows, lo, hi, target)
    ensures GrowsTo(rows, [Run(lo, hi)], target)
  {
  }

  lemma OneMoreRun(rows: seq<Bucket>, lo: int, hi: int, rest: seq<Run>, target: real, v: seq<real>)
    requires HasVolumes(rows, v) && 0 <= lo <= hi < |rows| && !Enough(rows, lo, hi, target)
    requires GrowsTo(rows, rest, target)
    requires rest[0] == (if GrowsDown(v, lo, hi) then Run(lo - 1, hi) else Run(lo, hi + 1))
    ensures GrowsTo(rows, [Run(lo, hi)] + rest, target)
  {
    hide Total;
    assert TakesFuller(rows, lo, hi, rest[0].lo, rest[0].hi, target);
    hide TakesFuller, Enough, GrowsDown, HasVolumes;
    var runs := [Run(lo, hi)] + rest;
    assert runs[|runs| - 1] == rest[|rest| - 1];
    forall i | 0 < i < |runs| ensures FollowsAt(rows, runs, i, target) {
      if i > 1 {
        assert FollowsAt(rows, rest, i - 1, target);
      }
    }
    forall i | 0 <= i < |runs| ensures 0 <= runs[i].lo <= runs[i].hi < |rows| {
      if i > 0 {
        assert runs[i] == rest[i - 1];
      }
    }
  }

  lemma RowsSplitRange(p: Profile)
    requires p.bucketSize == (p.max - p.min) / 60.0 && |p.buckets| == 60 && RowsAt(p.buckets, p.min, p.bucketSize)
    ensures SplitsRange(p)
  {
  }

  lemma FullestIsPoc(rows: seq<Bucket>, v: seq<real>, k: int)
    requires HasVolumes(rows, v) && IsPoc(v, k)
    ensures FirstFullest(rows, k)
  {
  }

  lemma RowPrices(rows: seq<Bucket>, min: real, size: real, k: int)
    requires RowsAt(rows, min, size) && 0 <= k < |rows|
    ensures PriceAt(min, size, k as real + 0.5) == (rows[k].priceLow + rows[k].priceHigh) / 2.0
    ensures PriceAt(min, size, k as real) == rows[k].priceLow && PriceAt(min, size, (k + 1) as real) == rows[k].priceHigh
  {
  }

  /** Every profile says this of its candles, in its own fields. */
  lemma ProfileSays(p: Profile, cs: seq<Candle>)
    requires IsProfileOf(p, cs)
    ensures Says(p, cs)
  {
    hide IsLowest, IsHighest, PriceAt, At, Grown, IsPoc, SplitsRange, PutByAll, AreaIs;
    var size, rows := p.bucketSize, p.buckets;
    assert RowsAt(rows, p.min, size);
    RowsSplitRange(p);
    forall b | 0 <= b < NUM_BUCKETS ensures rows[b].volume == PutByAll(cs, rows, rows[b]) {
      PutByAllIsAt(cs, rows, p.min, size, b);
    }
    var poc :| IsPocOf(p, cs, p.min, size, poc);
    ProfileArea(p, cs, poc);
  }

  lemma ProfileArea(p: Profile, cs: seq<Candle>, poc: int)
    requires p.bucketSize > 0.0 && RowsAt(p.buckets, p.min, p.bucketSize)
    requires HasVolumes(p.buckets, Volumes(cs, p.min, p.bucketSize)) && IsPocOf(p, cs, p.min, p.bucketSize, poc)
    ensures exists k, runs :: AreaIs(p, k, runs)
  {
    hide PriceAt, At, Grown, IsPoc, Total, FirstFullest, GrowsTo, RowsAt, Range;
    var v, rows := Volumes(cs, p.min, p.bucketSize), p.buckets;
    assert 0 <= poc < |v| by {
      PocInside(v, poc);
    }
    TotalIsRange(rows, v, 0, |rows|);
    assert rows[0..|rows|] == rows;
    var target := Range(v, 0, NUM_BUCKETS) * VALUE_AREA_PCT;
    var runs := GrowthRuns(rows, v, poc, poc, target);
    var r := Grown(v, poc, poc, target);
    FullestIsPoc(rows, v, poc);
    RowPrices(rows, p.min, p.bucketSize, poc);
    RowPrices(rows, p.min, p.bucketSize, r.0);
    RowPrices(rows, p.min, p.bucketSize, r.1);
    assert AreaIs(p, poc, runs);
  }

  lemma PocInside(v: seq<real>, poc: int)
    requires IsPoc(v, poc)
    ensures 0 <= poc < |v|
  {
  }

  /** The growth's last run is around the fullest row, and short of the target before its last step. */
  lemma {:induction false} RunsAround(rows: seq<Bucket>, runs: seq<Run>, k: int, target: real)
    requires GrowsTo(rows, runs, target) && runs[0] == Run(k, k)
    ensures var lo, hi := runs[|runs| - 1].lo, runs[|runs| - 1].hi;
      && lo <= k <= hi
      && (lo < hi ==> (lo < k && Total(rows[lo + 1..hi + 1]) < target) || (k < hi && Total(rows[lo..hi]) < target))
  {
    hide Total;
    var n := |runs| - 1;
    if n > 0 {
      Inside(rows, runs, k, target, n - 1);
      assert FollowsAt(rows, runs, n, target);
    }
  }

  lemma {:induction false} Inside(rows: seq<Bucket>, runs: seq<Run>, k: int, target: real, n: nat)
    requires GrowsTo(rows, runs, target) && runs[0] == Run(k, k) && n < |runs|
    ensures runs[n].lo <= k <= runs[n].hi
  {
    hide Enough;
    if n > 0 {
      Inside(rows, runs, k, target, n - 1);
      assert FollowsAt(rows, runs, n, target);
    }
  }

  /** The 70 percent law of every profile, in its own fields. */
  lemma SeventyPercent(p: Profile, cs: seq<Candle>)
    requires Says(p, cs)
    ensures exists k, lo, hi :: FirstFullest(p.buckets, k) && AreaLaw(p, k, lo, hi)
  {
    hide Total, SplitsRange, HoldsShares, IsLowest, IsHighest, FollowsAt;
    var k: int, runs: seq<Run> :| AreaIs(p, k, runs);
    RunsAround(p.buckets, runs, k, 0.7 * Total(p.buckets));
    hide FirstFullest;
    assert AreaLaw(p, k, runs[|runs| - 1].lo, runs[|runs| - 1].hi);
  }
}
