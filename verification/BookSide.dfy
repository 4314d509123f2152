/** One side of an order book as a sorted sequence of levels and as a price-to-quantity map.

    `numeric` is the exact counterpart of the pair of doubles the source keeps beside each
    level's text; levels are ordered by it.  The link from text to `numeric` is made in
    KrakenBook. */
module BookSide {

  datatype Numeric = Numeric(price: real, qty: real)

  datatype Level = Level(price: string, qty: string, numeric: Numeric)

  predicate Before(p: real, q: real, descending: bool) {
    if descending then p > q else p < q
  }

  ghost predicate AllAfter(levels: seq<Level>, p: real, descending: bool) {
    forall l :: l in levels ==> Before(p, l.numeric.price, descending)
  }

  /** Strictly ordered: bids high to low, asks low to high. */
  ghost predicate Sorted(levels: seq<Level>, descending: bool) {
    levels == [] || (AllAfter(levels[1..], levels[0].numeric.price, descending) && Sorted(levels[1..], descending))
  }

  // ---------- changes ----------

  /** The number of leading levels that come before `price`. */
  function Position(levels: seq<Level>, price: real, descending: bool): (i: nat)
    ensures i <= |levels|
  {
    if levels == [] || !Before(levels[0].numeric.price, price, descending) then 0
    else 1 + Position(levels[1..], price, descending)
  }

  predicate Found(levels: seq<Level>, price: real, descending: bool) {
    var i := Position(levels, price, descending);
    i < |levels| && levels[i].numeric.price == price
  }

  /** Remove, replace or insert the level at c's price. */
  function ApplyOne(levels: seq<Level>, c: Level, descending: bool): seq<Level> {
    if levels != [] && Before(levels[0].numeric.price, c.numeric.price, descending) then
      [levels[0]] + ApplyOne(levels[1..], c, descending)
    else
      (if c.numeric.qty == 0.0 then [] else [c])
      + if levels != [] && levels[0].numeric.price == c.numeric.price then levels[1..] else levels
  }

  function ApplyAll(levels: seq<Level>, changes: seq<Level>, descending: bool): seq<Level>
    decreases |changes|
  {
    if changes == [] then levels
    else ApplyAll(ApplyOne(levels, changes[0], descending), changes[1..], descending)
  }

  function Truncate(levels: seq<Level>, depth: nat): seq<Level> {
    if |levels| > depth then levels[..depth] else levels
  }

  lemma {:induction false} ApplyOneMembers(levels: seq<Level>, c: Level, descending: bool)
    ensures forall l :: l in ApplyOne(levels, c, descending) ==> l in levels || (l == c && c.numeric.qty != 0.0)
  {
    if levels != [] && Before(levels[0].numeric.price, c.numeric.price, descending) {
      ApplyOneMembers(levels[1..], c, descending);
    }
  }

  lemma {:induction false} ApplyOneKeepsSorted(levels: seq<Level>, c: Level, descending: bool)
    requires Sorted(levels, descending)
    ensures Sorted(ApplyOne(levels, c, descending), descending)
  {
    var next := ApplyOne(levels, c, descending);
    if levels != [] && Before(levels[0].numeric.price, c.numeric.price, descending) {
      ApplyOneKeepsSorted(levels[1..], c, descending);
      ApplyOneMembers(levels[1..], c, descending);
      assert next[1..] == ApplyOne(levels[1..], c, descending);
    } else {
      var rest := if levels != [] && levels[0].numeric.price == c.numeric.price then levels[1..] else levels;
      assert Sorted(rest, descending) && AllAfter(rest, c.numeric.price, descending);
      assert c.numeric.qty != 0.0 ==> next[1..] == rest;
      assert c.numeric.qty == 0.0 ==> next == rest;
    }
  }

  lemma {:induction false} ApplyAllKeepsSorted(levels: seq<Level>, changes: seq<Level>, descending: bool)
    requires Sorted(levels, descending)
    ensures Sorted(ApplyAll(levels, changes, descending), descending)
    decreases |changes|
  {
    if changes != [] {
      ApplyOneKeepsSorted(levels, changes[0], descending);
      ApplyAllKeepsSorted(ApplyOne(levels, changes[0], descending), changes[1..], descending);
    }
  }

  lemma {:induction false} TruncateKeepsSorted(levels: seq<Level>, depth: nat, descending: bool)
    requires Sorted(levels, descending)
    ensures Sorted(Truncate(levels, depth), descending)
    decreases depth
  {
    if |levels| > depth > 0 {
      TruncateKeepsSorted(levels[1..], depth - 1, descending);
      assert levels[..depth][1..] == levels[1..][..depth - 1];
    }
  }

  // ---------- the map a side stands for ----------

  /** Price to quantity. */
  ghost function AsMap(levels: seq<Level>): map<real, real> {
    if levels == [] then map[]
    else AsMap(levels[1..])[levels[0].numeric.price := levels[0].numeric.qty]
  }

  /** One change to a price-to-quantity map: quantity 0 deletes. */
  ghost function Change(m: map<real, real>, c: Level): map<real, real> {
    if c.numeric.qty == 0.0 then m - {c.numeric.price} else m[c.numeric.price := c.numeric.qty]
  }

  ghost function ChangeAll(m: map<real, real>, changes: seq<Level>): map<real, real>
    decreases |changes|
  {
    if changes == [] then m else ChangeAll(Change(m, changes[0]), changes[1..])
  }

  ghost function Better(m: map<real, real>, p: real, descending: bool): set<real> {
    set q | q in m && Before(q, p, descending)
  }

  /** The best `depth` prices: those with fewer than `depth` better ones. */
  ghost function Best(m: map<real, real>, depth: nat, descending: bool): map<real, real> {
    map p | p in m && |Better(m, p, descending)| < depth :: m[p]
  }

  /** The best prices of a side of bids are those in the map with fewer than `depth` higher ones, of
      asks those with fewer than `depth` lower ones, at their quantities. */
  lemma BestMeans(m: map<real, real>, depth: nat)
    ensures forall p :: p in Best(m, depth, true) <==> p in m && |set q | q in m && q > p| < depth
    ensures forall p :: p in Best(m, depth, false) <==> p in m && |set q | q in m && q < p| < depth
    ensures forall d, p :: p in Best(m, depth, d) ==> Best(m, depth, d)[p] == m[p]
  {
    forall p ensures Better(m, p, true) == (set q | q in m && q > p) && Better(m, p, false) == (set q | q in m && q < p) {
    }
  }

  predicate NoneAt(changes: seq<Level>, p: real) {
    forall j :: 0 <= j < |changes| ==> changes[j].numeric.price != p
  }

  /** A price without a change stays as it was ... */
  lemma {:induction false} UnchangedStays(m: map<real, real>, changes: seq<Level>, p: real)
    requires NoneAt(changes, p)
    ensures p in ChangeAll(m, changes) <==> p in m
    ensures p in m ==> ChangeAll(m, changes)[p] == m[p]
    decreases |changes|
  {
    if changes != [] {
      UnchangedStays(Change(m, changes[0]), changes[1..], p);
    }
  }

  /** ... and the last change of a price decides: a quantity sets it, nought deletes it. */
  lemma {:induction false} LastChangeDecides(m: map<real, real>, changes: seq<Level>, i: nat)
    requires i < |changes| && NoneAt(changes[i + 1..], changes[i].numeric.price)
    ensures var p, qty := changes[i].numeric.price, changes[i].numeric.qty;
      (p in ChangeAll(m, changes) <==> qty != 0.0) && (qty != 0.0 ==> ChangeAll(m, changes)[p] == qty)
    decreases |changes|
  {
    if i == 0 {
      UnchangedStays(Change(m, changes[0]), changes[1..], changes[0].numeric.price);
    } else {
      assert changes[1..][i..] == changes[i + 1..];
      LastChangeDecides(Change(m, changes[0]), changes[1..], i - 1);
    }
  }

  /** The map holds exactly the levels' prices, at their quantities; bids fall and asks rise. */
  lemma {:induction false} SideMeans(levels: seq<Level>, descending: bool)
    requires Sorted(levels, descending)
    ensures forall l :: l in levels ==> l.numeric.price in AsMap(levels) && AsMap(levels)[l.numeric.price] == l.numeric.qty
    ensures forall p :: p in AsMap(levels) ==> exists l :: l in levels && l.numeric.price == p
    ensures forall i, j :: 0 <= i < j < |levels| ==>
      if descending then levels[i].numeric.price > levels[j].numeric.price
      else levels[i].numeric.price < levels[j].numeric.price
  {
    if levels != [] {
      SideMeans(levels[1..], descending);
      assert levels == [levels[0]] + levels[1..];
    }
  }

  lemma {:induction false} PricesAfter(levels: seq<Level>, p: real, descending: bool)
    requires AllAfter(levels, p, descending)
    ensures forall q :: q in AsMap(levels) ==> Before(p, q, descending)
    ensures p !in AsMap(levels)
  {
    if levels != [] {
      PricesAfter(levels[1..], p, descending);
    }
  }

  lemma MapOfCons(head: Level, tail: seq<Level>)
    ensures AsMap([head] + tail) == AsMap(tail)[head.numeric.price := head.numeric.qty]
  {
    assert ([head] + tail)[1..] == tail;
  }

  lemma ChangeCommutes(m: map<real, real>, head: Level, c: Level)
    requires head.numeric.price != c.numeric.price
    ensures Change(m, c)[head.numeric.price := head.numeric.qty]
         == Change(m[head.numeric.price := head.numeric.qty], c)
  {
  }

  lemma ChangeUnder(m: map<real, real>, p: real, q: real, c: Level)
    requires p == c.numeric.price && p !in m
    ensures Change(m[p := q], c) == Change(m, c)
    ensures c.numeric.qty == 0.0 ==> Change(m, c) == m
  {
  }

  lemma ChangeAtHead(levels: seq<Level>, c: Level, descending: bool)
    requires Sorted(levels, descending)
    requires levels != [] ==> !Before(levels[0].numeric.price, c.numeric.price, descending)
    ensures AsMap(ApplyOne(levels, c, descending)) == Change(AsMap(levels), c)
  {
    var p := c.numeric.price;
    if levels != [] && levels[0].numeric.price == p {
      PricesAfter(levels[1..], p, descending);
      ChangeUnder(AsMap(levels[1..]), p, levels[0].numeric.qty, c);
      PutFirst(levels[1..], c, ApplyOne(levels, c, descending));
    } else {
      assert AllAfter(levels, p, descending);
      PricesAfter(levels, p, descending);
      ChangeUnder(AsMap(levels), p, 0.0, c);
      PutFirst(levels, c, ApplyOne(levels, c, descending));
    }
  }

  lemma PutFirst(rest: seq<Level>, c: Level, next: seq<Level>)
    requires next == (if c.numeric.qty == 0.0 then [] else [c]) + rest
    ensures AsMap(next) == if c.numeric.qty == 0.0 then AsMap(rest) else AsMap(rest)[c.numeric.price := c.numeric.qty]
  {
    if c.numeric.qty == 0.0 {
      assert next == rest;
    } else {
      MapOfCons(c, rest);
    }
  }

  /** A spliced change is that change to the map. */
  lemma {:induction false} ApplyOneIsChange(levels: seq<Level>, c: Level, descending: bool)
    requires Sorted(levels, descending)
    ensures AsMap(ApplyOne(levels, c, descending)) == Change(AsMap(levels), c)
  {
    if levels != [] && Before(levels[0].numeric.price, c.numeric.price, descending) {
      ApplyOneIsChange(levels[1..], c, descending);
      MapOfCons(levels[0], ApplyOne(levels[1..], c, descending));
      ChangeCommutes(AsMap(levels[1..]), levels[0], c);
    } else {
      ChangeAtHead(levels, c, descending);
    }
  }

  lemma {:induction false} ApplyAllIsChangeAll(levels: seq<Level>, changes: seq<Level>, descending: bool)
    requires Sorted(levels, descending)
    ensures AsMap(ApplyAll(levels, changes, descending)) == ChangeAll(AsMap(levels), changes)
    decreases |changes|
  {
    if changes != [] {
      ApplyOneIsChange(levels, changes[0], descending);
      ApplyOneKeepsSorted(levels, changes[0], descending);
      ApplyAllIsChangeAll(ApplyOne(levels, changes[0], descending), changes[1..], descending);
    }
  }

  /** The head is the best price, and every other price has it as one more better one. */
  lemma HeadIsBest(levels: seq<Level>, p: real, descending: bool)
    requires Sorted(levels, descending) && levels != []
    ensures p in AsMap(levels[1..]) ==>
      |Better(AsMap(levels), p, descending)| == 1 + |Better(AsMap(levels[1..]), p, descending)|
    ensures Better(AsMap(levels), levels[0].numeric.price, descending) == {}
  {
    var head, m := levels[0].numeric.price, AsMap(levels[1..]);
    PricesAfter(levels[1..], head, descending);
    if p in m {
      assert Better(AsMap(levels), p, descending) == Better(m, p, descending) + {head};
    }
  }

  /** The i-th level has exactly i better ones. */
  lemma {:induction false} RankIsIndex(levels: seq<Level>, i: nat, descending: bool)
    requires Sorted(levels, descending) && i < |levels|
    ensures levels[i].numeric.price in AsMap(levels)
    ensures AsMap(levels)[levels[i].numeric.price] == levels[i].numeric.qty
    ensures |Better(AsMap(levels), levels[i].numeric.price, descending)| == i
  {
    HeadIsBest(levels, levels[i].numeric.price, descending);
    if i > 0 {
      RankIsIndex(levels[1..], i - 1, descending);
      PricesAfter(levels[1..], levels[0].numeric.price, descending);
    }
  }

  /** Cutting the sequence at `depth` is keeping the best `depth` prices of the map. */
  lemma {:induction false} TruncateIsBest(levels: seq<Level>, depth: nat, descending: bool)
    requires Sorted(levels, descending)
    ensures AsMap(Truncate(levels, depth)) == Best(AsMap(levels), depth, descending)
    decreases levels
  {
    if levels == [] || depth == 0 {
      assert AsMap(Truncate(levels, depth)) == map[];
    } else {
      var head, tail := levels[0], levels[1..];
      TruncateIsBest(tail, depth - 1, descending);
      var kept := Truncate(levels, depth);
      assert kept[0] == head && kept[1..] == Truncate(tail, depth - 1);
      PricesAfter(tail, head.numeric.price, descending);
      forall p
        ensures p in Best(AsMap(levels), depth, descending)
           <==> p == head.numeric.price || p in Best(AsMap(tail), depth - 1, descending)
      {
        HeadIsBest(levels, p, descending);
      }
    }
  }

  lemma {:induction false} PriceOf(levels: seq<Level>, p: real) returns (i: nat)
    requires p in AsMap(levels)
    ensures i < |levels| && levels[i].numeric.price == p
  {
    if p == levels[0].numeric.price {
      i := 0;
    } else {
      var j := PriceOf(levels[1..], p);
      i := j + 1;
    }
  }

  lemma SameRank(a: seq<Level>, b: seq<Level>, i: nat, descending: bool)
    requires Sorted(a, descending) && Sorted(b, descending) && i < |a|
    requires AsMap(a) == AsMap(b)
    ensures i < |b| && a[i].numeric == b[i].numeric
  {
    RankIsIndex(a, i, descending);
    var j := PriceOf(b, a[i].numeric.price);
    RankIsIndex(b, j, descending);
  }

  /** The map determines the prices and quantities of the levels, in order. */
  lemma MapDeterminesLevels(a: seq<Level>, b: seq<Level>, descending: bool)
    requires Sorted(a, descending) && Sorted(b, descending)
    requires AsMap(a) == AsMap(b)
    ensures |a| == |b| && forall i :: 0 <= i < |a| ==> a[i].numeric == b[i].numeric
  {
    if a != [] {
      SameRank(a, b, |a| - 1, descending);
    }
    if b != [] {
      SameRank(b, a, |b| - 1, descending);
    }
    forall i | 0 <= i < |a|
      ensures a[i].numeric == b[i].numeric
    {
      SameRank(a, b, i, descending);
    }
  }

  // ---------- truncating early ----------

  lemma TruncateHead(levels: seq<Level>, depth: nat)
    requires levels != [] && depth > 0
    ensures Truncate(levels, depth) == [levels[0]] + Truncate(levels[1..], depth - 1)
  {
  }

  /** Truncating before the change gives the same top `depth` as truncating only after it. */
  predicate Commutes(levels: seq<Level>, c: Level, depth: nat, descending: bool) {
    Truncate(ApplyOne(Truncate(levels, depth), c, descending), depth)
    == Truncate(ApplyOne(levels, c, descending), depth)
  }

  /** The change deletes one of the first `depth` levels while there are more. */
  predicate PullsUp(levels: seq<Level>, c: Level, depth: nat, descending: bool) {
    && c.numeric.qty == 0.0
    && |levels| > depth
    && Found(levels, c.numeric.price, descending)
    && Position(levels, c.numeric.price, descending) < depth
  }

  /** Truncating before a change is harmless except when the change deletes one of the kept
      levels while others were cut: only then would a cut level have moved up. */
  lemma {:induction false} TruncateCommutesIff(levels: seq<Level>, c: Level, depth: nat, descending: bool)
    ensures Commutes(levels, c, depth, descending) <==> !PullsUp(levels, c, depth, descending)
    decreases levels
  {
    if levels == [] || depth == 0 {
      CommutesTrivially(levels, c, depth, descending);
    } else {
      assert [levels[0]] + levels[1..] == levels;
      if Before(levels[0].numeric.price, c.numeric.price, descending) {
        TruncateCommutesIff(levels[1..], c, depth - 1, descending);
        CommutesInTail(levels[0], levels[1..], c, depth, descending);
      } else {
        CommutesAtHead(levels[0], levels[1..], c, depth, descending);
      }
    }
  }

  lemma CommutesTrivially(levels: seq<Level>, c: Level, depth: nat, descending: bool)
    requires levels == [] || depth == 0
    ensures Commutes(levels, c, depth, descending) && !PullsUp(levels, c, depth, descending)
  {
  }

  lemma CommutesInTail(head: Level, tail: seq<Level>, c: Level, depth: nat, descending: bool)
    requires depth > 0 && Before(head.numeric.price, c.numeric.price, descending)
    ensures Commutes([head] + tail, c, depth, descending) <==> Commutes(tail, c, depth - 1, descending)
    ensures PullsUp([head] + tail, c, depth, descending) <==> PullsUp(tail, c, depth - 1, descending)
  {
    var kept := Truncate(tail, depth - 1);
    TruncateHead([head] + tail, depth);
    assert ([head] + tail)[1..] == tail;
    CommutesAfterHead(head, kept, c, depth, descending);
    CommutesAfterHead(head, tail, c, depth, descending);
    HeadCancels(head, Truncate(ApplyOne(kept, c, descending), depth - 1),
                Truncate(ApplyOne(tail, c, descending), depth - 1));
    FoundAfterHead([head] + tail, c.numeric.price, descending);
  }

  lemma FoundAfterHead(levels: seq<Level>, p: real, descending: bool)
    requires levels != [] && Before(levels[0].numeric.price, p, descending)
    ensures Position(levels, p, descending) == 1 + Position(levels[1..], p, descending)
    ensures Found(levels, p, descending) == Found(levels[1..], p, descending)
  {
  }

  lemma CommutesAfterHead(head: Level, tail: seq<Level>, c: Level, depth: nat, descending: bool)
    requires depth > 0 && Before(head.numeric.price, c.numeric.price, descending)
    ensures Truncate(ApplyOne([head] + tail, c, descending), depth)
         == [head] + Truncate(ApplyOne(tail, c, descending), depth - 1)
  {
    var next := [head] + ApplyOne(tail, c, descending);
    assert ([head] + tail)[1..] == tail;
    assert next[1..] == ApplyOne(tail, c, descending);
    TruncateHead(next, depth);
  }

  lemma HeadCancels(head: Level, a: seq<Level>, b: seq<Level>)
    ensures [head] + a == [head] + b <==> a == b
  {
    assert ([head] + a)[1..] == a && ([head] + b)[1..] == b;
  }

  lemma TruncateBehind(front: seq<Level>, tail: seq<Level>, k: nat, depth: nat)
    requires |front| + k >= depth
    ensures Truncate(front + Truncate(tail, k), depth) == Truncate(front + tail, depth)
  {
  }

  lemma CutThenChangeHead(head: Level, tail: seq<Level>, c: Level, depth: nat, descending: bool)
    requires depth > 0
    requires !Before(head.numeric.price, c.numeric.price, descending)
    ensures (Truncate(ApplyOne([head] + Truncate(tail, depth - 1), c, descending), depth)
             == Truncate(ApplyOne([head] + tail, c, descending), depth))
            <==> !(c.numeric.qty == 0.0 && |tail| > depth - 1 && head.numeric.price == c.numeric.price)
  {
    var kept := Truncate(tail, depth - 1);
    assert ([head] + kept)[1..] == kept && ([head] + tail)[1..] == tail;
    var put := if c.numeric.qty == 0.0 then [] else [c];
    if head.numeric.price != c.numeric.price {
      assert put + ([head] + kept) == (put + [head]) + kept && put + ([head] + tail) == (put + [head]) + tail;
      TruncateBehind(put + [head], tail, depth - 1, depth);
    } else if c.numeric.qty != 0.0 {
      TruncateBehind([c], tail, depth - 1, depth);
    } else {
      assert [] + kept == kept && [] + tail == tail;
      CutTwice(tail, depth);
    }
  }

  lemma CutTwice(tail: seq<Level>, depth: nat)
    requires depth > 0
    ensures Truncate(Truncate(tail, depth - 1), depth) == Truncate(tail, depth) <==> |tail| <= depth - 1
  {
  }

  lemma CommutesAtHead(head: Level, tail: seq<Level>, c: Level, depth: nat, descending: bool)
    requires depth > 0
    requires !Before(head.numeric.price, c.numeric.price, descending)
    ensures Commutes([head] + tail, c, depth, descending) <==> !PullsUp([head] + tail, c, depth, descending)
  {
    TruncateHead([head] + tail, depth);
    assert ([head] + tail)[1..] == tail;
    CutThenChangeHead(head, tail, c, depth, descending);
  }

  predicate NoDeletion(changes: seq<Level>) {
    forall c :: c in changes ==> c.numeric.qty != 0.0
  }

  lemma {:induction false} TruncateEarlyOneBatch(levels: seq<Level>, changes: seq<Level>, depth: nat, descending: bool)
    requires Sorted(levels, descending) && NoDeletion(changes)
    ensures Truncate(ApplyAll(Truncate(levels, depth), changes, descending), depth)
         == Truncate(ApplyAll(levels, changes, descending), depth)
    decreases |changes|
  {
    if changes != [] {
      var c, rest := changes[0], changes[1..];
      var kept := Truncate(levels, depth);
      TruncateCommutesIff(levels, c, depth, descending);
      ApplyOneKeepsSorted(levels, c, descending);
      TruncateKeepsSorted(levels, depth, descending);
      ApplyOneKeepsSorted(kept, c, descending);
      TruncateEarlyOneBatch(ApplyOne(levels, c, descending), rest, depth, descending);
      TruncateEarlyOneBatch(ApplyOne(kept, c, descending), rest, depth, descending);
    }
  }

  /** A run of batches, truncated after each one, as the book does it. */
  function Run(levels: seq<Level>, batches: seq<seq<Level>>, depth: nat, descending: bool): seq<Level>
    decreases |batches|
  {
    if batches == [] then levels
    else Run(Truncate(ApplyAll(levels, batches[0], descending), depth), batches[1..], depth, descending)
  }

  function RunUncut(levels: seq<Level>, batches: seq<seq<Level>>, descending: bool): seq<Level>
    decreases |batches|
  {
    if batches == [] then levels else RunUncut(ApplyAll(levels, batches[0], descending), batches[1..], descending)
  }

  /** Without deletions, truncating after every batch loses nothing of the top `depth`. */
  lemma {:induction false} TruncatingEveryBatchIsHarmless(levels: seq<Level>, batches: seq<seq<Level>>, depth: nat,
                                                          descending: bool)
    requires Sorted(levels, descending)
    requires forall b :: b in batches ==> NoDeletion(b)
    ensures Run(Truncate(levels, depth), batches, depth, descending)
         == Truncate(RunUncut(levels, batches, descending), depth)
    decreases |batches|
  {
    if batches != [] {
      ApplyAllKeepsSorted(levels, batches[0], descending);
      TruncateEarlyOneBatch(levels, batches[0], depth, descending);
      TruncatingEveryBatchIsHarmless(ApplyAll(levels, batches[0], descending), batches[1..], depth, descending);
    }
  }
}
