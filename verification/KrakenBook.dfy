/** One symbol's order book, apps/api/src/market/krakenBook.ts: levels kept as the exact text
    received, merged in place by binary search, truncated to the subscribed depth, and
    summarised by a CRC-32 over the top ten levels of each side. */
module KrakenBook {
  import opened Wrappers
  import opened DecimalText
  import opened BookSide
  import Crc32

  datatype RawLevel = RawLevel(price: string, qty: string)

  datatype Precision = Precision(price: nat, qty: nat)

  // ---------- from text to levels ----------

  /** A level's text is canonical and `numeric` is what it denotes. */
  ghost predicate Faithful(l: Level) {
    && IsCanonical(l.price) && IsCanonical(l.qty)
    && l.numeric == Numeric(Value(l.price), Value(l.qty))
  }

  ghost predicate AllFaithful(levels: seq<Level>) {
    forall l :: l in levels ==> Faithful(l)
  }

  /** No level of a book is empty. */
  predicate NoEmptyLevel(levels: seq<Level>) {
    forall l :: l in levels ==> l.numeric.qty != 0.0
  }

  /** One side of a book as every reader relies on it. */
  ghost predicate ValidSide(levels: seq<Level>, descending: bool) {
    Sorted(levels, descending) && AllFaithful(levels) && NoEmptyLevel(levels)
  }

  function ParseLevel(raw: RawLevel): (l: Option<Level>)
    ensures l.Some? <==> IsPlain(Trim(raw.price)) && IsPlain(Trim(raw.qty))
    ensures l.Some? ==> Faithful(l.value) && l.value.numeric == Numeric(Value(Trim(raw.price)), Value(Trim(raw.qty)))
  {
    var price, qty := CanonicalDecimal(raw.price), CanonicalDecimal(raw.qty);
    if price.None? || qty.None? then None else
      CanonicalKeepsValue(raw.price);
      CanonicalKeepsValue(raw.qty);
      Some(Level(price.value, qty.value, Numeric(Value(price.value), Value(qty.value))))
  }

  /** The changes up to the first malformed one, and whether there was none. */
  function ParseAll(raws: seq<RawLevel>): (r: (seq<Level>, bool))
    ensures AllFaithful(r.0)
    ensures r.1 ==> |r.0| == |raws|
    decreases |raws|
  {
    if raws == [] then ([], true)
    else
      var first := ParseLevel(raws[0]);
      if first.None? then ([], false)
      else
        var (rest, ok) := ParseAll(raws[1..]);
        ([first.value] + rest, ok)
  }

  lemma {:induction false} ParseAllAt(raws: seq<RawLevel>, i: nat)
    requires i < |ParseAll(raws).0|
    ensures i < |raws| && ParseLevel(raws[i]) == Some(ParseAll(raws).0[i])
    decreases |raws|
  {
    hide ParseLevel, AllFaithful;
    if i > 0 {
      ParseAllAt(raws[1..], i - 1);
    }
  }

  lemma {:induction false} ParseAllStops(raws: seq<RawLevel>)
    ensures var (levels, ok) := ParseAll(raws);
      if ok then |levels| == |raws| else |levels| < |raws| && ParseLevel(raws[|levels|]).None?
    decreases |raws|
  {
    hide ParseLevel, AllFaithful;
    if raws != [] && ParseLevel(raws[0]).Some? {
      ParseAllStops(raws[1..]);
    }
  }

  /** Level by level what the texts say, up to the first malformed one. */
  lemma ParseAllMeans(raws: seq<RawLevel>)
    ensures var (levels, ok) := ParseAll(raws);
      && |levels| <= |raws| && (ok <==> |levels| == |raws|)
      && (forall i :: 0 <= i < |levels| ==> ParseLevel(raws[i]) == Some(levels[i]))
      && (!ok ==> ParseLevel(raws[|levels|]).None?)
  {
    hide ParseLevel, ParseAll;
    ParseAllStops(raws);
    forall i | 0 <= i < |ParseAll(raws).0| ensures ParseLevel(raws[i]) == Some(ParseAll(raws).0[i]) {
      ParseAllAt(raws, i);
    }
  }

  /** The splices of `merge`: a malformed level stops them, those made so far stay. */
  function Spliced(levels: seq<Level>, raws: seq<RawLevel>, descending: bool): (seq<Level>, bool) {
    (ApplyAll(levels, ParseAll(raws).0, descending), ParseAll(raws).1)
  }

  /** `merge` on one side: a run that completes is truncated, one that stops is not. */
  function Merged(levels: seq<Level>, raws: seq<RawLevel>, depth: nat, descending: bool): (seq<Level>, bool) {
    var (applied, ok) := Spliced(levels, raws, descending);
    (if ok then Truncate(applied, depth) else applied, ok)
  }

  // ---------- the source's binary search and splices ----------

  /** `sign * compareDecimal(p, q) < 0`. */
  predicate TextBefore(p: string, q: string, descending: bool) {
    (if descending then -1 else 1) * CompareDecimal(p, q) < 0
  }

  lemma TextOrderIsValueOrder(a: Level, b: Level, descending: bool)
    requires Faithful(a) && Faithful(b)
    ensures TextBefore(a.price, b.price, descending) <==> Before(a.numeric.price, b.numeric.price, descending)
    ensures a.price == b.price <==> a.numeric.price == b.numeric.price
  {
    CompareIsSign(a.price, b.price);
    CanonicalUnique(a.price, b.price);
  }

  lemma {:induction false} SortedPair(levels: seq<Level>, i: nat, j: nat, descending: bool)
    requires Sorted(levels, descending) && i < j < |levels|
    ensures Before(levels[i].numeric.price, levels[j].numeric.price, descending)
  {
    if i > 0 {
      SortedPair(levels[1..], i - 1, j - 1, descending);
    } else {
      assert levels[j] == levels[1..][j - 1];
    }
  }

  lemma {:induction false} PositionIs(levels: seq<Level>, p: real, i: nat, descending: bool)
    requires Sorted(levels, descending) && i <= |levels|
    requires i > 0 ==> Before(levels[i - 1].numeric.price, p, descending)
    requires i < |levels| ==> !Before(levels[i].numeric.price, p, descending)
    ensures Position(levels, p, descending) == i
  {
    if i > 1 {
      SortedPair(levels, 0, i - 1, descending);
    }
    if i > 0 {
      PositionIs(levels[1..], p, i - 1, descending);
    }
  }

  /** The test the search makes on text, and what it decides. */
  method PrecedesAt(levels: seq<Level>, i: nat, c: Level, descending: bool) returns (r: bool)
    requires AllFaithful(levels) && i < |levels| && Faithful(c)
    ensures r <==> Before(levels[i].numeric.price, c.numeric.price, descending)
  {
    TextOrderIsValueOrder(levels[i], c, descending);
    r := TextBefore(levels[i].price, c.price, descending);
  }

  method SamePriceAt(levels: seq<Level>, i: nat, c: Level) returns (r: bool)
    requires AllFaithful(levels) && i < |levels| && Faithful(c)
    ensures r <==> levels[i].numeric.price == c.numeric.price
  {
    TextOrderIsValueOrder(levels[i], c, false);
    r := levels[i].price == c.price;
  }

  method ZeroQty(c: Level) returns (r: bool)
    requires Faithful(c)
    ensures r <==> c.numeric.qty == 0.0
  {
    ZeroIsZero(c.qty);
    r := c.qty == "0";
  }

  /** The binary search finds the number of levels that come before the price. */
  method Search(levels: seq<Level>, c: Level, descending: bool) returns (lo: nat)
    requires Sorted(levels, descending) && AllFaithful(levels) && Faithful(c)
    ensures lo == Position(levels, c.numeric.price, descending)
  {
    lo := 0;
    var hi := |levels|;
    while lo < hi
      invariant 0 <= lo <= hi <= |levels|
      invariant lo > 0 ==> Before(levels[lo - 1].numeric.price, c.numeric.price, descending)
      invariant hi < |levels| ==> !Before(levels[hi].numeric.price, c.numeric.price, descending)
    {
      var mid := (lo + hi) / 2;
      var before := PrecedesAt(levels, mid, c, descending);
      if before {
        lo := mid + 1;
      } else {
        hi := mid;
      }
    }
    PositionIs(levels, c.numeric.price, lo, descending);
  }

  /** Splicing at the position is ApplyOne. */
  function SpliceAt(levels: seq<Level>, i: nat, put: seq<Level>, found: bool): seq<Level>
    requires i <= |levels| && (found ==> i < |levels|)
  {
    levels[..i] + put + if found then levels[i + 1..] else levels[i..]
  }

  lemma SpliceCons(head: Level, tail: seq<Level>, i: nat, put: seq<Level>, found: bool)
    requires i <= |tail| && (found ==> i < |tail|)
    ensures SpliceAt([head] + tail, i + 1, put, found) == [head] + SpliceAt(tail, i, put, found)
  {
  }

  lemma {:induction false} SpliceIsApplyOne(levels: seq<Level>, c: Level, descending: bool)
    ensures var i := Position(levels, c.numeric.price, descending);
      var found := Found(levels, c.numeric.price, descending);
      ApplyOne(levels, c, descending) == SpliceAt(levels, i, if c.numeric.qty == 0.0 then [] else [c], found)
  {
    if levels != [] && Before(levels[0].numeric.price, c.numeric.price, descending) {
      SpliceIsApplyOne(levels[1..], c, descending);
      FoundAfterHead(levels, c.numeric.price, descending);
      assert [levels[0]] + levels[1..] == levels;
      SpliceCons(levels[0], levels[1..], Position(levels[1..], c.numeric.price, descending),
                 if c.numeric.qty == 0.0 then [] else [c], Found(levels, c.numeric.price, descending));
    }
  }

  lemma SplicedStep(levels: seq<Level>, raws: seq<RawLevel>, k: nat, descending: bool)
    requires k < |raws|
    ensures var c := ParseLevel(raws[k]);
      Spliced(levels, raws[k..], descending)
      == if c.None? then (levels, false) else Spliced(ApplyOne(levels, c.value, descending), raws[k + 1..], descending)
  {
    assert raws[k..][0] == raws[k] && raws[k..][1..] == raws[k + 1..];
    if ParseLevel(raws[k]).Some? {
      var rest := ParseAll(raws[k + 1..]).0;
      var all := [ParseLevel(raws[k]).value] + rest;
      assert ParseAll(raws[k..]).0 == all;
      assert all[1..] == rest;
    }
  }

  lemma SplicedEnd(levels: seq<Level>, descending: bool)
    ensures Spliced(levels, [], descending) == (levels, true)
  {
  }

  /** `merge`. */
  method Merge(start: seq<Level>, raws: seq<RawLevel>, depth: nat, descending: bool)
    returns (levels: seq<Level>, ok: bool)
    requires ValidSide(start, descending)
    ensures (levels, ok) == Merged(start, raws, depth, descending)
  {
    hide Spliced, ValidSide;
    levels := start;
    ok := true;
    var k := 0;
    assert raws[0..] == raws;
    while k < |raws|
      invariant 0 <= k <= |raws|
      invariant ok && ValidSide(levels, descending)
      invariant Spliced(start, raws, descending) == Spliced(levels, raws[k..], descending)
    {
      levels, ok := MergeNext(levels, raws, k, descending);
      if !ok {
        return;
      }
      k := k + 1;
    }
    assert raws[k..] == [];
    SplicedEnd(levels, descending);
    if |levels| > depth {
      levels := levels[..depth];
    }
  }

  /** One turn of merge's loop; false is the exception a malformed level raises. */
  method MergeNext(start: seq<Level>, raws: seq<RawLevel>, k: nat, descending: bool)
    returns (levels: seq<Level>, ok: bool)
    requires ValidSide(start, descending) && k < |raws|
    ensures ok ==> ValidSide(levels, descending)
    ensures ok ==> Spliced(start, raws[k..], descending) == Spliced(levels, raws[k + 1..], descending)
    ensures !ok ==> Spliced(start, raws[k..], descending) == (levels, false)
  {
    SplicedStep(start, raws, k, descending);
    var parsed := ParseLevel(raws[k]);
    if parsed.None? {
      return start, false;
    }
    levels := MergeOne(start, parsed.value, descending);
    ok := true;
  }

  /** The search and the splice for one well-formed level. */
  method MergeOne(start: seq<Level>, c: Level, descending: bool) returns (levels: seq<Level>)
    requires ValidSide(start, descending) && Faithful(c)
    ensures levels == ApplyOne(start, c, descending) && ValidSide(levels, descending)
  {
    levels := start;
    ApplyOneKeepsValid(start, c, descending);
    SpliceIsApplyOne(start, c, descending);
    hide ApplyOne, Position, Sorted, NoEmptyLevel, Faithful;
    var lo := Search(levels, c, descending);
    var found := false;
    if lo < |levels| {
      found := SamePriceAt(levels, lo, c);
    }
    var zero := ZeroQty(c);
    if zero {
      if found {
        levels := levels[..lo] + levels[lo + 1..];
      }
    } else if found {
      levels := levels[lo := c];
    } else {
      levels := levels[..lo] + [c] + levels[lo..];
    }
  }

  // ---------- what a merge does ----------

  lemma ApplyOneKeepsValid(levels: seq<Level>, c: Level, descending: bool)
    requires ValidSide(levels, descending) && Faithful(c)
    ensures ValidSide(ApplyOne(levels, c, descending), descending)
  {
    ApplyOneKeepsSorted(levels, c, descending);
    ApplyOneMembers(levels, c, descending);
  }

  lemma {:induction false} ApplyAllKeepsValid(levels: seq<Level>, changes: seq<Level>, descending: bool)
    requires ValidSide(levels, descending) && AllFaithful(changes)
    ensures ValidSide(ApplyAll(levels, changes, descending), descending)
    decreases |changes|
  {
    if changes != [] {
      ApplyOneKeepsValid(levels, changes[0], descending);
      ApplyAllKeepsValid(ApplyOne(levels, changes[0], descending), changes[1..], descending);
    }
  }

  /** Every merge leaves a valid side, and a completed one leaves at most `depth` levels. */
  lemma MergedKeepsValid(levels: seq<Level>, raws: seq<RawLevel>, depth: nat, descending: bool)
    requires ValidSide(levels, descending)
    ensures ValidSide(Merged(levels, raws, depth, descending).0, descending)
    ensures Merged(levels, raws, depth, descending).1 ==> |Merged(levels, raws, depth, descending).0| <= depth
  {
    var changes := ParseAll(raws).0;
    ApplyAllKeepsValid(levels, changes, descending);
    var applied := ApplyAll(levels, changes, descending);
    TruncateKeepsSorted(applied, depth, descending);
    assert forall l :: l in Truncate(applied, depth) ==> l in applied;
  }

  /** A completed merge is: apply the changes in order to the price-to-quantity map, then keep
      the best `depth` prices. */
  lemma MergedRefinesMap(levels: seq<Level>, raws: seq<RawLevel>, depth: nat, descending: bool)
    requires ValidSide(levels, descending) && ParseAll(raws).1
    ensures AsMap(Merged(levels, raws, depth, descending).0)
         == Best(ChangeAll(AsMap(levels), ParseAll(raws).0), depth, descending)
  {
    ApplyAllIsChangeAll(levels, ParseAll(raws).0, descending);
    ApplyAllKeepsSorted(levels, ParseAll(raws).0, descending);
    TruncateIsBest(ApplyAll(levels, ParseAll(raws).0, descending), depth, descending);
  }

  /** A valid side is determined, text included, by its price-to-quantity map. */
  lemma MapDeterminesSide(a: seq<Level>, b: seq<Level>, descending: bool)
    requires ValidSide(a, descending) && ValidSide(b, descending)
    requires AsMap(a) == AsMap(b)
    ensures a == b
  {
    MapDeterminesLevels(a, b, descending);
    forall i | 0 <= i < |a|
      ensures a[i] == b[i]
    {
      assert Faithful(a[i]) && Faithful(b[i]);
      CanonicalUnique(a[i].price, b[i].price);
      CanonicalUnique(a[i].qty, b[i].qty);
    }
  }

  // ---------- the whole book ----------

  datatype Book = Book(bids: seq<Level>, asks: seq<Level>)

  ghost predicate ValidBook(b: Book) {
    ValidSide(b.bids, true) && ValidSide(b.asks, false)
  }

  const EMPTY_BOOK := Book([], [])

  /** `applySnapshot`: each side is replaced only once its merge has completed. */
  function Snapshot(b: Book, bids: seq<RawLevel>, asks: seq<RawLevel>, depth: nat): (Book, bool) {
    var (newBids, bidsOk) := Merged([], bids, depth, true);
    if !bidsOk then (b, false) else
      var (newAsks, asksOk) := Merged([], asks, depth, false);
      (Book(newBids, if asksOk then newAsks else b.asks), asksOk)
  }

  /** `applyUpdate`: each side is spliced in place, an empty list leaves it alone. */
  function Update(b: Book, bids: seq<RawLevel>, asks: seq<RawLevel>, depth: nat): (Book, bool) {
    var (newBids, bidsOk) := if bids == [] then (b.bids, true) else Merged(b.bids, bids, depth, true);
    if !bidsOk then (Book(newBids, b.asks), false) else
      var (newAsks, asksOk) := if asks == [] then (b.asks, true) else Merged(b.asks, asks, depth, false);
      (Book(newBids, newAsks), asksOk)
  }

  const CHECKSUM_LEVELS := 10

  function LevelText(l: Level, precision: Precision): string {
    ChecksumField(l.price, precision.price) + ChecksumField(l.qty, precision.qty)
  }

  /** The fields of the best ten levels, one text a level. */
  function TopTexts(levels: seq<Level>, precision: Precision): (texts: seq<string>)
    ensures |texts| == if |levels| < CHECKSUM_LEVELS then |levels| else CHECKSUM_LEVELS
  {
    var top := Truncate(levels, CHECKSUM_LEVELS);
    seq(|top|, i requires 0 <= i < |top| => LevelText(top[i], precision))
  }

  function Flatten(texts: seq<string>): string {
    if texts == [] then "" else texts[0] + Flatten(texts[1..])
  }

  /** The text Kraken's checksum is defined over: ten asks, then ten bids, best first. */
  function ChecksumText(b: Book, precision: Precision): string {
    Flatten(TopTexts(b.asks, precision)) + Flatten(TopTexts(b.bids, precision))
  }

  function Checksum(b: Book, precision: Precision): bv32 {
    Crc32.BitSerial(ChecksumText(b, precision))
  }

  // ---------- what a message does to a book ----------

  /** A merge that a malformed level stops has made the changes before it, and cuts nothing. */
  lemma StoppedRefinesMap(levels: seq<Level>, raws: seq<RawLevel>, depth: nat, descending: bool)
    requires ValidSide(levels, descending) && !ParseAll(raws).1
    ensures AsMap(Merged(levels, raws, depth, descending).0) == ChangeAll(AsMap(levels), ParseAll(raws).0)
  {
    ApplyAllIsChangeAll(levels, ParseAll(raws).0, descending);
  }

  lemma MergedMeans(levels: seq<Level>, raws: seq<RawLevel>, depth: nat, descending: bool)
    requires ValidSide(levels, descending)
    ensures var changed := ChangeAll(AsMap(levels), ParseAll(raws).0);
      AsMap(Merged(levels, raws, depth, descending).0) == if ParseAll(raws).1 then Best(changed, depth, descending) else changed
    ensures Merged(levels, raws, depth, descending).1 == ParseAll(raws).1
  {
    if ParseAll(raws).1 {
      MergedRefinesMap(levels, raws, depth, descending);
    } else {
      StoppedRefinesMap(levels, raws, depth, descending);
    }
  }

  lemma SnapshotMeans(b: Book, bids: seq<RawLevel>, asks: seq<RawLevel>, depth: nat)
    requires ValidBook(b)
    ensures var (next, ok) := Snapshot(b, bids, asks, depth);
      && (ok <==> ParseAll(bids).1 && ParseAll(asks).1)
      && (if ParseAll(bids).1 then AsMap(next.bids) == Best(ChangeAll(map[], ParseAll(bids).0), depth, true)
          else next.bids == b.bids)
      && (if ok then AsMap(next.asks) == Best(ChangeAll(map[], ParseAll(asks).0), depth, false)
          else next.asks == b.asks)
  {
    MergedMeans([], bids, depth, true);
    MergedMeans([], asks, depth, false);
    assert AsMap([]) == map[];
    hide Merged, ParseAll, ValidSide, AsMap;
  }

  lemma UpdateMeans(b: Book, bids: seq<RawLevel>, asks: seq<RawLevel>, depth: nat)
    requires ValidBook(b)
    ensures var (next, ok) := Update(b, bids, asks, depth);
      && (ok <==> ParseAll(bids).1 && ParseAll(asks).1)
      && (bids == [] ==> next.bids == b.bids)
      && (asks == [] || !ParseAll(bids).1 ==> next.asks == b.asks)
      && (bids != [] && ParseAll(bids).1 ==>
            AsMap(next.bids) == Best(ChangeAll(AsMap(b.bids), ParseAll(bids).0), depth, true))
      && (!ParseAll(bids).1 ==> AsMap(next.bids) == ChangeAll(AsMap(b.bids), ParseAll(bids).0))
      && (asks != [] && ok ==>
            AsMap(next.asks) == Best(ChangeAll(AsMap(b.asks), ParseAll(asks).0), depth, false))
      && (ParseAll(bids).1 && !ParseAll(asks).1 ==> AsMap(next.asks) == ChangeAll(AsMap(b.asks), ParseAll(asks).0))
  {
    MergedMeans(b.bids, bids, depth, true);
    MergedMeans(b.asks, asks, depth, false);
    assert ParseAll([]).1;
    hide Merged, ParseAll, ValidSide, AsMap, ChangeAll, Best;
  }

  // ---------- what the checksum is taken of ----------

  /** The text is the numeral, without leading zeros, of the value moved by its places: the
      precision, or more where the level's text has more. */
  predicate IsField(text: string, value: real, canonical: string, decimals: nat) {
    && Digits(text) && (text != "" ==> text[0] != '0')
    && Numeral(text) as real == Scale(value, Places(canonical, decimals))
  }

  function Ten(levels: seq<Level>): nat { if |levels| < 10 then |levels| else 10 }

  /** From text `from` on, one side's fields: price and quantity of each level, best first. */
  predicate SideAre(texts: seq<string>, from: nat, levels: seq<Level>, precision: Precision) {
    && from + 2 * Ten(levels) <= |texts|
    && forall k :: 0 <= k < Ten(levels) ==>
         && IsField(texts[from + 2 * k], levels[k].numeric.price, levels[k].price, precision.price)
         && IsField(texts[from + 2 * k + 1], levels[k].numeric.qty, levels[k].qty, precision.qty)
  }

  /** The asks' fields, then the bids', at most ten levels a side. */
  predicate AreFields(texts: seq<string>, asks: seq<Level>, bids: seq<Level>, precision: Precision) {
    && |texts| == 2 * Ten(asks) + 2 * Ten(bids)
    && SideAre(texts, 0, asks, precision) && SideAre(texts, 2 * Ten(asks), bids, precision)
  }

  lemma LevelFields(l: Level, precision: Precision)
    requires Faithful(l)
    ensures IsField(ChecksumField(l.price, precision.price), l.numeric.price, l.price, precision.price)
    ensures IsField(ChecksumField(l.qty, precision.qty), l.numeric.qty, l.qty, precision.qty)
  {
    FieldIsScaledValue(l.price, precision.price);
    FieldIsScaledValue(l.qty, precision.qty);
  }

  /** One side's fields, two a level. */
  function FieldTexts(levels: seq<Level>, precision: Precision): (texts: seq<string>)
    ensures |texts| == 2 * Ten(levels)
  {
    seq(2 * Ten(levels), i requires 0 <= i < 2 * Ten(levels) => FieldText(levels[i / 2], precision, i % 2 == 0))
  }

  function FieldText(l: Level, precision: Precision, price: bool): string {
    if price then ChecksumField(l.price, precision.price) else ChecksumField(l.qty, precision.qty)
  }

  lemma FieldTextsAt(levels: seq<Level>, precision: Precision, k: nat)
    requires k < Ten(levels)
    ensures FieldTexts(levels, precision)[2 * k] == FieldText(levels[k], precision, true)
    ensures FieldTexts(levels, precision)[2 * k + 1] == FieldText(levels[k], precision, false)
    ensures TopTexts(levels, precision)[k] == FieldText(levels[k], precision, true) + FieldText(levels[k], precision, false)
  {
    hide ChecksumField;
  }

  lemma {:induction false} PairsFlatten(texts: seq<string>, tops: seq<string>, n: nat)
    requires 2 * n <= |texts| && n <= |tops|
    requires forall k :: 0 <= k < n ==> tops[k] == texts[2 * k] + texts[2 * k + 1]
    ensures Flatten(texts[..2 * n]) == Flatten(tops[..n])
  {
    if n > 0 {
      var m := n - 1;
      PairsFlatten(texts, tops, m);
      var price, qty := texts[2 * m], texts[2 * m + 1];
      assert tops[m] == price + qty;
      hide Flatten;
      assert texts[..2 * n] == texts[..2 * m] + [price, qty];
      assert tops[..n] == tops[..m] + [tops[m]];
      FlattenConcat(texts[..2 * m], [price, qty]);
      FlattenConcat(tops[..m], [tops[m]]);
      FlattenTwo(price, qty);
      FlattenOne(tops[m]);
    }
  }

  lemma SideFields(levels: seq<Level>, precision: Precision)
    requires AllFaithful(levels)
    ensures var texts := FieldTexts(levels, precision);
      SideAre(texts, 0, levels, precision) && Flatten(texts) == Flatten(TopTexts(levels, precision))
  {
    var texts, tops := FieldTexts(levels, precision), TopTexts(levels, precision);
    assert |tops| == Ten(levels);
    hide TopTexts, IsField, FieldTexts, Flatten;
    forall k | 0 <= k < Ten(levels) ensures tops[k] == texts[2 * k] + texts[2 * k + 1] {
      FieldTextsAt(levels, precision, k);
    }
    PairsFlatten(texts, tops, Ten(levels));
    assert texts[..2 * Ten(levels)] == texts && tops[..Ten(levels)] == tops;
    forall k | 0 <= k < Ten(levels)
      ensures IsField(texts[0 + 2 * k], levels[k].numeric.price, levels[k].price, precision.price)
        && IsField(texts[0 + 2 * k + 1], levels[k].numeric.qty, levels[k].qty, precision.qty)
    {
      assert levels[k] in levels;
      LevelFields(levels[k], precision);
      FieldTextsAt(levels, precision, k);
    }
  }

  lemma SideMoves(before: seq<string>, texts: seq<string>, levels: seq<Level>, precision: Precision)
    requires SideAre(texts, 0, levels, precision)
    ensures SideAre(before + texts, |before|, levels, precision)
  {
    hide IsField;
    forall k | 0 <= k < Ten(levels)
      ensures IsField((before + texts)[|before| + 2 * k], levels[k].numeric.price, levels[k].price, precision.price)
        && IsField((before + texts)[|before| + 2 * k + 1], levels[k].numeric.qty, levels[k].qty, precision.qty)
    {
      assert (before + texts)[|before| + 2 * k] == texts[0 + 2 * k];
      assert (before + texts)[|before| + 2 * k + 1] == texts[0 + 2 * k + 1];
    }
  }

  lemma SideStays(texts: seq<string>, after: seq<string>, levels: seq<Level>, precision: Precision)
    requires SideAre(texts, 0, levels, precision)
    ensures SideAre(texts + after, 0, levels, precision)
  {
    hide IsField;
    forall k | 0 <= k < Ten(levels)
      ensures IsField((texts + after)[0 + 2 * k], levels[k].numeric.price, levels[k].price, precision.price)
        && IsField((texts + after)[0 + 2 * k + 1], levels[k].numeric.qty, levels[k].qty, precision.qty)
    {
      assert (texts + after)[0 + 2 * k] == texts[0 + 2 * k];
      assert (texts + after)[0 + 2 * k + 1] == texts[0 + 2 * k + 1];
    }
  }

  lemma {:induction false} FlattenConcat(a: seq<string>, b: seq<string>)
    ensures Flatten(a + b) == Flatten(a) + Flatten(b)
  {
    if a == [] {
      assert a + b == b;
      EmptyConcat(Flatten(b));
    } else {
      assert (a + b)[1..] == a[1..] + b;
      FlattenConcat(a[1..], b);
      ConcatAssoc(a[0], Flatten(a[1..]), Flatten(b));
    }
  }

  lemma FlattenOne(a: string)
    ensures Flatten([a]) == a
  {
    assert [a][1..] == [];
    assert a + "" == a;
  }

  lemma FlattenTwo(a: string, b: string)
    ensures Flatten([a, b]) == a + b
  {
    assert [a, b][1..] == [b];
    FlattenOne(b);
  }

  /** A valid book's checksum is the CRC of its fields, one text after the other. */
  lemma ChecksumIsFields(b: Book, precision: Precision) returns (texts: seq<string>)
    requires ValidBook(b)
    ensures AreFields(texts, b.asks, b.bids, precision) && Checksum(b, precision) == Crc32.BitSerial(Flatten(texts))
  {
    var asks, bids := FieldTexts(b.asks, precision), FieldTexts(b.bids, precision);
    texts := asks + bids;
    SideFields(b.asks, precision);
    SideFields(b.bids, precision);
    hide SideAre, FieldTexts, TopTexts;
    FlattenConcat(asks, bids);
    SideStays(asks, bids, b.asks, precision);
    SideMoves(asks, bids, b.bids, precision);
  }

  class KrakenBook {
    const depth: nat
    var bids: seq<Level>
    var asks: seq<Level>

    function View(): Book
      reads this
    {
      Book(bids, asks)
    }

    constructor (depth: nat)
      ensures this.depth == depth && View() == EMPTY_BOOK && ValidBook(View())
    {
      this.depth := depth;
      bids, asks := [], [];
    }

    /** False is the exception a malformed level raises.  Bids start from nothing and keep the
        best `depth` of the bids sent, asks of the asks; a malformed ask leaves the old asks beside
        the new bids, a malformed bid leaves both sides. */
    method ApplySnapshot(newBids: seq<RawLevel>, newAsks: seq<RawLevel>) returns (ok: bool)
      requires ValidBook(View())
      modifies this
      ensures ValidBook(View()) && (View(), ok) == Snapshot(old(View()), newBids, newAsks, depth)
      ensures ok <==> ParseAll(newBids).1 && ParseAll(newAsks).1
      ensures if ParseAll(newBids).1 then AsMap(bids) == Best(ChangeAll(map[], ParseAll(newBids).0), depth, true)
              else bids == old(bids)
      ensures if ok then AsMap(asks) == Best(ChangeAll(map[], ParseAll(newAsks).0), depth, false)
              else asks == old(asks)
    {
      SnapshotMeans(View(), newBids, newAsks, depth);
      MergedKeepsValid([], newBids, depth, true);
      MergedKeepsValid([], newAsks, depth, false);
      var side;
      side, ok := Merge([], newBids, depth, true);
      if !ok {
        return;
      }
      bids := side;
      side, ok := Merge([], newAsks, depth, false);
      if ok {
        asks := side;
      }
    }

    /** Each side takes its own changes and keeps its best `depth`; an empty list leaves its side as
        it was.  A side whose list is malformed has taken the changes before the malformed one and
        is not cut; malformed bids leave the asks as they were. */
    method ApplyUpdate(newBids: seq<RawLevel>, newAsks: seq<RawLevel>) returns (ok: bool)
      requires ValidBook(View())
      modifies this
      ensures ValidBook(View()) && (View(), ok) == Update(old(View()), newBids, newAsks, depth)
      ensures ok <==> ParseAll(newBids).1 && ParseAll(newAsks).1
      ensures newBids == [] ==> bids == old(bids)
      ensures newAsks == [] || !ParseAll(newBids).1 ==> asks == old(asks)
      ensures newBids != [] && ParseAll(newBids).1 ==>
        AsMap(bids) == Best(ChangeAll(AsMap(old(bids)), ParseAll(newBids).0), depth, true)
      ensures !ParseAll(newBids).1 ==> AsMap(bids) == ChangeAll(AsMap(old(bids)), ParseAll(newBids).0)
      ensures newAsks != [] && ok ==>
        AsMap(asks) == Best(ChangeAll(AsMap(old(asks)), ParseAll(newAsks).0), depth, false)
      ensures ParseAll(newBids).1 && !ParseAll(newAsks).1 ==>
        AsMap(asks) == ChangeAll(AsMap(old(asks)), ParseAll(newAsks).0)
    {
      UpdateMeans(View(), newBids, newAsks, depth);
      MergedKeepsValid(bids, newBids, depth, true);
      MergedKeepsValid(asks, newAsks, depth, false);
      ok := true;
      if |newBids| != 0 {
        bids, ok := Merge(bids, newBids, depth, true);
        if !ok {
          return;
        }
      }
      if |newAsks| != 0 {
        asks, ok := Merge(asks, newAsks, depth, false);
      }
    }

    /** `checksum`, given the table built at start-up. */
    method ComputeChecksum(precision: Precision, table: seq<bv32>) returns (crc: bv32)
      requires Crc32.IsTable(table)
      ensures crc == Checksum(View(), precision)
      ensures ValidBook(View()) ==>
        exists texts :: AreFields(texts, asks, bids, precision) && crc == Crc32.BitSerial(Flatten(texts))
    {
      if ValidBook(View()) {
        var _ := ChecksumIsFields(View(), precision);
      }
      var text := BuildText(precision);
      crc := Crc32.Compute(text, table);
    }

    method BuildText(precision: Precision) returns (s: string)
      ensures s == ChecksumText(View(), precision)
    {
      EmptyConcat(Flatten(TopTexts(asks, precision)));
      s := AppendLevels("", asks, precision);
      s := AppendLevels(s, bids, precision);
    }
  }

  lemma EmptyConcat(a: string)
    ensures "" + a == a
  {
  }

  lemma ConcatAssoc(a: string, b: string, c: string)
    ensures (a + b) + c == a + (b + c)
  {
  }

  lemma FlattenStep(s: string, texts: seq<string>, k: nat)
    requires k < |texts|
    ensures s + Flatten(texts[k..]) == (s + texts[k]) + Flatten(texts[k + 1..])
  {
    assert texts[k..][0] == texts[k] && texts[k..][1..] == texts[k + 1..];
    ConcatAssoc(s, texts[k], Flatten(texts[k + 1..]));
  }

  method AppendLevels(start: string, levels: seq<Level>, precision: Precision) returns (s: string)
    ensures s == start + Flatten(TopTexts(levels, precision))
  {
    s := start;
    ghost var texts := TopTexts(levels, precision);
    assert texts[0..] == texts && |texts| == Ten(levels);
    hide TopTexts, Flatten, Ten;
    var k := 0;
    while k < |levels| && k < CHECKSUM_LEVELS
      invariant 0 <= k <= |texts| && s + Flatten(texts[k..]) == start + Flatten(texts)
    {
      TenCounts(levels, k);
      FlattenStep(s, texts, k);
      s := AppendLevel(s, levels, k, precision);
      k := k + 1;
    }
    TenCounts(levels, k);
    assert texts[k..] == [];
    FlattenNone(s);
  }

  lemma TenCounts(levels: seq<Level>, k: nat)
    ensures k < Ten(levels) <==> k < |levels| && k < CHECKSUM_LEVELS
  {
  }

  lemma FlattenNone(s: string)
    ensures s + Flatten([]) == s
  {
  }

  method AppendLevel(start: string, levels: seq<Level>, k: nat, precision: Precision) returns (s: string)
    requires k < |levels| && k < CHECKSUM_LEVELS
    ensures s == start + TopTexts(levels, precision)[k]
  {
    s := start + LevelText(levels[k], precision);
  }

  // ---------- runs ----------

  datatype Message = SnapshotMessage(bids: seq<RawLevel>, asks: seq<RawLevel>)
                   | UpdateMessage(bids: seq<RawLevel>, asks: seq<RawLevel>)

  function ApplyMessage(b: Book, m: Message, depth: nat): (Book, bool) {
    match m
    case SnapshotMessage(bids, asks) => Snapshot(b, bids, asks, depth)
    case UpdateMessage(bids, asks) => Update(b, bids, asks, depth)
  }

  function ApplyMessages(b: Book, ms: seq<Message>, depth: nat): Book
    decreases |ms|
  {
    if ms == [] then b else ApplyMessages(ApplyMessage(b, ms[0], depth).0, ms[1..], depth)
  }

  predicate WellFormed(m: Message) { ParseAll(m.bids).1 && ParseAll(m.asks).1 }

  lemma MessageKeepsValid(b: Book, m: Message, depth: nat)
    requires ValidBook(b)
    ensures ValidBook(ApplyMessage(b, m, depth).0)
    ensures WellFormed(m) && |b.bids| <= depth && |b.asks| <= depth ==>
      ApplyMessage(b, m, depth).1
      && |ApplyMessage(b, m, depth).0.bids| <= depth && |ApplyMessage(b, m, depth).0.asks| <= depth
  {
    MergedKeepsValid([], m.bids, depth, true);
    MergedKeepsValid([], m.asks, depth, false);
    MergedKeepsValid(b.bids, m.bids, depth, true);
    MergedKeepsValid(b.asks, m.asks, depth, false);
  }

  /** After any sequence of messages, malformed ones included, both sides are strictly ordered
      with no empty level; and they hold at most `depth` levels if none was malformed. */
  lemma {:induction false} RunKeepsValid(b: Book, ms: seq<Message>, depth: nat)
    requires ValidBook(b)
    ensures ValidBook(ApplyMessages(b, ms, depth))
    ensures (forall m :: m in ms ==> WellFormed(m)) && |b.bids| <= depth && |b.asks| <= depth ==>
      |ApplyMessages(b, ms, depth).bids| <= depth && |ApplyMessages(b, ms, depth).asks| <= depth
    decreases |ms|
  {
    if ms != [] {
      MessageKeepsValid(b, ms[0], depth);
      RunKeepsValid(ApplyMessage(b, ms[0], depth).0, ms[1..], depth);
    }
  }
}
