/** Which Coinbase trades count, apps/api/src/feeds/coinbaseWs.ts.

    A trade's payload beside its product and id is one opaque number.  An id that is missing or not
    a number is None. */
module CoinbaseTrades {
  import opened Wrappers

  datatype Trade = Trade(product: string, id: Option<int>, payload: int)

  datatype Event = Event(snapshot: bool, trades: seq<Trade>)

  /** Newest id processed for each product. */
  type Seen = map<string, int>

  predicate Passes(seen: Seen, snapshot: bool, t: Trade) {
    t.id.Some? && if t.product in seen then t.id.value > seen[t.product] else !snapshot
  }

  function Passing(seen: Seen, snapshot: bool, ts: seq<Trade>): (r: seq<Trade>)
    ensures forall t :: t in r ==> t.id.Some?
  {
    if ts == [] then []
    else if Passes(seen, snapshot, ts[0]) then [ts[0]] + Passing(seen, snapshot, ts[1..])
    else Passing(seen, snapshot, ts[1..])
  }

  /** The live trades without an id. */
  function WithoutId(snapshot: bool, ts: seq<Trade>): (r: seq<Trade>)
    ensures forall t :: t in r ==> t.id.None?
  {
    if ts == [] then []
    else if ts[0].id.None? && !snapshot then [ts[0]] + WithoutId(snapshot, ts[1..])
    else WithoutId(snapshot, ts[1..])
  }

  predicate HaveIds(ts: seq<Trade>) { forall t :: t in ts ==> t.id.Some? }

  function Insert(t: Trade, ts: seq<Trade>): (r: seq<Trade>)
    requires t.id.Some? && HaveIds(ts)
    ensures HaveIds(r)
  {
    if ts == [] || t.id.value <= ts[0].id.value then [t] + ts else [ts[0]] + Insert(t, ts[1..])
  }

  /** The stable sort by id. */
  function Sort(ts: seq<Trade>): (r: seq<Trade>)
    requires HaveIds(ts)
    ensures HaveIds(r)
  {
    if ts == [] then [] else Insert(ts[0], Sort(ts[1..]))
  }

  function Reverse(ts: seq<Trade>): seq<Trade> { if ts == [] then [] else Reverse(ts[1..]) + [ts[0]] }

  /** `tradesToProcess`. */
  function ToProcess(seen: Seen, ev: Event): seq<Trade> {
    Sort(Passing(seen, ev.snapshot, ev.trades)) + Reverse(WithoutId(ev.snapshot, ev.trades))
  }

  function Noted(seen: Seen, t: Trade): Seen { if t.id.Some? then seen[t.product := t.id.value] else seen }

  /** The ids noted one by one as trades are processed. */
  function AllNoted(seen: Seen, ts: seq<Trade>): Seen
    decreases |ts|
  {
    if ts == [] then seen else AllNoted(Noted(seen, ts[0]), ts[1..])
  }

  function After(seen: Seen, ev: Event): Seen { AllNoted(seen, ToProcess(seen, ev)) }

  function Run(seen: Seen, evs: seq<Event>): Seen
    decreases |evs|
  {
    if evs == [] then seen else Run(After(seen, evs[0]), evs[1..])
  }

  // ---------- one product ----------

  /** The ids of one product's trades. */
  function Ids(ts: seq<Trade>, p: string): seq<int> {
    if ts == [] then []
    else if ts[0].product == p && ts[0].id.Some? then [ts[0].id.value] + Ids(ts[1..], p)
    else Ids(ts[1..], p)
  }

  function Newest(seen: Seen, p: string): Option<int> { if p in seen then Some(seen[p]) else None }

  /** The ids that are new to one product. */
  function New(newest: Option<int>, snapshot: bool, ids: seq<int>): seq<int> {
    if ids == [] then []
    else if IsNew(newest, snapshot, ids[0]) then [ids[0]] + New(newest, snapshot, ids[1..])
    else New(newest, snapshot, ids[1..])
  }

  predicate IsNew(newest: Option<int>, snapshot: bool, id: int) {
    if newest.Some? then id > newest.value else !snapshot
  }

  function InsertId(x: int, ids: seq<int>): seq<int> {
    if ids == [] || x <= ids[0] then [x] + ids else [ids[0]] + InsertId(x, ids[1..])
  }

  function SortIds(ids: seq<int>): seq<int> { if ids == [] then [] else InsertId(ids[0], SortIds(ids[1..])) }

  /** What one event hands on of one product: its new ids, sorted. */
  function HandedIds(newest: Option<int>, snapshot: bool, ids: seq<int>): seq<int> { SortIds(New(newest, snapshot, ids)) }

  function NewestAfter(newest: Option<int>, handed: seq<int>): Option<int> {
    if handed == [] then newest else Some(handed[|handed| - 1])
  }

  predicate Ascending(ts: seq<Trade>)
    requires HaveIds(ts)
  {
    |ts| >= 2 ==> ts[0].id.value <= ts[1].id.value && Ascending(ts[1..])
  }

  lemma {:induction false} IdsAppend(a: seq<Trade>, b: seq<Trade>, p: string)
    ensures Ids(a + b, p) == Ids(a, p) + Ids(b, p)
    decreases |a|
  {
    if a == [] {
      assert a + b == b;
    } else {
      assert (a + b)[1..] == a[1..] + b;
      IdsAppend(a[1..], b, p);
    }
  }

  lemma {:induction false} InsertAscends(t: Trade, ts: seq<Trade>)
    requires t.id.Some? && HaveIds(ts) && Ascending(ts)
    ensures Ascending(Insert(t, ts)) && (ts != [] ==> Insert(t, ts)[0] == t || Insert(t, ts)[0] == ts[0])
    ensures ts == [] ==> Insert(t, ts) == [t]
  {
    if ts != [] && t.id.value > ts[0].id.value {
      InsertAscends(t, ts[1..]);
    }
  }

  /** An ascending sequence has no id of any product below its first. */
  lemma {:induction false} IdsAtLeast(ts: seq<Trade>, p: string, x: int)
    requires HaveIds(ts) && Ascending(ts) && (ts != [] ==> x <= ts[0].id.value)
    ensures Ids(ts, p) != [] ==> x <= Ids(ts, p)[0]
  {
    if ts != [] && ts[0].product != p {
      IdsAtLeast(ts[1..], p, x);
    }
  }

  lemma IdsCons(t: Trade, ts: seq<Trade>, p: string)
    ensures Ids([t] + ts, p) == if t.product == p && t.id.Some? then [t.id.value] + Ids(ts, p) else Ids(ts, p)
  {
    assert ([t] + ts)[1..] == ts;
  }

  lemma InsertPast(x: int, y: int, ids: seq<int>)
    requires x > y
    ensures InsertId(x, [y] + ids) == [y] + InsertId(x, ids)
  {
    assert ([y] + ids)[1..] == ids;
  }

  lemma {:induction false} IdsOfInsert(t: Trade, ts: seq<Trade>, p: string)
    requires t.id.Some? && HaveIds(ts) && Ascending(ts)
    ensures Ids(Insert(t, ts), p) == if t.product == p then InsertId(t.id.value, Ids(ts, p)) else Ids(ts, p)
  {
    if ts == [] || t.id.value <= ts[0].id.value {
      IdsAtLeast(ts, p, t.id.value);
      IdsCons(t, ts, p);
    } else {
      IdsOfInsert(t, ts[1..], p);
      IdsCons(ts[0], Insert(t, ts[1..]), p);
      InsertPast(t.id.value, ts[0].id.value, Ids(ts[1..], p));
    }
  }

  /** Sorting all trades sorts each product's. */
  lemma {:induction false} IdsOfSort(ts: seq<Trade>, p: string)
    requires HaveIds(ts)
    ensures Ascending(Sort(ts)) && Ids(Sort(ts), p) == SortIds(Ids(ts, p))
  {
    if ts != [] {
      IdsOfSort(ts[1..], p);
      InsertAscends(ts[0], Sort(ts[1..]));
      IdsOfInsert(ts[0], Sort(ts[1..]), p);
      if ts[0].product == p {
        assert Ids(ts, p)[1..] == Ids(ts[1..], p);
      }
    }
  }

  lemma NewCons(newest: Option<int>, snapshot: bool, id: int, ids: seq<int>)
    ensures New(newest, snapshot, [id] + ids)
      == if IsNew(newest, snapshot, id) then [id] + New(newest, snapshot, ids) else New(newest, snapshot, ids)
  {
    assert ([id] + ids)[1..] == ids;
  }

  lemma {:induction false} IdsOfPassing(seen: Seen, snapshot: bool, ts: seq<Trade>, p: string)
    ensures Ids(Passing(seen, snapshot, ts), p) == New(Newest(seen, p), snapshot, Ids(ts, p))
  {
    if ts != [] {
      IdsOfPassing(seen, snapshot, ts[1..], p);
      var rest := Passing(seen, snapshot, ts[1..]);
      IdsCons(ts[0], rest, p);
      if ts[0].product == p && ts[0].id.Some? {
        NewCons(Newest(seen, p), snapshot, ts[0].id.value, Ids(ts[1..], p));
      }
    }
  }

  lemma {:induction false} NoIds(ts: seq<Trade>, p: string)
    requires forall t :: t in ts ==> t.id.None?
    ensures Ids(ts, p) == []
  {
    if ts != [] {
      NoIds(ts[1..], p);
    }
  }

  lemma {:induction false} ReverseHas(ts: seq<Trade>)
    ensures forall t :: t in Reverse(ts) <==> t in ts
  {
    if ts != [] {
      ReverseHas(ts[1..]);
    }
  }

  /** Each product is handed exactly its new ids, sorted, whatever other products' trades are
      between them. */
  lemma IdsOfToProcess(seen: Seen, ev: Event, p: string)
    ensures Ids(ToProcess(seen, ev), p) == HandedIds(Newest(seen, p), ev.snapshot, Ids(ev.trades, p))
  {
    var withId, withoutId := Passing(seen, ev.snapshot, ev.trades), WithoutId(ev.snapshot, ev.trades);
    IdsAppend(Sort(withId), Reverse(withoutId), p);
    IdsOfSort(withId, p);
    IdsOfPassing(seen, ev.snapshot, ev.trades, p);
    ReverseHas(withoutId);
    NoIds(Reverse(withoutId), p);
  }

  lemma {:induction false} NewestNoted(seen: Seen, ts: seq<Trade>, p: string)
    ensures Newest(AllNoted(seen, ts), p) == NewestAfter(Newest(seen, p), Ids(ts, p))
    decreases |ts|
  {
    if ts != [] {
      NewestNoted(Noted(seen, ts[0]), ts[1..], p);
    }
  }

  lemma NewestAfterEvent(seen: Seen, ev: Event, p: string)
    ensures Newest(After(seen, ev), p)
      == NewestAfter(Newest(seen, p), HandedIds(Newest(seen, p), ev.snapshot, Ids(ev.trades, p)))
  {
    IdsOfToProcess(seen, ev, p);
    NewestNoted(seen, ToProcess(seen, ev), p);
  }

  // ---------- sorted ids ----------

  /** Strictly increasing, and above the newest id there was. */
  predicate Climbs(newest: Option<int>, ids: seq<int>)
    decreases |ids|
  {
    ids == [] || ((newest.Some? ==> newest.value < ids[0]) && Climbs(Some(ids[0]), ids[1..]))
  }

  predicate Distinct(ids: seq<int>) { ids == [] || (ids[0] !in ids[1..] && Distinct(ids[1..])) }

  lemma {:induction false} InsertHas(x: int, ids: seq<int>)
    ensures forall y :: y in InsertId(x, ids) <==> y == x || y in ids
  {
    if ids != [] && x > ids[0] {
      InsertHas(x, ids[1..]);
      assert ids == [ids[0]] + ids[1..];
    } else {
      assert forall y :: y in [x] + ids <==> y == x || y in ids;
    }
  }

  lemma {:induction false} SortHas(ids: seq<int>)
    ensures forall y :: y in SortIds(ids) <==> y in ids
  {
    if ids != [] {
      SortHas(ids[1..]);
      InsertHas(ids[0], SortIds(ids[1..]));
      assert ids == [ids[0]] + ids[1..];
    }
  }

  lemma {:induction false} ClimbsAbove(newest: Option<int>, ids: seq<int>)
    requires Climbs(newest, ids) && newest.Some?
    ensures forall y :: y in ids ==> newest.value < y
    decreases |ids|
  {
    if ids != [] {
      ClimbsAbove(Some(ids[0]), ids[1..]);
      assert ids == [ids[0]] + ids[1..];
    }
  }

  lemma {:induction false} InsertClimbs(newest: Option<int>, x: int, ids: seq<int>)
    requires Climbs(newest, ids) && (newest.Some? ==> newest.value < x) && x !in ids
    ensures Climbs(newest, InsertId(x, ids))
    decreases |ids|
  {
    if ids == [] {
      assert [x][1..] == [];
    } else if x <= ids[0] {
      assert ([x] + ids)[1..] == ids;
      assert x != ids[0];
    } else {
      InsertClimbs(Some(ids[0]), x, ids[1..]);
      assert ([ids[0]] + InsertId(x, ids[1..]))[1..] == InsertId(x, ids[1..]);
    }
  }

  lemma {:induction false} SortClimbs(newest: Option<int>, ids: seq<int>)
    requires Distinct(ids) && (newest.Some? ==> forall y :: y in ids ==> newest.value < y)
    ensures Climbs(newest, SortIds(ids))
  {
    if ids != [] {
      assert ids[0] in ids && forall y :: y in ids[1..] ==> y in ids;
      SortClimbs(newest, ids[1..]);
      SortHas(ids[1..]);
      InsertClimbs(newest, ids[0], SortIds(ids[1..]));
    }
  }

  lemma {:induction false} InsertCounts(x: int, ids: seq<int>)
    ensures multiset(InsertId(x, ids)) == multiset{x} + multiset(ids)
  {
    if ids != [] && x > ids[0] {
      InsertCounts(x, ids[1..]);
      assert ids == [ids[0]] + ids[1..];
    }
  }

  lemma {:induction false} SortCounts(ids: seq<int>)
    ensures multiset(SortIds(ids)) == multiset(ids)
  {
    if ids != [] {
      SortCounts(ids[1..]);
      InsertCounts(ids[0], SortIds(ids[1..]));
      assert ids == [ids[0]] + ids[1..];
    }
  }

  lemma {:induction false} DistinctCounts(ids: seq<int>)
    ensures Distinct(ids) <==> forall y :: y in ids ==> multiset(ids)[y] == 1
  {
    if ids != [] {
      var rest := ids[1..];
      DistinctCounts(rest);
      assert ids == [ids[0]] + rest;
      assert multiset(ids) == multiset{ids[0]} + multiset(rest);
      if Distinct(ids) {
        forall y | y in ids ensures multiset(ids)[y] == 1 {
          assert y == ids[0] || y in rest;
        }
      }
      if forall y :: y in ids ==> multiset(ids)[y] == 1 {
        assert ids[0] in ids && multiset(ids)[ids[0]] == 1;
        forall y | y in rest ensures multiset(rest)[y] == 1 {
          assert y in ids && y in multiset(rest);
        }
      }
    }
  }

  lemma {:induction false} ClimbsDistinct(newest: Option<int>, ids: seq<int>)
    requires Climbs(newest, ids)
    ensures Distinct(ids)
    decreases |ids|
  {
    if ids != [] {
      ClimbsDistinct(Some(ids[0]), ids[1..]);
      ClimbsAbove(Some(ids[0]), ids[1..]);
    }
  }

  lemma {:induction false} NewIs(newest: Option<int>, snapshot: bool, ids: seq<int>)
    ensures forall y :: y in New(newest, snapshot, ids) <==> y in ids && IsNew(newest, snapshot, y)
  {
    if ids != [] {
      NewIs(newest, snapshot, ids[1..]);
      assert ids == [ids[0]] + ids[1..];
    }
  }

  lemma {:induction false} NewDistinct(newest: Option<int>, snapshot: bool, ids: seq<int>)
    requires Distinct(ids)
    ensures Distinct(New(newest, snapshot, ids))
  {
    if ids != [] {
      NewDistinct(newest, snapshot, ids[1..]);
      NewIs(newest, snapshot, ids[1..]);
      var rest := New(newest, snapshot, ids[1..]);
      assert ([ids[0]] + rest)[1..] == rest;
    }
  }

  // ---------- each trade counts once ----------

  /** One event hands a product exactly the ids above its newest (all of a live event's, none of a
      snapshot's, when there is no newest yet). */
  lemma HandedIff(seen: Seen, ev: Event, p: string, id: int)
    ensures id in Ids(ToProcess(seen, ev), p) <==>
      id in Ids(ev.trades, p) && if p in seen then id > seen[p] else !ev.snapshot
  {
    IdsOfToProcess(seen, ev, p);
    var novel := New(Newest(seen, p), ev.snapshot, Ids(ev.trades, p));
    SortHas(novel);
    NewIs(Newest(seen, p), ev.snapshot, Ids(ev.trades, p));
  }

  /** What one event hands a product climbs from its newest id exactly when no new id of it is in
      the event twice. */
  lemma EventClimbsIff(seen: Seen, ev: Event, p: string)
    ensures Climbs(Newest(seen, p), Ids(ToProcess(seen, ev), p))
      <==> Distinct(New(Newest(seen, p), ev.snapshot, Ids(ev.trades, p)))
  {
    IdsOfToProcess(seen, ev, p);
    var newest := Newest(seen, p);
    var novel := New(newest, ev.snapshot, Ids(ev.trades, p));
    NewIs(newest, ev.snapshot, Ids(ev.trades, p));
    if Distinct(novel) {
      SortClimbs(newest, novel);
    }
    if Climbs(newest, SortIds(novel)) {
      ClimbsDistinct(newest, SortIds(novel));
      SortCounts(novel);
      DistinctCounts(novel);
      DistinctCounts(SortIds(novel));
      SortHas(novel);
    }
  }

  /** Everything a run hands on of one product, in order. */
  function RunIds(seen: Seen, evs: seq<Event>, p: string): seq<int>
    decreases |evs|
  {
    if evs == [] then [] else Ids(ToProcess(seen, evs[0]), p) + RunIds(After(seen, evs[0]), evs[1..], p)
  }

  lemma {:induction false} ClimbsOn(newest: Option<int>, a: seq<int>, b: seq<int>)
    requires Climbs(newest, a) && Climbs(NewestAfter(newest, a), b)
    ensures Climbs(newest, a + b)
    decreases |a|
  {
    if a == [] {
      assert a + b == b;
    } else {
      assert (a + b)[1..] == a[1..] + b;
      ClimbsOn(Some(a[0]), a[1..], b);
    }
  }

  /** Over every run of live updates and snapshots, on any batch and over any reconnects, in which
      no event holds an id of the product twice, the ids handed on strictly increase: no trade
      counts twice. */
  lemma {:induction false} RunClimbs(seen: Seen, evs: seq<Event>, p: string)
    requires forall ev :: ev in evs ==> Distinct(Ids(ev.trades, p))
    ensures Climbs(Newest(seen, p), RunIds(seen, evs, p))
    ensures Newest(Run(seen, evs), p) == NewestAfter(Newest(seen, p), RunIds(seen, evs, p))
    decreases |evs|
  {
    if evs != [] {
      var ev := evs[0];
      assert ev in evs;
      NewDistinct(Newest(seen, p), ev.snapshot, Ids(ev.trades, p));
      EventClimbsIff(seen, ev, p);
      NewestNoted(seen, ToProcess(seen, ev), p);
      RunClimbs(After(seen, ev), evs[1..], p);
      ClimbsOn(Newest(seen, p), Ids(ToProcess(seen, ev), p), RunIds(After(seen, ev), evs[1..], p));
    }
  }

  // ---------- everything one event hands on ----------

  /** The trade counts: with an id above its product's newest; with any id, or none, in a live event
      of a product not heard of yet, or without one. */
  predicate Counts(seen: Seen, snapshot: bool, t: Trade) {
    if t.id.None? || t.product !in seen then !snapshot else t.id.value > seen[t.product]
  }

  lemma {:induction false} InsertHolds(t: Trade, ts: seq<Trade>)
    requires t.id.Some? && HaveIds(ts)
    ensures multiset(Insert(t, ts)) == multiset{t} + multiset(ts)
  {
    if ts != [] && t.id.value > ts[0].id.value {
      InsertHolds(t, ts[1..]);
      assert ts == [ts[0]] + ts[1..];
    }
  }

  lemma {:induction false} SortHolds(ts: seq<Trade>)
    requires HaveIds(ts)
    ensures multiset(Sort(ts)) == multiset(ts)
  {
    if ts != [] {
      SortHolds(ts[1..]);
      InsertHolds(ts[0], Sort(ts[1..]));
      assert ts == [ts[0]] + ts[1..];
    }
  }

  lemma {:induction false} ReverseHolds(ts: seq<Trade>)
    ensures multiset(Reverse(ts)) == multiset(ts)
  {
    if ts != [] {
      ReverseHolds(ts[1..]);
      assert ts == [ts[0]] + ts[1..];
    }
  }

  lemma {:induction false} FiltersHold(seen: Seen, snapshot: bool, ts: seq<Trade>, t: Trade)
    ensures multiset(Passing(seen, snapshot, ts))[t] + multiset(WithoutId(snapshot, ts))[t]
      == if Counts(seen, snapshot, t) then multiset(ts)[t] else 0
  {
    if ts != [] {
      FiltersHold(seen, snapshot, ts[1..], t);
      assert ts == [ts[0]] + ts[1..];
      assert multiset(ts) == multiset{ts[0]} + multiset(ts[1..]);
    }
  }

  /** Every trade is handed on as often as the event holds it if it counts, and otherwise never. */
  lemma HandsOnWhatCounts(seen: Seen, ev: Event, t: Trade)
    ensures multiset(ToProcess(seen, ev))[t] == if Counts(seen, ev.snapshot, t) then multiset(ev.trades)[t] else 0
  {
    var withId, withoutId := Passing(seen, ev.snapshot, ev.trades), WithoutId(ev.snapshot, ev.trades);
    SortHolds(withId);
    ReverseHolds(withoutId);
    FiltersHold(seen, ev.snapshot, ev.trades, t);
  }

  lemma {:induction false} AscendingAt(ts: seq<Trade>, i: nat, j: nat)
    requires HaveIds(ts) && Ascending(ts) && i <= j < |ts|
    ensures ts[i].id.value <= ts[j].id.value
    decreases |ts|
  {
    if i > 0 {
      AscendingAt(ts[1..], i - 1, j - 1);
    } else if j > 0 {
      AscendingAt(ts[1..], 0, j - 1);
    }
  }

  lemma {:induction false} ReverseAt(ts: seq<Trade>, k: nat)
    requires k < |ts|
    ensures |Reverse(ts)| == |ts| && Reverse(ts)[k] == ts[|ts| - 1 - k]
  {
    if |ts| > 1 {
      ReverseAt(ts[1..], if k < |ts| - 1 then k else 0);
    }
  }

  /** The later in the event before the earlier. */
  predicate Swapped(ts: seq<Trade>, a: Trade, b: Trade) {
    exists k, m :: 0 <= k < m < |ts| && ts[k] == b && ts[m] == a
  }

  lemma ReversedInOrder(snapshot: bool, ts: seq<Trade>, i: nat, j: nat)
    requires var out := Reverse(WithoutId(snapshot, ts)); i < j < |out|
    ensures var out := Reverse(WithoutId(snapshot, ts)); out[i].id.None? && out[j].id.None? && Swapped(ts, out[i], out[j])
  {
    var own := WithoutId(snapshot, ts);
    ReverseHolds(own);
    assert |multiset(Reverse(own))| == |multiset(own)|;
    hide Reverse, WithoutId, Swapped;
    ReverseAt(own, i);
    ReverseAt(own, j);
    WithoutIdInOrder(snapshot, ts, |own| - 1 - j, |own| - 1 - i);
    assert own[|own| - 1 - i] in own && own[|own| - 1 - j] in own;
  }

  /** The order: ids first and ascending, then what has none, and of that the later in the event
      before the earlier. */
  lemma HandsOnInOrder(seen: Seen, ev: Event, i: nat, j: nat)
    requires i < j < |ToProcess(seen, ev)|
    ensures var a, b := ToProcess(seen, ev)[i], ToProcess(seen, ev)[j];
      && (a.id.Some? && b.id.Some? ==> a.id.value <= b.id.value) && (a.id.None? ==> b.id.None?)
      && (a.id.None? ==> Swapped(ev.trades, a, b))
  {
    var withId := Passing(seen, ev.snapshot, ev.trades);
    var sorted, last := Sort(withId), Reverse(WithoutId(ev.snapshot, ev.trades));
    IdsOfSort(withId, "");
    ReverseHas(WithoutId(ev.snapshot, ev.trades));
    hide Passing, Sort, Ascending, Reverse, WithoutId, Swapped;
    if i >= |sorted| {
      ReversedInOrder(ev.snapshot, ev.trades, i - |sorted|, j - |sorted|);
    }
    TwoParts(sorted, last, ev.trades, i, j);
  }

  lemma TwoParts(sorted: seq<Trade>, last: seq<Trade>, ts: seq<Trade>, i: nat, j: nat)
    requires HaveIds(sorted) && Ascending(sorted) && (forall t :: t in last ==> t.id.None?)
    requires i < j < |sorted + last| && (i >= |sorted| ==> Swapped(ts, last[i - |sorted|], last[j - |sorted|]))
    ensures var a, b := (sorted + last)[i], (sorted + last)[j];
      && (a.id.Some? && b.id.Some? ==> a.id.value <= b.id.value) && (a.id.None? ==> b.id.None?)
      && (a.id.None? ==> Swapped(ts, a, b))
  {
    hide Ascending, Swapped;
    if j < |sorted| {
      AscendingAt(sorted, i, j);
    } else {
      assert last[j - |sorted|] in last;
      assert i < |sorted| ==> sorted[i] in sorted;
    }
  }

  lemma {:induction false} WithoutIdInOrder(snapshot: bool, ts: seq<Trade>, a: nat, b: nat)
    requires var out := WithoutId(snapshot, ts); a < b < |out|
    ensures var out := WithoutId(snapshot, ts);
      Swapped(ts, out[b], out[a])
  {
    var out, rest := WithoutId(snapshot, ts), WithoutId(snapshot, ts[1..]);
    if out == rest || a > 0 {
      var off := if out == rest then 0 else 1;
      WithoutIdInOrder(snapshot, ts[1..], a - off, b - off);
      var k, m :| 0 <= k < m < |ts[1..]| && ts[1..][k] == out[a] && ts[1..][m] == out[b];
      assert ts[k + 1] == out[a] && ts[m + 1] == out[b];
    } else {
      assert rest[b - 1] == out[b];
      WithoutIdIsPart(snapshot, ts[1..], b - 1);
      var m :| 0 <= m < |ts[1..]| && ts[1..][m] == out[b];
      assert ts[0] == out[0] && ts[m + 1] == out[b];
    }
  }

  lemma {:induction false} WithoutIdIsPart(snapshot: bool, ts: seq<Trade>, a: nat)
    requires a < |WithoutId(snapshot, ts)|
    ensures exists k :: 0 <= k < |ts| && ts[k] == WithoutId(snapshot, ts)[a]
  {
    var out, rest := WithoutId(snapshot, ts), WithoutId(snapshot, ts[1..]);
    if out == rest || a > 0 {
      WithoutIdIsPart(snapshot, ts[1..], if out == rest then a else a - 1);
      var k :| 0 <= k < |ts[1..]| && ts[1..][k] == out[a];
      assert ts[k + 1] == out[a];
    } else {
      assert ts[0] == out[0];
    }
  }

  // ---------- redelivery ----------

  predicate AtLeast(newest: Option<int>, id: int) { newest.Some? && id <= newest.value }

  predicate Sorted(ids: seq<int>) { |ids| >= 2 ==> ids[0] <= ids[1] && Sorted(ids[1..]) }

  lemma {:induction false} InsertSorted(x: int, ids: seq<int>)
    requires Sorted(ids)
    ensures Sorted(InsertId(x, ids))
    ensures InsertId(x, ids)[0] == x || (ids != [] && InsertId(x, ids)[0] == ids[0])
  {
    if ids != [] && x > ids[0] {
      InsertSorted(x, ids[1..]);
    }
  }

  lemma {:induction false} SortSorted(ids: seq<int>)
    ensures Sorted(SortIds(ids))
  {
    if ids != [] {
      SortSorted(ids[1..]);
      InsertSorted(ids[0], SortIds(ids[1..]));
    }
  }

  lemma {:induction false} SortedLast(ids: seq<int>)
    requires Sorted(ids)
    ensures forall y :: y in ids ==> y <= ids[|ids| - 1]
  {
    if |ids| >= 2 {
      SortedLast(ids[1..]);
      assert ids == [ids[0]] + ids[1..] && ids[1] in ids[1..];
    }
  }

  /** The newest id of a product is at least every id the product was ever handed or had passed
      over: an event's, unless it was a first snapshot. */
  lemma EventIsSeen(seen: Seen, ev: Event, p: string, id: int)
    requires AtLeast(Newest(seen, p), id) || (id in Ids(ev.trades, p) && (p in seen || !ev.snapshot))
    ensures AtLeast(Newest(After(seen, ev), p), id)
  {
    NewestAfterEvent(seen, ev, p);
    HandedIff(seen, ev, p, id);
    IdsOfToProcess(seen, ev, p);
    var handed := HandedIds(Newest(seen, p), ev.snapshot, Ids(ev.trades, p));
    SortSorted(New(Newest(seen, p), ev.snapshot, Ids(ev.trades, p)));
    SortedLast(handed);
    if handed != [] {
      HandedIff(seen, ev, p, handed[|handed| - 1]);
    }
  }

  lemma {:induction false} RunKeepsSeen(seen: Seen, evs: seq<Event>, p: string, id: int)
    requires AtLeast(Newest(seen, p), id)
    ensures AtLeast(Newest(Run(seen, evs), p), id)
    decreases |evs|
  {
    if evs != [] {
      EventIsSeen(seen, evs[0], p, id);
      RunKeepsSeen(After(seen, evs[0]), evs[1..], p, id);
    }
  }

  lemma {:induction false} NonePass(seen: Seen, snapshot: bool, ts: seq<Trade>)
    requires forall t :: t in ts ==> !Passes(seen, snapshot, t)
    ensures Passing(seen, snapshot, ts) == []
  {
    if ts != [] {
      assert ts[0] in ts;
      NonePass(seen, snapshot, ts[1..]);
    }
  }

  lemma {:induction false} IdOf(ts: seq<Trade>, t: Trade)
    requires t in ts && t.id.Some?
    ensures t.id.value in Ids(ts, t.product)
  {
    if t != ts[0] {
      IdOf(ts[1..], t);
    }
  }

  /** Redelivering an event that was processed, however much later, hands on none of its trades
      that have an id; a live event's trades without an id cannot be told apart and come again. */
  lemma RedeliveryIsNothing(seen: Seen, ev: Event, evs: seq<Event>)
    requires ev.snapshot ==> forall t :: t in ev.trades ==> t.product in seen
    ensures ToProcess(Run(After(seen, ev), evs), ev) == Reverse(WithoutId(ev.snapshot, ev.trades))
  {
    var later := Run(After(seen, ev), evs);
    forall t | t in ev.trades ensures !Passes(later, ev.snapshot, t) {
      if t.id.Some? {
        IdOf(ev.trades, t);
        EventIsSeen(seen, ev, t.product, t.id.value);
        RunKeepsSeen(After(seen, ev), evs, t.product, t.id.value);
      }
    }
    NonePass(later, ev.snapshot, ev.trades);
    assert Sort([]) + Reverse(WithoutId(ev.snapshot, ev.trades)) == Reverse(WithoutId(ev.snapshot, ev.trades));
  }

  lemma {:induction false} SnapshotsHaveIds(ts: seq<Trade>)
    ensures WithoutId(true, ts) == []
  {
    if ts != [] {
      SnapshotsHaveIds(ts[1..]);
    }
  }

  /** A snapshot contributes nothing exactly when none of its trades has an id above a newest one
      there is: before the first live trade of its products, always. */
  lemma SnapshotIsNothingIff(seen: Seen, ts: seq<Trade>)
    ensures ToProcess(seen, Event(true, ts)) == [] <==>
      forall t :: t in ts && t.id.Some? && t.product in seen ==> t.id.value <= seen[t.product]
  {
    SnapshotsHaveIds(ts);
    var out := ToProcess(seen, Event(true, ts));
    if forall t :: t in ts && t.id.Some? && t.product in seen ==> t.id.value <= seen[t.product] {
      NonePass(seen, true, ts);
    } else {
      var t :| t in ts && t.id.Some? && t.product in seen && t.id.value > seen[t.product];
      IdOf(ts, t);
      HandedIff(seen, Event(true, ts), t.product, t.id.value);
      assert Ids([], t.product) == [];
    }
  }

  // ---------- prices published ----------

  /** Of a snapshot's trades only the newest of each product becomes a price. */
  function NewestOnly(ts: seq<Trade>): seq<Trade> {
    if ts == [] then []
    else if Superseded(ts[0], ts[1..]) then NewestOnly(ts[1..])
    else [ts[0]] + NewestOnly(ts[1..])
  }

  predicate Superseded(t: Trade, later: seq<Trade>) { exists u :: u in later && u.product == t.product }

  function Published(snapshot: bool, ts: seq<Trade>): seq<Trade> { if snapshot then NewestOnly(ts) else ts }

  lemma {:induction false} NewestOnlyIds(ts: seq<Trade>, p: string)
    requires HaveIds(ts)
    ensures Ids(NewestOnly(ts), p) == LastOf(Ids(ts, p))
  {
    if ts != [] {
      var t, rest := ts[0], ts[1..];
      NewestOnlyIds(rest, p);
      IdsCons(t, NewestOnly(rest), p);
      LaterIds(rest, t.product);
      hide NewestOnly;
    }
  }

  function LastOf(ids: seq<int>): seq<int> { if ids == [] then [] else [ids[|ids| - 1]] }

  lemma LaterIds(ts: seq<Trade>, p: string)
    requires HaveIds(ts)
    ensures Ids(ts, p) != [] <==> exists t :: t in ts && t.product == p
  {
    if t :| t in ts && t.product == p {
      IdOf(ts, t);
    } else {
      NoneOf(ts, p);
    }
  }

  lemma {:induction false} NoneOf(ts: seq<Trade>, p: string)
    requires forall t :: t in ts ==> t.product != p
    ensures Ids(ts, p) == []
  {
    if ts != [] {
      NoneOf(ts[1..], p);
    }
  }

  /** A snapshot publishes at most one price for a product: that of its newest id, when that is
      above the newest there was. */
  lemma SnapshotPublishesNewest(seen: Seen, ts: seq<Trade>, p: string)
    ensures var ev := Event(true, ts);
      var out := Ids(Published(true, ToProcess(seen, ev)), p);
      if Newest(After(seen, ev), p) == Newest(seen, p) then out == []
      else |out| == 1 && Newest(After(seen, ev), p) == Some(out[0])
  {
    var ev := Event(true, ts);
    SnapshotsHaveIds(ts);
    var handed := ToProcess(seen, ev);
    assert handed == Sort(Passing(seen, true, ts)) + Reverse([]) == Sort(Passing(seen, true, ts));
    NewestOnlyIds(handed, p);
    NewestNoted(seen, handed, p);
    var ids := Ids(handed, p);
    if ids != [] {
      HandedIff(seen, ev, p, ids[|ids| - 1]);
    }
  }

  // ---------- the feed as it runs ----------

  lemma FirstOfRest(seen: Seen, snapshot: bool, ts: seq<Trade>, i: nat)
    requires i < |ts|
    ensures Passing(seen, snapshot, ts[i..])
      == if Passes(seen, snapshot, ts[i]) then [ts[i]] + Passing(seen, snapshot, ts[i + 1..])
         else Passing(seen, snapshot, ts[i + 1..])
    ensures WithoutId(snapshot, ts[i..])
      == if ts[i].id.None? && !snapshot then [ts[i]] + WithoutId(snapshot, ts[i + 1..])
         else WithoutId(snapshot, ts[i + 1..])
  {
    assert ts[i..][0] == ts[i] && ts[i..][1..] == ts[i + 1..];
  }

  lemma ProcessedOne(seen: Seen, snapshot: bool, ts: seq<Trade>, i: nat)
    requires i < |ts|
    ensures AllNoted(seen, ts[i..]) == AllNoted(Noted(seen, ts[i]), ts[i + 1..])
    ensures Published(snapshot, ts[i..])
      == if snapshot && Superseded(ts[i], ts[i + 1..]) then Published(snapshot, ts[i + 1..])
         else [ts[i]] + Published(snapshot, ts[i + 1..])
  {
    assert ts[i..][0] == ts[i] && ts[i..][1..] == ts[i + 1..];
    assert ts[i..] == [ts[i]] + ts[i + 1..];
  }

  lemma ProcessedAll(seen: Seen, snapshot: bool)
    ensures AllNoted(seen, []) == seen && Published(snapshot, []) == []
  {
  }

  lemma LivePublishesAll(ts: seq<Trade>)
    ensures Published(false, ts) == ts
  {
  }

  /** The module's map of newest ids, updated trade by trade. */
  class TradeFeed {
    var lastTradeIdByProduct: map<string, int>

    constructor ()
      ensures lastTradeIdByProduct == map[]
    {
      lastTradeIdByProduct := map[];
    }

    method TradesToProcess(ev: Event) returns (out: seq<Trade>)
      ensures out == ToProcess(lastTradeIdByProduct, ev)
    {
      hide Sort, Reverse;
      var seen := lastTradeIdByProduct;
      var withId, withoutId := [], [];
      var i := 0;
      while i < |ev.trades|
        invariant i <= |ev.trades|
        invariant withId + Passing(seen, ev.snapshot, ev.trades[i..]) == Passing(seen, ev.snapshot, ev.trades)
        invariant withoutId + WithoutId(ev.snapshot, ev.trades[i..]) == WithoutId(ev.snapshot, ev.trades)
      {
        var t := ev.trades[i];
        FirstOfRest(seen, ev.snapshot, ev.trades, i);
        hide Passing, WithoutId;
        i := i + 1;
        if t.id.None? {
          if !ev.snapshot {
            withoutId := withoutId + [t];
          }
        } else if (t.product !in seen && !ev.snapshot) || (t.product in seen && t.id.value > seen[t.product]) {
          withId := withId + [t];
        }
      }
      assert ev.trades[i..] == [];
      assert withId == Passing(seen, ev.snapshot, ev.trades) && withoutId == WithoutId(ev.snapshot, ev.trades);
      out := Sort(withId) + Reverse(withoutId);
    }

    /** Returns the trades handed to the aggregators and those published as prices. */
    method HandleEvent(ev: Event) returns (handed: seq<Trade>, prices: seq<Trade>)
      modifies this
      ensures handed == ToProcess(old(lastTradeIdByProduct), ev)
      ensures prices == Published(ev.snapshot, handed) && (!ev.snapshot ==> prices == handed)
      ensures lastTradeIdByProduct == After(old(lastTradeIdByProduct), ev)
    {
      hide ToProcess, Published, AllNoted, Superseded;
      handed := TradesToProcess(ev);
      LivePublishesAll(handed);
      prices := [];
      assert handed[0..] == handed;
      var i := 0;
      while i < |handed|
        invariant i <= |handed|
        invariant AllNoted(lastTradeIdByProduct, handed[i..]) == AllNoted(old(lastTradeIdByProduct), handed)
        invariant prices + Published(ev.snapshot, handed[i..]) == Published(ev.snapshot, handed)
      {
        var t := handed[i];
        ProcessedOne(lastTradeIdByProduct, ev.snapshot, handed, i);
        if t.id.Some? {
          lastTradeIdByProduct := lastTradeIdByProduct[t.product := t.id.value];
        }
        if !ev.snapshot || !Superseded(t, handed[i + 1..]) {
          prices := prices + [t];
        }
        i := i + 1;
      }
      assert handed[i..] == [];
      ProcessedAll(lastTradeIdByProduct, ev.snapshot);
    }
  }
}
