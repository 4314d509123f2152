/** A SPOT match's accounts for one player: match wallets funded at accept, moved in step with the
    position by every fill, and settled to USD at match end at the close prices the positions
    were booked at.  Sources: apps/api/src/competitions/matchWallets.ts and matchService.ts.

    Pairs are numbered; index i of every sequence belongs to pair i. */
module MatchSettlement {
  import opened Wrappers
  import opened Positions

  /** A resolved price reference: the touch, and the book levels to walk for size. */
  datatype Quote = Quote(touch: real, levels: seq<(real, real)>)

  /** Cache key of `ClosePrices`: the pair, and whether a long is being closed. */
  datatype Key = Key(pair: nat, closingLong: bool)

  /** `ClosePrices`.  `walk` prices a size against a reference (priceMarketFill, or the touch when
      there is no depth); it is deterministic, and otherwise unconstrained. */
  class ClosePrices {
    const walk: (Quote, real) -> real
    var cache: map<Key, Quote>

    constructor (walk: (Quote, real) -> real)
      ensures this.walk == walk && cache == map[]
    {
      this.walk := walk;
      cache := map[];
    }

    /** `get`, where `sources` is what the market sources would answer at this moment. */
    method Get(pair: nat, qty: real, entryFallback: real, sources: Option<Quote>) returns (price: real)
      modifies this
      ensures price == PriceOf(walk, old(cache), pair, qty, entryFallback, sources)
      ensures cache == CacheAfter(old(cache), pair, qty, sources)
      ensures var key, size := Key(pair, qty > 0.0), if qty < 0.0 then -qty else qty;
        if key in old(cache) then price == walk(old(cache)[key], size) && cache == old(cache)
        else if sources.Some? then price == walk(sources.value, size) && cache == old(cache)[key := sources.value]
        else price == entryFallback && cache == old(cache)
    {
      var key := KeyOf(pair, qty);
      var found := if key in cache then Some(cache[key]) else None;
      if found.None? {
        found := sources;
        if found.Some? {
          cache := cache[key := found.value];
        }
      }
      if found.None? {
        return entryFallback;
      }
      price := walk(found.value, Abs(qty));
    }
  }

  function KeyOf(pair: nat, qty: real): Key { Key(pair, qty > 0.0) }

  function Reference(cache: map<Key, Quote>, key: Key, sources: Option<Quote>): Option<Quote> {
    if key in cache then Some(cache[key]) else sources
  }

  function PriceOf(walk: (Quote, real) -> real, cache: map<Key, Quote>, pair: nat, qty: real, entryFallback: real,
                   sources: Option<Quote>): real {
    match Reference(cache, KeyOf(pair, qty), sources)
    case Some(q) => walk(q, Abs(qty))
    case None => entryFallback
  }

  function CacheAfter(cache: map<Key, Quote>, pair: nat, qty: real, sources: Option<Quote>): map<Key, Quote> {
    var key := KeyOf(pair, qty);
    if key !in cache && sources.Some? then cache[key := sources.value] else cache
  }

  // ---------- the account ----------

  datatype Account = Account(usd: real, base: seq<real>, positions: seq<Position>, fees: seq<real>) {
    predicate Shaped() { |base| == |positions| == |fees| }
  }

  /** `fundMatchWalletsTx`: starting capital in USD, an empty wallet per base asset. */
  function Funded(capital: real, pairs: nat): Account {
    Account(capital, seq(pairs, _ => 0.0), seq(pairs, _ => FLAT), seq(pairs, _ => 0.0))
  }

  /** One fill on pair i: base and USD move with the position, the fee is charged in USD. */
  function Trade(a: Account, i: nat, f: Fill): Account
    requires a.Shaped() && i < |a.base| && f.qty > 0.0
  {
    Account(a.usd - Signed(f) * f.price - f.fee,
            a.base[i := a.base[i] + Signed(f)],
            a.positions[i := ApplyFill(a.positions[i], f)],
            a.fees[i := a.fees[i] + f.fee])
  }

  /** The player's match result: realized profit net of fees, summed over the rows. */
  function Score(positions: seq<Position>, fees: seq<real>): real
    requires |positions| == |fees|
  {
    if positions == [] then 0.0
    else positions[0].realizedPnl - fees[0] + Score(positions[1..], fees[1..])
  }

  /** Profit net of fees with every open position valued at zero: the cash the fills left. */
  function Cash(positions: seq<Position>, fees: seq<real>): real
    requires |positions| == |fees|
  {
    if positions == [] then 0.0
    else Marked(positions[0], 0.0) - fees[0] + Cash(positions[1..], fees[1..])
  }

  /** Wallets and positions tell one story during the match. */
  predicate InStep(a: Account, capital: real) {
    && a.Shaped()
    && (forall i :: 0 <= i < |a.base| ==> a.base[i] == a.positions[i].qty)
    && a.usd == capital + Cash(a.positions, a.fees)
  }

  lemma {:induction false} CashUpdate(positions: seq<Position>, fees: seq<real>, i: nat, p: Position, fee: real)
    requires |positions| == |fees| && i < |fees|
    ensures Cash(positions[i := p], fees[i := fee])
         == Cash(positions, fees) + Marked(p, 0.0) - Marked(positions[i], 0.0) - fee + fees[i]
  {
    hide Marked;
    if i == 0 {
      assert positions[0 := p][1..] == positions[1..] && fees[0 := fee][1..] == fees[1..];
    } else {
      CashUpdate(positions[1..], fees[1..], i - 1, p, fee);
      assert positions[i := p][1..] == positions[1..][i - 1 := p];
      assert fees[i := fee][1..] == fees[1..][i - 1 := fee];
    }
  }

  lemma {:induction false} FundedInStep(capital: real, pairs: nat)
    ensures InStep(Funded(capital, pairs), capital)
    decreases pairs
  {
    var a := Funded(capital, pairs);
    if pairs > 0 {
      FundedInStep(capital, pairs - 1);
      var b := Funded(capital, pairs - 1);
      assert a.positions[1..] == b.positions && a.fees[1..] == b.fees;
    }
  }

  lemma {:induction false} FillAtZero(pos: Position, f: Fill)
    requires f.qty > 0.0
    ensures Marked(ApplyFill(pos, f), 0.0) == Marked(pos, 0.0) - Signed(f) * f.price
    ensures ApplyFill(pos, f).qty == pos.qty + Signed(f)
  {
    FillConserves(pos, f, 0.0);
  }

  lemma {:induction false} TradeKeepsInStep(a: Account, capital: real, i: nat, f: Fill)
    requires InStep(a, capital) && i < |a.base| && f.qty > 0.0
    ensures InStep(Trade(a, i, f), capital)
  {
    hide ApplyFill, Marked;
    FillAtZero(a.positions[i], f);
    CashUpdate(a.positions, a.fees, i, ApplyFill(a.positions[i], f), a.fees[i] + f.fee);
  }

  datatype MatchFill = MatchFill(pair: nat, fill: Fill)

  function RunMatch(a: Account, fills: seq<MatchFill>): Account
    requires a.Shaped()
    requires forall x :: x in fills ==> x.pair < |a.base| && x.fill.qty > 0.0
    decreases |fills|
  {
    if fills == [] then a else RunMatch(Trade(a, fills[0].pair, fills[0].fill), fills[1..])
  }

  /** After any run of fills the wallets still agree with the positions. */
  lemma {:induction false} RunKeepsInStep(a: Account, capital: real, fills: seq<MatchFill>)
    requires InStep(a, capital)
    requires forall x :: x in fills ==> x.pair < |a.base| && x.fill.qty > 0.0
    ensures InStep(RunMatch(a, fills), capital)
    ensures |RunMatch(a, fills).base| == |a.base|
    decreases |fills|
  {
    if fills != [] {
      TradeKeepsInStep(a, capital, fills[0].pair, fills[0].fill);
      RunKeepsInStep(Trade(a, fills[0].pair, fills[0].fill), capital, fills[1..]);
    }
  }

  // ---------- match end ----------

  /** The row after the force-close at `price`: profit booked, flat, entry zeroed. */
  function ClosedAt(p: Position, price: real): Position {
    Position(0.0, 0.0, p.realizedPnl + p.qty * (price - p.avgEntry))
  }

  datatype Sources = Sources(walk: (Quote, real) -> real, quotes: seq<Option<Quote>>) {
    predicate Covers(n: nat) { |quotes| == n }

    function Rest(): Sources
      requires quotes != []
    {
      Sources(walk, quotes[1..])
    }
  }

  /** `closeMatchScopedPositions` over the rows of pairs first, first + 1, ... */
  function ClosePass(cache: map<Key, Quote>, ps: seq<Position>, first: nat, s: Sources): (seq<Position>, map<Key, Quote>)
    requires s.Covers(|ps|)
    decreases |ps|
  {
    if ps == [] then ([], cache)
    else if ps[0].qty == 0.0 then
      var (rest, after) := ClosePass(cache, ps[1..], first + 1, s.Rest());
      ([ps[0]] + rest, after)
    else
      var price := PriceOf(s.walk, cache, first, ps[0].qty, ps[0].avgEntry, s.quotes[0]);
      var (rest, after) := ClosePass(CacheAfter(cache, first, ps[0].qty, s.quotes[0]), ps[1..], first + 1, s.Rest());
      ([ClosedAt(ps[0], price)] + rest, after)
  }

  /** `settleMatchWalletsTx`: what the base wallets add to USD.  The fallback price is the entry
      read from the position row at this point, after the force-close. */
  function WalletPass(cache: map<Key, Quote>, base: seq<real>, ps: seq<Position>, first: nat, s: Sources): real
    requires s.Covers(|ps|) && |base| == |ps|
    decreases |ps|
  {
    if ps == [] then 0.0
    else if base[0] == 0.0 then WalletPass(cache, base[1..], ps[1..], first + 1, s.Rest())
    else
      base[0] * PriceOf(s.walk, cache, first, base[0], ps[0].avgEntry, s.quotes[0])
      + WalletPass(CacheAfter(cache, first, base[0], s.quotes[0]), base[1..], ps[1..], first + 1, s.Rest())
  }

  /** The account after match end.  `early` is what the sources answer while the positions are
      closed, `late` what they answer while the wallets are settled. */
  function Settle(cache: map<Key, Quote>, a: Account, early: Sources, late: Sources): Account
    requires a.Shaped() && early.Covers(|a.base|) && late.Covers(|a.base|)
  {
    ClosePassLength(cache, a.positions, 0, early);
    var (positions, after) := ClosePass(cache, a.positions, 0, early);
    Account(a.usd + WalletPass(after, a.base, positions, 0, late), seq(|a.base|, _ => 0.0), positions, a.fees)
  }

  lemma {:induction false} ClosePassLength(cache: map<Key, Quote>, ps: seq<Position>, first: nat, s: Sources)
    requires s.Covers(|ps|)
    ensures |ClosePass(cache, ps, first, s).0| == |ps|
    decreases |ps|
  {
    if ps != [] {
      ClosePassLength(cache, ps[1..], first + 1, s.Rest());
      ClosePassLength(CacheAfter(cache, first, ps[0].qty, s.quotes[0]), ps[1..], first + 1, s.Rest());
    }
  }

  /** A flat row stays as it is.  An open one is flat afterwards and has booked its size times what
      its close price is above its entry. */
  predicate RowClosed(was: Position, row: Position, price: real) {
    if was.qty == 0.0 then row == was
    else row.qty == row.avgEntry == 0.0 && row.realizedPnl - was.realizedPnl == was.qty * price - was.qty * was.avgEntry
  }

  /** Every row is closed at the price that the references known before the pass give: no row's
      pricing changes another's. */
  lemma {:induction false} ClosePassRow(cache: map<Key, Quote>, ps: seq<Position>, first: nat, s: Sources, i: nat)
    requires s.Covers(|ps|) && i < |ps|
    ensures |ClosePass(cache, ps, first, s).0| == |ps|
    ensures RowClosed(ps[i], ClosePass(cache, ps, first, s).0[i],
                      PriceOf(s.walk, cache, first + i, ps[i].qty, ps[i].avgEntry, s.quotes[i]))
    decreases |ps|
  {
    ClosePassLength(cache, ps, first, s);
    ClosePassStep(cache, ps, first, s);
    if i == 0 {
      assert ps[0].qty * (0.0 - ps[0].avgEntry) == -(ps[0].qty * ps[0].avgEntry);
    } else {
      var next := CacheNext(cache, first, ps[0].qty, s.quotes[0]);
      OthersPriced(cache, next, s, first, ps[0].qty, i, ps[i]);
      hide ClosePass, RowClosed, CacheNext, PriceOf, ClosedAt;
      ClosePassRow(next, ps[1..], first + 1, s.Rest(), i - 1);
      assert ClosePass(cache, ps, first, s).0[i] == ClosePass(cache, ps, first, s).0[1..][i - 1];
      assert first + 1 + (i - 1) == first + i;
    }
  }

  lemma OthersPriced(cache: map<Key, Quote>, next: map<Key, Quote>, s: Sources, pair: nat, qty: real, i: nat, p: Position)
    requires 0 < i < |s.quotes| && next == CacheNext(cache, pair, qty, s.quotes[0])
    ensures PriceOf(s.walk, next, pair + i, p.qty, p.avgEntry, s.quotes[i])
      == PriceOf(s.walk, cache, pair + i, p.qty, p.avgEntry, s.quotes[i])
  {
    assert Key(pair + i, p.qty > 0.0) in next <==> Key(pair + i, p.qty > 0.0) in cache;
  }

  /** No market price was found for this open row when it was force-closed. */
  predicate Unpriced(cache: map<Key, Quote>, p: Position, pair: nat, early: Option<Quote>) {
    p.qty != 0.0 && Reference(cache, KeyOf(pair, p.qty), early).None?
  }

  /** For a row closed at its own entry: what the wallets settle at instead, less that entry.  The
      fallback entry is zero by then. */
  function GapOf(walk: (Quote, real) -> real, p: Position, late: Option<Quote>): real {
    p.qty * ((if late.Some? then walk(late.value, Abs(p.qty)) else 0.0) - p.avgEntry)
  }

  /** The gaps of the rows that were closed without a market price. */
  function Gap(cache: map<Key, Quote>, ps: seq<Position>, first: nat, early: Sources, late: Sources): real
    requires early.Covers(|ps|) && late.Covers(|ps|)
    decreases |ps|
  {
    if ps == [] then 0.0
    else
      (if Unpriced(cache, ps[0], first, early.quotes[0]) then GapOf(late.walk, ps[0], late.quotes[0]) else 0.0)
      + Gap(cache, ps[1..], first + 1, early.Rest(), late.Rest())
  }

  /** The caches agree on every pair from `first` on. */
  ghost predicate AgreeFrom(c: map<Key, Quote>, d: map<Key, Quote>, first: nat) {
    forall k: Key :: k.pair >= first ==> (k in c <==> k in d) && (k in c ==> c[k] == d[k])
  }

  lemma {:induction false} ClosePassKeeps(cache: map<Key, Quote>, ps: seq<Position>, first: nat, s: Sources, k: Key)
    requires s.Covers(|ps|) && k.pair < first
    ensures k in ClosePass(cache, ps, first, s).1 <==> k in cache
    ensures k in cache ==> ClosePass(cache, ps, first, s).1[k] == cache[k]
    decreases |ps|
  {
    if ps != [] {
      ClosePassKeeps(if ps[0].qty == 0.0 then cache else CacheAfter(cache, first, ps[0].qty, s.quotes[0]),
                     ps[1..], first + 1, s.Rest(), k);
    }
  }

  /** One open row: what its base wallet settles for plus the cash its fills left is its booked
      profit, plus the gap when it was closed without a market price. */
  lemma {:induction false} RowSettles(c: map<Key, Quote>, d: map<Key, Quote>, p: Position, pair: nat, s: Sources, t: Sources)
    requires s.walk == t.walk && s.quotes != [] && t.quotes != []
    requires p.qty != 0.0
    requires var key := KeyOf(pair, p.qty);
      var after := CacheAfter(c, pair, p.qty, s.quotes[0]);
      (key in after <==> key in d) && (key in d ==> after[key] == d[key])
    ensures var closed := ClosedAt(p, PriceOf(s.walk, c, pair, p.qty, p.avgEntry, s.quotes[0]));
      p.qty * PriceOf(t.walk, d, pair, p.qty, closed.avgEntry, t.quotes[0]) + Marked(p, 0.0)
      == closed.realizedPnl
         + if Unpriced(c, p, pair, s.quotes[0]) then GapOf(t.walk, p, t.quotes[0]) else 0.0
  {
    assert p.qty * (0.0 - p.avgEntry) == -(p.qty * p.avgEntry);
  }

  lemma {:induction false} FlatRow(p: Position)
    requires p.qty == 0.0
    ensures Marked(p, 0.0) == p.realizedPnl
  {
  }

  /** Closing one row touches only its own pair's keys. */
  function CacheNext(cache: map<Key, Quote>, pair: nat, qty: real, sources: Option<Quote>): map<Key, Quote> {
    if qty == 0.0 then cache else CacheAfter(cache, pair, qty, sources)
  }

  lemma {:induction false} AgreeNext(c: map<Key, Quote>, d: map<Key, Quote>, pair: nat, qty: real, sources: Option<Quote>)
    requires AgreeFrom(c, d, pair)
    ensures AgreeFrom(c, CacheNext(d, pair, qty, sources), pair + 1)
  {
  }

  lemma {:induction false} ClosePassStep(cache: map<Key, Quote>, ps: seq<Position>, first: nat, s: Sources)
    requires s.Covers(|ps|) && ps != []
    ensures var p := ps[0];
      var row := if p.qty == 0.0 then p else ClosedAt(p, PriceOf(s.walk, cache, first, p.qty, p.avgEntry, s.quotes[0]));
      var rest := ClosePass(CacheNext(cache, first, p.qty, s.quotes[0]), ps[1..], first + 1, s.Rest());
      var all := ClosePass(cache, ps, first, s);
      all.0 != [] && all.0[0] == row && all.0[1..] == rest.0 && all.1 == rest.1
  {
  }

  /** What a base wallet settles for. */
  function SettledFor(walk: (Quote, real) -> real, cache: map<Key, Quote>, pair: nat, qty: real, entry: real,
                      sources: Option<Quote>): real
  {
    if qty == 0.0 then 0.0 else qty * PriceOf(walk, cache, pair, qty, entry, sources)
  }

  /** The settled value of the row of pair `first`. */
  lemma {:induction false} RowSettlesInPass(g: map<Key, Quote>, c: map<Key, Quote>, d: map<Key, Quote>, ps: seq<Position>,
                         first: nat, s: Sources, t: Sources)
    requires s.walk == t.walk && s.Covers(|ps|) && t.Covers(|ps|) && ps != []
    requires AgreeFrom(g, c, first) && AgreeFrom(ClosePass(c, ps, first, s).1, d, first)
    ensures var p, row := ps[0], ClosePass(c, ps, first, s).0;
      row != [] &&
      SettledFor(t.walk, d, first, p.qty, row[0].avgEntry, t.quotes[0]) + Marked(p, 0.0)
      == row[0].realizedPnl + if Unpriced(g, p, first, s.quotes[0]) then GapOf(t.walk, p, t.quotes[0]) else 0.0
  {
    var p := ps[0];
    hide ClosePass;
    ClosePassStep(c, ps, first, s);
    if p.qty == 0.0 {
      FlatRow(p);
    } else {
      ClosePassKeeps(CacheNext(c, first, p.qty, s.quotes[0]), ps[1..], first + 1, s.Rest(), KeyOf(first, p.qty));
      RowSettles(c, d, p, first, s, t);
    }
  }

  /** The rows from pair `first` on.  c is the cache while they are closed, d while their wallets
      are settled, g the one the gaps are read off. */
  lemma {:induction false} RowsSettle(g: map<Key, Quote>, c: map<Key, Quote>, d: map<Key, Quote>, ps: seq<Position>,
                                      base: seq<real>, fees: seq<real>, first: nat, s: Sources, t: Sources)
    requires s.walk == t.walk && s.Covers(|ps|) && t.Covers(|ps|) && |base| == |ps| == |fees|
    requires forall i :: 0 <= i < |base| ==> base[i] == ps[i].qty
    requires AgreeFrom(g, c, first) && AgreeFrom(ClosePass(c, ps, first, s).1, d, first)
    ensures |ClosePass(c, ps, first, s).0| == |ps|
    ensures WalletPass(d, base, ClosePass(c, ps, first, s).0, first, t) + Cash(ps, fees)
         == Score(ClosePass(c, ps, first, s).0, fees) + Gap(g, ps, first, s, t)
    decreases |ps|
  {
    ClosePassLength(c, ps, first, s);
    if ps != [] {
      var p := ps[0];
      hide Marked, PriceOf, GapOf, ClosedAt, Unpriced, ClosePass, WalletPass, AgreeFrom, CacheNext, CacheAfter, SettledFor;
      ClosePassStep(c, ps, first, s);
      var rows := ClosePass(c, ps, first, s).0;
      assert Score(rows, fees) == rows[0].realizedPnl - fees[0] + Score(rows[1..], fees[1..]);
      assert Cash(ps, fees) == Marked(p, 0.0) - fees[0] + Cash(ps[1..], fees[1..]);
      assert Gap(g, ps, first, s, t)
        == (if Unpriced(g, p, first, s.quotes[0]) then GapOf(t.walk, p, t.quotes[0]) else 0.0)
           + Gap(g, ps[1..], first + 1, s.Rest(), t.Rest());
      hide Score, Cash, Gap;
      RowSettlesInPass(g, c, d, ps, first, s, t);
      var c1, d1 := CacheNext(c, first, p.qty, s.quotes[0]), CacheNext(d, first, p.qty, t.quotes[0]);
      AgreeNext(g, c, first, p.qty, s.quotes[0]);
      AgreeNext(ClosePass(c, ps, first, s).1, d, first, p.qty, t.quotes[0]);
      RowsSettle(g, c1, d1, ps[1..], base[1..], fees[1..], first + 1, s.Rest(), t.Rest());
      WalletPassStep(d, base, ClosePass(c, ps, first, s).0, first, t);
    }
  }

  lemma {:induction false} WalletPassStep(cache: map<Key, Quote>, base: seq<real>, ps: seq<Position>, first: nat, s: Sources)
    requires s.Covers(|ps|) && |base| == |ps| && ps != []
    ensures WalletPass(cache, base, ps, first, s)
         == SettledFor(s.walk, cache, first, base[0], ps[0].avgEntry, s.quotes[0])
            + WalletPass(CacheNext(cache, first, base[0], s.quotes[0]), base[1..], ps[1..], first + 1, s.Rest())
  {
  }

  lemma {:induction false} ClosePassFlat(cache: map<Key, Quote>, ps: seq<Position>, first: nat, s: Sources)
    requires s.Covers(|ps|)
    ensures forall p :: p in ClosePass(cache, ps, first, s).0 ==> p.qty == 0.0
    decreases |ps|
  {
    if ps != [] {
      ClosePassFlat(if ps[0].qty == 0.0 then cache else CacheAfter(cache, first, ps[0].qty, s.quotes[0]),
                    ps[1..], first + 1, s.Rest());
    }
  }

  /** For every match: after match end every base wallet is empty, every position is flat, and USD
      is the starting capital plus the score plus the gaps. */
  lemma {:induction false} SettlementBalances(capital: real, pairs: nat, fills: seq<MatchFill>, cache: map<Key, Quote>, early: Sources,
                           late: Sources)
    requires forall x :: x in fills ==> x.pair < pairs && x.fill.qty > 0.0
    requires early.walk == late.walk && early.Covers(pairs) && late.Covers(pairs)
    ensures var a := RunMatch(Funded(capital, pairs), fills);
      a.Shaped() && |a.base| == pairs &&
      var end := Settle(cache, a, early, late);
      && (forall x :: x in end.base ==> x == 0.0)
      && (forall p :: p in end.positions ==> p.qty == 0.0)
      && |end.positions| == |end.fees|
      && end.usd == capital + Score(end.positions, end.fees) + Gap(cache, a.positions, 0, early, late)
  {
    FundedInStep(capital, pairs);
    RunKeepsInStep(Funded(capital, pairs), capital, fills);
    var a := RunMatch(Funded(capital, pairs), fills);
    ClosePassLength(cache, a.positions, 0, early);
    ClosePassFlat(cache, a.positions, 0, early);
    RowsSettle(cache, cache, ClosePass(cache, a.positions, 0, early).1, a.positions, a.base, a.fees, 0, early, late);
  }

  /** The wallets agree with the score exactly when the unpriced rows' gaps cancel; with a market
      price for every open row, always. */
  lemma {:induction false} ScoreAgreesIff(capital: real, pairs: nat, fills: seq<MatchFill>, cache: map<Key, Quote>, early: Sources,
                       late: Sources)
    requires forall x :: x in fills ==> x.pair < pairs && x.fill.qty > 0.0
    requires early.walk == late.walk && early.Covers(pairs) && late.Covers(pairs)
    ensures var a := RunMatch(Funded(capital, pairs), fills);
      a.Shaped() && |a.base| == pairs && |a.positions| == pairs &&
      var end := Settle(cache, a, early, late);
      && |end.positions| == |end.fees|
      && (end.usd == capital + Score(end.positions, end.fees) <==> Gap(cache, a.positions, 0, early, late) == 0.0)
      && ((forall i :: 0 <= i < pairs ==> !Unpriced(cache, a.positions[i], i, early.quotes[i])) ==>
            end.usd == capital + Score(end.positions, end.fees))
  {
    SettlementBalances(capital, pairs, fills, cache, early, late);
    var a := RunMatch(Funded(capital, pairs), fills);
    if forall i :: 0 <= i < pairs ==> !Unpriced(cache, a.positions[i], i, early.quotes[i]) {
      NoGap(cache, a.positions, 0, early, late);
    }
  }

  lemma {:induction false} NoGap(cache: map<Key, Quote>, ps: seq<Position>, first: nat, early: Sources, late: Sources)
    requires early.Covers(|ps|) && late.Covers(|ps|)
    requires forall i :: 0 <= i < |ps| ==> !Unpriced(cache, ps[i], first + i, early.quotes[i])
    ensures Gap(cache, ps, first, early, late) == 0.0
    decreases |ps|
  {
    if ps != [] {
      assert !Unpriced(cache, ps[0], first + 0, early.quotes[0]);
      forall i | 0 <= i < |ps[1..]|
        ensures !Unpriced(cache, ps[1..][i], first + 1 + i, early.Rest().quotes[i])
      {
        assert !Unpriced(cache, ps[i + 1], first + (i + 1), early.quotes[i + 1]);
      }
      NoGap(cache, ps[1..], first + 1, early.Rest(), late.Rest());
    }
  }

  /** With no price source at any time, a single position's wallets agree with its score exactly
      when it is flat or was entered at zero: the force-close books it at its entry, and the
      settlement then reads that entry back as zero. */
  lemma {:induction false} UnpricedAgreesIff(capital: real, fills: seq<MatchFill>, walk: (Quote, real) -> real)
    requires forall x :: x in fills ==> x.pair < 1 && x.fill.qty > 0.0
    ensures var a, none := RunMatch(Funded(capital, 1), fills), Sources(walk, [None]);
      a.Shaped() && |a.base| == 1 && |a.positions| == 1 &&
      var end := Settle(map[], a, none, none);
      && |end.positions| == |end.fees|
      && (end.usd == capital + Score(end.positions, end.fees)
          <==> a.positions[0].qty == 0.0 || a.positions[0].avgEntry == 0.0)
  {
    var none := Sources(walk, [None]);
    ScoreAgreesIff(capital, 1, fills, map[], none, none);
    OneGap(RunMatch(Funded(capital, 1), fills).positions, none);
  }

  lemma {:induction false} OneGap(ps: seq<Position>, none: Sources)
    requires |ps| == 1 && none.quotes == [None]
    ensures Gap(map[], ps, 0, none, none) == 0.0 <==> ps[0].qty == 0.0 || ps[0].avgEntry == 0.0
  {
    assert Gap(map[], ps[1..], 1, none.Rest(), none.Rest()) == 0.0;
  }

  // ---------- the source's loops ----------

  lemma {:induction false} PassesNil(cache: map<Key, Quote>, first: nat, s: Sources)
    requires s.Covers(0)
    ensures ClosePass(cache, [], first, s) == ([], cache)
    ensures WalletPass(cache, [], [], first, s) == 0.0
  {
  }

  lemma {:induction false} ClosePassCons(cache: map<Key, Quote>, ps: seq<Position>, i: nat, s: Sources)
    requires s.Covers(|ps|) && i < |ps|
    ensures var p := ps[i];
      var row := if p.qty == 0.0 then p else ClosedAt(p, PriceOf(s.walk, cache, i, p.qty, p.avgEntry, s.quotes[i]));
      var next := if p.qty == 0.0 then cache else CacheAfter(cache, i, p.qty, s.quotes[i]);
      var rest := ClosePass(next, ps[i + 1..], i + 1, Sources(s.walk, s.quotes[i + 1..]));
      ClosePass(cache, ps[i..], i, Sources(s.walk, s.quotes[i..])) == ([row] + rest.0, rest.1)
  {
    assert ps[i..][0] == ps[i] && ps[i..][1..] == ps[i + 1..];
    assert s.quotes[i..][0] == s.quotes[i] && s.quotes[i..][1..] == s.quotes[i + 1..];
  }

  lemma {:induction false} WalletPassCons(cache: map<Key, Quote>, base: seq<real>, ps: seq<Position>, i: nat, s: Sources)
    requires s.Covers(|ps|) && |base| == |ps| && i < |ps|
    ensures var rest := (next: map<Key, Quote>) =>
        WalletPass(next, base[i + 1..], ps[i + 1..], i + 1, Sources(s.walk, s.quotes[i + 1..]));
      WalletPass(cache, base[i..], ps[i..], i, Sources(s.walk, s.quotes[i..]))
      == if base[i] == 0.0 then rest(cache)
         else base[i] * PriceOf(s.walk, cache, i, base[i], ps[i].avgEntry, s.quotes[i])
              + rest(CacheAfter(cache, i, base[i], s.quotes[i]))
  {
    assert base[i..][0] == base[i] && base[i..][1..] == base[i + 1..];
    assert ps[i..][0] == ps[i] && ps[i..][1..] == ps[i + 1..];
    assert s.quotes[i..][0] == s.quotes[i] && s.quotes[i..][1..] == s.quotes[i + 1..];
  }

  class MatchAccount {
    var usd: real
    var base: seq<real>
    var positions: seq<Position>
    var fees: seq<real>

    function View(): Account
      reads this
    {
      Account(usd, base, positions, fees)
    }

    constructor (capital: real, pairs: nat)
      ensures View() == Funded(capital, pairs)
    {
      usd := capital;
      base, positions, fees := seq(pairs, _ => 0.0), seq(pairs, _ => FLAT), seq(pairs, _ => 0.0);
    }

    method ApplyTrade(i: nat, f: Fill)
      requires View().Shaped() && i < |base| && f.qty > 0.0
      modifies this
      ensures View() == Trade(old(View()), i, f)
    {
      usd := usd - Signed(f) * f.price - f.fee;
      base := base[i := base[i] + Signed(f)];
      positions := positions[i := ApplyFill(positions[i], f)];
      fees := fees[i := fees[i] + f.fee];
    }

    /** `closeMatchScopedPositions`. */
    method CloseScopedPositions(prices: ClosePrices, s: Sources)
      requires View().Shaped() && s.Covers(|base|) && s.walk == prices.walk
      modifies this, prices
      ensures (positions, prices.cache) == ClosePass(old(prices.cache), old(positions), 0, s)
      ensures base == old(base) && fees == old(fees) && usd == old(usd)
      ensures |positions| == |old(positions)| && forall i :: 0 <= i < |positions| ==> var was := old(positions)[i];
        RowClosed(was, positions[i], PriceOf(s.walk, old(prices.cache), i, was.qty, was.avgEntry, s.quotes[i]))
    {
      hide RowClosed;
      hide ClosePass, ClosedAt, PriceOf, CacheAfter, KeyOf;
      ghost var start, all := positions, ClosePass(prices.cache, positions, 0, s);
      var i := 0;
      assert start[0..] == start && s.quotes[0..] == s.quotes && positions[..0] + all.0 == all.0;
      while i < |positions|
        invariant 0 <= i <= |positions| == |start|
        invariant forall k :: i <= k < |start| ==> positions[k] == start[k]
        invariant var rest := ClosePass(prices.cache, start[i..], i, Sources(s.walk, s.quotes[i..]));
          all.0 == positions[..i] + rest.0 && all.1 == rest.1
        invariant base == old(base) && fees == old(fees) && usd == old(usd)
      {
        ClosePassCons(prices.cache, start, i, s);
        ghost var done := positions[..i];
        var p := positions[i];
        if p.qty != 0.0 {
          var price := prices.Get(i, p.qty, p.avgEntry, s.quotes[i]);
          positions := positions[i := ClosedAt(p, price)];
        }
        assert positions[..i + 1] == done + [positions[i]];
        ghost var rest := ClosePass(prices.cache, start[i + 1..], i + 1, Sources(s.walk, s.quotes[i + 1..]));
        assert done + ([positions[i]] + rest.0) == positions[..i + 1] + rest.0;
        i := i + 1;
      }
      PassesNil(prices.cache, i, Sources(s.walk, s.quotes[i..]));
      assert start[i..] == [] && positions[..i] + [] == positions;
      forall k | 0 <= k < |start|
        ensures RowClosed(start[k], all.0[k], PriceOf(s.walk, old(prices.cache), k, start[k].qty, start[k].avgEntry, s.quotes[k]))
      {
        ClosePassRow(old(prices.cache), start, 0, s, k);
      }
    }

    /** `settleMatchWalletsTx`. */
    method SettleWallets(prices: ClosePrices, s: Sources)
      requires View().Shaped() && s.Covers(|base|) && s.walk == prices.walk
      modifies this, prices
      ensures usd == old(usd) + WalletPass(old(prices.cache), old(base), old(positions), 0, s)
      ensures |base| == |old(base)| && forall k :: 0 <= k < |base| ==> base[k] == 0.0
      ensures positions == old(positions) && fees == old(fees)
    {
      hide WalletPass, PriceOf, CacheAfter, KeyOf;
      ghost var start, all := base, WalletPass(prices.cache, base, positions, 0, s);
      ghost var before := usd;
      var i := 0;
      assert start[0..] == start && s.quotes[0..] == s.quotes && positions[0..] == positions;
      while i < |base|
        invariant 0 <= i <= |base| == |start| == |positions|
        invariant forall k :: 0 <= k < i ==> base[k] == 0.0
        invariant forall k :: i <= k < |start| ==> base[k] == start[k]
        invariant before + all
               == usd + WalletPass(prices.cache, start[i..], positions[i..], i, Sources(s.walk, s.quotes[i..]))
        invariant positions == old(positions) && fees == old(fees)
      {
        WalletPassCons(prices.cache, start, positions, i, s);
        var balance := base[i];
        if balance != 0.0 {
          var price := prices.Get(i, balance, positions[i].avgEntry, s.quotes[i]);
          base := base[i := 0.0];
          usd := usd + balance * price;
        }
        i := i + 1;
      }
      PassesNil(prices.cache, i, Sources(s.walk, s.quotes[i..]));
      assert start[i..] == [] && positions[i..] == [];
    }

    /** The account part of `settleMatchAccountsTx`: positions first, then wallets, one price
        object for both. */
    method SettleAccount(walk: (Quote, real) -> real, early: Sources, late: Sources)
      requires View().Shaped() && early.Covers(|base|) && late.Covers(|base|)
      requires early.walk == walk && late.walk == walk
      modifies this
      ensures View() == Settle(map[], old(View()), early, late)
    {
      var prices := new ClosePrices(walk);
      ClosePassLength(map[], positions, 0, early);
      CloseScopedPositions(prices, early);
      SettleWallets(prices, late);
    }
  }
}
