/** The FIFO trade journal, apps/api/src/journal/journalService.ts, for one user, pair and
    competition, over exact reals. */
module Journal {
  import opened Positions

  /** A row of open_lots, numbered as created; rows are never deleted, an exhausted one has
      qtyRemaining 0. */
  datatype Lot = Lot(id: nat, side: Side, price: real, qtyTotal: real, qtyRemaining: real, feeQuote: real)

  /** A row of closed_trades, which names the lot it closes. */
  datatype ClosedTrade = ClosedTrade(lot: nat, entrySide: Side, qty: real, entryPrice: real, exitPrice: real,
                                     entryFees: real, exitFees: real, grossPnl: real, netPnl: real)

  /** Direction LONG for a lot bought, SHORT for a lot sold. */
  function GrossPnl(entrySide: Side, entryPrice: real, exitPrice: real, qty: real): real {
    if entrySide == BUY then (exitPrice - entryPrice) * qty else (entryPrice - exitPrice) * qty
  }

  /** Close `qty` units of `lot` with fill `f`: fees are shared by quantity, the lot's over what
      it still holds. */
  function CloseLot(lot: Lot, f: Fill, qty: real): ClosedTrade
    requires lot.qtyRemaining > 0.0 && f.qty > 0.0
  {
    var entryFees := lot.feeQuote * (qty / lot.qtyRemaining);
    var exitFees := f.fee * (qty / f.qty);
    var gross := GrossPnl(lot.side, lot.price, f.price, qty);
    ClosedTrade(lot.id, lot.side, qty, lot.price, f.price, entryFees, exitFees, gross, gross - (entryFees + exitFees))
  }

  /** A row the fill may consume: open and on the opposite side. */
  predicate Consumable(lot: Lot, f: Fill) { lot.side == f.side.Opposite() && lot.qtyRemaining > 0.0 }

  datatype Consumption = Consumption(lots: seq<Lot>, trades: seq<ClosedTrade>, remaining: real)

  /** Walk the rows oldest first with `remaining` units still to close. */
  function Consume(lots: seq<Lot>, f: Fill, remaining: real): Consumption
    requires f.qty > 0.0
  {
    if lots == [] || remaining <= 0.0 then Consumption(lots, [], remaining)
    else if !Consumable(lots[0], f) then
      var rest := Consume(lots[1..], f, remaining);
      Consumption([lots[0]] + rest.lots, rest.trades, rest.remaining)
    else
      var consumed := Min(remaining, lots[0].qtyRemaining);
      var rest := Consume(lots[1..], f, remaining - consumed);
      Consumption([lots[0].(qtyRemaining := lots[0].qtyRemaining - consumed)] + rest.lots,
                  [CloseLot(lots[0], f, consumed)] + rest.trades, rest.remaining)
  }

  function ExitFees(trades: seq<ClosedTrade>): real {
    if trades == [] then 0.0 else trades[0].exitFees + ExitFees(trades[1..])
  }

  datatype Book = Book(lots: seq<Lot>, closed: seq<ClosedTrade>)

  const EMPTY := Book([], [])

  /** `processFillForJournal`. */
  function ProcessFill(b: Book, f: Fill): Book {
    if f.qty <= 0.0 then b
    else
      var c := Consume(b.lots, f, f.qty);
      Book(c.lots + Opened(f, c), b.closed + c.trades)
  }

  /** The lot a fill opens with what it did not close. */
  function Opened(f: Fill, c: Consumption): seq<Lot> {
    if c.remaining > 0.0 then [Lot(|c.lots|, f.side, f.price, c.remaining, c.remaining, f.fee - ExitFees(c.trades))] else []
  }

  function RunJournal(b: Book, fills: seq<Fill>): Book
    decreases |fills|
  {
    if fills == [] then b else RunJournal(ProcessFill(b, fills[0]), fills[1..])
  }

  // ---------- the source's loop ----------

  /** The whole consumption, part way through: `done` rows walked, `todo` rows to go. */
  ghost function Finish(done: seq<Lot>, todo: seq<Lot>, f: Fill, trades: seq<ClosedTrade>, remaining: real): Consumption
    requires f.qty > 0.0
  {
    var c := Consume(todo, f, remaining);
    Consumption(done + c.lots, trades + c.trades, c.remaining)
  }

  lemma FinishStep(lots: seq<Lot>, i: nat, f: Fill, trades: seq<ClosedTrade>, remaining: real)
    requires f.qty > 0.0 && remaining > 0.0 && i < |lots|
    ensures !Consumable(lots[i], f) ==>
      Finish(lots[..i], lots[i..], f, trades, remaining) == Finish(lots[..i + 1], lots[i + 1..], f, trades, remaining)
    ensures Consumable(lots[i], f) ==>
      var consumed := Min(remaining, lots[i].qtyRemaining);
      var next := lots[i := lots[i].(qtyRemaining := lots[i].qtyRemaining - consumed)];
      Finish(lots[..i], lots[i..], f, trades, remaining)
      == Finish(next[..i + 1], next[i + 1..], f, trades + [CloseLot(lots[i], f, consumed)], remaining - consumed)
  {
    assert lots[i..][0] == lots[i] && lots[i..][1..] == lots[i + 1..];
    if Consumable(lots[i], f) {
      var consumed := Min(remaining, lots[i].qtyRemaining);
      var row := lots[i].(qtyRemaining := lots[i].qtyRemaining - consumed);
      var c := Consume(lots[i + 1..], f, remaining - consumed);
      var t := CloseLot(lots[i], f, consumed);
      assert lots[i := row][..i + 1] == lots[..i] + [row];
      assert lots[i := row][i + 1..] == lots[i + 1..];
      assert lots[..i] + ([row] + c.lots) == (lots[..i] + [row]) + c.lots;
      assert trades + ([t] + c.trades) == (trades + [t]) + c.trades;
    } else {
      var c := Consume(lots[i + 1..], f, remaining);
      assert lots[..i + 1] == lots[..i] + [lots[i]];
      assert lots[..i] + ([lots[i]] + c.lots) == lots[..i + 1] + c.lots;
    }
  }

  lemma FinishEnd(lots: seq<Lot>, i: nat, f: Fill, trades: seq<ClosedTrade>, remaining: real)
    requires f.qty > 0.0 && i <= |lots|
    requires i == |lots| || remaining <= 0.0
    ensures Finish(lots[..i], lots[i..], f, trades, remaining) == Consumption(lots, trades, remaining)
  {
    assert lots[..i] + lots[i..] == lots;
    assert trades + [] == trades;
  }

  class TradeJournal {
    var lots: seq<Lot>
    var closed: seq<ClosedTrade>

    function View(): Book
      reads this
    {
      Book(lots, closed)
    }

    constructor ()
      ensures View() == EMPTY
    {
      lots, closed := [], [];
    }

    method Process(f: Fill)
      modifies this
      ensures View() == ProcessFill(old(View()), f)
    {
      if f.qty <= 0.0 {
        return;
      }
      var remaining, consumedFeeQuote := f.qty, 0.0;
      ghost var booked, all, trades := closed, Consume(lots, f, f.qty), [];
      var i := 0;
      assert lots[0..] == lots && lots[..0] == [];
      while i < |lots| && remaining > 0.0
        invariant 0 <= i <= |lots|
        invariant closed == booked + trades && consumedFeeQuote == ExitFees(trades)
        invariant all == Finish(lots[..i], lots[i..], f, trades, remaining)
      {
        FinishStep(lots, i, f, trades, remaining);
        if Consumable(lots[i], f) {
          var consumed := Min(remaining, lots[i].qtyRemaining);
          var trade := CloseLot(lots[i], f, consumed);
          ExitFeesSnoc(trades, trade);
          closed := closed + [trade];
          trades := trades + [trade];
          lots := lots[i := lots[i].(qtyRemaining := lots[i].qtyRemaining - consumed)];
          remaining := remaining - consumed;
          consumedFeeQuote := consumedFeeQuote + trade.exitFees;
        }
        i := i + 1;
      }
      FinishEnd(lots, i, f, trades, remaining);
      if remaining > 0.0 {
        lots := lots + [Lot(|lots|, f.side, f.price, remaining, remaining, f.fee - consumedFeeQuote)];
      }
    }
  }

  lemma {:induction false} ExitFeesSnoc(trades: seq<ClosedTrade>, t: ClosedTrade)
    ensures ExitFees(trades + [t]) == ExitFees(trades) + t.exitFees
  {
    if trades == [] {
      assert trades + [t] == [t];
    } else {
      assert (trades + [t])[1..] == trades[1..] + [t];
      ExitFeesSnoc(trades[1..], t);
    }
  }

  // ---------- conservation ----------

  function Gross(trades: seq<ClosedTrade>): real {
    if trades == [] then 0.0 else trades[0].grossPnl + Gross(trades[1..])
  }

  function SignedBy(side: Side, q: real): real { if side == BUY then q else -q }

  function LotMarked(lot: Lot, m: real): real { SignedBy(lot.side, lot.qtyRemaining) * (m - lot.price) }

  /** The open lots' profit at mark price `m`. */
  function LotsMarked(lots: seq<Lot>, m: real): real {
    if lots == [] then 0.0 else LotMarked(lots[0], m) + LotsMarked(lots[1..], m)
  }

  function LotsQty(lots: seq<Lot>): real {
    if lots == [] then 0.0 else SignedBy(lots[0].side, lots[0].qtyRemaining) + LotsQty(lots[1..])
  }

  function JournalMarked(b: Book, m: real): real { Gross(b.closed) + LotsMarked(b.lots, m) }

  /** q units of the fill at mark price `m`. */
  function Part(f: Fill, q: real, m: real): real { SignedBy(f.side, q) * (m - f.price) }

  lemma PartsAdd(f: Fill, q: real, r: real, m: real)
    ensures Part(f, q, m) + Part(f, r, m) == Part(f, q + r, m)
  {
  }

  /** Closing q units of a lot turns their open profit into booked profit, plus the exit at `m`. */
  lemma CloseMarked(lot: Lot, f: Fill, q: real, m: real)
    requires lot.side == f.side.Opposite() && lot.qtyRemaining > 0.0 && f.qty > 0.0
    ensures CloseLot(lot, f, q).grossPnl + LotMarked(lot.(qtyRemaining := lot.qtyRemaining - q), m)
         == LotMarked(lot, m) + Part(f, q, m)
  {
  }

  lemma LotsCons(head: Lot, tail: seq<Lot>, m: real)
    ensures LotsMarked([head] + tail, m) == LotMarked(head, m) + LotsMarked(tail, m)
    ensures LotsQty([head] + tail) == SignedBy(head.side, head.qtyRemaining) + LotsQty(tail)
  {
    hide LotMarked;
    assert ([head] + tail)[1..] == tail;
  }

  lemma GrossCons(t: ClosedTrade, rest: seq<ClosedTrade>)
    ensures Gross([t] + rest) == t.grossPnl + Gross(rest)
  {
    assert ([t] + rest)[1..] == rest;
  }

  lemma ConsumeFirstLot(lots: seq<Lot>, f: Fill, remaining: real)
    requires f.qty > 0.0 && lots != [] && remaining > 0.0 && Consumable(lots[0], f)
    ensures var consumed := Min(remaining, lots[0].qtyRemaining);
      var rest := Consume(lots[1..], f, remaining - consumed);
      Consume(lots, f, remaining)
      == Consumption([lots[0].(qtyRemaining := lots[0].qtyRemaining - consumed)] + rest.lots,
                     [CloseLot(lots[0], f, consumed)] + rest.trades, rest.remaining)
  {
    hide CloseLot;
  }

  lemma {:induction false} ConsumeConserves(lots: seq<Lot>, f: Fill, remaining: real, m: real)
    requires f.qty > 0.0
    ensures var c := Consume(lots, f, remaining);
      && Gross(c.trades) + LotsMarked(c.lots, m) == LotsMarked(lots, m) + Part(f, remaining - c.remaining, m)
      && LotsQty(c.lots) == LotsQty(lots) + SignedBy(f.side, remaining - c.remaining)
  {
    hide CloseLot, LotMarked, Part;
    if lots == [] || remaining <= 0.0 {
      PartsAdd(f, 0.0, 0.0, m);
    } else if Consumable(lots[0], f) {
      var consumed := Min(remaining, lots[0].qtyRemaining);
      var rest := Consume(lots[1..], f, remaining - consumed);
      ConsumeConserves(lots[1..], f, remaining - consumed, m);
      ConsumeFirstLot(lots, f, remaining);
      hide Consume, LotsMarked, Gross;
      LotsCons(lots[0], lots[1..], m);
      assert [lots[0]] + lots[1..] == lots;
      GrossCons(CloseLot(lots[0], f, consumed), rest.trades);
      LotsCons(lots[0].(qtyRemaining := lots[0].qtyRemaining - consumed), rest.lots, m);
      CloseMarked(lots[0], f, consumed, m);
      PartsAdd(f, consumed, remaining - consumed - rest.remaining, m);
    } else {
      ConsumeConserves(lots[1..], f, remaining, m);
      LotsCons(lots[0], Consume(lots[1..], f, remaining).lots, m);
    }
  }

  lemma {:induction false} GrossConcat(a: seq<ClosedTrade>, b: seq<ClosedTrade>)
    ensures Gross(a + b) == Gross(a) + Gross(b)
  {
    if a == [] {
      assert a + b == b;
    } else {
      assert (a + b)[1..] == a[1..] + b;
      GrossConcat(a[1..], b);
    }
  }

  lemma {:induction false} LotsConcat(a: seq<Lot>, b: seq<Lot>, m: real)
    ensures LotsMarked(a + b, m) == LotsMarked(a, m) + LotsMarked(b, m)
    ensures LotsQty(a + b) == LotsQty(a) + LotsQty(b)
  {
    hide LotMarked;
    if a == [] {
      assert a + b == b;
    } else {
      assert (a + b)[1..] == a[1..] + b;
      LotsConcat(a[1..], b, m);
    }
  }

  lemma {:induction false} ConsumeRemaining(lots: seq<Lot>, f: Fill, remaining: real)
    requires f.qty > 0.0 && remaining >= 0.0
    ensures 0.0 <= Consume(lots, f, remaining).remaining <= remaining
  {
    hide CloseLot;
    if lots != [] && remaining > 0.0 {
      ConsumeRemaining(lots[1..], f, if Consumable(lots[0], f) then remaining - Min(remaining, lots[0].qtyRemaining)
                                     else remaining);
    }
  }

  lemma OpenedMarked(f: Fill, c: Consumption, m: real)
    requires f.qty > 0.0 && c.remaining >= 0.0
    ensures LotsMarked(Opened(f, c), m) == Part(f, c.remaining, m)
    ensures LotsQty(Opened(f, c)) == SignedBy(f.side, c.remaining)
    ensures Part(f, f.qty, m) == FillMarked(f, m)
  {
  }

  /** One fill adds its own marked value and quantity to the journal, whatever lots it meets. */
  lemma ProcessConserves(b: Book, f: Fill, m: real)
    ensures JournalMarked(ProcessFill(b, f), m) == JournalMarked(b, m) + FillMarked(f, m)
    ensures LotsQty(ProcessFill(b, f).lots) == LotsQty(b.lots) + (if f.qty <= 0.0 then 0.0 else Signed(f))
  {
    if f.qty > 0.0 {
      var c, after := Consume(b.lots, f, f.qty), ProcessFill(b, f);
      assert after.lots == c.lots + Opened(f, c) && after.closed == b.closed + c.trades;
      assert SignedBy(f.side, f.qty) == Signed(f);
      hide Consume, ProcessFill, Part, FillMarked, LotsMarked, LotsQty, Gross, Opened;
      ConsumeRemaining(b.lots, f, f.qty);
      ConsumeConserves(b.lots, f, f.qty, m);
      GrossConcat(b.closed, c.trades);
      PartsAdd(f, f.qty - c.remaining, c.remaining, m);
      LotsConcat(c.lots, Opened(f, c), m);
      OpenedMarked(f, c, m);
    }
  }

  /** Booked plus open profit is the fills' signed qty * (m - price), at every mark price; the
      lots' signed total moves with the position's. */
  lemma {:induction false} RunJournalConserves(b: Book, pos: Position, fills: seq<Fill>, m: real)
    ensures JournalMarked(RunJournal(b, fills), m) == JournalMarked(b, m) + FillsMarked(fills, m)
    ensures LotsQty(RunJournal(b, fills).lots) - LotsQty(b.lots) == RunPosition(pos, fills).qty - pos.qty
    decreases |fills|
  {
    hide JournalMarked, FillMarked, ProcessFill;
    if fills != [] {
      ProcessConserves(b, fills[0], m);
      RunJournalConserves(ProcessFill(b, fills[0]), ApplyFill(pos, fills[0]), fills[1..], m);
    }
  }

  // ---------- first in, first out ----------

  predicate Exhausted(lots: seq<Lot>) { forall l :: l in lots ==> l.qtyRemaining == 0.0 }

  /** Untouched open lots of one side. */
  predicate Full(lots: seq<Lot>, side: Side) {
    forall l :: l in lots ==> l.side == side && 0.0 < l.qtyRemaining == l.qtyTotal
  }

  /** FIFO order: exhausted rows, then at most one part-used lot, then untouched ones, and every
      open lot on `side`. */
  predicate Fifo(lots: seq<Lot>, side: Side) {
    || lots == []
    || (lots[0].qtyRemaining == 0.0 && Fifo(lots[1..], side))
    || (lots[0].side == side && 0.0 < lots[0].qtyRemaining <= lots[0].qtyTotal && Full(lots[1..], side))
  }

  lemma FullIsFifo(lots: seq<Lot>, side: Side)
    requires Full(lots, side)
    ensures Fifo(lots, side)
  {
  }

  lemma {:induction false} ExhaustedIsFifo(lots: seq<Lot>, side: Side)
    requires Exhausted(lots)
    ensures Fifo(lots, side) && LotsQty(lots) == 0.0
  {
    if lots != [] {
      ExhaustedIsFifo(lots[1..], side);
    }
  }

  lemma {:induction false} FifoAppend(lots: seq<Lot>, l: Lot)
    requires Fifo(lots, l.side) && 0.0 < l.qtyRemaining == l.qtyTotal
    ensures Fifo(lots + [l], l.side)
  {
    if lots == [] {
      assert lots + [l] == [l];
    } else {
      assert (lots + [l])[0] == lots[0] && (lots + [l])[1..] == lots[1..] + [l];
      if lots[0].qtyRemaining == 0.0 {
        FifoAppend(lots[1..], l);
      }
    }
  }

  /** A fill in the lots' direction finds nothing to close. */
  lemma {:induction false} ConsumeSameSide(lots: seq<Lot>, f: Fill, remaining: real)
    requires f.qty > 0.0 && (Fifo(lots, f.side) || Full(lots, f.side))
    ensures Consume(lots, f, remaining) == Consumption(lots, [], remaining)
  {
    if lots != [] {
      ConsumeSameSide(lots[1..], f, remaining);
    }
  }

  /** A fill against the lots closes them oldest first, and opens nothing until none is left. */
  lemma {:induction false} ConsumeKeepsFifo(lots: seq<Lot>, f: Fill, remaining: real)
    requires f.qty > 0.0 && remaining >= 0.0 && Fifo(lots, f.side.Opposite())
    ensures Fifo(Consume(lots, f, remaining).lots, f.side.Opposite())
    ensures Consume(lots, f, remaining).remaining > 0.0 ==> Exhausted(Consume(lots, f, remaining).lots)
  {
    hide CloseLot;
    if lots != [] && remaining > 0.0 {
      var c := Consume(lots, f, remaining);
      if lots[0].qtyRemaining == 0.0 {
        ConsumeKeepsFifo(lots[1..], f, remaining);
        assert c.lots[1..] == Consume(lots[1..], f, remaining).lots;
      } else {
        FullIsFifo(lots[1..], f.side.Opposite());
        var rest := remaining - Min(remaining, lots[0].qtyRemaining);
        ConsumeKeepsFifo(lots[1..], f, rest);
        assert c.lots[1..] == Consume(lots[1..], f, rest).lots;
      }
    }
  }

  lemma ProcessKeepsFifo(b: Book, f: Fill, side: Side)
    requires Fifo(b.lots, side)
    ensures Fifo(ProcessFill(b, f).lots, BUY) || Fifo(ProcessFill(b, f).lots, SELL)
  {
    if f.qty > 0.0 {
      var c := Consume(b.lots, f, f.qty);
      if side == f.side {
        ConsumeSameSide(b.lots, f, f.qty);
        FifoAppend(b.lots, Opened(f, c)[0]);
      } else {
        ConsumeKeepsFifo(b.lots, f, f.qty);
        if c.remaining > 0.0 {
          ExhaustedIsFifo(c.lots, f.side);
          FifoAppend(c.lots, Opened(f, c)[0]);
        } else {
          assert c.lots + [] == c.lots;
        }
      }
    }
  }

  lemma {:induction false} RunKeepsFifo(b: Book, fills: seq<Fill>, side: Side)
    requires Fifo(b.lots, side)
    ensures Fifo(RunJournal(b, fills).lots, BUY) || Fifo(RunJournal(b, fills).lots, SELL)
    decreases |fills|
  {
    hide ProcessFill;
    if fills == [] {
      assert side == BUY || side == SELL;
    } else {
      ProcessKeepsFifo(b, fills[0], side);
      RunKeepsFifo(ProcessFill(b, fills[0]), fills[1..],
                   if Fifo(ProcessFill(b, fills[0]).lots, BUY) then BUY else SELL);
    }
  }

  /** The signed total of one side's lots has that side's sign, and is 0 only when none is open. */
  lemma {:induction false} FifoQty(lots: seq<Lot>, side: Side)
    requires Fifo(lots, side) || Full(lots, side)
    ensures SignedBy(side, LotsQty(lots)) >= 0.0
    ensures LotsQty(lots) == 0.0 ==> Exhausted(lots)
    ensures forall l :: l in lots ==> l.qtyRemaining == 0.0 || (l.qtyRemaining > 0.0 && l.side == side)
  {
    if lots != [] {
      FifoQty(lots[1..], side);
      assert lots == [lots[0]] + lots[1..];
    }
  }

  lemma {:induction false} OlderFirst(lots: seq<Lot>, side: Side, i: nat, j: nat)
    requires Fifo(lots, side) && i < j < |lots|
    ensures lots[i].qtyRemaining == 0.0 || lots[j].qtyRemaining == lots[j].qtyTotal
  {
    if lots[0].qtyRemaining == 0.0 {
      if i > 0 {
        OlderFirst(lots[1..], side, i - 1, j - 1);
      }
    } else {
      assert lots[1..][j - 1] in lots[1..];
    }
  }

  /** For every fill history: no lot is touched before every older one is used up. */
  lemma OldestLotFirst(fills: seq<Fill>, i: nat, j: nat)
    requires i < j < |RunJournal(EMPTY, fills).lots|
    ensures var lots := RunJournal(EMPTY, fills).lots;
      lots[i].qtyRemaining == 0.0 || lots[j].qtyRemaining == lots[j].qtyTotal
  {
    RunKeepsFifo(EMPTY, fills, BUY);
    var lots := RunJournal(EMPTY, fills).lots;
    OlderFirst(lots, if Fifo(lots, BUY) then BUY else SELL, i, j);
  }

  // ---------- FIFO and average cost agree ----------

  /** For every fill history: the open lots are all on the position's side and sum to its
      quantity, and both books carry the same profit at every mark price. */
  lemma FifoAgreesWithAverageCost(fills: seq<Fill>, m: real)
    ensures var b, pos := RunJournal(EMPTY, fills), RunPosition(FLAT, fills);
      && LotsQty(b.lots) == pos.qty
      && (forall l :: l in b.lots && l.qtyRemaining != 0.0 ==>
            l.qtyRemaining > 0.0 && pos.qty != 0.0 && l.side == if pos.qty > 0.0 then BUY else SELL)
      && Gross(b.closed) + LotsMarked(b.lots, m) == pos.realizedPnl + pos.qty * (m - pos.avgEntry)
      && pos.realizedPnl + pos.qty * (m - pos.avgEntry) == FillsMarked(fills, m)
  {
    var b := RunJournal(EMPTY, fills);
    RunJournalConserves(EMPTY, FLAT, fills, m);
    RunPositionConserves(FLAT, fills, m);
    RunKeepsFifo(EMPTY, fills, BUY);
    FifoQty(b.lots, if Fifo(b.lots, BUY) then BUY else SELL);
  }

  lemma {:induction false} ExhaustedMarked(lots: seq<Lot>, m: real)
    requires Exhausted(lots)
    ensures LotsMarked(lots, m) == 0.0
  {
    if lots != [] {
      ExhaustedMarked(lots[1..], m);
    }
  }

  /** Whenever the position is flat no lot is open and both realized totals are equal. */
  lemma FlatRealizedAgree(fills: seq<Fill>)
    requires RunPosition(FLAT, fills).qty == 0.0
    ensures Exhausted(RunJournal(EMPTY, fills).lots)
    ensures Gross(RunJournal(EMPTY, fills).closed) == RunPosition(FLAT, fills).realizedPnl
  {
    FifoAgreesWithAverageCost(fills, 0.0);
    ExhaustedMarked(RunJournal(EMPTY, fills).lots, 0.0);
  }

  // ---------- every trade is of its two fills ----------

  lemma {:induction false} RunSnoc(b: Book, fills: seq<Fill>, f: Fill)
    ensures RunJournal(b, fills + [f]) == ProcessFill(RunJournal(b, fills), f)
    decreases |fills|
  {
    hide ProcessFill;
    if fills == [] {
      assert fills + [f] == [f] && [f][1..] == [];
      assert RunJournal(ProcessFill(b, f), []) == ProcessFill(b, f);
    } else {
      assert (fills + [f])[1..] == fills[1..] + [f];
      RunSnoc(ProcessFill(b, fills[0]), fills[1..], f);
    }
  }

  /** Fill i opened lot number `id`: there were that many lots before it, and one more after. */
  predicate Opens(fills: seq<Fill>, i: int, id: nat) {
    0 <= i < |fills| && |RunJournal(EMPTY, fills[..i]).lots| == id && |RunJournal(EMPTY, fills[..i + 1]).lots| == id + 1
  }

  /** Fill j wrote trade number k. */
  predicate Writes(fills: seq<Fill>, j: int, k: nat) {
    0 <= j < |fills| && |RunJournal(EMPTY, fills[..j]).closed| <= k < |RunJournal(EMPTY, fills[..j + 1]).closed|
  }

  /** The lot has the side and price of the fill that opened it. */
  predicate LotOf(fills: seq<Fill>, l: Lot, i: int) {
    Opens(fills, i, l.id) && l.side == fills[i].side && l.price == fills[i].price
  }

  /** The trade enters at the side and price of the fill that opened its lot, and leaves at the price
      of the fill that wrote it, a later one on the other side. */
  predicate TradeOf(fills: seq<Fill>, t: ClosedTrade, k: nat, i: int, j: int) {
    && Opens(fills, i, t.lot) && Writes(fills, j, k) && i < j
    && t.entrySide == fills[i].side && t.entryPrice == fills[i].price
    && fills[j].side != fills[i].side && t.exitPrice == fills[j].price
    && 0.0 < t.qty <= fills[j].qty
    && t.grossPnl == (if t.entrySide == BUY then t.qty * (t.exitPrice - t.entryPrice) else -(t.qty * (t.exitPrice - t.entryPrice)))
    && t.exitFees == fills[j].fee * (t.qty / fills[j].qty)
    && t.netPnl == t.grossPnl - t.entryFees - t.exitFees
  }

  /** One trade of a consumption. */
  predicate TradeFrom(lots: seq<Lot>, t: ClosedTrade, f: Fill)
    requires f.qty > 0.0
  {
    exists l :: l in lots && ClosesLot(l, t, f)
  }

  predicate ClosesLot(l: Lot, t: ClosedTrade, f: Fill)
    requires f.qty > 0.0
  {
    && t.lot == l.id && t.entrySide == l.side && t.entryPrice == l.price
    && f.side == l.side.Opposite() && t.exitPrice == f.price && 0.0 < t.qty <= f.qty
    && t.grossPnl == (if t.entrySide == BUY then t.qty * (t.exitPrice - t.entryPrice) else -(t.qty * (t.exitPrice - t.entryPrice)))
    && t.exitFees == f.fee * (t.qty / f.qty)
    && t.netPnl == t.grossPnl - t.entryFees - t.exitFees
  }

  lemma CloseCloses(l: Lot, f: Fill, q: real)
    requires Consumable(l, f) && f.qty > 0.0 && 0.0 < q <= f.qty
    ensures ClosesLot(l, CloseLot(l, f, q), f)
  {
  }

  lemma {:induction false} ConsumeTrades(lots: seq<Lot>, f: Fill, remaining: real)
    requires f.qty > 0.0 && remaining <= f.qty
    ensures forall t :: t in Consume(lots, f, remaining).trades ==> TradeFrom(lots, t, f)
  {
    hide CloseLot, ClosesLot;
    if lots != [] && remaining > 0.0 {
      var q := Min(remaining, lots[0].qtyRemaining);
      ConsumeTrades(lots[1..], f, if Consumable(lots[0], f) then remaining - q else remaining);
      assert lots[0] in lots && forall l :: l in lots[1..] ==> l in lots;
      if Consumable(lots[0], f) {
        CloseCloses(lots[0], f, q);
      }
    }
  }

  /** Consuming changes nothing of a lot but what it still holds. */
  lemma {:induction false} ConsumeKeepsLots(lots: seq<Lot>, f: Fill, remaining: real)
    requires f.qty > 0.0
    ensures var after := Consume(lots, f, remaining).lots;
      |after| == |lots| && forall i :: 0 <= i < |lots| ==>
        after[i].id == lots[i].id && after[i].side == lots[i].side && after[i].price == lots[i].price
    decreases |lots|
  {
    hide CloseLot;
    if lots != [] && remaining > 0.0 {
      var left := if Consumable(lots[0], f) then remaining - Min(remaining, lots[0].qtyRemaining) else remaining;
      ConsumeKeepsLots(lots[1..], f, left);
      var after := Consume(lots, f, remaining).lots;
      assert after[1..] == Consume(lots[1..], f, left).lots;
      forall i | 0 <= i < |lots|
        ensures after[i].id == lots[i].id && after[i].side == lots[i].side && after[i].price == lots[i].price
      {
        if i > 0 {
          assert after[i] == after[1..][i - 1] && lots[i] == lots[1..][i - 1];
        }
      }
    }
  }

  /** What holds of a history still holds when it goes on. */
  lemma OpensGoesOn(fills: seq<Fill>, f: Fill, i: int, id: nat)
    requires Opens(fills, i, id)
    ensures i < |fills| && Opens(fills + [f], i, id) && (fills + [f])[i] == fills[i]
  {
    hide RunJournal;
    assert (fills + [f])[..i] == fills[..i] && (fills + [f])[..i + 1] == fills[..i + 1];
  }

  lemma WritesGoesOn(fills: seq<Fill>, f: Fill, j: int, k: nat)
    requires Writes(fills, j, k)
    ensures j < |fills| && Writes(fills + [f], j, k) && (fills + [f])[j] == fills[j]
  {
    hide RunJournal;
    assert (fills + [f])[..j] == fills[..j] && (fills + [f])[..j + 1] == fills[..j + 1];
  }

  ghost predicate AllLotsOf(fills: seq<Fill>, lots: seq<Lot>) {
    forall l :: l in lots ==> exists i :: LotOf(fills, l, i)
  }

  ghost predicate HasFills(fills: seq<Fill>, t: ClosedTrade, k: nat) {
    exists i, j :: TradeOf(fills, t, k, i, j)
  }

  ghost predicate AllTradesOf(fills: seq<Fill>, trades: seq<ClosedTrade>) {
    forall k: nat :: k < |trades| ==> HasFills(fills, trades[k], k)
  }

  lemma LotsGoOn(fills: seq<Fill>, f: Fill, lots: seq<Lot>)
    requires AllLotsOf(fills, lots)
    ensures AllLotsOf(fills + [f], lots)
  {
    hide Opens;
    forall l | l in lots ensures exists i :: LotOf(fills + [f], l, i) {
      var i :| LotOf(fills, l, i);
      OpensGoesOn(fills, f, i, l.id);
      assert LotOf(fills + [f], l, i);
    }
  }

  lemma TradeGoesOn(fills: seq<Fill>, f: Fill, t: ClosedTrade, k: nat)
    requires HasFills(fills, t, k)
    ensures HasFills(fills + [f], t, k)
  {
    hide Opens, Writes;
    var i, j :| TradeOf(fills, t, k, i, j);
    OpensGoesOn(fills, f, i, t.lot);
    WritesGoesOn(fills, f, j, k);
    assert TradeOf(fills + [f], t, k, i, j);
  }

  lemma TradesGoOn(fills: seq<Fill>, f: Fill, trades: seq<ClosedTrade>)
    requires AllTradesOf(fills, trades)
    ensures AllTradesOf(fills + [f], trades)
  {
    hide HasFills;
    forall k: nat | k < |trades| ensures HasFills(fills + [f], trades[k], k) {
      TradeGoesOn(fills, f, trades[k], k);
    }
  }

  /** A trade that the next fill writes. */
  lemma NewTrade(fills: seq<Fill>, f: Fill, lots: seq<Lot>, t: ClosedTrade, k: nat)
    requires f.qty > 0.0 && AllLotsOf(fills, lots) && TradeFrom(lots, t, f) && Writes(fills + [f], |fills|, k)
    ensures HasFills(fills + [f], t, k)
  {
    hide Writes, Opens;
    var l :| l in lots && ClosesLot(l, t, f);
    var i :| LotOf(fills, l, i);
    OpensGoesOn(fills, f, i, l.id);
    assert TradeOf(fills + [f], t, k, i, |fills|);
  }

  lemma NextFill(fills: seq<Fill>, f: Fill)
    requires var b := RunJournal(EMPTY, fills); AllLotsOf(fills, b.lots) && AllTradesOf(fills, b.closed)
    ensures var b := RunJournal(EMPTY, fills + [f]); AllLotsOf(fills + [f], b.lots) && AllTradesOf(fills + [f], b.closed)
  {
    var b, all := RunJournal(EMPTY, fills), fills + [f];
    RunSnoc(EMPTY, fills, f);
    LotsGoOn(fills, f, b.lots);
    TradesGoOn(fills, f, b.closed);
    assert all[..|fills|] == fills && all[..|fills| + 1] == all;
    if f.qty > 0.0 {
      var c, after := Consume(b.lots, f, f.qty), RunJournal(EMPTY, all);
      assert after.lots == c.lots + Opened(f, c) && after.closed == b.closed + c.trades;
      ConsumeTrades(b.lots, f, f.qty);
      ConsumeKeepsLots(b.lots, f, f.qty);
      hide Consume, TradeFrom, ClosesLot, RunJournal, HasFills;
      forall l | l in after.lots ensures exists i :: LotOf(all, l, i) {
        if l in c.lots {
          var n :| 0 <= n < |c.lots| && c.lots[n] == l;
          var was := b.lots[n];
          assert was in b.lots;
          var i :| LotOf(all, was, i);
          assert LotOf(all, l, i);
        } else {
          assert c.remaining > 0.0 && l == Opened(f, c)[0];
          assert LotOf(all, l, |fills|);
        }
      }
      forall k: nat | k < |after.closed| ensures HasFills(all, after.closed[k], k) {
        if k < |b.closed| {
          assert after.closed[k] == b.closed[k];
        } else {
          assert after.closed[k] in c.trades && Writes(all, |fills|, k);
          NewTrade(fills, f, b.lots, after.closed[k], k);
        }
      }
    }
  }

  lemma {:induction false} HistoryOf(fills: seq<Fill>)
    ensures var b := RunJournal(EMPTY, fills); AllLotsOf(fills, b.lots) && AllTradesOf(fills, b.closed)
    decreases |fills|
  {
    hide AllLotsOf, AllTradesOf;
    if fills == [] {
      NoHistory();
    } else {
      var n := |fills| - 1;
      HistoryOf(fills[..n]);
      NextFill(fills[..n], fills[n]);
      assert fills[..n] + [fills[n]] == fills;
    }
  }

  lemma NoHistory()
    ensures AllLotsOf([], RunJournal(EMPTY, []).lots) && AllTradesOf([], RunJournal(EMPTY, []).closed)
  {
  }

  /** For every fill history and every closed trade in it: its entry is the side and price of the
      fill that opened its lot, its exit the price of the later fill on the other side that wrote
      it, its gross profit what entry and exit make of its quantity. */
  lemma TradeIsOfItsFills(fills: seq<Fill>, k: nat)
    requires k < |RunJournal(EMPTY, fills).closed|
    ensures exists i, j :: TradeOf(fills, RunJournal(EMPTY, fills).closed[k], k, i, j)
  {
    HistoryOf(fills);
    assert HasFills(fills, RunJournal(EMPTY, fills).closed[k], k);
  }
}
