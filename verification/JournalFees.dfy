/** Fees in the trade journal (apps/api/src/journal/journalService.ts): the closing fill's fee is
    shared out exactly; an opening lot's fee is not, once the lot closes in several pieces. */
module JournalFees {
  import opened Positions
  import opened Journal

  // ---------- the closing fill's fee ----------

  function Ratio(part: real, whole: real): real
    requires whole != 0.0
  {
    part / whole
  }

  function Share(fee: real, ratio: real): real { fee * ratio }

  lemma SharesAdd(fee: real, a: real, b: real)
    ensures Share(fee, a) + Share(fee, b) == Share(fee, a + b)
  {
  }

  lemma RatiosAdd(a: real, b: real, whole: real)
    requires whole > 0.0
    ensures Ratio(a, whole) + Ratio(b, whole) == Ratio(a + b, whole)
    ensures Ratio(0.0, whole) == 0.0 && Ratio(whole, whole) == 1.0
  {
  }

  /** The fees of one closed piece. */
  lemma PieceFees(lot: Lot, f: Fill, q: real)
    requires lot.qtyRemaining > 0.0 && f.qty > 0.0
    ensures CloseLot(lot, f, q).entryFees == Share(lot.feeQuote, Ratio(q, lot.qtyRemaining))
    ensures CloseLot(lot, f, q).exitFees == Share(f.fee, Ratio(q, f.qty))
  {
  }

  lemma {:induction false} ExitFeesAreShare(lots: seq<Lot>, f: Fill, remaining: real)
    requires f.qty > 0.0
    ensures var c := Consume(lots, f, remaining);
      ExitFees(c.trades) == Share(f.fee, Ratio(remaining - c.remaining, f.qty))
  {
    if lots == [] || remaining <= 0.0 {
      RatiosAdd(0.0, 0.0, f.qty);
    } else if Consumable(lots[0], f) {
      var consumed := Min(remaining, lots[0].qtyRemaining);
      var rest := Consume(lots[1..], f, remaining - consumed);
      var t := CloseLot(lots[0], f, consumed);
      hide CloseLot, Share, Ratio;
      PieceFees(lots[0], f, consumed);
      ExitFeesAreShare(lots[1..], f, remaining - consumed);
      assert ([t] + rest.trades)[1..] == rest.trades;
      RatiosAdd(consumed, remaining - consumed - rest.remaining, f.qty);
      SharesAdd(f.fee, Ratio(consumed, f.qty), Ratio(remaining - consumed - rest.remaining, f.qty));
    } else {
      ExitFeesAreShare(lots[1..], f, remaining);
    }
  }

  function LotFees(lots: seq<Lot>): real {
    if lots == [] then 0.0 else lots[0].feeQuote + LotFees(lots[1..])
  }

  /** A fill's fee is fully accounted for: exit fees of the trades it closes plus the fee of the
      lot it opens. */
  lemma FillFeeConserved(b: Book, f: Fill)
    requires f.qty > 0.0
    ensures var c := Consume(b.lots, f, f.qty);
      ExitFees(c.trades) + LotFees(Opened(f, c)) == f.fee
  {
    hide Consume;
    var c := Consume(b.lots, f, f.qty);
    ExitFeesAreShare(b.lots, f, f.qty);
    ConsumeRemaining(b.lots, f, f.qty);
    RatiosAdd(0.0, 0.0, f.qty);
  }

  /** Every row's net profit is its gross profit less both fees. */
  predicate NetBooked(trades: seq<ClosedTrade>) {
    forall t :: t in trades ==> t.netPnl == t.grossPnl - t.entryFees - t.exitFees
  }

  lemma {:induction false} ConsumeNetBooked(lots: seq<Lot>, f: Fill, remaining: real)
    requires f.qty > 0.0
    ensures NetBooked(Consume(lots, f, remaining).trades)
  {
    if lots != [] && remaining > 0.0 {
      ConsumeNetBooked(lots[1..], f, if Consumable(lots[0], f) then remaining - Min(remaining, lots[0].qtyRemaining)
                                     else remaining);
    }
  }

  // ---------- the opening lot's fee ----------

  function EntryFees(trades: seq<ClosedTrade>): real {
    if trades == [] then 0.0 else trades[0].entryFees + EntryFees(trades[1..])
  }

  function Total(qs: seq<real>): real {
    if qs == [] then 0.0 else qs[0] + Total(qs[1..])
  }

  /** Pieces that can be taken one after another from a lot holding `remaining`. */
  predicate Pieces(qs: seq<real>, remaining: real)
    decreases |qs|
  {
    qs == [] || (0.0 < qs[0] <= remaining && Pieces(qs[1..], remaining - qs[0]))
  }

  /** The share of the lot's fee the pieces are charged: each over what is left, not over the
      original quantity, and the fee itself is never reduced. */
  function Charged(remaining: real, qs: seq<real>): real
    requires Pieces(qs, remaining)
    decreases |qs|
  {
    if qs == [] then 0.0 else Ratio(qs[0], remaining) + Charged(remaining - qs[0], qs[1..])
  }

  lemma {:induction false} EntryFeesConcat(a: seq<ClosedTrade>, b: seq<ClosedTrade>)
    ensures EntryFees(a + b) == EntryFees(a) + EntryFees(b)
  {
    if a == [] {
      assert a + b == b;
    } else {
      assert (a + b)[1..] == a[1..] + b;
      EntryFeesConcat(a[1..], b);
    }
  }

  lemma OneEntryFee(t: ClosedTrade)
    ensures EntryFees([t]) == t.entryFees
  {
    assert [t][1..] == [];
  }

  lemma {:induction false} TotalBounds(qs: seq<real>, remaining: real)
    requires Pieces(qs, remaining)
    ensures 0.0 <= Total(qs) && (qs != [] ==> 0.0 < Total(qs) <= remaining)
    decreases |qs|
  {
    if qs != [] {
      TotalBounds(qs[1..], remaining - qs[0]);
    }
  }

  /** Shares of what is left add up to more than the share of the whole, as soon as there are two. */
  lemma {:induction false} ChargedAtLeast(remaining: real, qs: seq<real>)
    requires Pieces(qs, remaining) && remaining > 0.0
    ensures Charged(remaining, qs) >= Ratio(Total(qs), remaining)
    ensures |qs| >= 2 ==> Charged(remaining, qs) > Ratio(Total(qs), remaining)
    ensures |qs| <= 1 ==> Charged(remaining, qs) == Ratio(Total(qs), remaining)
    decreases |qs|
  {
    if |qs| >= 2 {
      var left, rest := remaining - qs[0], qs[1..];
      TotalBounds(rest, left);
      ChargedAtLeast(left, rest);
      SmallerWhole(Total(rest), left, remaining);
      RatiosAdd(qs[0], Total(rest), remaining);
    } else if |qs| == 1 {
      assert Total(qs[1..]) == 0.0;
    }
  }

  lemma SmallerWhole(x: real, left: real, whole: real)
    requires x > 0.0 && 0.0 < left < whole
    ensures Ratio(x, left) > Ratio(x, whole)
  {
    var u, v := x / left, x / whole;
    assert u * left == x && v * whole == x;
    assert (u - v) * left == v * (whole - left);
  }

  lemma ShareOrder(fee: real, x: real, y: real)
    requires x >= y
    ensures Share(fee, x) == Share(fee, y) <==> x == y || fee == 0.0
    ensures fee > 0.0 && x > y ==> Share(fee, x) > Share(fee, y)
  {
    assert fee * x - fee * y == fee * (x - y);
  }

  // ---------- the trades of one lot ----------

  function TradesOf(trades: seq<ClosedTrade>, id: nat): seq<ClosedTrade> {
    if trades == [] then []
    else if trades[0].lot == id then [trades[0]] + TradesOf(trades[1..], id)
    else TradesOf(trades[1..], id)
  }

  lemma {:induction false} TradesOfConcat(a: seq<ClosedTrade>, b: seq<ClosedTrade>, id: nat)
    ensures TradesOf(a + b, id) == TradesOf(a, id) + TradesOf(b, id)
  {
    if a == [] {
      assert a + b == b;
    } else {
      assert (a + b)[1..] == a[1..] + b;
      TradesOfConcat(a[1..], b, id);
    }
  }

  lemma {:induction false} NoTradesOf(trades: seq<ClosedTrade>, id: nat)
    requires forall t :: t in trades ==> t.lot != id
    ensures TradesOf(trades, id) == []
  {
    if trades != [] {
      NoTradesOf(trades[1..], id);
    }
  }

  function Qtys(trades: seq<ClosedTrade>): (qs: seq<real>)
    ensures |qs| == |trades|
  {
    seq(|trades|, i requires 0 <= i < |trades| => trades[i].qty)
  }

  /** The lot rows are numbered from `from` on. */
  predicate Numbered(lots: seq<Lot>, from: nat) { forall i :: 0 <= i < |lots| ==> lots[i].id == from + i }

  /** What one fill does to one lot: nothing, or one trade over what it takes. */
  predicate Takes(before: Lot, after: Lot, trades: seq<ClosedTrade>, f: Fill)
    requires f.qty > 0.0
  {
    var q := before.qtyRemaining - after.qtyRemaining;
    || (after == before && trades == [])
    || (0.0 < q <= before.qtyRemaining && after == before.(qtyRemaining := after.qtyRemaining)
        && trades == [CloseLot(before, f, q)])
  }

  lemma {:induction false} ConsumeNames(lots: seq<Lot>, f: Fill, remaining: real, from: nat)
    requires f.qty > 0.0 && Numbered(lots, from)
    ensures var c := Consume(lots, f, remaining);
      |c.lots| == |lots| && forall t :: t in c.trades ==> from <= t.lot < from + |lots|
  {
    if lots != [] && remaining > 0.0 {
      ConsumeNames(lots[1..], f, if Consumable(lots[0], f) then remaining - Min(remaining, lots[0].qtyRemaining)
                                 else remaining, from + 1);
    }
  }

  lemma OneTradeOf(t: ClosedTrade, id: nat)
    ensures TradesOf([t], id) == if t.lot == id then [t] else []
  {
    assert [t][1..] == [];
  }

  /** What is left to close after the first lot. */
  function LeftAfter(lot: Lot, f: Fill, remaining: real): real {
    if Consumable(lot, f) then remaining - Min(remaining, lot.qtyRemaining) else remaining
  }

  /** The first lot's trade, if there is one. */
  function OwnTrade(lot: Lot, f: Fill, remaining: real): (own: seq<ClosedTrade>)
    requires f.qty > 0.0
    ensures forall t :: t in own ==> t.lot == lot.id
  {
    if Consumable(lot, f) then [CloseLot(lot, f, Min(remaining, lot.qtyRemaining))] else []
  }

  lemma ConsumeFirst(lots: seq<Lot>, f: Fill, remaining: real)
    requires f.qty > 0.0 && lots != [] && remaining > 0.0
    ensures var c, rest := Consume(lots, f, remaining), Consume(lots[1..], f, LeftAfter(lots[0], f, remaining));
      var own := OwnTrade(lots[0], f, remaining);
      && c.lots != [] && c.lots[1..] == rest.lots && c.trades == own + rest.trades
      && Takes(lots[0], c.lots[0], own, f) && TradesOf(own, lots[0].id) == own
  {
    if Consumable(lots[0], f) {
      OneTradeOf(OwnTrade(lots[0], f, remaining)[0], lots[0].id);
    }
  }

  lemma ConsumeNothing(lots: seq<Lot>, f: Fill, remaining: real, k: nat, id: nat)
    requires f.qty > 0.0 && remaining <= 0.0 && k < |lots|
    ensures var c := Consume(lots, f, remaining);
      |c.lots| == |lots| && Takes(lots[k], c.lots[k], TradesOf(c.trades, id), f)
  {
  }

  lemma {:induction false} ConsumeTakes(lots: seq<Lot>, f: Fill, remaining: real, from: nat, k: nat)
    requires f.qty > 0.0 && Numbered(lots, from) && k < |lots|
    ensures var c := Consume(lots, f, remaining);
      |c.lots| == |lots| && Takes(lots[k], c.lots[k], TradesOf(c.trades, from + k), f)
  {
    hide Consume, Takes, OwnTrade, LeftAfter, TradesOf;
    if remaining <= 0.0 {
      ConsumeNothing(lots, f, remaining, k, from + k);
    } else {
      var left, own := LeftAfter(lots[0], f, remaining), OwnTrade(lots[0], f, remaining);
      var rest := Consume(lots[1..], f, left);
      assert lots[0].id == from && Numbered(lots[1..], from + 1);
      hide Numbered;
      ConsumeFirst(lots, f, remaining);
      ConsumeNames(lots, f, remaining, from);
      ConsumeNames(lots[1..], f, left, from + 1);
      TradesOfConcat(own, rest.trades, from + k);
      if k == 0 {
        NoTradesOf(rest.trades, from);
        assert own + [] == own;
      } else {
        NoTradesOf(own, from + k);
        ConsumeTakes(lots[1..], f, left, from + 1, k - 1);
        assert [] + TradesOf(rest.trades, from + k) == TradesOf(rest.trades, from + k);
      }
    }
  }

  // ---------- what a lot was charged ----------

  lemma {:induction false} PiecesSnoc(remaining: real, qs: seq<real>, q: real)
    requires Pieces(qs, remaining) && 0.0 < q <= remaining - Total(qs)
    ensures Pieces(qs + [q], remaining) && Total(qs + [q]) == Total(qs) + q
    ensures Charged(remaining, qs + [q]) == Charged(remaining, qs) + Ratio(q, remaining - Total(qs))
    decreases |qs|
  {
    hide Ratio;
    if qs == [] {
      assert qs + [q] == [q] && [q][1..] == [];
    } else {
      assert (qs + [q])[1..] == qs[1..] + [q];
      PiecesSnoc(remaining - qs[0], qs[1..], q);
    }
  }

  /** The lot's trades are pieces of it, leave what it still holds, and were charged piece by piece. */
  predicate Accounted(l: Lot, trades: seq<ClosedTrade>) {
    && l.qtyTotal > 0.0
    && Pieces(Qtys(trades), l.qtyTotal)
    && l.qtyRemaining == l.qtyTotal - Total(Qtys(trades))
    && EntryFees(trades) == Share(l.feeQuote, Charged(l.qtyTotal, Qtys(trades)))
  }

  lemma AccountedTakes(before: Lot, after: Lot, trades: seq<ClosedTrade>, more: seq<ClosedTrade>, f: Fill)
    requires f.qty > 0.0 && Accounted(before, trades) && Takes(before, after, more, f)
    ensures Accounted(after, trades + more)
  {
    if more == [] {
      assert trades + more == trades;
    } else {
      var q := before.qtyRemaining - after.qtyRemaining;
      var t := CloseLot(before, f, q);
      PieceFees(before, f, q);
      assert t.qty == q && more == [t];
      hide CloseLot, Pieces, Charged, Total, Ratio, Share, EntryFees;
      assert Qtys(trades + [t]) == Qtys(trades) + [q];
      PiecesSnoc(before.qtyTotal, Qtys(trades), q);
      EntryFeesConcat(trades, [t]);
      OneEntryFee(t);
      SharesAdd(before.feeQuote, Charged(before.qtyTotal, Qtys(trades)), Ratio(q, before.qtyRemaining));
    }
  }

  lemma OpenedAccounted(f: Fill, c: Consumption)
    requires c.remaining > 0.0
    ensures Accounted(Opened(f, c)[0], [])
  {
  }

  ghost predicate AllAccounted(b: Book) {
    && Numbered(b.lots, 0)
    && (forall t :: t in b.closed ==> t.lot < |b.lots|)
    && forall i :: 0 <= i < |b.lots| ==> Accounted(b.lots[i], TradesOf(b.closed, i))
  }

  lemma ProcessKeepsAccounted(b: Book, f: Fill)
    requires AllAccounted(b)
    ensures AllAccounted(ProcessFill(b, f))
  {
    if f.qty > 0.0 {
      var c := Consume(b.lots, f, f.qty);
      var after := ProcessFill(b, f);
      ConsumeNames(b.lots, f, f.qty, 0);
      assert after.lots == c.lots + Opened(f, c) && after.closed == b.closed + c.trades;
      hide Consume, Accounted, Takes, TradesOf, ProcessFill;
      forall i | 0 <= i < |after.lots|
        ensures after.lots[i].id == i && Accounted(after.lots[i], TradesOf(after.closed, i))
      {
        TradesOfConcat(b.closed, c.trades, i);
        if i < |b.lots| {
          ConsumeTakes(b.lots, f, f.qty, 0, i);
          TakesKeepsId(b.lots[i], c.lots[i], TradesOf(c.trades, i), f);
          AccountedTakes(b.lots[i], c.lots[i], TradesOf(b.closed, i), TradesOf(c.trades, i), f);
        } else {
          NoTradesOf(b.closed, i);
          NoTradesOf(c.trades, i);
          assert after.lots[i] == Opened(f, c)[0];
          OpenedAccounted(f, c);
        }
      }
    }
  }

  lemma TakesKeepsId(before: Lot, after: Lot, trades: seq<ClosedTrade>, f: Fill)
    requires f.qty > 0.0 && Takes(before, after, trades, f)
    ensures after.id == before.id && after.feeQuote == before.feeQuote
  {
  }

  lemma {:induction false} RunKeepsAccounted(b: Book, fills: seq<Fill>)
    requires AllAccounted(b)
    ensures AllAccounted(RunJournal(b, fills))
    decreases |fills|
  {
    hide AllAccounted, ProcessFill;
    if fills != [] {
      ProcessKeepsAccounted(b, fills[0]);
      RunKeepsAccounted(ProcessFill(b, fills[0]), fills[1..]);
    }
  }

  /** The part of a lot's fee that goes with what was closed of it. */
  function Due(l: Lot): real
    requires l.qtyTotal > 0.0
  {
    Share(l.feeQuote, Ratio(l.qtyTotal - l.qtyRemaining, l.qtyTotal))
  }

  lemma ChargedIff(l: Lot, trades: seq<ClosedTrade>)
    requires Accounted(l, trades)
    ensures EntryFees(trades) == Due(l) <==> |trades| <= 1 || l.feeQuote == 0.0
    ensures |trades| >= 2 && l.feeQuote > 0.0 ==> EntryFees(trades) > Due(l)
  {
    hide EntryFees, Charged, Total, Share, Ratio;
    var qs := Qtys(trades);
    ChargedAtLeast(l.qtyTotal, qs);
    ShareOrder(l.feeQuote, Charged(l.qtyTotal, qs), Ratio(Total(qs), l.qtyTotal));
  }

  /** For every fill history and every lot in it, other lots and partly used fills among them: the
      entry fees of the lot's trades are the part of its fee that goes with what was closed exactly
      when it was closed in at most one piece or had no fee; otherwise, with a positive fee, more. */
  lemma EntryFeeExactIff(fills: seq<Fill>, i: nat)
    requires i < |RunJournal(EMPTY, fills).lots|
    ensures var b := RunJournal(EMPTY, fills);
      var l, trades := b.lots[i], TradesOf(b.closed, i);
      && l.id == i && l.qtyTotal > 0.0 && Total(Qtys(trades)) == l.qtyTotal - l.qtyRemaining
      && (EntryFees(trades) == Due(l) <==> |trades| <= 1 || l.feeQuote == 0.0)
      && (|trades| >= 2 && l.feeQuote > 0.0 ==> EntryFees(trades) > Due(l))
  {
    RunKeepsAccounted(EMPTY, fills);
    hide RunJournal, EntryFees, Due, Pieces, Charged, Total;
    var b := RunJournal(EMPTY, fills);
    ChargedIff(b.lots[i], TradesOf(b.closed, i));
  }

  // ---------- net profit over every history ----------

  function Net(trades: seq<ClosedTrade>): real {
    if trades == [] then 0.0 else trades[0].netPnl + Net(trades[1..])
  }

  /** The fees the journalled fills paid. */
  function FeesPaid(fills: seq<Fill>): real {
    if fills == [] then 0.0 else (if fills[0].qty > 0.0 then fills[0].fee else 0.0) + FeesPaid(fills[1..])
  }

  lemma {:induction false} NetIs(trades: seq<ClosedTrade>)
    requires NetBooked(trades)
    ensures Net(trades) == Gross(trades) - EntryFees(trades) - ExitFees(trades)
  {
    if trades != [] {
      assert trades[0] in trades;
      NetIs(trades[1..]);
    }
  }

  lemma {:induction false} ExitFeesConcat(a: seq<ClosedTrade>, b: seq<ClosedTrade>)
    ensures ExitFees(a + b) == ExitFees(a) + ExitFees(b)
  {
    if a == [] {
      assert a + b == b;
    } else {
      assert (a + b)[1..] == a[1..] + b;
      ExitFeesConcat(a[1..], b);
    }
  }

  lemma {:induction false} LotFeesConcat(a: seq<Lot>, b: seq<Lot>)
    ensures LotFees(a + b) == LotFees(a) + LotFees(b)
  {
    if a == [] {
      assert a + b == b;
    } else {
      assert (a + b)[1..] == a[1..] + b;
      LotFeesConcat(a[1..], b);
    }
  }

  /** Closing takes nothing off a lot's fee. */
  lemma {:induction false} ConsumeKeepsFees(lots: seq<Lot>, f: Fill, remaining: real)
    requires f.qty > 0.0
    ensures LotFees(Consume(lots, f, remaining).lots) == LotFees(lots)
    ensures (forall l :: l in lots ==> l.feeQuote >= 0.0) ==>
      forall l :: l in Consume(lots, f, remaining).lots ==> l.feeQuote >= 0.0
  {
    hide CloseLot;
    if lots != [] && remaining > 0.0 {
      var left := if Consumable(lots[0], f) then remaining - Min(remaining, lots[0].qtyRemaining) else remaining;
      ConsumeKeepsFees(lots[1..], f, left);
      var c := Consume(lots, f, remaining);
      assert c.lots[1..] == Consume(lots[1..], f, left).lots;
      assert forall l :: l in lots[1..] ==> l in lots;
    }
  }

  predicate LotFeesNonnegative(lots: seq<Lot>) { forall l :: l in lots ==> l.feeQuote >= 0.0 }

  lemma ProcessConservesFees(b: Book, f: Fill)
    ensures var after := ProcessFill(b, f);
      ExitFees(after.closed) + LotFees(after.lots)
      == ExitFees(b.closed) + LotFees(b.lots) + if f.qty > 0.0 then f.fee else 0.0
    ensures f.fee >= 0.0 && LotFeesNonnegative(b.lots) ==> LotFeesNonnegative(ProcessFill(b, f).lots)
  {
    if f.qty > 0.0 {
      var c := Consume(b.lots, f, f.qty);
      FillFeeConserved(b, f);
      ExitFeesAreShare(b.lots, f, f.qty);
      ConsumeRemaining(b.lots, f, f.qty);
      ConsumeKeepsFees(b.lots, f, f.qty);
      RatioBounds(f.qty - c.remaining, f.qty, f.fee);
      hide Consume, Share, Ratio;
      ExitFeesConcat(b.closed, c.trades);
      LotFeesConcat(c.lots, Opened(f, c));
      assert c.remaining > 0.0 ==> LotFees(Opened(f, c)) == Opened(f, c)[0].feeQuote + LotFees([]);
    }
  }

  lemma RatioBounds(part: real, whole: real, fee: real)
    requires whole > 0.0 && 0.0 <= part <= whole
    ensures fee >= 0.0 ==> Share(fee, Ratio(part, whole)) <= fee
  {
    var x := part / whole;
    assert x * whole == part;
    assert (1.0 - x) * whole >= 0.0;
    assert x <= 1.0;
  }

  lemma {:induction false} RunConservesFees(b: Book, fills: seq<Fill>)
    requires NetBooked(b.closed)
    ensures var after := RunJournal(b, fills);
      ExitFees(after.closed) + LotFees(after.lots) == ExitFees(b.closed) + LotFees(b.lots) + FeesPaid(fills)
    ensures (forall f :: f in fills ==> f.fee >= 0.0) && LotFeesNonnegative(b.lots) ==>
      LotFeesNonnegative(RunJournal(b, fills).lots)
    ensures NetBooked(RunJournal(b, fills).closed)
    decreases |fills|
  {
    hide ProcessFill, LotFeesNonnegative, NetBooked;
    if fills != [] {
      assert fills[0] in fills;
      ProcessConservesFees(b, fills[0]);
      ProcessKeepsNetBooked(b, fills[0]);
      RunConservesFees(ProcessFill(b, fills[0]), fills[1..]);
    }
  }

  lemma ProcessKeepsNetBooked(b: Book, f: Fill)
    requires NetBooked(b.closed)
    ensures NetBooked(ProcessFill(b, f).closed)
  {
    if f.qty > 0.0 {
      ConsumeNetBooked(b.lots, f, f.qty);
    }
  }

  /** The entry fees of the first n lots' trades. */
  function ChargedTo(trades: seq<ClosedTrade>, n: nat): real {
    if n == 0 then 0.0 else ChargedTo(trades, n - 1) + EntryFees(TradesOf(trades, n - 1))
  }

  lemma {:induction false} ChargedToCons(t: ClosedTrade, trades: seq<ClosedTrade>, n: nat)
    ensures ChargedTo([t] + trades, n) == ChargedTo(trades, n) + if t.lot < n then t.entryFees else 0.0
  {
    if n > 0 {
      ChargedToCons(t, trades, n - 1);
      assert ([t] + trades)[1..] == trades;
      EntryFeesConcat([t], TradesOf(trades, n - 1));
      OneEntryFee(t);
    }
  }

  lemma {:induction false} ChargedToNothing(n: nat)
    ensures ChargedTo([], n) == 0.0
  {
    if n > 0 {
      ChargedToNothing(n - 1);
    }
  }

  /** All entry fees are some lot's. */
  lemma {:induction false} EntryFeesByLot(trades: seq<ClosedTrade>, n: nat)
    requires forall t :: t in trades ==> t.lot < n
    ensures EntryFees(trades) == ChargedTo(trades, n)
  {
    if trades == [] {
      ChargedToNothing(n);
    } else {
      assert trades == [trades[0]] + trades[1..];
      EntryFeesByLot(trades[1..], n);
      ChargedToCons(trades[0], trades[1..], n);
    }
  }

  /** Closed in at most one piece, or without a fee. */
  predicate ChargedOnce(b: Book, i: nat)
    requires i < |b.lots|
  {
    |TradesOf(b.closed, i)| <= 1 || b.lots[i].feeQuote == 0.0
  }

  lemma ClosedLotPays(b: Book, i: nat)
    requires AllAccounted(b) && Exhausted(b.lots) && LotFeesNonnegative(b.lots) && i < |b.lots|
    ensures var charged := EntryFees(TradesOf(b.closed, i));
      charged >= b.lots[i].feeQuote && (charged == b.lots[i].feeQuote <==> ChargedOnce(b, i))
  {
    var l := b.lots[i];
    assert l in b.lots;
    hide EntryFees, TradesOf;
    ChargedIff(l, TradesOf(b.closed, i));
    RatiosAdd(0.0, 0.0, l.qtyTotal);
    assert Due(l) == l.feeQuote;
  }

  lemma {:induction false} ChargedAgainstFees(b: Book, n: nat)
    requires AllAccounted(b) && Exhausted(b.lots) && LotFeesNonnegative(b.lots) && n <= |b.lots|
    ensures ChargedTo(b.closed, n) >= LotFees(b.lots[..n])
    ensures ChargedTo(b.closed, n) == LotFees(b.lots[..n]) <==> forall i :: 0 <= i < n ==> ChargedOnce(b, i)
  {
    if n > 0 {
      var l := b.lots[n - 1];
      ClosedLotPays(b, n - 1);
      ChargedAgainstFees(b, n - 1);
      assert b.lots[..n] == b.lots[..n - 1] + [l];
      LotFeesConcat(b.lots[..n - 1], [l]);
      assert LotFees([l]) == l.feeQuote + LotFees([]);
      assert ChargedTo(b.closed, n) == ChargedTo(b.closed, n - 1) + EntryFees(TradesOf(b.closed, n - 1));
      hide LotFees, EntryFees, ChargedTo, ChargedOnce, AllAccounted, TradesOf, Exhausted, LotFeesNonnegative;
    }
  }

  /** Whenever the position is flat, with no negative fee: the journal's net profit is at most the
      average-cost profit less all fees paid, and it is exactly that if and only if every lot was
      closed in one piece or had no fee. */
  lemma FlatNetIff(fills: seq<Fill>)
    requires RunPosition(FLAT, fills).qty == 0.0 && forall f :: f in fills ==> f.fee >= 0.0
    ensures var b := RunJournal(EMPTY, fills);
      var due := RunPosition(FLAT, fills).realizedPnl - FeesPaid(fills);
      && Net(b.closed) <= due
      && (Net(b.closed) == due <==> forall i :: 0 <= i < |b.lots| ==> ChargedOnce(b, i))
  {
    var b := RunJournal(EMPTY, fills);
    FlatRealizedAgree(fills);
    RunConservesFees(EMPTY, fills);
    RunKeepsAccounted(EMPTY, fills);
    hide RunJournal, RunPosition, FeesPaid;
    NetIs(b.closed);
    EntryFeesByLot(b.closed, |b.lots|);
    ChargedAgainstFees(b, |b.lots|);
    assert b.lots[..|b.lots|] == b.lots;
    hide ChargedOnce, Net, Gross, EntryFees, ExitFees, LotFees, ChargedTo;
  }
}
