/** Average-cost position accounting, apps/api/src/analytics/positionMath.ts, over exact reals. */
module Positions {

  datatype Side = BUY | SELL {
    function Opposite(): Side { if this == BUY then SELL else BUY }
  }

  /** One executed fill; a quantity of zero or less is invalid input that both books ignore. */
  datatype Fill = Fill(side: Side, qty: real, price: real, fee: real)

  /** qty > 0 long, < 0 short, 0 flat. */
  datatype Position = Position(qty: real, avgEntry: real, realizedPnl: real)

  const FLAT := Position(0.0, 0.0, 0.0)

  function Signed(f: Fill): real { if f.side == BUY then f.qty else -f.qty }

  function Abs(x: real): real { if x < 0.0 then -x else x }

  function Min(x: real, y: real): real { if x < y then x else y }

  /** `applyFill`. */
  function ApplyFill(pos: Position, f: Fill): Position {
    if f.qty <= 0.0 then pos
    else
      var signed := Signed(f);
      var nextQty := pos.qty + signed;
      if pos.qty == 0.0 || (pos.qty < 0.0) == (signed < 0.0) then
        var size := Abs(pos.qty);
        Position(nextQty, (size * pos.avgEntry + f.qty * f.price) / (size + f.qty), pos.realizedPnl)
      else
        var closedQty := Min(f.qty, Abs(pos.qty));
        var pnlPerUnit := if pos.qty < 0.0 then pos.avgEntry - f.price else f.price - pos.avgEntry;
        var nextEntry := if nextQty == 0.0 then 0.0
                         else if (nextQty < 0.0) == (pos.qty < 0.0) then pos.avgEntry
                         else f.price;
        Position(nextQty, nextEntry, pos.realizedPnl + closedQty * pnlPerUnit)
  }

  /** Profit booked plus profit open at mark price `m`. */
  function Marked(pos: Position, m: real): real {
    pos.realizedPnl + pos.qty * (m - pos.avgEntry)
  }

  /** What the fill itself is worth at mark price `m`: position gained minus cash paid. */
  function FillMarked(f: Fill, m: real): real {
    if f.qty <= 0.0 then 0.0 else Signed(f) * (m - f.price)
  }

  /** Every fill adds exactly its own marked value: adding, reducing, closing and flipping alike. */
  lemma FillConserves(pos: Position, f: Fill, m: real)
    ensures Marked(ApplyFill(pos, f), m) == Marked(pos, m) + FillMarked(f, m)
  {
  }

  /** When profit is booked and where the entry goes: growing books nothing, shrinking keeps the
      entry, closing resets it, flipping re-opens at the fill's price. */
  lemma EntryRules(pos: Position, f: Fill)
    requires f.qty > 0.0
    ensures var next := ApplyFill(pos, f);
      && next.qty == pos.qty + Signed(f)
      && (Abs(next.qty) == Abs(pos.qty) + f.qty ==> next.realizedPnl == pos.realizedPnl)
      && (Abs(next.qty) == Abs(pos.qty) - f.qty != 0.0 ==> next.avgEntry == pos.avgEntry)
      && (next.qty == 0.0 ==> next.avgEntry == 0.0)
      && (pos.qty * next.qty < 0.0 ==> next.avgEntry == f.price)
  {
  }

  function RunPosition(pos: Position, fills: seq<Fill>): Position
    decreases |fills|
  {
    if fills == [] then pos else RunPosition(ApplyFill(pos, fills[0]), fills[1..])
  }

  function FillsMarked(fills: seq<Fill>, m: real): real {
    if fills == [] then 0.0 else FillMarked(fills[0], m) + FillsMarked(fills[1..], m)
  }

  /** realizedPnl + qty * (m - avgEntry) is the fills' signed qty * (m - price), at every mark. */
  lemma {:induction false} RunPositionConserves(pos: Position, fills: seq<Fill>, m: real)
    ensures Marked(RunPosition(pos, fills), m) == Marked(pos, m) + FillsMarked(fills, m)
    decreases |fills|
  {
    if fills != [] {
      FillConserves(pos, fills[0], m);
      RunPositionConserves(ApplyFill(pos, fills[0]), fills[1..], m);
    }
  }
}
