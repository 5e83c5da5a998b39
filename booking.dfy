/** The FIFO lot-booking engine of `services/TransactionService.py` as
    functions on record values.  `BookFrom` follows the scan of `_book_transactions` over the
    record list index by index; `Consume` is an independent reference: the
    FIFO consumption of a queue of open lots.  The lemmas connect the two and
    state conservation, the SELL-prefix/BUY-suffix shape, the split, and how
    much of each sell is booked. */
module Booking {
  import opened Common
  import opened TransactionModel
  import opened TransactionRowModel

  /** The record `t`, booked: `qty` units sold at date `d` and price `p`. */
  function Sold(t: TxnValue, qty: Qty, d: Date, p: Price): TxnValue
  {
    t.(side := SELL, qty := qty, sellDate := Some(d), sellPrice := Some(p))
  }

  /** The unsold remainder of a split record: same name, buy date and buy price. */
  function Remainder(t: TxnValue, qty: Qty): TxnValue
  {
    TxnValue(t.name, BUY, qty, t.buyDate, t.buyPrice, None, None)
  }

  /** The open record seeded from one buy row. */
  function Open(name: string, b: RowValue): TxnValue
  {
    TxnValue(name, BUY, b.qty, b.date, b.price, None, None)
  }

  /** One BUY record per buy row, in order, with the row's quantity, date and
      price and no sell leg. */
  function Seed(name: string, buys: seq<RowValue>): (ts: seq<TxnValue>)
    ensures |ts| == |buys|
    ensures forall k :: 0 <= k < |buys| ==>
      ts[k].name == name && ts[k].side == BUY && ts[k].qty == buys[k].qty &&
      ts[k].buyDate == buys[k].date && ts[k].buyPrice == buys[k].price &&
      ts[k].sellDate.None? && ts[k].sellPrice.None?
  {
    if buys == [] then [] else Seed(name, buys[..|buys| - 1]) + [Open(name, buys[|buys| - 1])]
  }

  /** The scan of the booking loop for one sell still to book `r` units at
      (`d`, `p`), positioned at index `i` of the record list: records already
      SELL are skipped; an open record of quantity at most `r` is booked whole
      and the scan goes on unless nothing is left; a larger one is split, its
      remainder inserted right after it, and the scan stops. */
  function BookFrom(ts: seq<TxnValue>, i: nat, r: Qty, d: Date, p: Price): seq<TxnValue>
    requires i <= |ts|
    decreases |ts| - i
  {
    if i == |ts| then ts
    else if ts[i].side == SELL then BookFrom(ts, i + 1, r, d, p)
    else if r >= ts[i].qty then
      var booked := ts[i := Sold(ts[i], ts[i].qty, d, p)];
      if r - ts[i].qty == 0.0 then booked else BookFrom(booked, i + 1, r - ts[i].qty, d, p)
    else
      ts[..i] + [Sold(ts[i], r, d, p), Remainder(ts[i], ts[i].qty - r)] + ts[i + 1..]
  }

  /** Booking one sell row: its absolute quantity, from the start of the list. */
  function BookSell(ts: seq<TxnValue>, sell: RowValue): seq<TxnValue>
  {
    BookFrom(ts, 0, Abs(sell.qty), sell.date, sell.price)
  }

  /** Booking the sell rows one after the other, in order. */
  function BookAll(ts: seq<TxnValue>, sells: seq<RowValue>): seq<TxnValue>
    decreases |sells|
  {
    if sells == [] then ts else BookAll(BookSell(ts, sells[0]), sells[1..])
  }

  /** What `_process_transactions` returns for one instrument. */
  function Process(name: string, buys: seq<RowValue>, sells: seq<RowValue>): seq<TxnValue>
  {
    BookAll(Seed(name, buys), sells)
  }

  /** Reference definition: FIFO consumption of `r` units from a queue of open
      lots, oldest first. */
  function Consume(lots: seq<TxnValue>, r: Qty, d: Date, p: Price): seq<TxnValue>
    decreases |lots|
  {
    if lots == [] then []
    else if r >= lots[0].qty then
      [Sold(lots[0], lots[0].qty, d, p)] +
      (if r - lots[0].qty == 0.0 then lots[1..] else Consume(lots[1..], r - lots[0].qty, d, p))
    else
      [Sold(lots[0], r, d, p), Remainder(lots[0], lots[0].qty - r)] + lots[1..]
  }

  // ---------------------------------------------------------------- sums

  function Total(ts: seq<TxnValue>): Qty
  {
    if ts == [] then 0.0 else Total(ts[..|ts| - 1]) + ts[|ts| - 1].qty
  }

  /** Sum of the quantities of the records on `side`: BUY is held, SELL is booked. */
  function QtyOn(ts: seq<TxnValue>, side: Side): Qty
  {
    if ts == [] then 0.0
    else QtyOn(ts[..|ts| - 1], side) + (if ts[|ts| - 1].side == side then ts[|ts| - 1].qty else 0.0)
  }

  function RowTotal(rows: seq<RowValue>): Qty
  {
    if rows == [] then 0.0 else RowTotal(rows[..|rows| - 1]) + rows[|rows| - 1].qty
  }

  /** Total absolute quantity of a list of sell rows. */
  function SellTotal(sells: seq<RowValue>): Qty
  {
    if sells == [] then 0.0 else Abs(sells[0].qty) + SellTotal(sells[1..])
  }

  // ---------------------------------------------------------------- shapes

  ghost predicate AllOn(ts: seq<TxnValue>, side: Side)
  {
    forall k :: 0 <= k < |ts| ==> ts[k].side == side
  }

  /** No BUY record is followed by a SELL record: a run of SELL records, then
      a run of BUY records. */
  ghost predicate SellsThenBuys(ts: seq<TxnValue>)
  {
    forall a, c :: 0 <= a < c < |ts| && ts[a].side == BUY ==> ts[c].side == BUY
  }

  /** Every open record has a positive quantity. */
  ghost predicate OpenPositive(ts: seq<TxnValue>)
  {
    forall k :: 0 <= k < |ts| && ts[k].side == BUY ==> ts[k].qty > 0.0
  }

  /** Every record has a positive quantity. */
  ghost predicate Positive(ts: seq<TxnValue>)
  {
    forall k :: 0 <= k < |ts| ==> ts[k].qty > 0.0
  }

  /** Every record carries the instrument name `name`. */
  ghost predicate Named(ts: seq<TxnValue>, name: string)
  {
    forall k :: 0 <= k < |ts| ==> ts[k].name == name
  }

  /** A record is BUY exactly when it has no sell date, and exactly when it
      has no sell price. */
  ghost predicate Legs(ts: seq<TxnValue>)
  {
    forall k :: 0 <= k < |ts| ==>
      (ts[k].side == BUY <==> ts[k].sellDate.None?) && (ts[k].side == BUY <==> ts[k].sellPrice.None?)
  }

  /** Index of the first open record (the length when there is none). */
  function FirstOpen(ts: seq<TxnValue>): (n: nat)
    ensures n <= |ts| && AllOn(ts[..n], SELL) && (n < |ts| ==> ts[n].side == BUY)
  {
    if ts == [] || ts[0].side == BUY then 0
    else
      var n := 1 + FirstOpen(ts[1..]);
      assert forall k :: 1 <= k < n ==> ts[..n][k] == ts[1..][..n - 1][k - 1];
      n
  }

  // ---------------------------------------------------------------- sum lemmas

  lemma {:induction false} TotalConcat(a: seq<TxnValue>, b: seq<TxnValue>)
    ensures Total(a + b) == Total(a) + Total(b)
    decreases |b|
  {
    if b == [] {
      assert a + b == a;
    } else {
      assert (a + b)[..|a + b| - 1] == a + b[..|b| - 1];
      TotalConcat(a, b[..|b| - 1]);
    }
  }

  lemma {:induction false} QtyOnConcat(a: seq<TxnValue>, b: seq<TxnValue>, side: Side)
    ensures QtyOn(a + b, side) == QtyOn(a, side) + QtyOn(b, side)
    decreases |b|
  {
    if b == [] {
      assert a + b == a;
    } else {
      assert (a + b)[..|a + b| - 1] == a + b[..|b| - 1];
      QtyOnConcat(a, b[..|b| - 1], side);
    }
  }

  /** The total, taken from the front. */
  lemma TotalFront(s: seq<TxnValue>)
    requires s != []
    ensures Total(s) == s[0].qty + Total(s[1..])
  {
    TotalConcat([s[0]], s[1..]);
    assert [s[0]] + s[1..] == s;
    assert [s[0]][..0] == [];
  }

  /** The quantity on one side, taken from the front. */
  lemma QtyOnFront(s: seq<TxnValue>, side: Side)
    requires s != []
    ensures QtyOn(s, side) == (if s[0].side == side then s[0].qty else 0.0) + QtyOn(s[1..], side)
  {
    QtyOnConcat([s[0]], s[1..], side);
    assert [s[0]] + s[1..] == s;
    assert [s[0]][..0] == [];
  }

  /** Held plus booked is the total quantity of the list. */
  lemma {:induction false} HeldPlusBooked(ts: seq<TxnValue>)
    ensures QtyOn(ts, BUY) + QtyOn(ts, SELL) == Total(ts)
  {
    if ts != [] {
      HeldPlusBooked(ts[..|ts| - 1]);
    }
  }

  lemma {:induction false} QtyOnAllOn(ts: seq<TxnValue>, side: Side)
    requires AllOn(ts, side)
    ensures QtyOn(ts, side) == Total(ts) && QtyOn(ts, Opposite(side)) == 0.0
  {
    if ts != [] {
      QtyOnAllOn(ts[..|ts| - 1], side);
    }
  }

  lemma {:induction false} HeldNonNegative(ts: seq<TxnValue>)
    requires OpenPositive(ts)
    ensures QtyOn(ts, BUY) >= 0.0
  {
    if ts != [] {
      HeldNonNegative(ts[..|ts| - 1]);
    }
  }

  lemma {:induction false} SeedTotal(name: string, buys: seq<RowValue>)
    ensures Total(Seed(name, buys)) == RowTotal(buys)
  {
    if buys != [] {
      SeedTotal(name, buys[..|buys| - 1]);
      TotalConcat(Seed(name, buys[..|buys| - 1]), [Open(name, buys[|buys| - 1])]);
    }
  }

  // ---------------------------------------------------------------- the scan is FIFO

  /** Scanning skips a prefix of SELL records. */
  lemma {:induction false} SkipSold(s: seq<TxnValue>, x: seq<TxnValue>, j: nat, r: Qty, d: Date, p: Price)
    requires AllOn(s, SELL) && j <= |s|
    ensures BookFrom(s + x, j, r, d, p) == BookFrom(s + x, |s|, r, d, p)
    decreases |s| - j
  {
    if j < |s| {
      assert (s + x)[j] == s[j];
      SkipSold(s, x, j + 1, r, d, p);
    }
  }

  /** From the first open record on, the scan is the FIFO consumption of the
      open records; whatever precedes them is left alone. */
  lemma {:induction false} ScanIsConsume(pre: seq<TxnValue>, lots: seq<TxnValue>, r: Qty, d: Date, p: Price)
    requires AllOn(lots, BUY)
    ensures BookFrom(pre + lots, |pre|, r, d, p) == pre + Consume(lots, r, d, p)
    decreases |lots|
  {
    if lots == [] {
      assert pre + lots == pre;
    } else {
      JoinAt(pre, lots);
      var q := lots[0].qty;
      if r >= q {
        var x := Sold(lots[0], q, d, p);
        UpdateAtJoin(pre, lots, x);
        var rest := if r - q == 0.0 then lots[1..] else Consume(lots[1..], r - q, d, p);
        if r - q != 0.0 {
          assert AllOn(lots[1..], BUY);
          ScanIsConsume(pre + [x], lots[1..], r - q, d, p);
        }
        JoinAssoc(pre, [x], rest);
      } else {
        JoinAssoc(pre, [Sold(lots[0], r, d, p), Remainder(lots[0], q - r)], lots[1..]);
      }
    }
  }

  /** Where the second part of a join starts. */
  lemma JoinAt(pre: seq<TxnValue>, lots: seq<TxnValue>)
    requires lots != []
    ensures (pre + lots)[|pre|] == lots[0]
    ensures (pre + lots)[..|pre|] == pre && (pre + lots)[|pre| + 1..] == lots[1..]
  {
  }

  /** Overwriting the first element of the second part of a join. */
  lemma UpdateAtJoin(pre: seq<TxnValue>, lots: seq<TxnValue>, x: TxnValue)
    requires lots != []
    ensures (pre + lots)[|pre| := x] == (pre + [x]) + lots[1..]
  {
    var l, r := (pre + lots)[|pre| := x], (pre + [x]) + lots[1..];
    assert |l| == |r|;
    forall k | 0 <= k < |l| ensures l[k] == r[k] {
      if k < |pre| {
      } else if k == |pre| {
      } else {
        assert l[k] == lots[k - |pre|] == lots[1..][k - |pre| - 1];
      }
    }
  }

  /** Regrouping a join.  Kept as a lemma: stated as a local assertion it puts
      a sequence equality into the whole context of `ScanIsConsume`. */
  lemma JoinAssoc(a: seq<TxnValue>, b: seq<TxnValue>, c: seq<TxnValue>)
    ensures (a + b) + c == a + (b + c)
  {
  }

  /** FIFO: on a list of SELL records followed by open records, booking a sell
      leaves the SELL records as they are and consumes the open records in
      list order. */
  lemma BookSellIsFifo(sold: seq<TxnValue>, lots: seq<TxnValue>, sell: RowValue)
    requires AllOn(sold, SELL) && AllOn(lots, BUY)
    ensures BookSell(sold + lots, sell) == sold + Consume(lots, Abs(sell.qty), sell.date, sell.price)
  {
    SkipSold(sold, lots, 0, Abs(sell.qty), sell.date, sell.price);
    ScanIsConsume(sold, lots, Abs(sell.qty), sell.date, sell.price);
  }

  /** Split: when the sell is smaller than the oldest open record, that record
      becomes a SELL record of the sell's quantity and date/price, and an open
      remainder of the rest, with the same name, buy date and buy price,
      follows it; nothing else changes. */
  lemma SplitIntegrity(sold: seq<TxnValue>, lots: seq<TxnValue>, sell: RowValue)
    requires AllOn(sold, SELL) && AllOn(lots, BUY)
    requires lots != [] && Abs(sell.qty) < lots[0].qty
    ensures var r := Abs(sell.qty);
      BookSell(sold + lots, sell) ==
        sold +
        [TxnValue(lots[0].name, SELL, r, lots[0].buyDate, lots[0].buyPrice, Some(sell.date), Some(sell.price)),
         TxnValue(lots[0].name, BUY, lots[0].qty - r, lots[0].buyDate, lots[0].buyPrice, None, None)] +
        lots[1..]
  {
    BookSellIsFifo(sold, lots, sell);
  }

  /** Full consumption: when the sell covers the oldest open record, that
      record keeps its quantity and becomes SELL at the sell's date/price; the
      rest of the sell goes on to the following records unless it is exactly 0. */
  lemma FullConsumption(sold: seq<TxnValue>, lots: seq<TxnValue>, sell: RowValue)
    requires AllOn(sold, SELL) && AllOn(lots, BUY)
    requires lots != [] && Abs(sell.qty) >= lots[0].qty
    ensures var r := Abs(sell.qty);
      var q := lots[0].qty;
      BookSell(sold + lots, sell) ==
        sold + [TxnValue(lots[0].name, SELL, q, lots[0].buyDate, lots[0].buyPrice, Some(sell.date), Some(sell.price))] +
        (if r == q then lots[1..] else Consume(lots[1..], r - q, sell.date, sell.price))
  {
    BookSellIsFifo(sold, lots, sell);
  }

  // ---------------------------------------------------------------- properties of Consume

  lemma {:induction false} ConsumeTotal(lots: seq<TxnValue>, r: Qty, d: Date, p: Price)
    ensures Total(Consume(lots, r, d, p)) == Total(lots)
    decreases |lots|
  {
    if lots != [] {
      var q := lots[0].qty;
      var c := Consume(lots, r, d, p);
      TotalFront(lots);
      TotalFront(c);
      if r >= q {
        var rest := if r - q == 0.0 then lots[1..] else Consume(lots[1..], r - q, d, p);
        if r - q != 0.0 {
          ConsumeTotal(lots[1..], r - q, d, p);
        }
        ConsumeFront(lots, r, d, p);
        assert c[1..] == rest;
      } else {
        ConsumeFront(lots, r, d, p);
        TotalFront(c[1..]);
      }
    }
  }

  /** The first record of a consumption and what follows it. */
  lemma ConsumeFront(lots: seq<TxnValue>, r: Qty, d: Date, p: Price)
    requires lots != []
    ensures var c := Consume(lots, r, d, p);
      var q := lots[0].qty;
      c != [] && c[0] == Sold(lots[0], Min(r, q), d, p) &&
      (r >= q ==> c[1..] == if r - q == 0.0 then lots[1..] else Consume(lots[1..], r - q, d, p)) &&
      (r < q ==> c[1..] != [] && c[1..][0] == Remainder(lots[0], q - r) && c[1..][1..] == lots[1..])
  {
    var q := lots[0].qty;
    if r >= q {
      var rest := if r - q == 0.0 then lots[1..] else Consume(lots[1..], r - q, d, p);
      assert ([Sold(lots[0], q, d, p)] + rest)[1..] == rest;
    } else {
      var c := [Sold(lots[0], r, d, p), Remainder(lots[0], q - r)] + lots[1..];
      assert c[1..] == [Remainder(lots[0], q - r)] + lots[1..];
      assert c[1..][1..] == lots[1..];
    }
  }

  lemma {:induction false} ConsumeShape(lots: seq<TxnValue>, r: Qty, d: Date, p: Price)
    requires AllOn(lots, BUY)
    ensures SellsThenBuys(Consume(lots, r, d, p))
    decreases |lots|
  {
    if lots != [] && r >= lots[0].qty && r - lots[0].qty != 0.0 {
      ConsumeShape(lots[1..], r - lots[0].qty, d, p);
    }
  }

  /** Booking from a queue of positive open lots books min(r, total) units:
      the whole sell when there is enough, everything otherwise. */
  lemma {:induction false} ConsumeBooked(lots: seq<TxnValue>, r: Qty, d: Date, p: Price)
    requires AllOn(lots, BUY) && OpenPositive(lots) && r >= 0.0
    ensures QtyOn(Consume(lots, r, d, p), SELL) == Min(r, Total(lots))
    decreases |lots|
  {
    if lots != [] {
      var q := lots[0].qty;
      var tail := lots[1..];
      var c := Consume(lots, r, d, p);
      TotalFront(lots);
      assert AllOn(tail, BUY) && OpenPositive(tail);
      HeldNonNegative(tail);
      QtyOnAllOn(tail, BUY);
      ConsumeFront(lots, r, d, p);
      QtyOnFront(c, SELL);
      if r >= q {
        if r - q != 0.0 {
          ConsumeBooked(tail, r - q, d, p);
        }
      } else {
        QtyOnFront(c[1..], SELL);
      }
    }
  }

  /** Open records stay positive: a remainder is what is left of a larger lot. */
  lemma {:induction false} ConsumeOpenPositive(lots: seq<TxnValue>, r: Qty, d: Date, p: Price)
    requires OpenPositive(lots)
    ensures OpenPositive(Consume(lots, r, d, p))
    decreases |lots|
  {
    if lots != [] && r >= lots[0].qty && r - lots[0].qty != 0.0 {
      ConsumeOpenPositive(lots[1..], r - lots[0].qty, d, p);
    }
  }

  lemma {:induction false} ConsumeLegs(lots: seq<TxnValue>, r: Qty, d: Date, p: Price)
    requires Legs(lots)
    ensures Legs(Consume(lots, r, d, p))
    decreases |lots|
  {
    if lots != [] && r >= lots[0].qty && r - lots[0].qty != 0.0 {
      ConsumeLegs(lots[1..], r - lots[0].qty, d, p);
    }
  }

  /** With a positive sell, every record Consume produces has a positive quantity. */
  lemma {:induction false} ConsumePositive(lots: seq<TxnValue>, r: Qty, d: Date, p: Price)
    requires Positive(lots) && r > 0.0
    ensures Positive(Consume(lots, r, d, p))
    decreases |lots|
  {
    if lots != [] && r >= lots[0].qty && r - lots[0].qty != 0.0 {
      ConsumePositive(lots[1..], r - lots[0].qty, d, p);
    }
  }

  /** The name of every record is kept. */
  lemma {:induction false} ConsumeNamed(lots: seq<TxnValue>, name: string, r: Qty, d: Date, p: Price)
    requires Named(lots, name)
    ensures Named(Consume(lots, r, d, p), name)
    decreases |lots|
  {
    if lots != [] && r >= lots[0].qty && r - lots[0].qty != 0.0 {
      ConsumeNamed(lots[1..], name, r - lots[0].qty, d, p);
    }
  }

  // ---------------------------------------------------------------- booking one sell

  lemma TotalUpdate(ts: seq<TxnValue>, i: nat, v: TxnValue)
    requires i < |ts|
    ensures Total(ts[i := v]) == Total(ts) - ts[i].qty + v.qty
  {
    assert ts == ts[..i] + [ts[i]] + ts[i + 1..];
    assert ts[i := v] == ts[..i] + [v] + ts[i + 1..];
    TotalConcat(ts[..i] + [ts[i]], ts[i + 1..]);
    TotalConcat(ts[..i], [ts[i]]);
    TotalConcat(ts[..i] + [v], ts[i + 1..]);
    TotalConcat(ts[..i], [v]);
  }

  /** Replacing the record at `i` by two whose quantities add up to its own
      keeps the total. */
  lemma TotalSplit(ts: seq<TxnValue>, i: nat, a: TxnValue, b: TxnValue)
    requires i < |ts| && a.qty + b.qty == ts[i].qty
    ensures Total(ts[..i] + [a, b] + ts[i + 1..]) == Total(ts)
  {
    assert ts == ts[..i] + [ts[i]] + ts[i + 1..];
    TotalConcat(ts[..i] + [ts[i]], ts[i + 1..]);
    TotalConcat(ts[..i], [ts[i]]);
    TotalConcat(ts[..i] + [a, b], ts[i + 1..]);
    TotalConcat(ts[..i], [a, b]);
    TotalConcat([a], [b]);
    assert [a, b] == [a] + [b];
  }

  /** Conservation, on any list: booking never changes the total quantity;
      a split only divides a record's quantity between two records. */
  lemma {:induction false} BookFromTotal(ts: seq<TxnValue>, i: nat, r: Qty, d: Date, p: Price)
    requires i <= |ts|
    ensures Total(BookFrom(ts, i, r, d, p)) == Total(ts)
    decreases |ts| - i
  {
    if i < |ts| {
      var q := ts[i].qty;
      if ts[i].side == SELL {
        BookFromTotal(ts, i + 1, r, d, p);
      } else if r >= q {
        var booked := ts[i := Sold(ts[i], q, d, p)];
        TotalUpdate(ts, i, Sold(ts[i], q, d, p));
        if r - q != 0.0 {
          BookFromTotal(booked, i + 1, r - q, d, p);
        }
      } else {
        TotalSplit(ts, i, Sold(ts[i], r, d, p), Remainder(ts[i], q - r));
      }
    }
  }

  /** A list of the invariant shape splits into its SELL prefix and its open suffix. */
  lemma SplitAtFirstOpen(ts: seq<TxnValue>)
    requires SellsThenBuys(ts)
    ensures var n := FirstOpen(ts);
      ts == ts[..n] + ts[n..] && AllOn(ts[..n], SELL) && AllOn(ts[n..], BUY)
  {
    var n := FirstOpen(ts);
    var tail := ts[n..];
    assert ts == ts[..n] + tail;
    if n < |ts| {
      assert ts[n].side == BUY;
      forall k | 0 <= k < |tail| ensures tail[k].side == BUY {
        assert tail[k] == ts[n + k];
      }
    }
  }

  lemma AppendShape(sold: seq<TxnValue>, rest: seq<TxnValue>)
    requires AllOn(sold, SELL) && SellsThenBuys(rest)
    ensures SellsThenBuys(sold + rest)
  {
    var ts := sold + rest;
    forall a, c | 0 <= a < c < |ts| && ts[a].side == BUY ensures ts[c].side == BUY {
      assert a >= |sold|;
      assert ts[a] == rest[a - |sold|] && ts[c] == rest[c - |sold|];
    }
  }

  /** List invariant and FIFO: booking a sell keeps the list a run of SELL
      records followed by a run of BUY records, and the SELL records it
      already had are left as they are. */
  lemma BookSellShape(ts: seq<TxnValue>, sell: RowValue)
    requires SellsThenBuys(ts)
    ensures SellsThenBuys(BookSell(ts, sell))
    ensures |BookSell(ts, sell)| >= FirstOpen(ts)
    ensures BookSell(ts, sell)[..FirstOpen(ts)] == ts[..FirstOpen(ts)]
  {
    var n := FirstOpen(ts);
    SplitAtFirstOpen(ts);
    var r := Abs(sell.qty);
    BookSellIsFifo(ts[..n], ts[n..], sell);
    ConsumeShape(ts[n..], r, sell.date, sell.price);
    AppendShape(ts[..n], Consume(ts[n..], r, sell.date, sell.price));
    assert (ts[..n] + Consume(ts[n..], r, sell.date, sell.price))[..n] == ts[..n];
  }

  /** A list of the invariant shape, booked: its SELL prefix followed by the
      FIFO consumption of its open suffix. */
  lemma BookSellSplit(ts: seq<TxnValue>, sell: RowValue)
    requires SellsThenBuys(ts)
    ensures var n := FirstOpen(ts);
      ts == ts[..n] + ts[n..] && AllOn(ts[..n], SELL) && AllOn(ts[n..], BUY) &&
      BookSell(ts, sell) == ts[..n] + Consume(ts[n..], Abs(sell.qty), sell.date, sell.price)
  {
    SplitAtFirstOpen(ts);
    BookSellIsFifo(ts[..FirstOpen(ts)], ts[FirstOpen(ts)..], sell);
  }

  lemma LegsConcat(a: seq<TxnValue>, b: seq<TxnValue>)
    ensures Legs(a + b) <==> Legs(a) && Legs(b)
  {
    if Legs(a + b) {
      assert forall k :: 0 <= k < |a| ==> a[k] == (a + b)[k];
      assert forall k :: 0 <= k < |b| ==> b[k] == (a + b)[|a| + k];
    }
  }

  lemma OpenPositiveConcat(a: seq<TxnValue>, b: seq<TxnValue>)
    ensures OpenPositive(a + b) <==> OpenPositive(a) && OpenPositive(b)
  {
    if OpenPositive(a + b) {
      assert forall k :: 0 <= k < |a| ==> a[k] == (a + b)[k];
      assert forall k :: 0 <= k < |b| ==> b[k] == (a + b)[|a| + k];
    }
  }

  lemma PositiveConcat(a: seq<TxnValue>, b: seq<TxnValue>)
    ensures Positive(a + b) <==> Positive(a) && Positive(b)
  {
    if Positive(a + b) {
      assert forall k :: 0 <= k < |a| ==> a[k] == (a + b)[k];
      assert forall k :: 0 <= k < |b| ==> b[k] == (a + b)[|a| + k];
    }
  }

  lemma NamedConcat(a: seq<TxnValue>, b: seq<TxnValue>, name: string)
    ensures Named(a + b, name) <==> Named(a, name) && Named(b, name)
  {
    if Named(a + b, name) {
      assert forall k :: 0 <= k < |a| ==> a[k] == (a + b)[k];
      assert forall k :: 0 <= k < |b| ==> b[k] == (a + b)[|a| + k];
    }
  }

  lemma BookSellLegs(ts: seq<TxnValue>, sell: RowValue)
    requires SellsThenBuys(ts) && Legs(ts)
    ensures Legs(BookSell(ts, sell))
  {
    var n := FirstOpen(ts);
    BookSellSplit(ts, sell);
    LegsConcat(ts[..n], ts[n..]);
    ConsumeLegs(ts[n..], Abs(sell.qty), sell.date, sell.price);
    LegsConcat(ts[..n], Consume(ts[n..], Abs(sell.qty), sell.date, sell.price));
  }

  /** Each sell books min(|sell qty|, held) more units; any excess is dropped. */
  lemma BookSellBooked(ts: seq<TxnValue>, sell: RowValue)
    requires SellsThenBuys(ts) && OpenPositive(ts)
    ensures QtyOn(BookSell(ts, sell), SELL) == QtyOn(ts, SELL) + Min(Abs(sell.qty), QtyOn(ts, BUY))
    ensures OpenPositive(BookSell(ts, sell))
  {
    var n := FirstOpen(ts);
    BookSellSplit(ts, sell);
    var sold, lots := ts[..n], ts[n..];
    var r := Abs(sell.qty);
    OpenPositiveConcat(sold, lots);
    ConsumeBooked(lots, r, sell.date, sell.price);
    ConsumeOpenPositive(lots, r, sell.date, sell.price);
    var out := Consume(lots, r, sell.date, sell.price);
    OpenPositiveConcat(sold, out);
    QtyOnConcat(sold, out, SELL);
    QtyOnConcat(sold, lots, SELL);
    QtyOnConcat(sold, lots, BUY);
    QtyOnAllOn(sold, SELL);
    QtyOnAllOn(lots, BUY);
  }

  // ---------------------------------------------------------------- booking all sells

  /** Conservation over any number of sells. */
  lemma {:induction false} BookAllTotal(ts: seq<TxnValue>, sells: seq<RowValue>)
    ensures Total(BookAll(ts, sells)) == Total(ts)
    decreases |sells|
  {
    if sells != [] {
      BookFromTotal(ts, 0, Abs(sells[0].qty), sells[0].date, sells[0].price);
      BookAllTotal(BookSell(ts, sells[0]), sells[1..]);
    }
  }

  /** The list invariant holds after every sell. */
  lemma {:induction false} BookAllShape(ts: seq<TxnValue>, sells: seq<RowValue>)
    requires SellsThenBuys(ts) && Legs(ts)
    ensures SellsThenBuys(BookAll(ts, sells)) && Legs(BookAll(ts, sells))
    decreases |sells|
  {
    if sells != [] {
      BookSellShape(ts, sells[0]);
      BookSellLegs(ts, sells[0]);
      BookAllShape(BookSell(ts, sells[0]), sells[1..]);
    }
  }

  lemma {:induction false} SellTotalNonNegative(sells: seq<RowValue>)
    ensures SellTotal(sells) >= 0.0
  {
    if sells != [] {
      SellTotalNonNegative(sells[1..]);
    }
  }

  /** After all sells, the booked quantity is the booked quantity before plus
      everything sold, capped at the total quantity. */
  lemma {:induction false} BookAllBooked(ts: seq<TxnValue>, sells: seq<RowValue>)
    requires SellsThenBuys(ts) && OpenPositive(ts)
    ensures QtyOn(BookAll(ts, sells), SELL) == Min(QtyOn(ts, SELL) + SellTotal(sells), Total(ts))
    decreases |sells|
  {
    HeldPlusBooked(ts);
    HeldNonNegative(ts);
    if sells != [] {
      var next := BookSell(ts, sells[0]);
      BookSellShape(ts, sells[0]);
      BookSellBooked(ts, sells[0]);
      BookFromTotal(ts, 0, Abs(sells[0].qty), sells[0].date, sells[0].price);
      SellTotalNonNegative(sells[1..]);
      BookAllBooked(next, sells[1..]);
    }
  }

  lemma {:induction false} BookAllPositive(ts: seq<TxnValue>, sells: seq<RowValue>)
    requires SellsThenBuys(ts) && Positive(ts)
    requires forall k :: 0 <= k < |sells| ==> sells[k].qty != 0.0
    ensures Positive(BookAll(ts, sells))
    decreases |sells|
  {
    if sells != [] {
      var n := FirstOpen(ts);
      var r := Abs(sells[0].qty);
      BookSellSplit(ts, sells[0]);
      PositiveConcat(ts[..n], ts[n..]);
      ConsumePositive(ts[n..], r, sells[0].date, sells[0].price);
      PositiveConcat(ts[..n], Consume(ts[n..], r, sells[0].date, sells[0].price));
      BookSellShape(ts, sells[0]);
      BookAllPositive(BookSell(ts, sells[0]), sells[1..]);
    }
  }

  lemma {:induction false} BookAllNamed(ts: seq<TxnValue>, name: string, sells: seq<RowValue>)
    requires SellsThenBuys(ts) && Named(ts, name)
    ensures Named(BookAll(ts, sells), name)
    decreases |sells|
  {
    if sells != [] {
      var n := FirstOpen(ts);
      var r := Abs(sells[0].qty);
      BookSellSplit(ts, sells[0]);
      NamedConcat(ts[..n], ts[n..], name);
      ConsumeNamed(ts[n..], name, r, sells[0].date, sells[0].price);
      NamedConcat(ts[..n], Consume(ts[n..], r, sells[0].date, sells[0].price), name);
      BookSellShape(ts, sells[0]);
      BookAllNamed(BookSell(ts, sells[0]), name, sells[1..]);
    }
  }

  // ---------------------------------------------------------------- one instrument

  /** The summary of one instrument: the total quantity of its records is the
      total bought; of it, min(total sold, total bought) is booked and the
      rest held; the records are SELL records followed by BUY records, a record
      is SELL exactly when it has a sell leg, and all carry the instrument's name. */
  lemma ProcessSummary(name: string, buys: seq<RowValue>, sells: seq<RowValue>)
    requires forall k :: 0 <= k < |buys| ==> buys[k].qty > 0.0
    ensures var out := Process(name, buys, sells);
      Total(out) == RowTotal(buys) &&
      QtyOn(out, SELL) == Min(SellTotal(sells), RowTotal(buys)) &&
      QtyOn(out, BUY) == RowTotal(buys) - Min(SellTotal(sells), RowTotal(buys)) &&
      SellsThenBuys(out) && Legs(out) && Named(out, name)
  {
    var seed := Seed(name, buys);
    assert AllOn(seed, BUY);
    SeedTotal(name, buys);
    QtyOnAllOn(seed, BUY);
    BookAllTotal(seed, sells);
    BookAllShape(seed, sells);
    BookAllBooked(seed, sells);
    BookAllNamed(seed, name, sells);
    HeldPlusBooked(Process(name, buys, sells));
  }

  /** Every record is positive when every buy row is and no sell row is zero. */
  lemma ProcessPositive(name: string, buys: seq<RowValue>, sells: seq<RowValue>)
    requires forall k :: 0 <= k < |buys| ==> buys[k].qty > 0.0
    requires forall k :: 0 <= k < |sells| ==> sells[k].qty != 0.0
    ensures Positive(Process(name, buys, sells))
  {
    BookAllPositive(Seed(name, buys), sells);
  }
}
