/** A booking record (`models/Transaction.py`): one lot, either still held
    (BUY, no sell leg) or booked (SELL, with the sell date and price).  Name,
    buy date and buy price are fixed at construction; side, quantity and the
    sell leg are rewritten by the booking loop through their setters. */
module TransactionModel {
  import opened Common

  /** One cell of an output row: text, a decimal amount, or a date. */
  datatype Cell = Text(text: string) | Amount(amount: real) | Day(day: Date)

  /** The value a record object holds at one moment. */
  datatype TxnValue = TxnValue(
    name: string, side: Side, qty: Qty, buyDate: Date, buyPrice: Price,
    sellDate: Option<Date>, sellPrice: Option<Price>)

  class Transaction {
    const name: string
    var buySell: Side
    var qty: Qty
    const buyDate: Date
    const buyPrice: Price
    var sellDate: Option<Date>
    var sellPrice: Option<Price>

    /** Stores every field as given; the sell leg defaults to absent. */
    constructor (name: string, buySell: Side, qty: Qty, buyDate: Date, buyPrice: Price,
                 sellDate: Option<Date> := None, sellPrice: Option<Price> := None)
      ensures this.name == name && this.buySell == buySell && this.qty == qty
      ensures this.buyDate == buyDate && this.buyPrice == buyPrice
      ensures this.sellDate == sellDate && this.sellPrice == sellPrice
    {
      this.name := name;
      this.buySell := buySell;
      this.qty := qty;
      this.buyDate := buyDate;
      this.buyPrice := buyPrice;
      this.sellDate := sellDate;
      this.sellPrice := sellPrice;
    }

    method SetBuySell(buySell: Side)
      modifies this`buySell
      ensures this.buySell == buySell
    {
      this.buySell := buySell;
    }

    method SetQty(qty: Qty)
      modifies this`qty
      ensures this.qty == qty
    {
      this.qty := qty;
    }

    method SetSellDate(sellDate: Date)
      modifies this`sellDate
      ensures this.sellDate == Some(sellDate)
    {
      this.sellDate := Some(sellDate);
    }

    method SetSellPrice(sellPrice: Price)
      modifies this`sellPrice
      ensures this.sellPrice == Some(sellPrice)
    {
      this.sellPrice := Some(sellPrice);
    }

    function Value(): TxnValue
      reads this
    {
      TxnValue(name, buySell, qty, buyDate, buyPrice, sellDate, sellPrice)
    }

    /** The output row of this record: name, side value, quantity, buy date,
        buy price, sell date, sell price, with the sell cells empty text
        exactly when the sell leg is absent. */
    function ToTuple(): (row: seq<Cell>)
      reads this
      ensures |row| == 7
      ensures row[0] == Text(name) && row[1] == Text(SideValue(buySell)) && row[2] == Amount(qty)
      ensures row[3] == Day(buyDate) && row[4] == Amount(buyPrice)
      ensures row[5] == Text("") <==> sellDate.None?
      ensures row[6] == Text("") <==> sellPrice.None?
      ensures sellDate.Some? ==> row[5] == Day(sellDate.value)
      ensures sellPrice.Some? ==> row[6] == Amount(sellPrice.value)
    {
      [Text(name), Text(SideValue(buySell)), Amount(qty), Day(buyDate), Amount(buyPrice),
       if sellDate.Some? then Day(sellDate.value) else Text(""),
       if sellPrice.Some? then Amount(sellPrice.value) else Text("")]
    }
  }

  /** The values held by a sequence of record objects; `TransactionRowModel.RowSnapshot`
      is its counterpart for row objects. */
  ghost function Snapshot(ts: seq<Transaction>): (vs: seq<TxnValue>)
    reads ts
    ensures |vs| == |ts|
    ensures forall k :: 0 <= k < |ts| ==> vs[k] == ts[k].Value()
  {
    seq(|ts|, k reads ts requires 0 <= k < |ts| => ts[k].Value())
  }
}
