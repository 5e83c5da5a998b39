/** A parsed ledger row (`models/TransactionRow.py`): its side, if the ledger
    format has one, date and price never change; its quantity is a mutable
    slot that the run aggregation of the side-aware ledger format overwrites. */
module TransactionRowModel {
  import opened Common

  /** The value a row object holds at one moment. */
  datatype RowValue = RowValue(side: Option<Side>, qty: Qty, date: Date, price: Price)

  class TransactionRow {
    /** Read-only after construction (`TransactionRow` gives these a getter and no setter). */
    const buySell: Option<Side>
    var qty: Qty
    const date: Date
    const price: Price

    /** The side defaults to absent: for sign-based formats it comes from the quantity. */
    constructor (qty: Qty, date: Date, price: Price, buySell: Option<Side> := None)
      ensures this.qty == qty && this.date == date && this.price == price
      ensures this.buySell == buySell
    {
      this.buySell := buySell;
      this.qty := qty;
      this.date := date;
      this.price := price;
    }

    /** The quantity setter: the only field a row has a setter for. */
    method SetQty(qty: Qty)
      modifies this`qty
      ensures this.qty == qty
    {
      this.qty := qty;
    }

    function Value(): RowValue
      reads this
    {
      RowValue(buySell, qty, date, price)
    }
  }

  /** The values held by a sequence of row objects; `TransactionModel.Snapshot`
      is its counterpart for record objects. */
  ghost function RowSnapshot(rows: seq<TransactionRow>): (vs: seq<RowValue>)
    reads rows
    ensures |vs| == |rows|
    ensures forall k :: 0 <= k < |rows| ==> vs[k] == rows[k].Value()
  {
    seq(|rows|, k reads rows requires 0 <= k < |rows| => rows[k].Value())
  }
}
