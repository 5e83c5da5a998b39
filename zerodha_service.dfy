/** The side-aware ledger format of `services/ZerodhaService.py`: rows carry
    an explicit side, and before booking each side's rows are aggregated —
    a maximal run of consecutive rows with equal side, date and price is
    summed into its first row, in place, and only run starts are returned.
    `CompressBuyTransactions` does the same over records keyed on buy date
    and buy price alone. */
module ZerodhaService {
  import opened Common
  import opened Runs
  import opened TransactionRowModel
  import opened TransactionModel
  import opened Booking

  /** The first row of the ledger that holds data. */
  const FirstRow: nat := 15

  // ---------------------------------------------------------------- row passes, on values

  /** The key a run of rows shares: side, date and price. */
  function RunKeys(vs: seq<RowValue>): (keys: seq<(Option<Side>, Date, Price)>)
    ensures |keys| == |vs|
    ensures forall k :: 0 <= k < |vs| ==> keys[k] == (vs[k].side, vs[k].date, vs[k].price)
  {
    seq(|vs|, k requires 0 <= k < |vs| => (vs[k].side, vs[k].date, vs[k].price))
  }

  /** The rows the pass collecting `pass` steps over: those on the other side. */
  function PassSkips(vs: seq<RowValue>, pass: Side): (skip: seq<bool>)
    ensures |skip| == |vs|
    ensures forall k :: 0 <= k < |vs| ==> (skip[k] <==> vs[k].side == Some(Opposite(pass)))
  {
    seq(|vs|, k requires 0 <= k < |vs| => vs[k].side == Some(Opposite(pass)))
  }

  /** The quantities of row values (`TxnQtys` is its counterpart for record values). */
  function QtysOf(vs: seq<RowValue>): (qs: seq<Qty>)
    ensures |qs| == |vs| && forall k :: 0 <= k < |vs| ==> qs[k] == vs[k].qty
  {
    seq(|vs|, k requires 0 <= k < |vs| => vs[k].qty)
  }

  /** Row values with their quantities replaced (`WithTxnQtys` is its counterpart for record values). */
  function WithQtys(vs: seq<RowValue>, qs: seq<Qty>): (ws: seq<RowValue>)
    requires |qs| == |vs|
    ensures |ws| == |vs| && forall k :: 0 <= k < |vs| ==> ws[k] == vs[k].(qty := qs[k])
  {
    seq(|vs|, k requires 0 <= k < |vs| => vs[k].(qty := qs[k]))
  }

  /** The rows after the pass collecting `pass`. */
  function PassState(vs: seq<RowValue>, pass: Side): seq<RowValue>
  {
    WithQtys(vs, Merge(RunKeys(vs), PassSkips(vs, pass), QtysOf(vs), 0))
  }

  /** The positions of the rows the pass collecting `pass` returns. */
  function PassStarts(vs: seq<RowValue>, pass: Side): seq<nat>
  {
    Starts(RunKeys(vs), PassSkips(vs, pass), 0)
  }

  /** The values of the rows the pass returns, as it leaves them. */
  function PassResult(vs: seq<RowValue>, pass: Side): seq<RowValue>
  {
    Pick(PassState(vs, pass), PassStarts(vs, pass))
  }

  /** Total quantity of the rows the pass does not step over. */
  function KeptTotal(vs: seq<RowValue>, pass: Side): Qty
  {
    SumKept(PassSkips(vs, pass), QtysOf(vs), 0)
  }

  /** Number of rows the pass does not step over. */
  function KeptCount(vs: seq<RowValue>, pass: Side): nat
  {
    CountKept(PassSkips(vs, pass), 0)
  }

  // ---------------------------------------------------------------- row passes, in place

  /** The run keys of row objects: side, date and price never change. */
  function RowKeys(rows: seq<TransactionRow>): (keys: seq<(Option<Side>, Date, Price)>)
    ensures |keys| == |rows|
    ensures forall k :: 0 <= k < |rows| ==> keys[k] == (rows[k].buySell, rows[k].date, rows[k].price)
  {
    seq(|rows|, k requires 0 <= k < |rows| => (rows[k].buySell, rows[k].date, rows[k].price))
  }

  function RowSkips(rows: seq<TransactionRow>, pass: Side): (skip: seq<bool>)
    ensures |skip| == |rows|
    ensures forall k :: 0 <= k < |rows| ==> (skip[k] <==> rows[k].buySell == Some(Opposite(pass)))
  {
    seq(|rows|, k requires 0 <= k < |rows| => rows[k].buySell == Some(Opposite(pass)))
  }

  /** The current quantities of row objects (`RecordQtys` is its counterpart for record objects). */
  ghost function RowQtys(rows: seq<TransactionRow>): (qs: seq<Qty>)
    reads rows
    ensures |qs| == |rows| && forall k :: 0 <= k < |rows| ==> qs[k] == rows[k].qty
  {
    if rows == [] then [] else [rows[0].qty] + RowQtys(rows[1..])
  }

  lemma RowParts(rows: seq<TransactionRow>, pass: Side)
    ensures RunKeys(RowSnapshot(rows)) == RowKeys(rows)
    ensures PassSkips(RowSnapshot(rows), pass) == RowSkips(rows, pass)
    ensures QtysOf(RowSnapshot(rows)) == RowQtys(rows)
  {
  }

  /** The inner scan: from the row at `i`, the end of the run of rows with
      its side, date and price, and the sum of their quantities. */
  method RowRun(rows: seq<TransactionRow>, i: nat) returns (qty: Qty, j: nat)
    requires i < |rows|
    ensures j == RunEnd(RowKeys(rows), i)
    ensures qty == RangeSum(RowQtys(rows), i, j)
  {
    ghost var keys := RowKeys(rows);
    ghost var q := RowQtys(rows);
    qty := rows[i].qty;
    j := i + 1;
    while j < |rows| && rows[i].buySell == rows[j].buySell && rows[i].date == rows[j].date
          && rows[i].price == rows[j].price
      invariant i < j <= RunEnd(keys, i)
      invariant qty == RangeSum(q, i, j)
      decreases |rows| - j
    {
      qty := qty + rows[j].qty;
      j := j + 1;
    }
    RunEndAt(keys, i, j);
  }

  /** Overwriting the quantity of the row at `i` leaves every other row's as it was. */
  method SetRowQty(rows: seq<TransactionRow>, i: nat, qty: Qty)
    requires Distinct(rows) && i < |rows|
    modifies rows`qty
    ensures RowQtys(rows) == old(RowQtys(rows))[i := qty]
  {
    ghost var q := RowQtys(rows);
    rows[i].SetQty(qty);
    ghost var now := RowQtys(rows);
    forall k | 0 <= k < |rows| ensures now[k] == q[i := qty][k] {
      if k != i {
        assert rows[k] != rows[i];
      }
    }
  }

  /** The body of one pass at a run start `i`: scan the run, then store its
      sum in row `i`; returns the run's end, where the pass resumes. */
  method SumRunInto(rows: seq<TransactionRow>, pass: Side, i: nat) returns (j: nat)
    requires Distinct(rows) && i < |rows| && rows[i].buySell != Some(Opposite(pass))
    modifies rows`qty
    ensures j == RunEnd(RowKeys(rows), i)
    ensures Merge(RowKeys(rows), RowSkips(rows, pass), RowQtys(rows), j)
         == old(Merge(RowKeys(rows), RowSkips(rows, pass), RowQtys(rows), i))
    ensures Starts(RowKeys(rows), RowSkips(rows, pass), i) == [i] + Starts(RowKeys(rows), RowSkips(rows, pass), j)
  {
    ghost var keys, skip, q := RowKeys(rows), RowSkips(rows, pass), RowQtys(rows);
    assert Merge(keys, skip, q, i) == Merge(keys, skip, q[i := RangeSum(q, i, RunEnd(keys, i))], RunEnd(keys, i));
    assert Starts(keys, skip, i) == [i] + Starts(keys, skip, RunEnd(keys, i));
    var qty;
    qty, j := RowRun(rows, i);
    // j >= i + 1, so this guard always holds and the run start is always rewritten.
    if i != j + 1 {
      SetRowQty(rows, i, qty);
    }
  }

  /** One turn of the loop of a pass at `i`: a row on the other side is
      stepped over; any other row has its run summed into it and is
      collected, and the scan resumes at the run's end. */
  method PassStep(rows: seq<TransactionRow>, pass: Side, ghost q0: seq<Qty>, ghost done: seq<nat>,
                  out: seq<TransactionRow>, i: nat)
    returns (ghost done': seq<nat>, out': seq<TransactionRow>, i': nat)
    requires Distinct(rows) && i < |rows| && |q0| == |rows|
    requires Merge(RowKeys(rows), RowSkips(rows, pass), RowQtys(rows), i) == Merge(RowKeys(rows), RowSkips(rows, pass), q0, 0)
    requires Collected(RowKeys(rows), RowSkips(rows, pass), done, i)
    requires out == Pick(rows, done)
    modifies rows`qty
    ensures i < i' <= |rows|
    ensures Merge(RowKeys(rows), RowSkips(rows, pass), RowQtys(rows), i') == Merge(RowKeys(rows), RowSkips(rows, pass), q0, 0)
    ensures Collected(RowKeys(rows), RowSkips(rows, pass), done', i')
    ensures out' == Pick(rows, done')
  {
    ghost var keys := RowKeys(rows);
    ghost var skip := RowSkips(rows, pass);
    CollectStep(keys, skip, done, i);
    if rows[i].buySell == Some(Opposite(pass)) {
      assert Merge(keys, skip, RowQtys(rows), i) == Merge(keys, skip, RowQtys(rows), i + 1);
      assert Starts(keys, skip, i) == Starts(keys, skip, i + 1);
      done', out', i' := done, out, i + 1;
    } else {
      i' := SumRunInto(rows, pass, i);
      PickSnoc(rows, done, i);
      done', out' := done + [i], out + [rows[i]];
    }
  }

  /** The loop of one pass, on the quantities: rows on the other side are
      stepped over, every other row has its run summed into it and is
      collected. */
  method PassRuns(rows: seq<TransactionRow>, pass: Side) returns (out: seq<TransactionRow>)
    requires Distinct(rows)
    modifies rows`qty
    ensures RowQtys(rows) == Merge(RowKeys(rows), RowSkips(rows, pass), old(RowQtys(rows)), 0)
    ensures out == Pick(rows, Starts(RowKeys(rows), RowSkips(rows, pass), 0))
  {
    ghost var q0 := RowQtys(rows);
    ghost var done: seq<nat> := [];
    out := [];
    var i: nat := 0;
    while i < |rows|
      invariant 0 <= i <= |rows|
      invariant Merge(RowKeys(rows), RowSkips(rows, pass), RowQtys(rows), i) == Merge(RowKeys(rows), RowSkips(rows, pass), q0, 0)
      invariant Collected(RowKeys(rows), RowSkips(rows, pass), done, i)
      invariant out == Pick(rows, done)
      decreases |rows| - i
    {
      done, out, i := PassStep(rows, pass, q0, done, out, i);
    }
    CollectedAll(RowKeys(rows), RowSkips(rows, pass), done);
  }

  /** One pass of the aggregation, collecting the rows on side `pass`: the
      rows on the other side are stepped over; every other row starts a
      maximal run of rows with its side, date and price, whose quantities are
      summed into it.  The rows returned are the very run-start objects. */
  method CollectRuns(rows: seq<TransactionRow>, pass: Side) returns (out: seq<TransactionRow>)
    requires Distinct(rows)
    modifies rows`qty
    ensures RowSnapshot(rows) == PassState(old(RowSnapshot(rows)), pass)
    ensures out == Pick(rows, PassStarts(old(RowSnapshot(rows)), pass))
  {
    RowParts(rows, pass);
    out := PassRuns(rows, pass);
    RowParts(rows, pass);
  }

  /** `_get_buy_txns`: the buy pass; sell rows are stepped over. */
  method GetBuyTxns(rows: seq<TransactionRow>) returns (buys: seq<TransactionRow>)
    requires Distinct(rows)
    modifies rows`qty
    ensures RowSnapshot(rows) == PassState(old(RowSnapshot(rows)), BUY)
    ensures buys == Pick(rows, PassStarts(old(RowSnapshot(rows)), BUY))
  {
    buys := CollectRuns(rows, BUY);
  }

  /** `_get_sell_txns`: the sell pass; buy rows are stepped over. */
  method GetSellTxns(rows: seq<TransactionRow>) returns (sells: seq<TransactionRow>)
    requires Distinct(rows)
    modifies rows`qty
    ensures RowSnapshot(rows) == PassState(old(RowSnapshot(rows)), SELL)
    ensures sells == Pick(rows, PassStarts(old(RowSnapshot(rows)), SELL))
  {
    sells := CollectRuns(rows, SELL);
  }

  // ---------------------------------------------------------------- properties of a pass

  lemma PassHomogeneous(vs: seq<RowValue>, pass: Side)
    ensures Homogeneous(RunKeys(vs), PassSkips(vs, pass))
  {
    var keys := RunKeys(vs);
    forall a, b | 0 <= a < |keys| && 0 <= b < |keys| && keys[a] == keys[b]
      ensures PassSkips(vs, pass)[a] == PassSkips(vs, pass)[b]
    {
      assert vs[a].side == keys[a].0 == keys[b].0 == vs[b].side;
    }
  }

  /** Row by row, the pass: a run start is a row not on the other side and
      gets the sum of its run, a maximal stretch of rows sharing its side,
      date and price; every other row is untouched. */
  lemma PassClosedForm(vs: seq<RowValue>, pass: Side, k: nat)
    requires k < |vs|
    ensures var e := RunEnd(RunKeys(vs), k);
      (k in PassStarts(vs, pass) ==>
         vs[k].side != Some(Opposite(pass)) &&
         (forall j :: k <= j < e ==> vs[j].side == vs[k].side && vs[j].date == vs[k].date && vs[j].price == vs[k].price) &&
         (e < |vs| ==> vs[e].side != vs[k].side || vs[e].date != vs[k].date || vs[e].price != vs[k].price) &&
         PassState(vs, pass)[k] == vs[k].(qty := RangeSum(QtysOf(vs), k, e))) &&
      (k !in PassStarts(vs, pass) ==> PassState(vs, pass)[k] == vs[k])
  {
    var keys := RunKeys(vs);
    var e := RunEnd(keys, k);
    MergeClosedForm(keys, PassSkips(vs, pass), QtysOf(vs), k);
    if k in PassStarts(vs, pass) {
      forall j | k <= j < e
        ensures vs[j].side == vs[k].side && vs[j].date == vs[k].date && vs[j].price == vs[k].price
      {
        assert keys[j] == keys[k];
      }
    }
  }

  lemma {:induction false} RowTotalIsSum(vs: seq<RowValue>)
    ensures RowTotal(vs) == Sum(QtysOf(vs))
  {
    if vs != [] {
      RowTotalIsSum(vs[..|vs| - 1]);
      assert QtysOf(vs)[..|vs| - 1] == QtysOf(vs[..|vs| - 1]);
    }
  }

  /** Sum preserved: the rows a pass returns hold, together, exactly the
      quantity of all the rows it does not step over, and there are no more
      of them than such rows. */
  lemma PassConserves(vs: seq<RowValue>, pass: Side)
    ensures RowTotal(PassResult(vs, pass)) == KeptTotal(vs, pass)
    ensures |PassResult(vs, pass)| <= KeptCount(vs, pass)
  {
    var keys := RunKeys(vs);
    var skip := PassSkips(vs, pass);
    var m := Merge(keys, skip, QtysOf(vs), 0);
    var ss := PassStarts(vs, pass);
    PassHomogeneous(vs, pass);
    PassTotal(keys, skip, QtysOf(vs));
    StartsCount(keys, skip, 0);
    RowTotalIsSum(PassResult(vs, pass));
    assert QtysOf(PassResult(vs, pass)) == Pick(m, ss);
  }

  lemma PassKeepsKeys(vs: seq<RowValue>, pass: Side, other: Side)
    ensures RunKeys(PassState(vs, pass)) == RunKeys(vs)
    ensures PassSkips(PassState(vs, pass), other) == PassSkips(vs, other)
  {
  }

  /** A row the pass collecting `pass` steps over keeps its quantity. */
  lemma PassLeavesSkipped(vs: seq<RowValue>, pass: Side, k: nat)
    requires k < |vs| && vs[k].side == Some(Opposite(pass))
    ensures PassState(vs, pass)[k] == vs[k]
  {
    PassClosedForm(vs, pass, k);
  }

  /** Every row carries a side, as every row of the side-aware format does. */
  ghost predicate AllSided(vs: seq<RowValue>)
  {
    forall k :: 0 <= k < |vs| ==> vs[k].side.Some?
  }

  /** Two passes in a row, in terms of the quantities alone. */
  lemma PassTwice(vs: seq<RowValue>, p1: Side, p2: Side)
    ensures PassState(PassState(vs, p1), p2) ==
      WithQtys(vs, Merge(RunKeys(vs), PassSkips(vs, p2),
                         Merge(RunKeys(vs), PassSkips(vs, p1), QtysOf(vs), 0), 0))
  {
    var m1 := Merge(RunKeys(vs), PassSkips(vs, p1), QtysOf(vs), 0);
    PassKeepsKeys(vs, p1, p2);
    assert QtysOf(PassState(vs, p1)) == m1;
  }

  /** The skips of the two passes are complementary on sided rows. */
  lemma PassSkipsComplementary(vs: seq<RowValue>)
    requires AllSided(vs)
    ensures forall j :: 0 <= j < |vs| ==> PassSkips(vs, BUY)[j] != PassSkips(vs, SELL)[j]
  {
    assert Opposite(BUY) == SELL && Opposite(SELL) == BUY;
    var sB, sS := PassSkips(vs, BUY), PassSkips(vs, SELL);
    forall j | 0 <= j < |vs| ensures sB[j] != sS[j] {
      assert vs[j].side == Some(vs[j].side.value);
      assert vs[j].side.value == BUY || vs[j].side.value == SELL;
    }
  }

  /** Disjoint passes: with every row sided, the buy and sell passes rewrite
      disjoint rows, so the order in which they run does not change the rows. */
  lemma PassesCommute(vs: seq<RowValue>)
    requires AllSided(vs)
    ensures PassStarts(PassState(vs, BUY), SELL) == PassStarts(vs, SELL)
    ensures PassStarts(PassState(vs, SELL), BUY) == PassStarts(vs, BUY)
    ensures PassState(PassState(vs, BUY), SELL) == PassState(PassState(vs, SELL), BUY)
  {
    PassKeepsKeys(vs, BUY, SELL);
    PassKeepsKeys(vs, SELL, BUY);
    PassHomogeneous(vs, BUY);
    PassHomogeneous(vs, SELL);
    PassTwice(vs, BUY, SELL);
    PassTwice(vs, SELL, BUY);
    PassSkipsComplementary(vs);
    MergeCommute(RunKeys(vs), PassSkips(vs, BUY), PassSkips(vs, SELL), QtysOf(vs));
  }

  /** Neither pass disturbs the other's result: after the pass collecting
      `first`, the other pass returns what it would have returned on the
      original rows, and leaves the rows `first` returned as `first` left them. */
  lemma SecondPassResult(vs: seq<RowValue>, first: Side)
    requires AllSided(vs)
    ensures PassResult(PassState(vs, first), Opposite(first)) == PassResult(vs, Opposite(first))
    ensures Pick(PassState(PassState(vs, first), Opposite(first)), PassStarts(vs, first)) == PassResult(vs, first)
  {
    var second := Opposite(first);
    var keys, q := RunKeys(vs), QtysOf(vs);
    var s1, s2 := PassSkips(vs, first), PassSkips(vs, second);
    PassKeepsKeys(vs, first, second);
    PassHomogeneous(vs, second);
    PassTwice(vs, first, second);
    PassSkipsComplementary(vs);
    assert forall j :: 0 <= j < |keys| ==> s1[j] != s2[j];
    var both := PassState(PassState(vs, first), second);
    var ss1, ss2 := PassStarts(vs, first), PassStarts(vs, second);
    forall k | 0 <= k < |ss2| ensures both[ss2[k]] == PassState(vs, second)[ss2[k]] {
      SecondMergeAt(keys, s1, s2, q, ss2[k]);
    }
    forall k | 0 <= k < |ss1| ensures both[ss1[k]] == PassState(vs, first)[ss1[k]] {
      SecondMergeAt(keys, s1, s2, q, ss1[k]);
    }
  }

  // ---------------------------------------------------------------- record compression

  /** The key records are compressed on: buy date and buy price only. */
  function CompressKeys(ts: seq<TxnValue>): (keys: seq<(Date, Price)>)
    ensures |keys| == |ts|
    ensures forall k :: 0 <= k < |ts| ==> keys[k] == (ts[k].buyDate, ts[k].buyPrice)
  {
    seq(|ts|, k requires 0 <= k < |ts| => (ts[k].buyDate, ts[k].buyPrice))
  }

  /** Compression steps over nothing. */
  function NoSkip(n: nat): (skip: seq<bool>)
    ensures |skip| == n && forall k :: 0 <= k < n ==> !skip[k]
  {
    seq(n, _ => false)
  }

  /** The quantities of record values: `QtysOf` for the record type. */
  function TxnQtys(ts: seq<TxnValue>): (qs: seq<Qty>)
    ensures |qs| == |ts| && forall k :: 0 <= k < |ts| ==> qs[k] == ts[k].qty
  {
    seq(|ts|, k requires 0 <= k < |ts| => ts[k].qty)
  }

  /** Record values with their quantities replaced: `WithQtys` for the record type. */
  function WithTxnQtys(ts: seq<TxnValue>, qs: seq<Qty>): (ws: seq<TxnValue>)
    requires |qs| == |ts|
    ensures |ws| == |ts| && forall k :: 0 <= k < |ts| ==> ws[k] == ts[k].(qty := qs[k])
  {
    seq(|ts|, k requires 0 <= k < |ts| => ts[k].(qty := qs[k]))
  }

  /** The records after compression. */
  function CompressState(ts: seq<TxnValue>): seq<TxnValue>
  {
    WithTxnQtys(ts, Merge(CompressKeys(ts), NoSkip(|ts|), TxnQtys(ts), 0))
  }

  /** The positions of the records compression returns. */
  function CompressStarts(ts: seq<TxnValue>): seq<nat>
  {
    Starts(CompressKeys(ts), NoSkip(|ts|), 0)
  }

  /** The compression keys of record objects, `CompressKeys` read off the objects:
      buy date and buy price never change. */
  function RecordKeys(txns: seq<Transaction>): (keys: seq<(Date, Price)>)
    ensures |keys| == |txns|
    ensures forall k :: 0 <= k < |txns| ==> keys[k] == (txns[k].buyDate, txns[k].buyPrice)
  {
    seq(|txns|, k requires 0 <= k < |txns| => (txns[k].buyDate, txns[k].buyPrice))
  }

  /** The current quantities of record objects: `RowQtys` for the record class. */
  ghost function RecordQtys(txns: seq<Transaction>): (qs: seq<Qty>)
    reads txns
    ensures |qs| == |txns| && forall k :: 0 <= k < |txns| ==> qs[k] == txns[k].qty
  {
    if txns == [] then [] else [txns[0].qty] + RecordQtys(txns[1..])
  }

  lemma RecordParts(txns: seq<Transaction>)
    ensures CompressKeys(Snapshot(txns)) == RecordKeys(txns)
    ensures TxnQtys(Snapshot(txns)) == RecordQtys(txns)
  {
  }

  /** The inner scan of the compression: from the record at `i`, the end of
      the run of records with its buy date and buy price, and their total. */
  method RecordRun(txns: seq<Transaction>, i: nat) returns (qty: Qty, j: nat)
    requires i < |txns|
    ensures j == RunEnd(RecordKeys(txns), i)
    ensures qty == RangeSum(RecordQtys(txns), i, j)
  {
    ghost var keys := RecordKeys(txns);
    ghost var q := RecordQtys(txns);
    qty := txns[i].qty;
    j := i + 1;
    while j < |txns| && txns[i].buyDate == txns[j].buyDate && txns[i].buyPrice == txns[j].buyPrice
      invariant i < j <= RunEnd(keys, i)
      invariant qty == RangeSum(q, i, j)
      decreases |txns| - j
    {
      qty := qty + txns[j].qty;
      j := j + 1;
    }
    RunEndAt(keys, i, j);
  }

  /** Overwriting the quantity of the record at `i` leaves every other record's as it was. */
  method SetRecordQty(txns: seq<Transaction>, i: nat, qty: Qty)
    requires Distinct(txns) && i < |txns|
    modifies txns`qty
    ensures RecordQtys(txns) == old(RecordQtys(txns))[i := qty]
  {
    ghost var q := RecordQtys(txns);
    txns[i].SetQty(qty);
    ghost var now := RecordQtys(txns);
    forall k | 0 <= k < |txns| ensures now[k] == q[i := qty][k] {
      if k != i {
        assert txns[k] != txns[i];
      }
    }
  }

  /** The body of the compression at a run start `i`; returns the run's end. */
  method SumRecordRunInto(txns: seq<Transaction>, i: nat) returns (j: nat)
    requires Distinct(txns) && i < |txns|
    modifies txns`qty
    ensures j == RunEnd(RecordKeys(txns), i)
    ensures Merge(RecordKeys(txns), NoSkip(|txns|), RecordQtys(txns), j)
         == old(Merge(RecordKeys(txns), NoSkip(|txns|), RecordQtys(txns), i))
  {
    ghost var keys, skip, q := RecordKeys(txns), NoSkip(|txns|), RecordQtys(txns);
    assert Merge(keys, skip, q, i) == Merge(keys, skip, q[i := RangeSum(q, i, RunEnd(keys, i))], RunEnd(keys, i));
    var qty;
    qty, j := RecordRun(txns, i);
    // j >= i + 1, so this guard always holds and the run start is always rewritten.
    if i != j + 1 {
      SetRecordQty(txns, i, qty);
    }
  }

  /** The loop of the compression, on the quantities. */
  method CompressRuns(txns: seq<Transaction>) returns (out: seq<Transaction>)
    requires Distinct(txns)
    modifies txns`qty
    ensures RecordQtys(txns) == Merge(RecordKeys(txns), NoSkip(|txns|), old(RecordQtys(txns)), 0)
    ensures out == Pick(txns, Starts(RecordKeys(txns), NoSkip(|txns|), 0))
  {
    ghost var q0 := RecordQtys(txns);
    ghost var keys := RecordKeys(txns);
    ghost var skip := NoSkip(|txns|);
    ghost var done: seq<nat> := [];
    out := [];
    var i: nat := 0;
    while i < |txns|
      invariant 0 <= i <= |txns|
      invariant Merge(keys, skip, RecordQtys(txns), i) == Merge(keys, skip, q0, 0)
      invariant Collected(keys, skip, done, i)
      invariant out == Pick(txns, done)
      decreases |txns| - i
    {
      var j := SumRecordRunInto(txns, i);
      PickSnoc(txns, done, i);
      CollectStep(keys, skip, done, i);
      done := done + [i];
      out := out + [txns[i]];
      i := j;
    }
    CollectedAll(keys, skip, done);
  }

  /** `_compress_buy_transactions`: each maximal run of consecutive records
      with equal buy date and buy price is summed into its first record, in
      place, and the run-start objects are returned. */
  method CompressBuyTransactions(txns: seq<Transaction>) returns (out: seq<Transaction>)
    requires Distinct(txns)
    modifies txns`qty
    ensures Snapshot(txns) == CompressState(old(Snapshot(txns)))
    ensures out == Pick(txns, CompressStarts(old(Snapshot(txns))))
  {
    ghost var ts0 := Snapshot(txns);
    RecordParts(txns);
    ghost var keys, q0 := RecordKeys(txns), RecordQtys(txns);
    assert CompressKeys(ts0) == keys && TxnQtys(ts0) == q0;
    out := CompressRuns(txns);
    QtysOnlyChanged(txns);
    assert RecordQtys(txns) == Merge(CompressKeys(ts0), NoSkip(|ts0|), TxnQtys(ts0), 0);
  }

  /** When only the quantities of the records changed, their values are the
      old values with the new quantities. */
  twostate lemma QtysOnlyChanged(txns: seq<Transaction>)
    requires forall t :: t in txns ==>
      t.buySell == old(t.buySell) && t.sellDate == old(t.sellDate) && t.sellPrice == old(t.sellPrice)
    ensures Snapshot(txns) == WithTxnQtys(old(Snapshot(txns)), RecordQtys(txns))
  {
    forall k | 0 <= k < |txns| ensures Snapshot(txns)[k] == WithTxnQtys(old(Snapshot(txns)), RecordQtys(txns))[k] {
      assert txns[k] in txns;
    }
  }

  lemma {:induction false} TotalIsSum(ts: seq<TxnValue>)
    ensures Total(ts) == Sum(TxnQtys(ts))
  {
    if ts != [] {
      TotalIsSum(ts[..|ts| - 1]);
      assert TxnQtys(ts)[..|ts| - 1] == TxnQtys(ts[..|ts| - 1]);
    }
  }

  lemma {:induction false} SumKeptAll(qs: seq<Qty>, i: nat)
    requires i <= |qs|
    ensures SumKept(NoSkip(|qs|), qs, i) == Sum(qs[i..])
    decreases |qs| - i
  {
    if i < |qs| {
      SumKeptAll(qs, i + 1);
      assert qs[i..] == [qs[i]] + qs[i + 1..];
      SumConcat([qs[i]], qs[i + 1..]);
      assert [qs[i]][..0] == [];
    }
  }

  lemma {:induction false} CountKeptAll(n: nat, i: nat)
    requires i <= n
    ensures CountKept(NoSkip(n), i) == n - i
    decreases n - i
  {
    if i < n {
      CountKeptAll(n, i + 1);
    }
  }

  /** Compression keeps the total quantity and never lengthens the list. */
  lemma CompressConserves(ts: seq<TxnValue>)
    ensures Total(Pick(CompressState(ts), CompressStarts(ts))) == Total(ts)
    ensures |CompressStarts(ts)| <= |ts|
  {
    var keys := CompressKeys(ts);
    var skip := NoSkip(|ts|);
    var out := Pick(CompressState(ts), CompressStarts(ts));
    PassTotal(keys, skip, TxnQtys(ts));
    StartsCount(keys, skip, 0);
    SumKeptAll(TxnQtys(ts), 0);
    CountKeptAll(|ts|, 0);
    TotalIsSum(out);
    TotalIsSum(ts);
    assert TxnQtys(out) == Pick(Merge(keys, skip, TxnQtys(ts), 0), CompressStarts(ts));
    assert TxnQtys(ts)[0..] == TxnQtys(ts);
  }

  /** Record by record, compression: a run start gets the sum of its run, a
      maximal stretch of records sharing its buy date and buy price whatever
      their names or sides; every other record is untouched. */
  lemma CompressClosedForm(ts: seq<TxnValue>, k: nat)
    requires k < |ts|
    ensures var e := RunEnd(CompressKeys(ts), k);
      (k in CompressStarts(ts) ==>
         (forall j :: k <= j < e ==> ts[j].buyDate == ts[k].buyDate && ts[j].buyPrice == ts[k].buyPrice) &&
         (e < |ts| ==> ts[e].buyDate != ts[k].buyDate || ts[e].buyPrice != ts[k].buyPrice) &&
         CompressState(ts)[k] == ts[k].(qty := RangeSum(TxnQtys(ts), k, e))) &&
      (k !in CompressStarts(ts) ==> CompressState(ts)[k] == ts[k])
  {
    var keys := CompressKeys(ts);
    var e := RunEnd(keys, k);
    MergeClosedForm(keys, NoSkip(|ts|), TxnQtys(ts), k);
    if k in CompressStarts(ts) {
      forall j | k <= j < e
        ensures ts[j].buyDate == ts[k].buyDate && ts[j].buyPrice == ts[k].buyPrice
      {
        assert keys[j] == keys[k];
      }
    }
  }
}
