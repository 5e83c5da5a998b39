/** `execute` of `services/TransactionService.py`, end to end: the ledger
    rows are grouped per instrument, each instrument's rows are classified
    into buys and sells (by sign, or by the side-aware run passes of the
    Zerodha format), the buys are seeded into records and the sells booked
    against them, and the records of all instruments are sorted, listed
    under the header and given the sheet name of the asset type. */
module Pipeline {
  import opened Common
  import opened TransactionRowModel
  import opened TransactionModel
  import opened Booking
  import opened Ordering
  import TS = TransactionService
  import Z = ZerodhaService

  /** What a service subclass fixes: the first data row, the asset type and
      whether the ledger has a side column (the Zerodha format) or encodes
      the side in the sign of the quantity. */
  datatype Config = Config(firstRow: nat, assetType: AssetType, sided: bool)

  /** The Zerodha service: data from row 15 on, mutual funds, side column. */
  const ZerodhaConfig: Config := Config(Z.FirstRow, MutualFund, true)

  // ---------------------------------------------------------------- the value-level pipeline

  /** The buy rows of one instrument as the format's `_get_buy_txns` returns them. */
  function Buys(vs: seq<RowValue>, sided: bool): seq<RowValue>
  {
    if sided then Z.PassResult(vs, BUY) else TS.SignRows(vs, BUY)
  }

  /** The sell rows of one instrument as the format's `_get_sell_txns` returns them. */
  function Sells(vs: seq<RowValue>, sided: bool): seq<RowValue>
  {
    if sided then Z.PassResult(vs, SELL) else TS.SignRows(vs, SELL)
  }

  /** The records of one instrument. */
  function Instrument(name: string, vs: seq<RowValue>, sided: bool): seq<TxnValue>
  {
    Process(name, Buys(vs, sided), Sells(vs, sided))
  }

  /** The records of the instruments `names`, in that order, concatenated. */
  function Records(names: seq<string>, gm: map<string, seq<RowValue>>, sided: bool): seq<TxnValue>
    requires forall k :: 0 <= k < |names| ==> names[k] in gm
  {
    if names == [] then []
    else
      var n := names[|names| - 1];
      Records(names[..|names| - 1], gm, sided) + Instrument(n, gm[n], sided)
  }

  /** The quantity bought over the instruments `names`. */
  function Bought(names: seq<string>, gm: map<string, seq<RowValue>>, sided: bool): Qty
    requires forall k :: 0 <= k < |names| ==> names[k] in gm
  {
    if names == [] then 0.0
    else
      var n := names[|names| - 1];
      Bought(names[..|names| - 1], gm, sided) + RowTotal(Buys(gm[n], sided))
  }

  /** The records `execute` writes, or None when the grouping aborts. */
  ghost function Outcome(cfg: Config, raw: seq<TS.RawRow>): Option<seq<TxnValue>>
  {
    var data := TS.DataRows(raw, cfg.firstRow);
    if cfg.sided && !TS.WellSided(data) then None
    else
      TS.GroupedIsPartition(data, cfg.sided);
      var (names, gm) := TS.Grouped(data, cfg.sided);
      Some(SortBy(Records(names, gm, cfg.sided), TS.ValueKey))
  }

  /** When the grouping does not abort, the outcome is the sorted records of
      its instruments. */
  lemma OutcomeValue(cfg: Config, raw: seq<TS.RawRow>)
    requires !cfg.sided || TS.WellSided(TS.DataRows(raw, cfg.firstRow))
    ensures var g := TS.Grouped(TS.DataRows(raw, cfg.firstRow), cfg.sided);
      (forall k :: 0 <= k < |g.0| ==> g.0[k] in g.1) &&
      Outcome(cfg, raw) == Some(SortBy(Records(g.0, g.1, cfg.sided), TS.ValueKey))
  {
    TS.GroupedIsPartition(TS.DataRows(raw, cfg.firstRow), cfg.sided);
  }

  // ---------------------------------------------------------------- properties of the outcome

  /** The run aborts exactly when the format has a side column and a kept
      data row lacks a valid side. */
  lemma OutcomeAborts(cfg: Config, raw: seq<TS.RawRow>)
    ensures Outcome(cfg, raw).None? <==>
      cfg.sided && exists k :: cfg.firstRow <= k < |raw| && !TS.Dropped(raw[k]) && raw[k].side.None?
  {
    var data := TS.DataRows(raw, cfg.firstRow);
    if cfg.sided && !TS.WellSided(data) {
      var j :| 0 <= j < |data| && !TS.Dropped(data[j]) && data[j].side.None?;
      assert raw[cfg.firstRow + j] == data[j];
    }
    if cfg.sided && exists k :: cfg.firstRow <= k < |raw| && !TS.Dropped(raw[k]) && raw[k].side.None? {
      var k :| cfg.firstRow <= k < |raw| && !TS.Dropped(raw[k]) && raw[k].side.None?;
      assert data[k - cfg.firstRow] == raw[k];
    }
  }

  lemma {:induction false} TotalInsert(x: TxnValue, s: seq<TxnValue>)
    ensures Total(Insert(x, s, TS.ValueKey)) == x.qty + Total(s)
    decreases |s|
  {
    if s != [] && KeyLess(TS.ValueKey(s[0]), TS.ValueKey(x)) {
      TotalInsert(x, s[1..]);
      TotalConcat([s[0]], Insert(x, s[1..], TS.ValueKey));
      TotalConcat([s[0]], s[1..]);
      assert [s[0]] + s[1..] == s;
    } else {
      TotalConcat([x], s);
    }
  }

  lemma {:induction false} TotalSort(s: seq<TxnValue>)
    ensures Total(SortBy(s, TS.ValueKey)) == Total(s)
    decreases |s|
  {
    if s != [] {
      TotalSort(s[1..]);
      TotalInsert(s[0], SortBy(s[1..], TS.ValueKey));
      TotalConcat([s[0]], s[1..]);
      assert [s[0]] + s[1..] == s;
    }
  }

  /** The records of one instrument split exactly its bought quantity. */
  lemma InstrumentTotal(name: string, vs: seq<RowValue>, sided: bool)
    ensures Total(Instrument(name, vs, sided)) == RowTotal(Buys(vs, sided))
  {
    SeedTotal(name, Buys(vs, sided));
    BookAllTotal(Seed(name, Buys(vs, sided)), Sells(vs, sided));
  }

  lemma {:induction false} RecordsTotal(names: seq<string>, gm: map<string, seq<RowValue>>, sided: bool)
    requires forall k :: 0 <= k < |names| ==> names[k] in gm
    ensures Total(Records(names, gm, sided)) == Bought(names, gm, sided)
    decreases |names|
  {
    if names != [] {
      var n := names[|names| - 1];
      RecordsTotal(names[..|names| - 1], gm, sided);
      TotalConcat(Records(names[..|names| - 1], gm, sided), Instrument(n, gm[n], sided));
      InstrumentTotal(n, gm[n], sided);
    }
  }

  /** The written records are ordered by (buy date, name), are the records
      of all instruments each as often, keep the order of records sharing a
      key, and split exactly the quantity bought: no unit is created or lost. */
  lemma OutcomeSummary(cfg: Config, raw: seq<TS.RawRow>)
    requires Outcome(cfg, raw).Some?
    ensures var data := TS.DataRows(raw, cfg.firstRow);
      var (names, gm) := TS.Grouped(data, cfg.sided);
      var out := Outcome(cfg, raw).value;
      (forall k :: 0 <= k < |names| ==> names[k] in gm) &&
      SortedBy(out, TS.ValueKey) &&
      multiset(out) == multiset(Records(names, gm, cfg.sided)) &&
      (forall key :: WithKey(out, TS.ValueKey, key) == WithKey(Records(names, gm, cfg.sided), TS.ValueKey, key)) &&
      Total(out) == Bought(names, gm, cfg.sided)
  {
    var data := TS.DataRows(raw, cfg.firstRow);
    TS.GroupedIsPartition(data, cfg.sided);
    var (names, gm) := TS.Grouped(data, cfg.sided);
    var rs := Records(names, gm, cfg.sided);
    SortSorted(rs, TS.ValueKey);
    SortPermutation(rs, TS.ValueKey);
    forall key ensures WithKey(SortBy(rs, TS.ValueKey), TS.ValueKey, key) == WithKey(rs, TS.ValueKey, key) {
      SortStable(rs, TS.ValueKey, key);
    }
    TotalSort(rs);
    RecordsTotal(names, gm, cfg.sided);
  }

  // ---------------------------------------------------------------- objects and values

  lemma RowSnapshotPick(rows: seq<TransactionRow>, idx: seq<nat>)
    requires forall k :: 0 <= k < |idx| ==> idx[k] < |rows|
    ensures RowSnapshot(Pick(rows, idx)) == Pick(RowSnapshot(rows), idx)
  {
  }

  lemma SnapshotConcat(a: seq<Transaction>, b: seq<Transaction>)
    ensures Snapshot(a + b) == Snapshot(a) + Snapshot(b)
  {
    var l, r := Snapshot(a + b), Snapshot(a) + Snapshot(b);
    forall k | 0 <= k < |l| ensures l[k] == r[k] {
      if k < |a| {
        assert (a + b)[k] == a[k];
      } else {
        assert (a + b)[k] == b[k - |a|];
      }
    }
  }

  lemma {:induction false} SnapshotInsert(x: Transaction, s: seq<Transaction>)
    ensures Snapshot(Insert(x, s, TS.TxnKey)) == Insert(x.Value(), Snapshot(s), TS.ValueKey)
    decreases |s|
  {
    if s != [] {
      assert Snapshot(s)[1..] == Snapshot(s[1..]);
      if KeyLess(TS.TxnKey(s[0]), TS.TxnKey(x)) {
        SnapshotInsert(x, s[1..]);
        SnapshotConcat([s[0]], Insert(x, s[1..], TS.TxnKey));
      } else {
        SnapshotConcat([x], s);
      }
    }
  }

  /** Sorting the record objects by their key sorts their values by the same key. */
  lemma {:induction false} SnapshotSort(ts: seq<Transaction>)
    ensures Snapshot(SortBy(ts, TS.TxnKey)) == SortBy(Snapshot(ts), TS.ValueKey)
    decreases |ts|
  {
    if ts != [] {
      assert Snapshot(ts)[1..] == Snapshot(ts[1..]);
      SnapshotSort(ts[1..]);
      SnapshotInsert(ts[0], SortBy(ts[1..], TS.TxnKey));
    }
  }

  // ---------------------------------------------------------------- the imperative pipeline

  /** One iteration of the loop of `execute`: the format's buy and sell
      selection on the instrument's row objects, then `_process_transactions`.
      The side-aware selection rewrites quantities of the rows it merges. */
  method ProcessInstrument(name: string, rows: seq<TransactionRow>, sided: bool)
    returns (recs: seq<Transaction>)
    requires Distinct(rows)
    requires sided ==> Z.AllSided(RowSnapshot(rows))
    modifies rows`qty
    ensures Distinct(recs) && forall t :: t in recs ==> fresh(t)
    ensures Snapshot(recs) == Instrument(name, old(RowSnapshot(rows)), sided)
    ensures sided ==> RowSnapshot(rows) == Z.PassState(Z.PassState(old(RowSnapshot(rows)), BUY), SELL)
    ensures !sided ==> RowSnapshot(rows) == old(RowSnapshot(rows))
  {
    var buys, sells;
    if sided {
      buys, sells := ClassifySided(rows);
    } else {
      buys, sells := ClassifyBySign(rows);
    }
    recs := TS.ProcessTransactions(name, buys, sells);
  }

  /** The buy and sell selection of the side-aware format: the buy pass,
      then the sell pass, on the same row objects. */
  method ClassifySided(rows: seq<TransactionRow>) returns (buys: seq<TransactionRow>, sells: seq<TransactionRow>)
    requires Distinct(rows) && Z.AllSided(RowSnapshot(rows))
    modifies rows`qty
    ensures RowSnapshot(buys) == Buys(old(RowSnapshot(rows)), true)
    ensures RowSnapshot(sells) == Sells(old(RowSnapshot(rows)), true)
    ensures RowSnapshot(rows) == Z.PassState(Z.PassState(old(RowSnapshot(rows)), BUY), SELL)
  {
    ghost var vs := RowSnapshot(rows);
    buys := Z.GetBuyTxns(rows);
    sells := Z.GetSellTxns(rows);
    Z.SecondPassResult(vs, BUY);
    RowSnapshotPick(rows, Z.PassStarts(vs, BUY));
    RowSnapshotPick(rows, Z.PassStarts(Z.PassState(vs, BUY), SELL));
  }

  /** The buy and sell selection of the sign-based formats; nothing changes. */
  method ClassifyBySign(rows: seq<TransactionRow>) returns (buys: seq<TransactionRow>, sells: seq<TransactionRow>)
    ensures RowSnapshot(buys) == Buys(RowSnapshot(rows), false)
    ensures RowSnapshot(sells) == Sells(RowSnapshot(rows), false)
  {
    ghost var vs := RowSnapshot(rows);
    buys := TS.GetBuyTxns(rows);
    sells := TS.GetSellTxns(rows);
    TS.PickSignIndices(vs, BUY);
    TS.PickSignIndices(vs, SELL);
    RowSnapshotPick(rows, TS.SignIndices(vs, BUY));
    RowSnapshotPick(rows, TS.SignIndices(vs, SELL));
  }

  /** The rows of an instrument once its turn of the loop of `execute` is
      over: the side-aware selection leaves them rewritten by the buy pass and
      then the sell pass; the sign-based selection leaves them as they were. */
  ghost function Settled(vs: seq<RowValue>, sided: bool): (ws: seq<RowValue>)
    ensures |ws| == |vs|
  {
    if sided then Z.PassState(Z.PassState(vs, BUY), SELL) else vs
  }

  /** The row objects of all instruments. */
  ghost function Owned(groups: map<string, seq<TransactionRow>>): set<TransactionRow>
  {
    set n, a | n in groups && 0 <= a < |groups[n]| :: groups[n][a]
  }

  /** Row objects whose quantity slot kept its value hold the same values. */
  twostate lemma RowsUnchanged(rows: seq<TransactionRow>)
    requires forall a :: 0 <= a < |rows| ==> old(rows[a].qty) == rows[a].qty
    ensures RowSnapshot(rows) == old(RowSnapshot(rows))
  {
  }

  /** Row objects of two different instruments are different objects. */
  lemma Apart(groups: map<string, seq<TransactionRow>>, n: string, m: string)
    requires TS.Separate(groups) && n in groups && m in groups && n != m
    ensures forall r :: r in groups[n] ==> r !in groups[m]
  {
    forall r | r in groups[n] ensures r !in groups[m] {
      var a :| 0 <= a < |groups[n]| && groups[n][a] == r;
      forall b | 0 <= b < |groups[m]| ensures groups[m][b] != r {
      }
    }
  }

  /** The row objects of one instrument: distinct, and among all row objects. */
  lemma OwnedRows(groups: map<string, seq<TransactionRow>>, n: string)
    requires TS.Separate(groups) && n in groups
    ensures Distinct(groups[n])
    ensures forall a :: 0 <= a < |groups[n]| ==> groups[n][a] in Owned(groups)
  {
  }

  lemma RecordsSnoc(names: seq<string>, k: nat, gm: map<string, seq<RowValue>>, sided: bool)
    requires k < |names| && forall j :: 0 <= j < |names| ==> names[j] in gm
    ensures Records(names[..k + 1], gm, sided) == Records(names[..k], gm, sided) + Instrument(names[k], gm[names[k]], sided)
  {
    assert names[..k + 1][..k] == names[..k];
  }

  /** The rows after `k` turns of the loop of `execute`: the instruments
      before `k` are settled, the others as the grouping built them. */
  ghost predicate Progress(names: seq<string>, groups: map<string, seq<TransactionRow>>, sided: bool,
                           gm: map<string, seq<RowValue>>, k: nat)
    requires forall j :: 0 <= j < |names| ==> names[j] in groups && names[j] in gm
    reads Owned(groups)
  {
    (forall j :: 0 <= j < |names| ==> forall a :: 0 <= a < |groups[names[j]]| ==> groups[names[j]][a] in Owned(groups)) &&
    (forall j :: 0 <= j < k && j < |names| ==> RowSnapshot(groups[names[j]]) == Settled(gm[names[j]], sided)) &&
    (forall j :: k <= j < |names| ==> RowSnapshot(groups[names[j]]) == gm[names[j]])
  }

  /** One turn of the loop of `execute`: the records of the instrument
      `names[k]`; its rows are left as the selection leaves them, and the
      rows of the other instruments are left alone. */
  method ProcessNext(names: seq<string>, groups: map<string, seq<TransactionRow>>, sided: bool,
                     ghost gm: map<string, seq<RowValue>>, k: nat)
    returns (recs: seq<Transaction>)
    requires k < |names| && Distinct(names) && (forall n :: n in names <==> n in groups) && groups.Keys == gm.Keys
    requires TS.Separate(groups)
    requires Progress(names, groups, sided, gm, k)
    requires sided ==> forall n :: n in gm ==> Z.AllSided(gm[n])
    modifies groups[names[k]]`qty
    ensures Distinct(recs) && forall t :: t in recs ==> fresh(t)
    ensures Snapshot(recs) == Instrument(names[k], gm[names[k]], sided)
    ensures RowSnapshot(groups[names[k]]) == Settled(gm[names[k]], sided)
    ensures Progress(names, groups, sided, gm, k + 1)
  {
    var n := names[k];
    OwnedRows(groups, n);
    assert RowSnapshot(groups[n]) == gm[n];
    recs := ProcessInstrument(n, groups[n], sided);
    forall j | 0 <= j < |names| && j != k ensures RowSnapshot(groups[names[j]]) == old(RowSnapshot(groups[names[j]])) {
      Apart(groups, names[j], n);
      RowsUnchanged(groups[names[j]]);
    }
  }

  /** Appending the records of the next instrument to those of the ones before. */
  lemma AppendRecords(out: seq<Transaction>, recs: seq<Transaction>, names: seq<string>, k: nat,
                      gm: map<string, seq<RowValue>>, sided: bool)
    requires k < |names| && forall j :: 0 <= j < |names| ==> names[j] in gm
    requires Snapshot(out) == Records(names[..k], gm, sided)
    requires Snapshot(recs) == Instrument(names[k], gm[names[k]], sided)
    ensures Snapshot(out + recs) == Records(names[..k + 1], gm, sided)
  {
    RecordsSnoc(names, k, gm, sided);
    SnapshotConcat(out, recs);
  }

  /** One turn of the loop of `execute`, with the records of the instruments
      before `k` already collected in `out`. */
  method ProcessTurn(names: seq<string>, groups: map<string, seq<TransactionRow>>, sided: bool,
                     ghost gm: map<string, seq<RowValue>>, k: nat, out: seq<Transaction>)
    returns (out': seq<Transaction>)
    requires k < |names| && Distinct(names) && (forall n :: n in names <==> n in groups) && groups.Keys == gm.Keys
    requires TS.Separate(groups)
    requires Progress(names, groups, sided, gm, k)
    requires sided ==> forall n :: n in gm ==> Z.AllSided(gm[n])
    requires Snapshot(out) == Records(names[..k], gm, sided)
    modifies groups[names[k]]`qty
    ensures Snapshot(out') == Records(names[..k + 1], gm, sided)
    ensures Progress(names, groups, sided, gm, k + 1)
  {
    ghost var so := Snapshot(out);
    var recs := ProcessNext(names, groups, sided, gm, k);
    assert Snapshot(out) == so;
    AppendRecords(out, recs, names, k, gm, sided);
    out' := out + recs;
  }

  /** The loop of `execute` over the instruments, in order of first appearance. */
  method ProcessAll(names: seq<string>, groups: map<string, seq<TransactionRow>>, sided: bool,
                    ghost gm: map<string, seq<RowValue>>)
    returns (out: seq<Transaction>)
    requires Distinct(names) && (forall n :: n in names <==> n in groups) && groups.Keys == gm.Keys
    requires forall k :: 0 <= k < |names| ==> names[k] in gm
    requires TS.Separate(groups)
    requires forall n :: n in groups ==> RowSnapshot(groups[n]) == gm[n]
    requires sided ==> forall n :: n in gm ==> Z.AllSided(gm[n])
    modifies Owned(groups)
    ensures Snapshot(out) == Records(names, gm, sided)
    ensures forall k :: 0 <= k < |names| ==> RowSnapshot(groups[names[k]]) == Settled(gm[names[k]], sided)
  {
    out := [];
    forall a | 0 <= a < |names| ensures forall b :: 0 <= b < |groups[names[a]]| ==> groups[names[a]][b] in Owned(groups) {
      OwnedRows(groups, names[a]);
    }
    assert Progress(names, groups, sided, gm, 0);
    for k := 0 to |names|
      invariant Snapshot(out) == Records(names[..k], gm, sided)
      invariant Progress(names, groups, sided, gm, k)
    {
      out := ProcessTurn(names, groups, sided, gm, k, out);
    }
    assert names[..|names|] == names;
  }

  /** `execute`: on success the sorted records, the sheet rows written
      (header first) and the sheet name; `ok` is false when the grouping
      aborts on a row without a valid side. */
  method Execute(cfg: Config, raw: seq<TS.RawRow>)
    returns (ok: bool, sorted: seq<Transaction>, table: seq<seq<Cell>>, sheet: string)
    ensures ok <==> Outcome(cfg, raw).Some?
    ensures ok ==> Snapshot(sorted) == Outcome(cfg, raw).value
    ensures ok ==> |table| == |sorted| + 1 && table[0] == TS.Header
    ensures ok ==> forall k :: 0 <= k < |sorted| ==> table[k + 1] == sorted[k].ToTuple()
    ensures ok ==> sheet == TS.SheetName(cfg.assetType)
  {
    var names, groups;
    ok, names, groups := TS.CreateTxnRowMap(raw, cfg.firstRow, cfg.sided);
    sorted, table, sheet := [], [], "";
    if !ok {
      return;
    }
    ghost var g := TS.Grouped(TS.DataRows(raw, cfg.firstRow), cfg.sided);
    GroupFacts(TS.DataRows(raw, cfg.firstRow), cfg.sided);
    OutcomeValue(cfg, raw);
    assert forall o :: o in Owned(groups) ==> fresh(o);
    var finalTxns := ProcessAll(names, groups, cfg.sided, g.1);
    sorted := TS.SortTransactions(finalTxns);
    SnapshotSort(finalTxns);
    assert Snapshot(sorted) == SortBy(Records(g.0, g.1, cfg.sided), TS.ValueKey);
    table := TS.CreateList(sorted);
    sheet := TS.SheetName(cfg.assetType);
  }

  /** What the loop over the instruments needs of a grouping that did not abort. */
  lemma GroupFacts(data: seq<TS.RawRow>, sided: bool)
    requires !sided || TS.WellSided(data)
    ensures var g := TS.Grouped(data, sided);
      Distinct(g.0) && (forall n :: n in g.0 <==> n in g.1) &&
      (sided ==> forall n :: n in g.1 ==> Z.AllSided(g.1[n]))
  {
    TS.GroupedIsPartition(data, sided);
    if sided {
      SidedGroups(data);
    }
  }

  /** In the side-aware format every row of a well-sided grouping has a side. */
  lemma {:induction false} SidedGroups(rows: seq<TS.RawRow>)
    requires TS.WellSided(rows)
    ensures forall n :: n in TS.Grouped(rows, true).1 ==> Z.AllSided(TS.Grouped(rows, true).1[n])
    decreases |rows|
  {
    if rows != [] {
      var front := rows[..|rows| - 1];
      assert forall k :: 0 <= k < |front| ==> front[k] == rows[k];
      SidedGroups(front);
    }
  }
}
