/** The base service of `services/TransactionService.py`, in place: grouping
    the ledger rows by stripped instrument name, splitting each instrument's
    rows into buys and sells by the sign of their quantity, seeding one BUY
    record per buy row, booking the sells against the records in place (field
    writes and an insertion right after a split record), the held/booked
    summary, the output sort, the output rows and the sheet name.  Each method
    is proved against a function of `Booking` or of this module. */
module TransactionService {
  import opened Common
  import opened TransactionRowModel
  import opened TransactionModel
  import opened Booking
  import opened Ordering

  // ---------------------------------------------------------------- names

  /** The characters Python's `str.strip()` removes: those `str.isspace`
      accepts. */
  predicate IsSpace(c: char)
  {
    c == ' ' || ('\t' <= c <= '\r') || ('\U{1C}' <= c <= '\U{1F}') || c == '\U{85}' || c == '\U{A0}' ||
    c == '\U{1680}' || ('\U{2000}' <= c <= '\U{200A}') || c == '\U{2028}' || c == '\U{2029}' ||
    c == '\U{202F}' || c == '\U{205F}' || c == '\U{3000}'
  }

  ghost predicate AllSpace(s: string)
  {
    forall k :: 0 <= k < |s| ==> IsSpace(s[k])
  }

  /** `s` without its leading white space. */
  function TrimLeft(s: string): string
  {
    if s != [] && IsSpace(s[0]) then TrimLeft(s[1..]) else s
  }

  /** `s` without its trailing white space. */
  function TrimRight(s: string): string
  {
    if s != [] && IsSpace(s[|s| - 1]) then TrimRight(s[..|s| - 1]) else s
  }

  /** `str.strip()`. */
  function Strip(s: string): string
  {
    TrimLeft(TrimRight(s))
  }

  /** Trimming on the left cuts a run of white space off the front, and what
      is left does not start with white space. */
  lemma {:induction false} TrimLeftCuts(s: string)
    ensures var r := TrimLeft(s);
      |r| <= |s| && r == s[|s| - |r|..] && AllSpace(s[..|s| - |r|]) && (r == [] || !IsSpace(r[0]))
    decreases |s|
  {
    if s != [] && IsSpace(s[0]) {
      TrimLeftCuts(s[1..]);
      var r := TrimLeft(s[1..]);
      assert s[..|s| - |r|] == [s[0]] + s[1..][..|s| - 1 - |r|];
    }
  }

  /** Trimming on the right cuts a run of white space off the back, and what
      is left does not end with white space. */
  lemma {:induction false} TrimRightCuts(s: string)
    ensures var r := TrimRight(s);
      |r| <= |s| && r == s[..|r|] && AllSpace(s[|r|..]) && (r == [] || !IsSpace(r[|r| - 1]))
    decreases |s|
  {
    if s != [] && IsSpace(s[|s| - 1]) {
      TrimRightCuts(s[..|s| - 1]);
      var r := TrimRight(s[..|s| - 1]);
      assert s[|r|..] == s[..|s| - 1][|r|..] + [s[|s| - 1]];
    }
  }

  /** A stripped name is a contiguous piece of `s`, with only white space cut
      on either side, that neither starts nor ends with white space. */
  lemma StripCuts(s: string)
    ensures var r := Strip(s);
      (r == [] || (!IsSpace(r[0]) && !IsSpace(r[|r| - 1]))) &&
      exists i :: 0 <= i <= |s| - |r| && r == s[i..i + |r|] && AllSpace(s[..i]) && AllSpace(s[i + |r|..])
  {
    var t := TrimRight(s);
    TrimRightCuts(s);
    TrimLeftCuts(t);
    var r := TrimLeft(t);
    var i := |t| - |r|;
    PrefixSlices(s, |t|, i);
    assert r != [] ==> r[|r| - 1] == t[|t| - 1];
    assert 0 <= i <= |s| - |r| && r == s[i..i + |r|] && AllSpace(s[..i]) && AllSpace(s[i + |r|..]);
  }

  /** Slicing a prefix `s[..n]` at `i`. */
  lemma PrefixSlices(s: string, n: nat, i: nat)
    requires i <= n <= |s|
    ensures s[..n][i..] == s[i..n] && s[..n][..i] == s[..i]
  {
  }

  /** Stripping a stripped name changes nothing. */
  lemma StripIdempotent(s: string)
    ensures Strip(Strip(s)) == Strip(s)
  {
    var r := Strip(s);
    StripCuts(s);
    assert TrimRight(r) == r;
    assert TrimLeft(r) == r;
  }

  // ---------------------------------------------------------------- grouping

  /** A ledger row as the spreadsheet reader delivers it, cells already typed:
      the name cell, the quantity cell (absent when empty), date, price, and,
      for the side-aware format, the side cell (absent when it is neither BUY
      nor SELL). */
  datatype RawRow = RawRow(name: string, qty: Option<Qty>, date: Date, price: Price, side: Option<Side>)

  /** A row with an empty or zero quantity is passed over. */
  predicate Dropped(x: RawRow)
  {
    x.qty.None? || x.qty.value == 0.0
  }

  /** The row value built from a kept ledger row; the side is read only by
      the side-aware format. */
  function RowOf(x: RawRow, sided: bool): (v: RowValue)
    requires !Dropped(x)
    ensures v.qty == x.qty.value && v.qty != 0.0 && v.date == x.date && v.price == x.price
    ensures v.side == (if sided then x.side else None)
  {
    RowValue(if sided then x.side else None, x.qty.value, x.date, x.price)
  }

  /** The ledger rows from `firstRow` on (Python's slice: none when the ledger
      is shorter). */
  function DataRows(raw: seq<RawRow>, firstRow: nat): (data: seq<RawRow>)
    ensures |data| == if firstRow <= |raw| then |raw| - firstRow else 0
    ensures forall k :: 0 <= k < |data| ==> data[k] == raw[firstRow + k]
  {
    if firstRow <= |raw| then raw[firstRow..] else []
  }

  /** Every kept row has a side. */
  ghost predicate WellSided(rows: seq<RawRow>)
  {
    forall k :: 0 <= k < |rows| && !Dropped(rows[k]) ==> rows[k].side.Some?
  }

  /** The names in order of first appearance and the rows of each name, as
      the loop of `_create_txn_row_map` builds them, row by row. */
  function Grouped(rows: seq<RawRow>, sided: bool): (seq<string>, map<string, seq<RowValue>>)
  {
    if rows == [] then ([], map[])
    else GroupStep(Grouped(rows[..|rows| - 1], sided), rows[|rows| - 1], sided)
  }

  /** One row of the grouping loop: passed over, appended to its name's list,
      or starting a new list under a name not seen before. */
  function GroupStep(acc: (seq<string>, map<string, seq<RowValue>>), x: RawRow, sided: bool)
    : (seq<string>, map<string, seq<RowValue>>)
  {
    if Dropped(x) then acc
    else
      var n := Strip(x.name);
      if n in acc.1 then (acc.0, acc.1[n := acc.1[n] + [RowOf(x, sided)]])
      else (acc.0 + [n], acc.1[n := [RowOf(x, sided)]])
  }

  /** What one step does to the list of the name `n`. */
  lemma GroupStepAt(acc: (seq<string>, map<string, seq<RowValue>>), x: RawRow, sided: bool, n: string)
    ensures var g := GroupStep(acc, x, sided).1;
      var hit := !Dropped(x) && Strip(x.name) == n;
      (n in g <==> n in acc.1 || hit) &&
      (n in g ==> g[n] == (if n in acc.1 then acc.1[n] else []) + (if hit then [RowOf(x, sided)] else []))
  {
    if n in acc.1 && !(!Dropped(x) && Strip(x.name) == n) {
      assert acc.1[n] + [] == acc.1[n];
    }
  }

  /** Reference definition: the kept rows whose stripped name is `n`, in order. */
  function RowsNamed(rows: seq<RawRow>, n: string, sided: bool): (vs: seq<RowValue>)
    ensures forall k :: 0 <= k < |vs| ==> vs[k].qty != 0.0
  {
    if rows == [] then []
    else
      var x := rows[|rows| - 1];
      RowsNamed(rows[..|rows| - 1], n, sided) +
        (if !Dropped(x) && Strip(x.name) == n then [RowOf(x, sided)] else [])
  }

  /** The grouping is the partition of the kept rows by stripped name: the
      names are distinct and are exactly the names with kept rows, and each
      name's list is exactly its kept rows, in input order. */
  lemma GroupedIsPartition(rows: seq<RawRow>, sided: bool)
    ensures var (names, groups) := Grouped(rows, sided);
      Distinct(names) &&
      (forall n :: n in names <==> n in groups) &&
      (forall k :: 0 <= k < |names| ==> names[k] in groups) &&
      (forall n :: n in groups <==> RowsNamed(rows, n, sided) != []) &&
      (forall n :: n in groups ==> groups[n] == RowsNamed(rows, n, sided))
  {
    GroupedKeys(rows, sided);
    GroupedRows(rows, sided);
  }

  /** The order of first appearance lists each name of the grouping once. */
  lemma {:induction false} GroupedKeys(rows: seq<RawRow>, sided: bool)
    ensures var (names, groups) := Grouped(rows, sided);
      Distinct(names) && (forall n :: n in names <==> n in groups) &&
      forall k :: 0 <= k < |names| ==> names[k] in groups
    decreases |rows|
  {
    if rows != [] {
      var front := rows[..|rows| - 1];
      GroupedKeys(front, sided);
      var (names, groups) := Grouped(front, sided);
      var x := rows[|rows| - 1];
      if !Dropped(x) && Strip(x.name) !in groups {
        var n := Strip(x.name);
        forall a, b | 0 <= a < b < |names + [n]| ensures (names + [n])[a] != (names + [n])[b] {
          if b == |names| {
            assert names[a] in names;
          }
        }
      }
    }
  }

  /** Each name's list of the grouping is its kept rows, and a name is grouped
      exactly when it has some. */
  lemma {:induction false} GroupedRows(rows: seq<RawRow>, sided: bool)
    ensures var groups := Grouped(rows, sided).1;
      forall n :: (n in groups <==> RowsNamed(rows, n, sided) != []) &&
        (n in groups ==> groups[n] == RowsNamed(rows, n, sided))
    decreases |rows|
  {
    if rows != [] {
      var front := rows[..|rows| - 1];
      GroupedRows(front, sided);
      var groups := Grouped(front, sided).1;
      var x := rows[|rows| - 1];
      var g := Grouped(rows, sided).1;
      assert g == GroupStep(Grouped(front, sided), x, sided).1;
      forall n ensures (n in g <==> RowsNamed(rows, n, sided) != []) &&
        (n in g ==> g[n] == RowsNamed(rows, n, sided))
      {
        GroupStepAt(Grouped(front, sided), x, sided, n);
        assert RowsNamed(rows, n, sided) ==
          RowsNamed(front, n, sided) + (if !Dropped(x) && Strip(x.name) == n then [RowOf(x, sided)] else []);
      }
    }
  }

  /** The position of the first kept row whose stripped name is `n`, or the
      length of the ledger when there is none. */
  function FirstKept(rows: seq<RawRow>, n: string): (f: nat)
    ensures f <= |rows|
    ensures f < |rows| ==> !Dropped(rows[f]) && Strip(rows[f].name) == n
  {
    if rows == [] then 0
    else
      var front, x := rows[..|rows| - 1], rows[|rows| - 1];
      var f := FirstKept(front, n);
      if f < |front| then f
      else if !Dropped(x) && Strip(x.name) == n then |front|
      else |rows|
  }

  /** No kept row before `FirstKept(rows, n)` carries the name `n`. */
  lemma {:induction false} FirstKeptIsFirst(rows: seq<RawRow>, n: string, k: nat)
    requires k < FirstKept(rows, n) && k < |rows|
    ensures Dropped(rows[k]) || Strip(rows[k].name) != n
    decreases |rows|
  {
    var front := rows[..|rows| - 1];
    if k < |front| {
      if k < FirstKept(front, n) {
        FirstKeptIsFirst(front, n, k);
      }
    }
  }

  /** Order of first appearance: a name is grouped exactly when some kept row
      carries it, and the names are listed in the order of their first kept
      rows. */
  lemma {:induction false} GroupedFirstAppearance(rows: seq<RawRow>, sided: bool)
    ensures var (names, groups) := Grouped(rows, sided);
      (forall n :: n in groups <==> FirstKept(rows, n) < |rows|) &&
      (forall a, b :: 0 <= a < b < |names| ==> FirstKept(rows, names[a]) < FirstKept(rows, names[b]))
    decreases |rows|
  {
    if rows != [] {
      var front, x := rows[..|rows| - 1], rows[|rows| - 1];
      GroupedFirstAppearance(front, sided);
      GroupedKeys(front, sided);
      var acc := Grouped(front, sided);
      var (names, groups) := Grouped(rows, sided);
      assert (names, groups) == GroupStep(acc, x, sided);
      forall n ensures n in groups <==> FirstKept(rows, n) < |rows| {
        GroupStepAt(acc, x, sided, n);
      }
      var isNew := !Dropped(x) && Strip(x.name) !in acc.1;
      assert names == if isNew then acc.0 + [Strip(x.name)] else acc.0;
      forall a, b | 0 <= a < b < |names|
        ensures FirstKept(rows, names[a]) < FirstKept(rows, names[b])
      {
        assert names[a] == acc.0[a] && FirstKept(front, acc.0[a]) < |front|;
        if b < |acc.0| {
          assert names[b] == acc.0[b];
        } else {
          assert names[b] == Strip(x.name) && FirstKept(front, Strip(x.name)) == |front|;
        }
      }
    }
  }

  /** Ownership of the row objects built by the grouping: each one sits at
      exactly one position of exactly one name's list. */
  ghost predicate Separate(groups: map<string, seq<TransactionRow>>)
  {
    forall n, m, a, b ::
      (n in groups && m in groups && 0 <= a < |groups[n]| && 0 <= b < |groups[m]| &&
       groups[n][a] == groups[m][b]) ==> n == m && a == b
  }

  /** The row object built from a kept ledger row. */
  method NewRow(x: RawRow, sided: bool) returns (row: TransactionRow)
    requires !Dropped(x)
    ensures fresh(row) && row.Value() == RowOf(x, sided)
  {
    row := new TransactionRow(x.qty.value, x.date, x.price, if sided then x.side else None);
  }

  /** The names and row objects built so far mirror the ghost grouping
      (`gn`, `gm`) of the rows seen: every row object of a name holds the
      value at the same position of that name's ghost list, and `owner`
      records the one position each row object sits at. */
  ghost predicate Mirrors(names: seq<string>, groups: map<string, seq<TransactionRow>>,
                          gn: seq<string>, gm: map<string, seq<RowValue>>,
                          owner: map<TransactionRow, (string, nat)>)
    reads owner.Keys
  {
    names == gn && (forall n :: n in groups <==> n in gm) &&
    (forall n :: n in groups ==> |groups[n]| == |gm[n]|) &&
    (forall n, a :: n in groups && 0 <= a < |groups[n]| ==>
      groups[n][a] in owner && owner[groups[n][a]] == (n, a) && groups[n][a].Value() == gm[n][a])
  }

  /** The dictionary update of `_create_txn_row_map`: the row object is
      appended to its name's list, or starts a new list, and the name is then
      the last in order of first appearance. */
  method AppendRow(names: seq<string>, groups: map<string, seq<TransactionRow>>, name: string,
                   row: TransactionRow, ghost gn: seq<string>, ghost gm: map<string, seq<RowValue>>,
                   ghost owner: map<TransactionRow, (string, nat)>)
    returns (names': seq<string>, groups': map<string, seq<TransactionRow>>,
             ghost gn': seq<string>, ghost gm': map<string, seq<RowValue>>,
             ghost owner': map<TransactionRow, (string, nat)>)
    requires Mirrors(names, groups, gn, gm, owner) && row !in owner
    ensures Mirrors(names', groups', gn', gm', owner')
    ensures gn' == (if name in gm then gn else gn + [name])
    ensures gm' == (if name in gm then gm[name := gm[name] + [row.Value()]] else gm[name := [row.Value()]])
    ensures owner'.Keys == owner.Keys + {row}
  {
    if name in groups {
      owner' := owner[row := (name, |groups[name]|)];
      names', groups' := names, groups[name := groups[name] + [row]];
      gn', gm' := gn, gm[name := gm[name] + [row.Value()]];
    } else {
      owner' := owner[row := (name, 0)];
      names', groups' := names + [name], groups[name := [row]];
      gn', gm' := gn + [name], gm[name := [row.Value()]];
    }
  }

  /** What the mirror gives the caller: each name's row objects hold its
      ghost list, and no row object sits at two positions. */
  lemma MirrorsFacts(names: seq<string>, groups: map<string, seq<TransactionRow>>,
                     gn: seq<string>, gm: map<string, seq<RowValue>>,
                     owner: map<TransactionRow, (string, nat)>)
    requires Mirrors(names, groups, gn, gm, owner)
    ensures groups.Keys == gm.Keys
    ensures forall n :: n in groups ==> RowSnapshot(groups[n]) == gm[n]
    ensures Separate(groups)
  {
    forall n | n in groups ensures RowSnapshot(groups[n]) == gm[n] {
      assert |RowSnapshot(groups[n])| == |gm[n]|;
      forall a | 0 <= a < |gm[n]| ensures RowSnapshot(groups[n])[a] == gm[n][a] {
        assert groups[n][a].Value() == gm[n][a];
      }
    }
  }

  /** `_create_txn_row_map`, for both ledger formats: the rows from
      `firstRow` on, passed over when their quantity is empty or zero, each
      other one built into a fresh row object appended to the list of its
      stripped name, names kept in order of first appearance.  With `sided`
      (the side-aware format) the side cell is read too, and a kept row whose
      side cell is neither BUY nor SELL aborts the whole grouping. */
  method CreateTxnRowMap(raw: seq<RawRow>, firstRow: nat, sided: bool)
    returns (ok: bool, names: seq<string>, groups: map<string, seq<TransactionRow>>)
    ensures ok <==> !sided || WellSided(DataRows(raw, firstRow))
    ensures ok ==> names == Grouped(DataRows(raw, firstRow), sided).0
    ensures ok ==> groups.Keys == Grouped(DataRows(raw, firstRow), sided).1.Keys
    ensures ok ==> forall n :: n in groups ==> RowSnapshot(groups[n]) == Grouped(DataRows(raw, firstRow), sided).1[n]
    ensures ok ==> Separate(groups)
    ensures ok ==> forall n, a :: n in groups && 0 <= a < |groups[n]| ==> fresh(groups[n][a])
  {
    var data := DataRows(raw, firstRow);
    ghost var gn: seq<string> := [];
    ghost var gm: map<string, seq<RowValue>> := map[];
    ghost var owner: map<TransactionRow, (string, nat)> := map[];
    names, groups := [], map[];
    for k := 0 to |data|
      invariant (gn, gm) == Grouped(data[..k], sided)
      invariant Mirrors(names, groups, gn, gm, owner)
      invariant forall r :: r in owner ==> fresh(r)
      invariant !sided || WellSided(data[..k])
    {
      assert data[..k + 1][..k] == data[..k];
      var txn := data[k];
      if txn.qty.None? || txn.qty.value == 0.0 {
        continue;
      }
      var name := Strip(txn.name);
      if sided && txn.side.None? {
        assert data[..k + 1][k] == txn;
        assert !WellSided(data);
        ok := false;
        return;
      }
      var row := NewRow(txn, sided);
      names, groups, gn, gm, owner := AppendRow(names, groups, name, row, gn, gm, owner);
    }
    assert data[..|data|] == data;
    MirrorsFacts(names, groups, gn, gm, owner);
    ok := true;
  }

  // ---------------------------------------------------------------- classification by sign

  /** The sign convention of the base format: a positive quantity is a buy,
      a negative one a sell. */
  predicate OnSide(v: RowValue, side: Side)
  {
    if side == BUY then v.qty > 0.0 else v.qty < 0.0
  }

  /** The positions of the rows the sign puts on `side`, in order. */
  function SignIndices(vs: seq<RowValue>, side: Side): (idx: seq<nat>)
    ensures forall k :: 0 <= k < |idx| ==> idx[k] < |vs|
  {
    if vs == [] then []
    else SignIndices(vs[..|vs| - 1], side) + (if OnSide(vs[|vs| - 1], side) then [|vs| - 1] else [])
  }

  /** The sign's positions increase, and hold exactly the rows on `side`. */
  lemma {:induction false} SignIndicesMembers(vs: seq<RowValue>, side: Side)
    ensures IncreasingBelow(SignIndices(vs, side), |vs|)
    ensures forall k :: 0 <= k < |vs| ==> (k in SignIndices(vs, side) <==> OnSide(vs[k], side))
    decreases |vs|
  {
    if vs != [] {
      var n := |vs| - 1;
      var front := vs[..n];
      SignIndicesMembers(front, side);
      var fi := SignIndices(front, side);
      var last: seq<nat> := if OnSide(vs[n], side) then [n] else [];
      assert SignIndices(vs, side) == fi + last;
      forall k | 0 <= k < |vs| ensures (k in fi + last <==> OnSide(vs[k], side)) {
        if k < n {
          assert front[k] == vs[k];
        }
      }
    }
  }

  /** Reference definition: the rows on `side`, in order. */
  function SignRows(vs: seq<RowValue>, side: Side): (rs: seq<RowValue>)
    ensures forall k :: 0 <= k < |rs| ==> OnSide(rs[k], side)
  {
    if vs == [] then []
    else SignRows(vs[..|vs| - 1], side) + (if OnSide(vs[|vs| - 1], side) then [vs[|vs| - 1]] else [])
  }

  lemma SignIndicesSnoc(vs: seq<RowValue>, k: nat, side: Side)
    requires k < |vs|
    ensures SignIndices(vs[..k + 1], side) == SignIndices(vs[..k], side) + (if OnSide(vs[k], side) then [k] else [])
  {
    assert vs[..k + 1][..k] == vs[..k];
  }

  /** Picking at positions below `m` looks only at the first `m` elements. */
  lemma PickPrefix<T>(s: seq<T>, idx: seq<nat>, m: nat)
    requires m <= |s| && forall k :: 0 <= k < |idx| ==> idx[k] < m
    ensures Pick(s, idx) == Pick(s[..m], idx)
  {
    var l, r := Pick(s, idx), Pick(s[..m], idx);
    assert forall k :: 0 <= k < |idx| ==> l[k] == r[k];
  }

  /** The rows at the sign's positions are exactly the rows on that side. */
  lemma {:induction false} PickSignIndices(vs: seq<RowValue>, side: Side)
    ensures Pick(vs, SignIndices(vs, side)) == SignRows(vs, side)
    decreases |vs|
  {
    if vs != [] {
      var n := |vs| - 1;
      var front := vs[..n];
      PickSignIndices(front, side);
      var idx := SignIndices(front, side);
      PickPrefix(vs, idx, n);
      if OnSide(vs[n], side) {
        PickSnoc(vs, idx, n);
      }
    }
  }

  /** `_get_buy_txns` (`side` BUY) and `_get_sell_txns` (`side` SELL): the
      very row objects with a positive, respectively negative, quantity, in
      their order.  Nothing is changed. */
  method SelectBySign(rows: seq<TransactionRow>, side: Side) returns (out: seq<TransactionRow>)
    ensures out == Pick(rows, SignIndices(RowSnapshot(rows), side))
  {
    ghost var vs := RowSnapshot(rows);
    out := [];
    var k: nat := 0;
    while k < |rows|
      invariant k <= |rows|
      invariant out == Pick(rows, SignIndices(vs[..k], side))
      decreases |rows| - k
    {
      ghost var idx := SignIndices(vs[..k], side);
      SignIndicesSnoc(vs, k, side);
      assert vs[k].qty == rows[k].qty;
      if (side == BUY && rows[k].qty > 0.0) || (side == SELL && rows[k].qty < 0.0) {
        assert SignIndices(vs[..k + 1], side) == idx + [k];
        PickSnoc(rows, idx, k);
        out := out + [rows[k]];
      } else {
        assert SignIndices(vs[..k + 1], side) == idx;
      }
      k := k + 1;
    }
    assert vs[..|rows|] == vs;
  }

  method GetBuyTxns(rows: seq<TransactionRow>) returns (buys: seq<TransactionRow>)
    ensures buys == Pick(rows, SignIndices(RowSnapshot(rows), BUY))
  {
    buys := SelectBySign(rows, BUY);
  }

  method GetSellTxns(rows: seq<TransactionRow>) returns (sells: seq<TransactionRow>)
    ensures sells == Pick(rows, SignIndices(RowSnapshot(rows), SELL))
  {
    sells := SelectBySign(rows, SELL);
  }

  /** No row is both a buy and a sell, and a row with a non-zero quantity is
      one of the two. */
  lemma SignPartition(vs: seq<RowValue>, k: nat)
    requires k < |vs|
    ensures !(k in SignIndices(vs, BUY) && k in SignIndices(vs, SELL))
    ensures vs[k].qty != 0.0 ==> (k in SignIndices(vs, BUY) || k in SignIndices(vs, SELL))
  {
    SignIndicesMembers(vs, BUY);
    SignIndicesMembers(vs, SELL);
  }

  lemma {:induction false} RowTotalCons(x: RowValue, s: seq<RowValue>)
    ensures RowTotal([x] + s) == x.qty + RowTotal(s)
    decreases |s|
  {
    if s != [] {
      var n := |s| - 1;
      assert ([x] + s)[..n + 1] == [x] + s[..n];
      RowTotalCons(x, s[..n]);
    } else {
      assert [x] + s == [x];
      assert [x][..0] == [];
    }
  }

  /** For sell rows, the engine's absolute total is minus the signed total. */
  lemma {:induction false} SellTotalOfNegatives(s: seq<RowValue>)
    requires forall k :: 0 <= k < |s| ==> s[k].qty < 0.0
    ensures SellTotal(s) == -RowTotal(s)
    decreases |s|
  {
    if s != [] {
      SellTotalOfNegatives(s[1..]);
      RowTotalCons(s[0], s[1..]);
      assert [s[0]] + s[1..] == s;
    }
  }

  /** The buy rows and the sell rows together carry the whole quantity. */
  lemma {:induction false} SignRowsTotal(vs: seq<RowValue>)
    ensures RowTotal(SignRows(vs, BUY)) + RowTotal(SignRows(vs, SELL)) == RowTotal(vs)
    decreases |vs|
  {
    if vs != [] {
      var n := |vs| - 1;
      SignRowsTotal(vs[..n]);
      var x := vs[n];
      forall side | true
        ensures RowTotal(SignRows(vs, side)) ==
          RowTotal(SignRows(vs[..n], side)) + (if OnSide(x, side) then x.qty else 0.0)
      {
        var a := SignRows(vs[..n], side);
        if OnSide(x, side) {
          assert (a + [x])[..|a|] == a;
        } else {
          assert a + [] == a;
        }
      }
    }
  }

  /** Classification by sign conserves quantity: the buys' total plus the
      sells' signed total is the total of all rows, and the sells' absolute
      total, which booking consumes, is minus their signed total. */
  lemma SignTotals(vs: seq<RowValue>)
    ensures RowTotal(Pick(vs, SignIndices(vs, BUY))) + RowTotal(Pick(vs, SignIndices(vs, SELL))) == RowTotal(vs)
    ensures SellTotal(Pick(vs, SignIndices(vs, SELL))) == -RowTotal(Pick(vs, SignIndices(vs, SELL)))
  {
    PickSignIndices(vs, BUY);
    PickSignIndices(vs, SELL);
    SignRowsTotal(vs);
    SellTotalOfNegatives(SignRows(vs, SELL));
  }

  // ---------------------------------------------------------------- booking, in place

  /** A record is booked whole: side, sell date and sell price are written,
      its quantity is left as it is, and no other record changes. */
  method BookWhole(ts: seq<Transaction>, i: nat, d: Date, p: Price)
    requires Distinct(ts) && i < |ts|
    modifies ts[i]
    ensures Snapshot(ts) == old(Snapshot(ts))[i := Sold(old(ts[i].Value()), old(ts[i].qty), d, p)]
  {
    ghost var before := Snapshot(ts);
    ts[i].SetBuySell(SELL);
    ts[i].SetSellDate(d);
    ts[i].SetSellPrice(p);
    ghost var now := Snapshot(ts);
    forall k | 0 <= k < |ts| ensures now[k] == before[i := Sold(before[i], before[i].qty, d, p)][k] {
      if k != i {
        assert ts[k] != ts[i];
      }
    }
  }

  /** The sold slice of a split record: side, quantity, sell date and sell
      price are written, in the order `_book_transactions` writes them, and no other record changes. */
  method BookPart(ts: seq<Transaction>, i: nat, qty: Qty, d: Date, p: Price)
    requires Distinct(ts) && i < |ts|
    modifies ts[i]
    ensures Snapshot(ts) == old(Snapshot(ts))[i := Sold(old(ts[i].Value()), qty, d, p)]
  {
    ghost var before := Snapshot(ts);
    ts[i].SetBuySell(SELL);
    ts[i].SetQty(qty);
    ts[i].SetSellDate(d);
    ts[i].SetSellPrice(p);
    ghost var now := Snapshot(ts);
    forall k | 0 <= k < |ts| ensures now[k] == before[i := Sold(before[i], qty, d, p)][k] {
      if k != i {
        assert ts[k] != ts[i];
      }
    }
  }

  /** The list with a fresh record inserted right after position `i` keeps its
      objects distinct, and its values are the old values with the new
      record's value inserted. */
  lemma InsertAfter(ts: seq<Transaction>, i: nat, rest: Transaction)
    requires Distinct(ts) && i < |ts| && rest !in ts
    ensures Distinct(ts[..i + 1] + [rest] + ts[i + 1..])
    ensures Snapshot(ts[..i + 1] + [rest] + ts[i + 1..])
         == Snapshot(ts)[..i + 1] + [rest.Value()] + Snapshot(ts)[i + 1..]
  {
    var out := ts[..i + 1] + [rest] + ts[i + 1..];
    assert |out| == |ts| + 1;
    assert forall k :: 0 <= k <= i ==> out[k] == ts[k];
    assert out[i + 1] == rest;
    assert forall k :: i + 1 < k < |out| ==> out[k] == ts[k - 1];
    forall a, b | 0 <= a < b < |out| ensures out[a] != out[b] {
      if b == i + 1 {
        assert out[a] in ts;
      } else if a == i + 1 {
        assert out[b] in ts;
      } else {
        var a', b' := if a <= i then a else a - 1, if b <= i then b else b - 1;
        assert out[a] == ts[a'] && out[b] == ts[b'] && a' < b';
      }
    }
    var vs, ws := Snapshot(out), Snapshot(ts)[..i + 1] + [rest.Value()] + Snapshot(ts)[i + 1..];
    forall k | 0 <= k < |out| ensures vs[k] == ws[k] {
      if k > i + 1 {
        assert ws[k] == Snapshot(ts)[k - 1];
      }
    }
  }

  /** The split of an open record whose quantity exceeds the `r` units still
      to sell: the record becomes the sold slice, a fresh BUY record holding
      the unsold rest is inserted right after it, and the scan ends there. */
  method SplitAt(ts: seq<Transaction>, index: nat, r: Qty, d: Date, p: Price) returns (out: seq<Transaction>)
    requires Distinct(ts) && index < |ts| && ts[index].buySell == BUY && r < ts[index].qty
    modifies ts[index]
    ensures Distinct(out)
    ensures forall t :: t in out ==> t in ts || fresh(t)
    ensures Snapshot(out) == BookFrom(old(Snapshot(ts)), index, r, d, p)
  {
    ghost var before := Snapshot(ts);
    var txn := ts[index];
    var totalQty := txn.qty;
    BookPart(ts, index, r, d, p);
    var rest := new Transaction(txn.name, BUY, totalQty - r, txn.buyDate, txn.buyPrice);
    InsertAfter(ts, index, rest);
    out := ts[..index + 1] + [rest] + ts[index + 1..];
    SplitValues(before, index, r, d, p);
  }

  /** On values: the booked list, with the remainder inserted after `index`,
      is what the scan produces at a split. */
  lemma SplitValues(ts: seq<TxnValue>, i: nat, r: Qty, d: Date, p: Price)
    requires i < |ts| && ts[i].side == BUY && r < ts[i].qty
    ensures var booked := ts[i := Sold(ts[i], r, d, p)];
      booked[..i + 1] + [Remainder(ts[i], ts[i].qty - r)] + booked[i + 1..] == BookFrom(ts, i, r, d, p)
  {
    var booked := ts[i := Sold(ts[i], r, d, p)];
    assert booked[..i + 1] == ts[..i] + [Sold(ts[i], r, d, p)];
    assert booked[i + 1..] == ts[i + 1..];
  }

  /** One turn of the outer loop of `_book_transactions`: the scan for one
      sell row over the record list, in place.  The records are the list's
      own objects; a split inserts one fresh record right after the split
      one and ends the scan. */
  method BookSellRow(ts: seq<Transaction>, sell: TransactionRow) returns (out: seq<Transaction>)
    requires Distinct(ts)
    modifies set t | t in ts
    ensures Distinct(out)
    ensures Snapshot(out) == BookSell(old(Snapshot(ts)), sell.Value())
    ensures forall t :: t in out ==> t in ts || fresh(t)
  {
    var qtyToSell := Abs(sell.qty);
    ghost var goal := BookSell(Snapshot(ts), sell.Value());
    out := ts;
    var index: nat := 0;
    while index < |ts|
      invariant index <= |ts| && out == ts
      invariant BookFrom(Snapshot(ts), index, qtyToSell, sell.date, sell.price) == goal
      decreases |ts| - index
    {
      var txn := ts[index];
      if txn.buySell == SELL {
        index := index + 1;
        continue;
      }
      if qtyToSell >= txn.qty {
        BookWhole(ts, index, sell.date, sell.price);
        qtyToSell := qtyToSell - txn.qty;
        if qtyToSell == 0.0 {
          break;
        }
      } else {
        // The `elif qty_to_sell < txn.qty` of `_book_transactions` always holds here.
        out := SplitAt(ts, index, qtyToSell, sell.date, sell.price);
        break;
      }
      index := index + 1;
    }
  }

  /** `_book_transactions`: the sell rows booked one after the other against
      the record list, which is updated in place. */
  method BookTransactions(sells: seq<TransactionRow>, txns: seq<Transaction>) returns (out: seq<Transaction>)
    requires Distinct(txns)
    modifies set t | t in txns
    ensures Distinct(out)
    ensures Snapshot(out) == BookAll(old(Snapshot(txns)), RowSnapshot(sells))
    ensures forall t :: t in out ==> t in txns || fresh(t)
  {
    ghost var sv := RowSnapshot(sells);
    ghost var goal := BookAll(Snapshot(txns), sv);
    out := txns;
    for k := 0 to |sells|
      invariant Distinct(out)
      invariant forall t :: t in out ==> t in txns || fresh(t)
      invariant RowSnapshot(sells) == sv
      invariant BookAll(Snapshot(out), sv[k..]) == goal
    {
      assert sv[k..][1..] == sv[k + 1..];
      assert forall t :: t in out ==> t in txns || fresh(t);
      out := BookSellRow(out, sells[k]);
    }
    assert sv[|sells|..] == [];
  }

  /** The first loop of `_process_transactions`: one fresh BUY record per buy
      row, in order, carrying the row's quantity, date and price. */
  method SeedRecords(name: string, buys: seq<TransactionRow>) returns (out: seq<Transaction>)
    ensures Distinct(out) && forall t :: t in out ==> fresh(t)
    ensures Snapshot(out) == Seed(name, RowSnapshot(buys))
  {
    ghost var bv := RowSnapshot(buys);
    out := [];
    for k := 0 to |buys|
      invariant Distinct(out) && forall t :: t in out ==> fresh(t)
      invariant RowSnapshot(buys) == bv
      invariant Snapshot(out) == Seed(name, bv[..k])
    {
      var t := new Transaction(name, BUY, buys[k].qty, buys[k].date, buys[k].price);
      assert bv[..k + 1][..k] == bv[..k];
      assert Snapshot(out + [t]) == Snapshot(out) + [t.Value()];
      out := out + [t];
    }
    assert bv[..|buys|] == bv;
  }

  /** `_process_transactions`: the seeded records, then the sells booked
      against them.  The rows are only read. */
  method ProcessTransactions(name: string, buys: seq<TransactionRow>, sells: seq<TransactionRow>)
    returns (out: seq<Transaction>)
    ensures Distinct(out) && forall t :: t in out ==> fresh(t)
    ensures Snapshot(out) == Process(name, RowSnapshot(buys), RowSnapshot(sells))
  {
    ghost var bv, sv := RowSnapshot(buys), RowSnapshot(sells);
    out := SeedRecords(name, buys);
    assert RowSnapshot(sells) == sv;
    out := BookTransactions(sells, out);
    assert RowSnapshot(buys) == bv;
    // `_process_transactions` logs this summary and drops it.
    var summary := PrintSummary(out);
  }

  // ---------------------------------------------------------------- summary and output

  /** The record count, the quantity held (BUY) and the quantity booked (SELL). */
  datatype Summary = Summary(count: nat, held: Qty, booked: Qty)

  /** `_print_summary`, returning what it logs. */
  method PrintSummary(ts: seq<Transaction>) returns (s: Summary)
    ensures s.count == |ts|
    ensures s.held == QtyOn(Snapshot(ts), BUY) && s.booked == QtyOn(Snapshot(ts), SELL)
  {
    ghost var vs := Snapshot(ts);
    var buyQty: Qty := 0.0;
    var sellQty: Qty := 0.0;
    for k := 0 to |ts|
      invariant buyQty == QtyOn(vs[..k], BUY) && sellQty == QtyOn(vs[..k], SELL)
    {
      assert vs[..k + 1][..k] == vs[..k];
      if ts[k].buySell == BUY {
        buyQty := buyQty + ts[k].qty;
      } else {
        sellQty := sellQty + ts[k].qty;
      }
    }
    assert vs[..|ts|] == vs;
    s := Summary(|ts|, buyQty, sellQty);
  }

  /** The header row of the output sheet. */
  const Header: seq<Cell> :=
    [Text("Fund Name"), Text("Buy/Sell"), Text("Units"), Text("Buy Date"),
     Text("Buy Price"), Text("Sell Date"), Text("Sell Price")]

  /** `_create_list`: the header, then one row per record, in order. */
  method CreateList(ts: seq<Transaction>) returns (rows: seq<seq<Cell>>)
    ensures |rows| == |ts| + 1 && rows[0] == Header
    ensures forall k :: 0 <= k < |rows| ==> |rows[k]| == 7
    ensures forall k :: 0 <= k < |ts| ==> rows[k + 1] == ts[k].ToTuple()
  {
    rows := [Header];
    for k := 0 to |ts|
      invariant |rows| == k + 1 && rows[0] == Header
      invariant forall j :: 0 <= j < |rows| ==> |rows[j]| == 7
      invariant forall j :: 0 <= j < k ==> rows[j + 1] == ts[j].ToTuple()
    {
      rows := rows + [ts[k].ToTuple()];
    }
  }

  /** `_get_sheet_name`: the output sheet is named after the asset type. */
  function SheetName(assetType: AssetType): (name: string)
    ensures name == "MF Data" <==> assetType == MutualFund
    ensures name == "Stock Data" <==> assetType == Stock
  {
    match assetType
    case MutualFund => "MF Data"
    case Stock => "Stock Data"
  }

  /** The sort key of `execute`: buy date, then name (both fixed at construction). */
  function TxnKey(t: Transaction): Key
  {
    Key(t.buyDate, t.name)
  }

  /** The same key on record values. */
  function ValueKey(v: TxnValue): Key
  {
    Key(v.buyDate, v.name)
  }

  lemma SortStableAll(ts: seq<Transaction>)
    ensures forall k :: WithKey(SortBy(ts, TxnKey), TxnKey, k) == WithKey(ts, TxnKey, k)
  {
    forall k ensures WithKey(SortBy(ts, TxnKey), TxnKey, k) == WithKey(ts, TxnKey, k) {
      SortStable(ts, TxnKey, k);
    }
  }

  /** The output order of `execute`: ordered by (buy date, name), the same
      records each as often, and records sharing a key in their input order. */
  function SortTransactions(ts: seq<Transaction>): (sorted: seq<Transaction>)
    ensures SortedBy(sorted, TxnKey)
    ensures |sorted| == |ts| && multiset(sorted) == multiset(ts)
    ensures forall k :: WithKey(sorted, TxnKey, k) == WithKey(ts, TxnKey, k)
  {
    SortSorted(ts, TxnKey);
    SortPermutation(ts, TxnKey);
    SortStableAll(ts);
    SortBy(ts, TxnKey)
  }
}
