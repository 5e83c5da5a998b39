/** Shared vocabulary of the lot-booking engine: sides, asset types, optional
    values, the scalar types used for dates, quantities and prices, and a few
    sequence helpers. */
module Common {

  /** The side of a ledger row or of a booked record. */
  datatype Side = BUY | SELL

  /** The asset type a service is configured with; it only selects the output sheet name. */
  datatype AssetType = MutualFund | Stock

  datatype Option<+T> = None | Some(value: T)

  /** An already-parsed calendar date, as an ordinal that orders like the date. */
  type Date = int
  /** Exact decimal quantities and prices. */
  type Qty = real
  type Price = real

  /** The value a side has in the output sheet. */
  function SideValue(s: Side): (v: string)
    ensures v == "BUY" <==> s == BUY
    ensures v == "SELL" <==> s == SELL
  {
    match s
    case BUY => "BUY"
    case SELL => "SELL"
  }

  /** The side that is skipped by the pass collecting `s`. */
  function Opposite(s: Side): (o: Side)
    ensures o != s
  {
    if s == BUY then SELL else BUY
  }

  function Abs(x: real): (r: real)
    ensures r >= 0.0 && (r == x || r == -x)
  {
    if x < 0.0 then -x else x
  }

  function Min(a: real, b: real): real
  {
    if a <= b then a else b
  }

  /** No object (or value) occurs twice. */
  ghost predicate Distinct<T>(s: seq<T>)
  {
    forall a, b :: 0 <= a < b < |s| ==> s[a] != s[b]
  }

  /** Indices that are strictly increasing and below `n`. */
  ghost predicate IncreasingBelow(idx: seq<nat>, n: nat)
  {
    (forall k :: 0 <= k < |idx| ==> idx[k] < n) &&
    (forall a, b :: 0 <= a < b < |idx| ==> idx[a] < idx[b])
  }

  /** The elements of `s` at the positions `idx`, in that order. */
  function Pick<T>(s: seq<T>, idx: seq<nat>): (r: seq<T>)
    requires forall k :: 0 <= k < |idx| ==> idx[k] < |s|
    ensures |r| == |idx| && forall k :: 0 <= k < |idx| ==> r[k] == s[idx[k]]
  {
    if idx == [] then [] else [s[idx[0]]] + Pick(s, idx[1..])
  }

  /** Picking one more position at the end. */
  lemma PickSnoc<T>(s: seq<T>, idx: seq<nat>, i: nat)
    requires i < |s| && forall k :: 0 <= k < |idx| ==> idx[k] < |s|
    ensures Pick(s, idx + [i]) == Pick(s, idx) + [s[i]]
  {
    assert forall k :: 0 <= k < |idx| + 1 ==> (idx + [i])[k] < |s|;
    var l, r := Pick(s, idx + [i]), Pick(s, idx) + [s[i]];
    assert forall k :: 0 <= k < |l| ==> l[k] == r[k];
  }

  /** Sum of a sequence of quantities, accumulated from the left. */
  function Sum(s: seq<Qty>): Qty
  {
    if s == [] then 0.0 else Sum(s[..|s| - 1]) + s[|s| - 1]
  }

  lemma {:induction false} SumConcat(a: seq<Qty>, b: seq<Qty>)
    ensures Sum(a + b) == Sum(a) + Sum(b)
    decreases |b|
  {
    if b == [] {
      assert a + b == a;
    } else {
      assert (a + b)[..|a + b| - 1] == a + b[..|b| - 1];
      SumConcat(a, b[..|b| - 1]);
    }
  }
}
