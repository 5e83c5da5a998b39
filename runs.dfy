/** Maximal runs of consecutive equal keys, and the pass that sums each run's
    quantities into its first element (the nested `while` loops of
    `services/ZerodhaService.py`).  Everything here is generic in the key:
    the side-aware row passes key on (side, date, price), the record
    compression on (buy date, buy price). */
module Runs {
  import opened Common

  /** The first index from `j` on whose key differs from the key at `i`. */
  function RunEndFrom<K(==)>(keys: seq<K>, i: nat, j: nat): (e: nat)
    requires i < |keys| && j <= |keys|
    ensures j <= e <= |keys|
    ensures forall k :: j <= k < e ==> keys[k] == keys[i]
    ensures e < |keys| ==> keys[e] != keys[i]
    decreases |keys| - j
  {
    if j < |keys| && keys[j] == keys[i] then RunEndFrom(keys, i, j + 1) else j
  }

  /** End (exclusive) of the maximal run of equal keys that starts at `i`. */
  function RunEnd<K(==)>(keys: seq<K>, i: nat): (e: nat)
    requires i < |keys|
    ensures i < e <= |keys|
    ensures forall k :: i <= k < e ==> keys[k] == keys[i]
    ensures e < |keys| ==> keys[e] != keys[i]
  {
    RunEndFrom(keys, i, i + 1)
  }

  /** Where the runs start, scanning from `i`: a skipped element is passed
      over; any other element starts a run, and scanning resumes at its end. */
  function Starts<K(==)>(keys: seq<K>, skip: seq<bool>, i: nat): (ss: seq<nat>)
    requires |skip| == |keys| && i <= |keys|
    ensures IncreasingBelow(ss, |keys|)
    ensures forall k :: 0 <= k < |ss| ==> i <= ss[k] && !skip[ss[k]]
    decreases |keys| - i
  {
    if i == |keys| then []
    else if skip[i] then Starts(keys, skip, i + 1)
    else [i] + Starts(keys, skip, RunEnd(keys, i))
  }

  /** The quantities after the pass has run from `i` on: the first element of
      each run gets the sum of the run's quantities. */
  function Merge<K(==)>(keys: seq<K>, skip: seq<bool>, qtys: seq<Qty>, i: nat): (out: seq<Qty>)
    requires |skip| == |keys| == |qtys| && i <= |keys|
    ensures |out| == |qtys|
    decreases |keys| - i
  {
    if i == |keys| then qtys
    else if skip[i] then Merge(keys, skip, qtys, i + 1)
    else Merge(keys, skip, qtys[i := RangeSum(qtys, i, RunEnd(keys, i))], RunEnd(keys, i))
  }

  /** Sum of the quantities of the elements from `i` on that are not skipped. */
  function SumKept(skip: seq<bool>, qtys: seq<Qty>, i: nat): Qty
    requires |skip| == |qtys| && i <= |qtys|
    decreases |qtys| - i
  {
    if i == |qtys| then 0.0 else (if skip[i] then 0.0 else qtys[i]) + SumKept(skip, qtys, i + 1)
  }

  /** Number of elements from `i` on that are not skipped. */
  function CountKept(skip: seq<bool>, i: nat): nat
    requires i <= |skip|
    decreases |skip| - i
  {
    if i == |skip| then 0 else (if skip[i] then 0 else 1) + CountKept(skip, i + 1)
  }

  /** Equal keys are skipped alike, so a run never mixes skipped and kept elements. */
  ghost predicate Homogeneous<K>(keys: seq<K>, skip: seq<bool>)
    requires |skip| == |keys|
  {
    forall a, b :: 0 <= a < |keys| && 0 <= b < |keys| && keys[a] == keys[b] ==> skip[a] == skip[b]
  }

  /** The run starts already collected, plus those still ahead, are all of them. */
  ghost predicate Collected<K>(keys: seq<K>, skip: seq<bool>, done: seq<nat>, i: nat)
    requires |skip| == |keys| && i <= |keys|
  {
    done + Starts(keys, skip, i) == Starts(keys, skip, 0) &&
    forall k :: 0 <= k < |done| ==> done[k] < |keys|
  }

  /** Passing over a skipped element, or collecting the run start at `i`. */
  lemma CollectStep<K>(keys: seq<K>, skip: seq<bool>, done: seq<nat>, i: nat)
    requires |skip| == |keys| && i < |keys|
    requires Collected(keys, skip, done, i)
    ensures skip[i] ==> Collected(keys, skip, done, i + 1)
    ensures !skip[i] ==> Collected(keys, skip, done + [i], RunEnd(keys, i))
  {
    if !skip[i] {
      assert done + Starts(keys, skip, i) == (done + [i]) + Starts(keys, skip, RunEnd(keys, i));
      assert forall k :: 0 <= k < |done| + 1 ==> (done + [i])[k] < |keys|;
    }
  }

  /** At the end of the scan every run start has been collected. */
  lemma CollectedAll<K>(keys: seq<K>, skip: seq<bool>, done: seq<nat>)
    requires |skip| == |keys| && Collected(keys, skip, done, |keys|)
    ensures done == Starts(keys, skip, 0)
  {
    assert done + [] == done;
  }

  /** A scan that stopped inside the run, at an element with another key or
      at the end, stopped at the run's end. */
  lemma RunEndAt<K>(keys: seq<K>, i: nat, j: nat)
    requires i < j <= |keys| && j <= RunEnd(keys, i)
    requires j == |keys| || keys[j] != keys[i]
    ensures j == RunEnd(keys, i)
  {
  }

  /** The sum of the quantities at positions `i` to `j` (exclusive), added
      up from the left as the scan does. */
  function RangeSum(qtys: seq<Qty>, i: nat, j: nat): Qty
    requires i <= j <= |qtys|
    decreases j - i
  {
    if i == j then 0.0 else RangeSum(qtys, i, j - 1) + qtys[j - 1]
  }

  /** A range sum only depends on the quantities in its range. */
  lemma {:induction false} RangeSumAgree(a: seq<Qty>, b: seq<Qty>, i: nat, j: nat)
    requires i <= j <= |a| && j <= |b|
    requires forall k :: i <= k < j ==> a[k] == b[k]
    ensures RangeSum(a, i, j) == RangeSum(b, i, j)
    decreases j - i
  {
    if i < j {
      RangeSumAgree(a, b, i, j - 1);
    }
  }

  // ---------------------------------------------------------------- closed form of the pass

  lemma {:induction false} MergeBefore<K>(keys: seq<K>, skip: seq<bool>, qtys: seq<Qty>, i: nat, k: nat)
    requires |skip| == |keys| == |qtys| && k < i <= |keys|
    ensures Merge(keys, skip, qtys, i)[k] == qtys[k]
    decreases |keys| - i
  {
    if i < |keys| {
      if skip[i] {
        MergeBefore(keys, skip, qtys, i + 1, k);
      } else {
        var e := RunEnd(keys, i);
        MergeBefore(keys, skip, qtys[i := RangeSum(qtys, i, e)], e, k);
      }
    }
  }

  /** The first element of a run ends up with the sum of the run's original quantities. */
  lemma {:induction false} MergeAtStart<K>(keys: seq<K>, skip: seq<bool>, qtys: seq<Qty>, i: nat, s: nat)
    requires |skip| == |keys| == |qtys| && i <= |keys|
    requires s in Starts(keys, skip, i)
    ensures s < |keys| && Merge(keys, skip, qtys, i)[s] == RangeSum(qtys, s, RunEnd(keys, s))
    decreases |keys| - i
  {
    if skip[i] {
      MergeAtStart(keys, skip, qtys, i + 1, s);
    } else {
      var e := RunEnd(keys, i);
      var q' := qtys[i := RangeSum(qtys, i, e)];
      if s == i {
        MergeBefore(keys, skip, q', e, i);
      } else {
        MergeAtStart(keys, skip, q', e, s);
        RangeSumAgree(q', qtys, s, RunEnd(keys, s));
      }
    }
  }

  /** Every element that does not start a run keeps its quantity. */
  lemma {:induction false} MergeElsewhere<K>(keys: seq<K>, skip: seq<bool>, qtys: seq<Qty>, i: nat, k: nat)
    requires |skip| == |keys| == |qtys| && i <= k < |keys|
    requires k !in Starts(keys, skip, i)
    ensures Merge(keys, skip, qtys, i)[k] == qtys[k]
    decreases |keys| - i
  {
    if skip[i] {
      if k > i {
        MergeElsewhere(keys, skip, qtys, i + 1, k);
      } else {
        MergeBefore(keys, skip, qtys, i + 1, k);
      }
    } else {
      var e := RunEnd(keys, i);
      var q' := qtys[i := RangeSum(qtys, i, e)];
      if k >= e {
        MergeElsewhere(keys, skip, q', e, k);
      } else {
        MergeBefore(keys, skip, q', e, k);
      }
    }
  }

  /** The pass, element by element: run starts get their run's sum, every
      other element is unchanged. */
  lemma MergeClosedForm<K>(keys: seq<K>, skip: seq<bool>, qtys: seq<Qty>, k: nat)
    requires |skip| == |keys| == |qtys| && k < |keys|
    ensures Merge(keys, skip, qtys, 0)[k] ==
      if k in Starts(keys, skip, 0) then RangeSum(qtys, k, RunEnd(keys, k)) else qtys[k]
  {
    if k in Starts(keys, skip, 0) {
      MergeAtStart(keys, skip, qtys, 0, k);
    } else {
      MergeElsewhere(keys, skip, qtys, 0, k);
    }
  }

  // ---------------------------------------------------------------- what the pass returns

  /** The sums of the runs starting at `ss`. */
  function RunSums<K(==)>(keys: seq<K>, qtys: seq<Qty>, ss: seq<nat>): seq<Qty>
    requires |qtys| == |keys|
    requires forall k :: 0 <= k < |ss| ==> ss[k] < |keys|
  {
    if ss == [] then [] else [RangeSum(qtys, ss[0], RunEnd(keys, ss[0]))] + RunSums(keys, qtys, ss[1..])
  }

  lemma {:induction false} PickMergeIsRunSums<K>(keys: seq<K>, skip: seq<bool>, qtys: seq<Qty>)
    requires |skip| == |keys| == |qtys|
    ensures Pick(Merge(keys, skip, qtys, 0), Starts(keys, skip, 0)) == RunSums(keys, qtys, Starts(keys, skip, 0))
  {
    var ss := Starts(keys, skip, 0);
    var m := Merge(keys, skip, qtys, 0);
    var rs := RunSums(keys, qtys, ss);
    RunSumsAt(keys, qtys, ss);
    forall k | 0 <= k < |ss| ensures Pick(m, ss)[k] == rs[k] {
      MergeAtStart(keys, skip, qtys, 0, ss[k]);
    }
  }

  lemma {:induction false} RunSumsAt<K>(keys: seq<K>, qtys: seq<Qty>, ss: seq<nat>)
    requires |qtys| == |keys|
    requires forall k :: 0 <= k < |ss| ==> ss[k] < |keys|
    ensures |RunSums(keys, qtys, ss)| == |ss|
    ensures forall k :: 0 <= k < |ss| ==> RunSums(keys, qtys, ss)[k] == RangeSum(qtys, ss[k], RunEnd(keys, ss[k]))
  {
    if ss != [] {
      RunSumsAt(keys, qtys, ss[1..]);
    }
  }

  lemma {:induction false} SumKeptOverRun(skip: seq<bool>, qtys: seq<Qty>, i: nat, e: nat)
    requires |skip| == |qtys| && i <= e <= |qtys|
    requires forall k :: i <= k < e ==> !skip[k]
    ensures SumKept(skip, qtys, i) == RangeSum(qtys, i, e) + SumKept(skip, qtys, e)
    decreases e - i
  {
    if i < e {
      SumKeptOverRun(skip, qtys, i, e - 1);
    }
  }

  lemma {:induction false} RunSumsTotal<K>(keys: seq<K>, skip: seq<bool>, qtys: seq<Qty>, i: nat)
    requires |skip| == |keys| == |qtys| && i <= |keys|
    requires Homogeneous(keys, skip)
    ensures Sum(RunSums(keys, qtys, Starts(keys, skip, i))) == SumKept(skip, qtys, i)
    decreases |keys| - i
  {
    if i < |keys| {
      if skip[i] {
        RunSumsTotal(keys, skip, qtys, i + 1);
      } else {
        var e := RunEnd(keys, i);
        RunSumsTotal(keys, skip, qtys, e);
        SumKeptOverRun(skip, qtys, i, e);
        var rest := RunSums(keys, qtys, Starts(keys, skip, e));
        assert RunSums(keys, qtys, Starts(keys, skip, i)) == [RangeSum(qtys, i, e)] + rest;
        SumConcat([RangeSum(qtys, i, e)], rest);
        assert [RangeSum(qtys, i, e)][..0] == [];
      }
    }
  }

  /** Sum preserved: what the pass returns adds up to the kept elements' quantities. */
  lemma PassTotal<K>(keys: seq<K>, skip: seq<bool>, qtys: seq<Qty>)
    requires |skip| == |keys| == |qtys|
    requires Homogeneous(keys, skip)
    ensures Sum(Pick(Merge(keys, skip, qtys, 0), Starts(keys, skip, 0))) == SumKept(skip, qtys, 0)
  {
    PickMergeIsRunSums(keys, skip, qtys);
    RunSumsTotal(keys, skip, qtys, 0);
  }

  lemma {:induction false} CountKeptOverRun(skip: seq<bool>, i: nat, e: nat)
    requires i <= e <= |skip|
    requires forall k :: i <= k < e ==> !skip[k]
    ensures CountKept(skip, i) == (e - i) + CountKept(skip, e)
    decreases e - i
  {
    if i < e {
      CountKeptOverRun(skip, i + 1, e);
    }
  }

  /** The pass returns no more elements than there are kept elements. */
  lemma {:induction false} StartsCount<K>(keys: seq<K>, skip: seq<bool>, i: nat)
    requires |skip| == |keys| && i <= |keys|
    requires Homogeneous(keys, skip)
    ensures |Starts(keys, skip, i)| <= CountKept(skip, i)
    decreases |keys| - i
  {
    if i < |keys| {
      if skip[i] {
        StartsCount(keys, skip, i + 1);
      } else {
        var e := RunEnd(keys, i);
        StartsCount(keys, skip, e);
        CountKeptOverRun(skip, i, e);
      }
    }
  }

  // ---------------------------------------------------------------- two passes with complementary skips

  /** An element the pass skips keeps its quantity. */
  lemma MergeSkipped<K>(keys: seq<K>, skip: seq<bool>, qtys: seq<Qty>, k: nat)
    requires |skip| == |keys| == |qtys| && k < |keys| && skip[k]
    ensures Merge(keys, skip, qtys, 0)[k] == qtys[k]
  {
    assert k !in Starts(keys, skip, 0);
    MergeElsewhere(keys, skip, qtys, 0, k);
  }

  /** Running the pass with `skipB` after the one with `skipA`, where every
      element is skipped by exactly one of them: the elements the first pass
      skips get what the second pass alone would give them, the others keep
      what the first pass gave them. */
  lemma SecondMergeAt<K>(keys: seq<K>, skipA: seq<bool>, skipB: seq<bool>, qtys: seq<Qty>, k: nat)
    requires |skipA| == |skipB| == |keys| == |qtys| && k < |keys|
    requires Homogeneous(keys, skipB)
    requires forall j :: 0 <= j < |keys| ==> skipA[j] != skipB[j]
    ensures Merge(keys, skipB, Merge(keys, skipA, qtys, 0), 0)[k] ==
      if skipA[k] then Merge(keys, skipB, qtys, 0)[k] else Merge(keys, skipA, qtys, 0)[k]
  {
    var first := Merge(keys, skipA, qtys, 0);
    MergeClosedForm(keys, skipB, first, k);
    MergeClosedForm(keys, skipB, qtys, k);
    if k in Starts(keys, skipB, 0) {
      var e := RunEnd(keys, k);
      forall j | k <= j < e ensures first[j] == qtys[j] {
        assert keys[j] == keys[k];
        MergeSkipped(keys, skipA, qtys, j);
      }
      RangeSumAgree(first, qtys, k, e);
    } else if skipA[k] {
      MergeSkipped(keys, skipA, qtys, k);
    }
  }

  /** Two passes with complementary, key-homogeneous skips commute. */
  lemma MergeCommute<K>(keys: seq<K>, skipA: seq<bool>, skipB: seq<bool>, qtys: seq<Qty>)
    requires |skipA| == |skipB| == |keys| == |qtys|
    requires Homogeneous(keys, skipA) && Homogeneous(keys, skipB)
    requires forall j :: 0 <= j < |keys| ==> skipA[j] != skipB[j]
    ensures Merge(keys, skipB, Merge(keys, skipA, qtys, 0), 0) == Merge(keys, skipA, Merge(keys, skipB, qtys, 0), 0)
  {
    var ab := Merge(keys, skipB, Merge(keys, skipA, qtys, 0), 0);
    var ba := Merge(keys, skipA, Merge(keys, skipB, qtys, 0), 0);
    forall k | 0 <= k < |keys| ensures ab[k] == ba[k] {
      SecondMergeAt(keys, skipA, skipB, qtys, k);
      SecondMergeAt(keys, skipB, skipA, qtys, k);
    }
  }
}
