/** The passes of bubble sort, cw02/zad1/bsort.c, over a sequence of records: what they leave and how many there are. */
module Passes {
  import opened RecordFile
  import opened Sorting

  // ---------- the cost ----------

  function Triangle(n: int): nat
    decreases n
  {
    if n <= 1 then 0 else Triangle(n - 1) + n - 1
  }

  lemma {:induction false} TriangleFormula(n: nat)
    ensures 2 * Triangle(n) == n * (n - 1)
    decreases n
  {
    if n > 1 {
      TriangleFormula(n - 1);
      assert n * (n - 1) == (n - 1) * (n - 2) + 2 * (n - 1);
    }
  }

  /** Everything from slot `n` on is in its final place. */
  ghost predicate Settled(rs: seq<Record>, n: int)
  {
    forall i, j :: 0 <= i < j < |rs| && n <= j ==> Key(rs[i]) <= Key(rs[j])
  }

  /** The state of the sort, in terms of the records. */
  ghost predicate Progress(original: seq<Record>, rs: seq<Record>, swaps: nat)
  {
    SameByKey(original, rs) && Inversions(rs) + swaps == Inversions(original)
  }

  lemma ProgressAdds(a: seq<Record>, b: seq<Record>, c: seq<Record>, m: nat, n: nat)
    requires Progress(a, b, m) && Progress(b, c, n)
    ensures Progress(a, c, m + n)
  {
  }

  /** The records after one pass has come to slot `i`: the largest so far carried along. */
  function Carried(rs: seq<Record>, i: nat): (carried: seq<Record>)
    requires i == 0 || i < |rs|
    ensures |carried| == |rs|
    decreases i
  {
    if i == 0 then rs
    else
      var sofar := Carried(rs, i - 1);
      if Key(sofar[i - 1]) > Key(sofar[i]) then Swapped(sofar, i - 1) else sofar
  }

  /** The exchanges made on the way. */
  ghost function Exchanges(rs: seq<Record>, i: nat): nat
    requires i == 0 || i < |rs|
    decreases i
  {
    if i == 0 then 0
    else Exchanges(rs, i - 1) + (if Key(Carried(rs, i - 1)[i - 1]) > Key(Carried(rs, i - 1)[i]) then 1 else 0)
  }

  /** One pass has come to slot `i`: the record there is the largest so far. */
  ghost predicate Bubbled(before: seq<Record>, rs: seq<Record>, i: nat, n: int, swaps: nat)
  {
    && Progress(before, rs, swaps)
    && Settled(rs, n)
    && (forall k :: 0 <= k < i < |rs| ==> Key(rs[k]) <= Key(rs[i]))
    && (swaps == 0 ==> rs == before && forall a, b :: 0 <= a < b <= i && b < |rs| ==> Key(rs[a]) <= Key(rs[b]))
  }

  lemma BubbleStep(before: seq<Record>, rs: seq<Record>, i: nat, n: int, swaps: nat)
    requires Bubbled(before, rs, i, n, swaps) && i + 1 < n <= |rs|
    ensures if Key(rs[i]) > Key(rs[i + 1]) then Bubbled(before, Swapped(rs, i), i + 1, n, swaps + 1)
            else Bubbled(before, rs, i + 1, n, swaps)
  {
    if Key(rs[i]) > Key(rs[i + 1]) {
      SwapMeaning(rs, i);
      SwapStaysSettled(rs, i, n);
    }
  }

  lemma {:induction false} CarriedIsBubbled(before: seq<Record>, i: nat, n: int)
    requires n <= |before| && (i == 0 || i < n) && Settled(before, n)
    ensures Bubbled(before, Carried(before, i), i, n, Exchanges(before, i))
    decreases i
  {
    if i > 0 {
      CarriedIsBubbled(before, i - 1, n);
      BubbleStep(before, Carried(before, i - 1), i - 1, n, Exchanges(before, i - 1));
    }
  }

  /** The largest of the first `n` has reached their end. */
  lemma PassEnds(before: seq<Record>, rs: seq<Record>, i: nat, n: int, swaps: nat)
    requires Bubbled(before, rs, i, n, swaps) && n <= |rs| && i == (if n > 1 then n - 1 else 0)
    ensures Settled(rs, n - 1)
    ensures swaps == 0 ==> Sorted(rs)
  {
    forall a, b | 0 <= a < b < |rs| && n - 1 <= b
      ensures Key(rs[a]) <= Key(rs[b])
    {
    }
  }

  lemma SwapStaysSettled(rs: seq<Record>, i: nat, n: int)
    requires Settled(rs, n) && i + 1 < n <= |rs|
    ensures Settled(Swapped(rs, i), n)
  {
    var t := Swapped(rs, i);
    forall a, b | 0 <= a < b < |t| && n <= b
      ensures Key(t[a]) <= Key(t[b])
    {
      var a' := if a == i then i + 1 else if a == i + 1 then i else a;
      assert t[a] == rs[a'] && t[b] == rs[b];
    }
  }

  // ---------- how many passes ----------

  /** How many of the first `m` records have a key above `q`. */
  ghost function Above(rs: seq<Record>, m: nat, q: int): nat
    requires m <= |rs|
  {
    if m == 0 then 0 else Above(rs, m - 1, q) + (if Key(rs[m - 1]) > q then 1 else 0)
  }

  /** The greater records ahead of the j-th: each costs it one exchange, one in each pass. */
  ghost function Ahead(rs: seq<Record>, j: nat): nat
    requires j < |rs|
  {
    Above(rs, j, Key(rs[j]))
  }

  /** The most that any of the first `m` records has ahead of it. */
  ghost function Depth(rs: seq<Record>, m: nat): nat
    requires m <= |rs|
  {
    if m == 0 then 0
    else if Ahead(rs, m - 1) > Depth(rs, m - 1) then Ahead(rs, m - 1)
    else Depth(rs, m - 1)
  }

  ghost function OneLess(d: nat): nat { if d == 0 then 0 else d - 1 }

  lemma {:induction false} AboveLooksAtPrefix(a: seq<Record>, b: seq<Record>, m: nat, q: int)
    requires m <= |a| && m <= |b| && forall i :: 0 <= i < m ==> a[i] == b[i]
    ensures Above(a, m, q) == Above(b, m, q)
    decreases m
  {
    if m > 0 {
      AboveLooksAtPrefix(a, b, m - 1, q);
    }
  }

  lemma {:induction false} AboveNone(rs: seq<Record>, m: nat, q: int)
    requires m <= |rs|
    ensures Above(rs, m, q) == 0 <==> forall i :: 0 <= i < m ==> Key(rs[i]) <= q
    decreases m
  {
    if m > 0 {
      AboveNone(rs, m - 1, q);
    }
  }

  /** The pass has not touched the slots after slot `i`, and will not touch those before it again. */
  lemma {:induction false} CarriedElsewhere(rs: seq<Record>, i: nat, k: nat)
    requires i < |rs| && k < |rs|
    ensures k > i ==> Carried(rs, i)[k] == rs[k]
    ensures k < i ==> Carried(rs, i)[k] == Carried(rs, k + 1)[k]
    decreases i
  {
    if i > 0 && k != i {
      CarriedElsewhere(rs, i - 1, k);
    }
  }

  /** The first slots hold the records they held, in another order. */
  lemma {:induction false} CarriedKeepsAbove(rs: seq<Record>, i: nat, q: int)
    requires i < |rs|
    ensures Above(Carried(rs, i), i + 1, q) == Above(rs, i + 1, q)
    decreases i
  {
    if i > 0 {
      var before, after := Carried(rs, i - 1), Carried(rs, i);
      CarriedKeepsAbove(rs, i - 1, q);
      CarriedElsewhere(rs, i - 1, i);
      AboveLooksAtPrefix(before, after, i - 1, q);
    }
  }

  lemma {:induction false} CarriedIsLargest(rs: seq<Record>, i: nat)
    requires i < |rs|
    ensures Above(rs, i + 1, Key(Carried(rs, i)[i])) == 0
    decreases i
  {
    if i > 0 {
      CarriedIsLargest(rs, i - 1);
      CarriedElsewhere(rs, i - 1, i);
      AboveNone(rs, i, Key(Carried(rs, i - 1)[i - 1]));
      AboveNone(rs, i, Key(Carried(rs, i)[i]));
    }
  }

  /** A pass takes one greater record from ahead of each record that has any, moving it up by one slot. */
  lemma AheadAfterPass(rs: seq<Record>, i: nat, k: nat)
    requires k < i < |rs|
    ensures Ahead(Carried(rs, i), k) == OneLess(Ahead(rs, k + 1))
  {
    var after, here := Carried(rs, i), Carried(rs, k);
    var q := Key(after[k]);
    CarriedElsewhere(rs, i, k);
    CarriedElsewhere(rs, k, k + 1);
    assert after[k] == Carried(rs, k + 1)[k];
    forall l | 0 <= l < k ensures after[l] == here[l] {
      CarriedElsewhere(rs, i, l);
      CarriedElsewhere(rs, k, l);
    }
    AboveLooksAtPrefix(after, here, k, q);
    CarriedKeepsAbove(rs, k, q);
    CarriedIsLargest(rs, k);
    AboveNone(rs, k + 1, Key(here[k]));
    AboveNone(rs, k + 1, Key(rs[k + 1]));
  }

  lemma {:induction false} DepthAfterPass(rs: seq<Record>, i: nat, k: nat)
    requires k <= i < |rs|
    ensures Depth(Carried(rs, i), k) == OneLess(Depth(rs, k + 1))
    decreases k
  {
    if k > 0 {
      DepthAfterPass(rs, i, k - 1);
      AheadAfterPass(rs, i, k - 1);
    }
  }

  /** Records in their final places have none ahead. */
  lemma {:induction false} DepthOfSettled(rs: seq<Record>, n: nat, m: nat)
    requires n <= m <= |rs| && Settled(rs, n)
    ensures Depth(rs, m) == Depth(rs, n)
    decreases m
  {
    if m > n {
      DepthOfSettled(rs, n, m - 1);
      AboveNone(rs, m - 1, Key(rs[m - 1]));
    }
  }

  lemma LargestHasNoneAhead(rs: seq<Record>, i: nat)
    requires i < |rs|
    ensures Ahead(Carried(rs, i), i) == 0
  {
    CarriedKeepsAbove(rs, i, Key(Carried(rs, i)[i]));
    CarriedIsLargest(rs, i);
  }

  /** A whole pass takes one off the depth. */
  lemma PassLowersDepth(rs: seq<Record>, n: nat)
    requires 1 <= n <= |rs| && Settled(rs, n) && Settled(Carried(rs, n - 1), n)
    ensures Depth(Carried(rs, n - 1), |rs|) == OneLess(Depth(rs, |rs|))
  {
    DepthOfSettled(rs, n, |rs|);
    DepthOfSettled(Carried(rs, n - 1), n, |rs|);
    DepthAfterPass(rs, n - 1, n - 1);
    LargestHasNoneAhead(rs, n - 1);
  }

  lemma {:induction false} SortedHasNoDepth(rs: seq<Record>, m: nat)
    requires m <= |rs|
    ensures Depth(rs, m) == 0 <==> forall i, j :: 0 <= i < j < m ==> Key(rs[i]) <= Key(rs[j])
    decreases m
  {
    if m > 0 {
      SortedHasNoDepth(rs, m - 1);
      AboveNone(rs, m - 1, Key(rs[m - 1]));
    }
  }

  /** One pass more than the depth, the last one finding nothing to do, but no more than n - 1. */
  ghost function PassesNeeded(rs: seq<Record>): nat
  {
    var n := |rs|;
    if n <= 1 then 1
    else if Depth(rs, n) + 1 < n - 1 then Depth(rs, n) + 1
    else n - 1
  }
}
