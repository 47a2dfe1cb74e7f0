/** Bubble sort over the records of a file, cw02/zad1/bsort.c. */
module BubbleSort {
  import opened RecordFile
  import opened Sorting
  import opened Passes

  /** The last slot that a pass over `n` slots compares, in a file that may end early; 0 if it compares none. */
  function LastCompared(length: nat, n: int, size: nat): (last: nat)
    ensures last == 0 || last < n
  {
    var whole := if n <= 1 then 0 else WholeSlots(length, n, size);
    if whole == 0 then 0 else whole - 1
  }

  /** Two neighbouring slots written in exchanged order. */
  lemma {:induction false} ExchangeMeaning(bytes: seq<Byte>, e: nat, n: nat, r1: Record, r2: Record)
    requires |r1| == |r2| && e + 1 < n
    requires r1 == Slot(bytes, e, |r1|) && r2 == Slot(bytes, e + 1, |r1|)
    requires Offset(e, |r1|) + |r1| == Offset(e + 1, |r1|) && Offset(e + 1, |r1|) + |r1| <= |bytes|
    ensures var after := Put(Put(bytes, e, r2), e + 1, r1);
      && Records(after, n, |r1|) == Swapped(Records(bytes, n, |r1|), e)
      && Tail(after, n, |r1|) == Tail(bytes, n, |r1|)
      && |after| == |bytes|
  {
    PutMeaning(bytes, e, r2, n);
    PutMeaning(Put(bytes, e, r2), e + 1, r1, n);
  }

  /**
   One round of the inner loop: read two neighbours, write them back exchanged if out
   of order. It fails, leaving the file alone, exactly when the second is not all there.
   */
  method CompareExchange(f: File, e: nat, n: nat, record1: array<Byte>, record2: array<Byte>)
    returns (ok: bool, swapped: bool)
    requires record1 != record2 && record1 != f.bytes && record2 != f.bytes
    requires record1.Length == record2.Length > 0 && e + 1 < n
    modifies f, f.bytes, record1, record2
    ensures ok <==> Offset(e + 2, record1.Length) <= f.bytes.Length
    ensures var size := record1.Length;
      var rs := Records(old(f.bytes[..]), n, size);
      && swapped == (ok && Key(rs[e]) > Key(rs[e + 1]))
      && Records(f.bytes[..], n, size) == (if swapped then Swapped(rs, e) else rs)
      && Tail(f.bytes[..], n, size) == Tail(old(f.bytes[..]), n, size)
    ensures !swapped ==> f.bytes[..] == old(f.bytes[..])
    ensures ok ==>
      var rs := Records(old(f.bytes[..]), n, record1.Length);
      rs[e] != [] && rs[e + 1] != [] && swapped == (rs[e][0] > rs[e + 1][0])
  {
    var size := record1.Length;
    ghost var bytes := f.bytes[..];
    OffsetOrder(e, e + 2, size);
    OffsetOrder(e + 1, e + 2, size);
    var whole := f.ReadSlot(e, record1);
    if !whole { return false, false; }
    var got := f.Read(record2);
    if got != size { return false, false; }
    ghost var r1, r2 := record1[..], record2[..];
    assert r1 == Slot(bytes, e, size) && r2 == Slot(bytes, e + 1, size);
    ok, swapped := true, record1[0] > record2[0];
    if swapped {
      f.WriteSlot(e, record2);
      f.Write(record1);
      assert f.bytes[..] == Put(Put(bytes, e, r2), e + 1, r1);
      ExchangeMeaning(bytes, e, n, r1, r2);
    }
  }

  lemma {:induction false} PassStopsAt(length: nat, n: int, size: nat, i: nat)
    requires i + 1 < n && (i > 0 ==> Offset(i + 1, size) <= length) && Offset(i + 2, size) > length
    ensures i == LastCompared(length, n, size) && !IsReadable(length, n, size)
  {
    WholeSlotsCount(length, n, size, i + 1);
    WholeSlotsCount(length, n, size, i + 2);
    WholeSlotsCount(length, n, size, n);
  }

  lemma {:induction false} PassComesTo(length: nat, n: int, size: nat, i: nat)
    requires i == (if n > 1 then n - 1 else 0) && (i > 0 ==> Offset(i + 1, size) <= length)
    ensures i == LastCompared(length, n, size) && IsReadable(length, n, size)
  {
  }

  /** What the file holds, and how many exchanges have been made, when a pass has come to slot `i`. */
  ghost predicate HasComeTo(was: seq<Byte>, now: seq<Byte>, n: nat, size: nat, i: nat, swaps: nat)
    requires i == 0 || i < n
  {
    && Records(now, n, size) == Carried(Records(was, n, size), i)
    && swaps == Exchanges(Records(was, n, size), i)
    && Tail(now, n, size) == Tail(was, n, size)
  }

  /** One round of the inner loop. */
  method Round(
    f: File, e: nat, n: nat, record1: array<Byte>, record2: array<Byte>, ghost was: seq<Byte>, ghost swaps: nat)
    returns (ok: bool, swapped: bool)
    requires record1 != record2 && record1 != f.bytes && record2 != f.bytes
    requires record1.Length == record2.Length > 0 && e + 1 < n
    requires HasComeTo(was, f.bytes[..], n, record1.Length, e, swaps)
    modifies f, f.bytes, record1, record2
    ensures ok <==> Offset(e + 2, record1.Length) <= f.bytes.Length
    ensures var reached, swaps' := if ok then e + 1 else e, if swapped then swaps + 1 else swaps;
      HasComeTo(was, f.bytes[..], n, record1.Length, reached, swaps')
  {
    ok, swapped := CompareExchange(f, e, n, record1, record2);
  }

  /** The inner loop over the first `n` slots, in terms of what it does to the records. */
  method InnerLoop(f: File, n: int, recordAmount: nat, record1: array<Byte>, record2: array<Byte>)
    returns (ok: bool, change: int, ghost swaps: nat, ghost comparisons: nat)
    requires record1 != record2 && record1 != f.bytes && record2 != f.bytes
    requires record1.Length == record2.Length > 0 && n <= recordAmount
    modifies f, f.bytes, record1, record2
    ensures ok <==> IsReadable(f.bytes.Length, n, record1.Length)
    ensures comparisons == LastCompared(f.bytes.Length, n, record1.Length)
    ensures ok ==> comparisons == (if n > 1 then n - 1 else 0)
    ensures var before := Records(old(f.bytes[..]), recordAmount, record1.Length);
      && Records(f.bytes[..], recordAmount, record1.Length) == Carried(before, comparisons)
      && swaps == Exchanges(before, comparisons)
    ensures change == 0 <==> swaps == 0
    ensures Tail(f.bytes[..], recordAmount, record1.Length) == Tail(old(f.bytes[..]), recordAmount, record1.Length)
  {
    var size := record1.Length;
    ghost var was := f.bytes[..];
    var elemNumber := 0;
    change, swaps, comparisons := 0, 0, 0;
    var i := 0;
    while i < n - 1
      invariant 0 <= i == elemNumber == comparisons && (i < n || i == 0)
      invariant i > 0 ==> Offset(i + 1, size) <= f.bytes.Length
      invariant HasComeTo(was, f.bytes[..], recordAmount, size, i, swaps)
      invariant change == 0 <==> swaps == 0
    {
      var swapped;
      ok, swapped := Round(f, elemNumber, recordAmount, record1, record2, was, swaps);
      if !ok {
        PassStopsAt(f.bytes.Length, n, size, i);
        return;
      }
      comparisons := comparisons + 1;
      if swapped {
        change := 1;
        swaps := swaps + 1;
      }
      elemNumber := elemNumber + 1;
      i := i + 1;
    }
    ok := true;
    PassComesTo(f.bytes.Length, n, size, i);
  }

  lemma PassDepth(before: seq<Record>, i: nat, n: int, swaps: nat)
    requires n <= |before| && i == (if n > 1 then n - 1 else 0) && (before == [] || n >= 1)
    requires Settled(before, n) && Bubbled(before, Carried(before, i), i, n, swaps)
    ensures Depth(Carried(before, i), |before|) == OneLess(Depth(before, |before|))
    ensures swaps == 0 <==> Depth(before, |before|) == 0
  {
    if before != [] {
      PassLowersDepth(before, n);
    }
    PassEnds(before, Carried(before, i), i, n, swaps);
    SortedHasNoDepth(before, |before|);
    if Depth(before, |before|) == 0 {
      SortedHasNoInversions(before);
    }
  }

  /** One pass of the outer loop over the first `n` slots, the later ones being in their final places. */
  method Pass(f: File, n: int, recordAmount: nat, record1: array<Byte>, record2: array<Byte>)
    returns (ok: bool, change: int, ghost swaps: nat, ghost comparisons: nat)
    requires record1 != record2 && record1 != f.bytes && record2 != f.bytes
    requires record1.Length == record2.Length > 0 && n <= recordAmount
    requires Settled(Records(f.bytes[..], recordAmount, record1.Length), n) && (recordAmount == 0 || n >= 1)
    modifies f, f.bytes, record1, record2
    ensures ok <==> IsReadable(f.bytes.Length, n, record1.Length)
    ensures var size := record1.Length;
      var before := Records(old(f.bytes[..]), recordAmount, size);
      var after := Records(f.bytes[..], recordAmount, size);
      && after == Carried(before, LastCompared(f.bytes.Length, n, size))
      && Progress(before, after, swaps)
      && comparisons <= (if n > 1 then n - 1 else 0)
      && (ok ==>
            && Settled(after, n - 1)
            && (change == 0 <==> swaps == 0)
            && comparisons == (if n > 1 then n - 1 else 0)
            && (change == 0 ==> after == before && Sorted(after))
            && (change == 0 <==> Depth(before, recordAmount) == 0)
            && Depth(after, recordAmount) == OneLess(Depth(before, recordAmount)))
    ensures Tail(f.bytes[..], recordAmount, record1.Length) == Tail(old(f.bytes[..]), recordAmount, record1.Length)
  {
    ghost var before := Records(f.bytes[..], recordAmount, record1.Length);
    ok, change, swaps, comparisons := InnerLoop(f, n, recordAmount, record1, record2);
    CarriedIsBubbled(before, comparisons, n);
    if ok {
      PassEnds(before, Carried(before, comparisons), comparisons, n, swaps);
      PassDepth(before, comparisons, n, swaps);
    }
  }

  /** What the sort leaves: the stable sort, or the records of a first pass cut short by the end of the file. */
  ghost predicate IsOutcome(before: seq<Record>, after: seq<Record>, length: nat, recordAmount: nat, size: nat)
    requires |before| == recordAmount
  {
    && SameByKey(before, after)
    && if IsReadable(length, recordAmount, size) then Sorted(after)
       else after == Carried(before, LastCompared(length, recordAmount, size))
  }

  /** Between two passes: `n` slots are still to be passed over. */
  ghost predicate IsUnderway(original: seq<Record>, rs: seq<Record>, n: int, swaps: nat)
  {
    && |rs| == |original| && n <= |rs| && (n == |rs| || n > 1)
    && Progress(original, rs, swaps) && Settled(rs, n)
    && Depth(rs, |rs|) + |rs| - n == Depth(original, |original|)
  }

  /** After the last pass, which has left `n`. */
  ghost predicate IsFinished(original: seq<Record>, rs: seq<Record>, n: int, swaps: nat)
  {
    IsStableSort(original, rs) && swaps == Inversions(original) && |original| - n == PassesNeeded(original)
  }

  /** What has been compared when `n` slots are left: the bound, less what they could still cost. */
  ghost predicate IsCounted(amount: nat, n: int, comparisons: nat)
  {
    comparisons + Triangle(n) == Triangle(amount)
  }

  lemma CountOn(amount: nat, n: int, comparisons: nat, more: nat)
    requires IsCounted(amount, n, comparisons) && more <= if n > 1 then n - 1 else 0
    ensures comparisons + more <= Triangle(amount)
    ensures more == (if n > 1 then n - 1 else 0) ==> IsCounted(amount, n - 1, comparisons + more)
  {
  }

  /** If the pass over `n` slots finds nothing to do, or is the last, there were as many as needed. */
  lemma PassesMade(original: seq<Record>, rs: seq<Record>, n: int)
    requires |rs| == |original| && n <= |rs| && (n == |rs| || n > 1)
    requires Depth(rs, |rs|) + |rs| - n == Depth(original, |rs|)
    ensures Depth(rs, |rs|) == 0 || n - 1 <= 1 ==> |rs| - (n - 1) == PassesNeeded(original)
  {
    if |rs| <= 1 {
      SortedHasNoDepth(rs, |rs|);
    }
  }

  /** A whole pass over `n` slots brings the sort on by one, or ends it. */
  lemma PassCounts(
    original: seq<Record>, before: seq<Record>, after: seq<Record>, n: int, clean: bool, swaps: nat, more: nat)
    requires IsUnderway(original, before, n, swaps)
    requires Progress(before, after, more) && Settled(after, n - 1)
    requires clean <==> Depth(before, |before|) == 0
    requires clean ==> Sorted(after)
    requires Depth(after, |before|) == OneLess(Depth(before, |before|))
    ensures if clean || n - 1 <= 1 then IsFinished(original, after, n - 1, swaps + more)
            else IsUnderway(original, after, n - 1, swaps + more)
  {
    ProgressAdds(original, before, after, swaps, more);
    PassesMade(original, before, n);
    if clean || n - 1 <= 1 {
      SortedHasNoInversions(after);
    }
  }

  /** One round of the outer loop, and how it leaves the sort. */
  method OuterRound(
    f: File, n: int, recordAmount: nat, record1: array<Byte>, record2: array<Byte>,
    ghost original: seq<Record>, ghost swapsBefore: nat, ghost comparisonsBefore: nat)
    returns (ok: bool, change: int, left: int, ghost swaps: nat, ghost comparisons: nat)
    requires record1 != record2 && record1 != f.bytes && record2 != f.bytes
    requires record1.Length == record2.Length > 0
    requires IsUnderway(original, Records(f.bytes[..], recordAmount, record1.Length), n, swapsBefore)
    requires IsCounted(recordAmount, n, comparisonsBefore)
    modifies f, f.bytes, record1, record2
    ensures left == n - 1
    ensures ok <==> IsReadable(f.bytes.Length, n, record1.Length)
    ensures var size := record1.Length;
      var before, after := Records(old(f.bytes[..]), recordAmount, size), Records(f.bytes[..], recordAmount, size);
      && (!ok ==> after == Carried(before, LastCompared(f.bytes.Length, n, size)))
      && (ok && (change == 0 || left <= 1) ==> IsFinished(original, after, left, swaps))
      && (ok && change != 0 && left > 1 ==> IsUnderway(original, after, left, swaps))
    ensures comparisons <= Triangle(recordAmount) && (ok ==> IsCounted(recordAmount, left, comparisons))
    ensures Tail(f.bytes[..], recordAmount, record1.Length) == Tail(old(f.bytes[..]), recordAmount, record1.Length)
  {
    ghost var before := Records(f.bytes[..], recordAmount, record1.Length);
    ghost var more, compared;
    ok, change, more, compared := Pass(f, n, recordAmount, record1, record2);
    left, swaps, comparisons := n - 1, swapsBefore + more, comparisonsBefore + compared;
    CountOn(recordAmount, n, comparisonsBefore, compared);
    if ok {
      ghost var after := Records(f.bytes[..], recordAmount, record1.Length);
      PassCounts(original, before, after, n, change == 0, swapsBefore, more);
    }
  }

  /** The outer loop, in terms of what it does to the records. */
  method SortLoop(f: File, recordAmount: nat, record1: array<Byte>, record2: array<Byte>)
    returns (ok: bool, ghost left: int, ghost swaps: nat, ghost comparisons: nat)
    requires record1 != record2 && record1 != f.bytes && record2 != f.bytes
    requires record1.Length == record2.Length > 0
    modifies f, f.bytes, record1, record2
    ensures ok <==> IsReadable(f.bytes.Length, recordAmount, record1.Length)
    ensures var size := record1.Length;
      var before, after := Records(old(f.bytes[..]), recordAmount, size), Records(f.bytes[..], recordAmount, size);
      && (!ok ==> after == Carried(before, LastCompared(f.bytes.Length, recordAmount, size)))
      && (ok ==> IsFinished(before, after, left, swaps) && IsCounted(recordAmount, left, comparisons))
    ensures Tail(f.bytes[..], recordAmount, record1.Length) == Tail(old(f.bytes[..]), recordAmount, record1.Length)
    ensures comparisons <= Triangle(recordAmount)
    ensures ok ==> f.cursor == 0
  {
    var size := record1.Length;
    ghost var tail := Tail(f.bytes[..], recordAmount, size);
    ghost var original := Records(f.bytes[..], recordAmount, size);
    ghost var rs := original;
    var n: int := recordAmount;
    swaps, comparisons := 0, 0;
    while true
      invariant (n == recordAmount && rs == original) || IsReadable(f.bytes.Length, recordAmount, size)
      invariant rs == Records(f.bytes[..], recordAmount, size)
      invariant IsUnderway(original, rs, n, swaps)
      invariant IsCounted(recordAmount, n, comparisons)
      invariant Tail(f.bytes[..], recordAmount, size) == tail
      decreases n
    {
      var change;
      StillReadable(f.bytes.Length, n, recordAmount, size);
      ok, change, n, swaps, comparisons :=
        OuterRound(f, n, recordAmount, record1, record2, original, swaps, comparisons);
      rs, left := Records(f.bytes[..], recordAmount, size), n;
      if !ok { return; }
      f.Seek(0);
      if change == 0 { break; }
      if n <= 1 { break; }
    }
  }

  lemma {:induction false} StillReadable(length: nat, n: int, recordAmount: nat, size: nat)
    requires n <= recordAmount
    ensures IsReadable(length, recordAmount, size) ==> IsReadable(length, n, size)
  {
    if 1 < n < recordAmount {
      OffsetOrder(n, recordAmount, size);
    }
  }

  /**
   `bSortSys`, and `bSortLib` with the same calls under their stdio names. The record
   region becomes the one stable sort of what it held; every other byte is left alone;
   each swap removes one inversion; the passes are as many as the record with the most
   greater ones ahead of it needs, and one more to see that nothing is left to do, n - 1
   at most. `ok` is false when the program exits with a read error: exactly when two or
   more records are asked for and the file does not hold them all. Then the first pass
   has carried the largest record as far as the file goes.
   */
  method BSort(f: File, recordAmount: nat, recordSize: nat)
    returns (ok: bool, ghost swaps: nat, ghost comparisons: nat)
    requires recordSize > 0
    modifies f, f.bytes
    ensures ok <==> IsReadable(f.bytes.Length, recordAmount, recordSize)
    ensures var before := Records(old(f.bytes[..]), recordAmount, recordSize);
      var after := Records(f.bytes[..], recordAmount, recordSize);
      && IsOutcome(before, after, f.bytes.Length, recordAmount, recordSize)
      && (ok ==> swaps == Inversions(before))
      && (ok ==> IsCounted(recordAmount, recordAmount - PassesNeeded(before), comparisons))
    ensures Tail(f.bytes[..], recordAmount, recordSize) == Tail(old(f.bytes[..]), recordAmount, recordSize)
    ensures ok && recordAmount >= 2 ==> IsSortedFile(old(f.bytes[..]), f.bytes[..], recordAmount, recordSize)
    ensures ok && recordAmount <= 1 ==> f.bytes[..] == old(f.bytes[..])
    ensures comparisons <= Triangle(recordAmount)
    ensures ok ==> f.cursor == 0
  {
    var record1 := new Byte[recordSize];
    var record2 := new Byte[recordSize];
    ghost var bytes := f.bytes[..];
    ghost var left;
    ok, left, swaps, comparisons := SortLoop(f, recordAmount, record1, record2);
    if ok {
      OutcomeOnBytes(bytes, f.bytes[..], recordAmount, recordSize);
    } else {
      CutShort(Records(bytes, recordAmount, recordSize), LastCompared(|bytes|, recordAmount, recordSize));
    }
  }

  /** A pass that is cut short has lost no record. */
  lemma CutShort(before: seq<Record>, i: nat)
    requires i == 0 || i < |before|
    ensures SameByKey(before, Carried(before, i))
  {
    CarriedIsBubbled(before, i, |before|);
  }

  lemma OutcomeOnBytes(before: seq<Byte>, after: seq<Byte>, n: nat, size: nat)
    requires |after| == |before| && size > 0 && IsReadable(|before|, n, size)
    requires IsStableSort(Records(before, n, size), Records(after, n, size))
    requires Tail(after, n, size) == Tail(before, n, size)
    ensures n >= 2 ==> IsSortedFile(before, after, n, size)
    ensures n <= 1 ==> after == before
  {
    if n >= 2 {
      StableSortOnBytes(before, after, n, size);
    } else {
      StableSortIsUnique(Records(before, n, size), Records(after, n, size));
      FileIsDetermined(before, after, n, size);
    }
  }

  /** The contract of the sort leaves no byte open, read error or not. */
  lemma SortIsDetermined(before: seq<Byte>, a: seq<Byte>, b: seq<Byte>, n: nat, size: nat)
    requires |a| == |b| == |before|
    requires IsOutcome(Records(before, n, size), Records(a, n, size), |before|, n, size)
    requires IsOutcome(Records(before, n, size), Records(b, n, size), |before|, n, size)
    requires Tail(a, n, size) == Tail(before, n, size) == Tail(b, n, size)
    ensures a == b
  {
    if IsReadable(|before|, n, size) {
      StableSortIsUnique(Records(a, n, size), Records(b, n, size));
    }
    FileIsDetermined(a, b, n, size);
  }

  /** A file sorted by the one variant and its copy sorted by the other end up byte for byte the same. */
  method SortFileAndCopy(file: File, copy: File, recordAmount: nat, recordSize: nat) returns (ok: bool)
    requires recordSize > 0 && file != copy && file.bytes != copy.bytes && file.bytes[..] == copy.bytes[..]
    modifies file, copy, file.bytes, copy.bytes
    ensures ok <==> IsReadable(file.bytes.Length, recordAmount, recordSize)
    ensures file.bytes[..] == copy.bytes[..]
  {
    ghost var before := file.bytes[..];
    assert file.bytes.Length == |before| == copy.bytes.Length;
    ghost var swaps, comparisons;
    ok, swaps, comparisons := BSort(file, recordAmount, recordSize);
    ghost var first := file.bytes[..];
    ok, swaps, comparisons := BSort(copy, recordAmount, recordSize);
    SortIsDetermined(before, first, copy.bytes[..], recordAmount, recordSize);
  }
}
