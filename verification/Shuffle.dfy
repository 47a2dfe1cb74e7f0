/** The shuffle of the records of a file, cw02/zad1/shuffler.c. */
module Shuffle {
  import opened RecordFile
  import opened Sattolo

  // ---------- the loop, on records ----------

  function Exchange<T>(rs: seq<T>, i: nat, j: nat): seq<T>
    requires i < |rs| && j < |rs|
  {
    rs[i := rs[j]][j := rs[i]]
  }

  /** Indices i, i-1, ..., 1, each exchanged with its choice. */
  function ShuffleFrom<T>(rs: seq<T>, js: seq<nat>, i: nat): (shuffled: seq<T>)
    requires i <= |js| && (rs == [] ==> i == 0) && (rs != [] ==> i < |rs|)
    requires forall k :: 0 <= k < |js| ==> js[k] <= k
    ensures |shuffled| == |rs|
    decreases i
  {
    if i == 0 then rs else ShuffleFrom(Exchange(rs, i, js[i - 1]), js, i - 1)
  }

  /** The records moved as the permutation says. */
  function Permuted<T>(rs: seq<T>, p: seq<nat>): seq<T>
    requires forall k :: 0 <= k < |p| ==> p[k] < |rs|
  {
    seq(|p|, k requires 0 <= k < |p| => rs[p[k]])
  }

  /** One exchange and then the cycle below it is the cycle with one more position. */
  lemma ExchangeInserts<T>(rs: seq<T>, i: nat, j: nat, c: seq<nat>)
    requires j < i < |rs| && |c| == i && forall k :: 0 <= k < i ==> c[k] < i
    ensures Permuted(Exchange(rs, i, j), c) + Exchange(rs, i, j)[i..] == Permuted(rs, Insert(c, j)) + rs[i + 1..]
  {
    var rs', d := Exchange(rs, i, j), Insert(c, j);
    var lhs, rhs := Permuted(rs', c) + rs'[i..], Permuted(rs, d) + rs[i + 1..];
    assert |lhs| == |rhs| == |rs|;
    forall k | 0 <= k < |rs| ensures lhs[k] == rhs[k] {
      if k < i {
        assert lhs[k] == rs'[c[k]] && rhs[k] == rs[d[k]];
      }
    }
  }

  /** The loop down from index i applies the cycle of its choices to slots 0..i and leaves the others. */
  lemma {:induction false} LoopAppliesCycle<T>(rs: seq<T>, js: seq<nat>, i: nat)
    requires i <= |js| && i < |rs| && AreChoices(js)
    ensures IsCycle(CycleOf(js[..i])) && |CycleOf(js[..i])| == i + 1
    ensures ShuffleFrom(rs, js, i) == Permuted(rs, CycleOf(js[..i])) + rs[i + 1..]
    decreases i
  {
    EveryOutcomeIsOneCycle(js[..i]);
    if i > 0 {
      var j := js[i - 1];
      LoopAppliesCycle(Exchange(rs, i, j), js, i - 1);
      assert js[..i][..i - 1] == js[..i - 1];
      ExchangeInserts(rs, i, j, CycleOf(js[..i - 1]));
    } else {
      assert CycleOf(js[..0]) == [0];
    }
  }

  // ---------- the draws ----------

  /** The remainder of a roll, subtraction by subtraction. */
  function Draw(roll: nat, i: nat): (j: nat)
    requires i > 0
    ensures j < i
  {
    if roll < i then roll else Draw(roll - i, i)
  }

  lemma RemainderIsUnique(n: nat, i: nat, q: int, r: nat)
    requires r < i && n == i * q + r
    ensures r == n % i
  {
    var d := n / i - q;
    assert i * d == i * (n / i) - i * q;
    assert i * d == r - n % i;
    assert d > 0 ==> i * d >= i;
    assert d < 0 ==> i * d + i <= 0;
  }

  lemma {:induction false} DrawIsRemainder(roll: nat, i: nat)
    requires i > 0
    ensures Draw(roll, i) == roll % i
  {
    if roll < i {
      RemainderIsUnique(roll, i, 0, roll);
    } else {
      DrawIsRemainder(roll - i, i);
      var q, r := (roll - i) / i, (roll - i) % i;
      assert roll - i == i * q + r;
      assert i * (q + 1) == i * q + i;
      RemainderIsUnique(roll, i, q + 1, r);
    }
  }

  /** `rand()%i` */
  method RandomIndex(roll: nat, i: nat) returns (j: nat)
    requires i > 0
    ensures j == Draw(roll, i)
  {
    j := roll % i;
    DrawIsRemainder(roll, i);
  }

  /** The choices that successive values of `rand()` make: `rand()%i` for i = n-1, ..., 1. */
  function Choices(rolls: seq<nat>, n: nat): (js: seq<nat>)
    requires |rolls| >= n - 1
    ensures |js| == if n == 0 then 0 else n - 1
  {
    if n == 0 then [] else seq(n - 1, k requires 0 <= k < n - 1 => Draw(rolls[n - 2 - k], k + 1))
  }

  lemma ChoicesAreChoices(rolls: seq<nat>, n: nat)
    requires |rolls| >= n - 1
    ensures AreChoices(Choices(rolls, n))
  {
    forall k | 0 <= k < |Choices(rolls, n)| ensures Choices(rolls, n)[k] <= k {
      ChoiceIsDraw(rolls, n, k + 1);
    }
  }

  lemma ChoiceIsDraw(rolls: seq<nat>, n: nat, i: nat)
    requires |rolls| >= n - 1 && 1 <= i < n
    ensures Choices(rolls, n)[i - 1] == Draw(rolls[n - 1 - i], i)
  {
  }

  /** The whole loop moves the records along the cycle of its choices. */
  lemma WholeLoop<T>(rs: seq<T>, js: seq<nat>)
    requires AreChoices(js) && |rs| == |js| + 1
    ensures IsCycle(CycleOf(js)) && |CycleOf(js)| == |rs|
    ensures ShuffleFrom(rs, js, |js|) == Permuted(rs, CycleOf(js))
  {
    LoopAppliesCycle(rs, js, |js|);
    assert js[..|js|] == js;
    assert rs[|js| + 1..] == [];
  }

  /** What the shuffle makes of the records when `rand()` answers `rolls`. */
  function Outcome<T>(rs: seq<T>, rolls: seq<nat>): seq<T>
    requires rs != [] && |rolls| >= |rs| - 1
  {
    ChoicesAreChoices(rolls, |rs|);
    EveryOutcomeIsOneCycle(Choices(rolls, |rs|));
    Permuted(rs, CycleOf(Choices(rolls, |rs|)))
  }

  lemma LaterChoices(rolls: seq<nat>, n: nat)
    requires n >= 2 && |rolls| >= n - 1
    ensures Choices(rolls, n) == Choices(rolls[1..], n - 1) + [Draw(rolls[0], n - 1)]
  {
    var js := Choices(rolls, n);
    forall k | 0 <= k < n - 2 ensures js[k] == Choices(rolls[1..], n - 1)[k] {
      ChoiceIsDraw(rolls, n, k + 1);
      ChoiceIsDraw(rolls[1..], n - 1, k + 1);
    }
    ChoiceIsDraw(rolls, n, n - 1);
  }

  /** Records in the slots beyond those that are permuted do not matter. */
  lemma PermutedLooksAtPrefix<T>(rs: seq<T>, p: seq<nat>)
    requires |p| <= |rs| && forall k :: 0 <= k < |p| ==> p[k] < |p|
    ensures Permuted(rs, p) == Permuted(rs[..|p|], p)
  {
  }

  /**
   The first draw settles the last slot: it gets the record of slot `rand()%(n-1)`,
   which gets the last record instead, and the other slots are shuffled by the draws
   that follow.
   */
  lemma LastSlotFirst<T>(rs: seq<T>, rolls: seq<nat>)
    requires |rs| >= 2 && |rolls| >= |rs| - 1
    ensures var n, j := |rs|, rolls[0] % (|rs| - 1);
      Outcome(rs, rolls) == Outcome(rs[..n - 1][j := rs[n - 1]], rolls[1..]) + [rs[j]]
  {
    var n, j := |rs|, Draw(rolls[0], |rs| - 1);
    var js, fewer := Choices(rolls, n), Choices(rolls[1..], n - 1);
    var rs' := Exchange(rs, n - 1, j);
    DrawIsRemainder(rolls[0], n - 1);
    ChoicesAreChoices(rolls, n);
    ChoicesAreChoices(rolls[1..], n - 1);
    LaterChoices(rolls, n);
    WholeLoop(rs, js);
    LoopAppliesCycle(rs', js, n - 2);
    assert js[..n - 2] == fewer;
    PermutedLooksAtPrefix(rs', CycleOf(fewer));
    assert rs'[..n - 1] == rs[..n - 1][j := rs[n - 1]];
    assert rs'[n - 1..] == [rs[j]];
  }

  lemma NothingToShuffle<T>(rs: seq<T>, rolls: seq<nat>)
    requires |rs| == 1
    ensures Outcome(rs, rolls) == rs
  {
  }

  /** Every sequence of choices is drawn by some values of `rand()`, none of them above the number of records. */
  lemma EveryChoiceCanBeDrawn(js: seq<nat>) returns (rolls: seq<nat>)
    requires AreChoices(js)
    ensures |rolls| == |js| && Choices(rolls, |js| + 1) == js
    ensures forall k :: 0 <= k < |rolls| ==> rolls[k] < |js|
  {
    rolls := seq(|js|, k requires 0 <= k < |js| => js[|js| - 1 - k]);
    forall k | 0 <= k < |js| ensures Choices(rolls, |js| + 1)[k] == js[k] {
      assert Draw(js[k], k + 1) == js[k];
    }
  }

  // ---------- the program ----------

  /** Two slots written in exchanged order. */
  lemma {:induction false} ExchangeMeaning(bytes: seq<Byte>, i: nat, j: nat, n: nat, r1: Record, r2: Record)
    requires |r1| == |r2| && j < i < n
    requires r1 == Slot(bytes, i, |r1|) && r2 == Slot(bytes, j, |r1|)
    requires Offset(i, |r1|) + |r1| <= |bytes| && Offset(j, |r1|) + |r1| <= |bytes|
    ensures var after := Put(Put(bytes, i, r2), j, r1);
      && Records(after, n, |r1|) == Exchange(Records(bytes, n, |r1|), i, j)
      && Tail(after, n, |r1|) == Tail(bytes, n, |r1|)
      && |after| == |bytes|
  {
    PutMeaning(bytes, i, r2, n);
    PutMeaning(Put(bytes, i, r2), j, r1, n);
  }

  /**
   One round of the loop: both records read, each written in the other's slot. It
   fails, leaving the file alone, exactly when slot i is not all there.
   */
  method ExchangeRecords(f: File, i: nat, j: nat, n: nat, record1: array<Byte>, record2: array<Byte>) returns (ok: bool)
    requires record1 != record2 && record1 != f.bytes && record2 != f.bytes
    requires record1.Length == record2.Length && j < i < n
    modifies f, f.bytes, record1, record2
    ensures ok <==> Offset(i + 1, record1.Length) <= f.bytes.Length
    ensures ok ==>
      Records(f.bytes[..], n, record1.Length) == Exchange(Records(old(f.bytes[..]), n, record1.Length), i, j)
    ensures Tail(f.bytes[..], n, record1.Length) == Tail(old(f.bytes[..]), n, record1.Length)
    ensures !ok ==> f.bytes[..] == old(f.bytes[..])
  {
    var size := record1.Length;
    ghost var bytes := f.bytes[..];
    OffsetOrder(i, n, size);
    OffsetOrder(j, i, size);
    ok := f.ReadSlot(i, record1);
    if !ok { return; }
    ok := f.ReadSlot(j, record2);
    if !ok { return; }
    ghost var r1, r2 := record1[..], record2[..];
    f.WriteSlot(i, record2);
    f.WriteSlot(j, record1);
    ExchangeMeaning(bytes, i, j, n, r1, r2);
  }

  /** What the rounds from index `i` down make of the records of the file. */
  ghost function StillToCome(bytes: seq<Byte>, n: nat, size: nat, js: seq<nat>, i: nat): seq<Record>
    requires i < n == |js| + 1 && AreChoices(js)
  {
    ShuffleFrom(Records(bytes, n, size), js, i)
  }

  /** When the rounds down to index `i` have yet to be made: nothing has been written, or the file holds every slot. */
  ghost predicate HasComeTo(was: seq<Byte>, now: seq<Byte>, n: nat, size: nat, js: seq<nat>, i: nat)
    requires i < n == |js| + 1 && AreChoices(js)
  {
    && |now| == |was|
    && (if i == n - 1 then now == was else Offset(n, size) <= |now|)
    && StillToCome(now, n, size, js, i) == StillToCome(was, n, size, js, n - 1)
    && Tail(now, n, size) == Tail(was, n, size)
  }

  /** The loop's body: the choice drawn, the exchange made. */
  method Round(
    f: File, i: nat, n: nat, rolls: seq<nat>, record1: array<Byte>, record2: array<Byte>, ghost was: seq<Byte>)
    returns (ok: bool)
    requires record1 != record2 && record1 != f.bytes && record2 != f.bytes
    requires record1.Length == record2.Length && 1 <= i < n && |rolls| >= n - 1
    requires AreChoices(Choices(rolls, n))
    requires HasComeTo(was, f.bytes[..], n, record1.Length, Choices(rolls, n), i)
    modifies f, f.bytes, record1, record2
    ensures ok <==> Offset(n, record1.Length) <= f.bytes.Length
    ensures ok ==> HasComeTo(was, f.bytes[..], n, record1.Length, Choices(rolls, n), i - 1)
    ensures !ok ==> f.bytes[..] == was
  {
    ChoiceIsDraw(rolls, n, i);
    OffsetOrder(i, n, record1.Length);
    var j := RandomIndex(rolls[n - 1 - i], i);
    ok := ExchangeRecords(f, i, j, n, record1, record2);
  }

  /** The loop over the file, in terms of what it does to the records. */
  method ShuffleLoop(f: File, n: nat, rolls: seq<nat>, record1: array<Byte>, record2: array<Byte>) returns (ok: bool)
    requires record1 != record2 && record1 != f.bytes && record2 != f.bytes
    requires record1.Length == record2.Length && |rolls| >= n - 1
    modifies f, f.bytes, record1, record2
    ensures ok <==> IsReadable(f.bytes.Length, n, record1.Length)
    ensures AreChoices(Choices(rolls, n))
    ensures ok && n > 0 ==>
      var before := Records(old(f.bytes[..]), n, record1.Length);
      Records(f.bytes[..], n, record1.Length) == ShuffleFrom(before, Choices(rolls, n), n - 1)
    ensures Tail(f.bytes[..], n, record1.Length) == Tail(old(f.bytes[..]), n, record1.Length)
    ensures !ok || n <= 1 ==> f.bytes[..] == old(f.bytes[..])
  {
    ChoicesAreChoices(rolls, n);
    ok := true;
    if n <= 1 { return; }
    ghost var js, was := Choices(rolls, n), f.bytes[..];
    var i := n - 1;
    while i >= 1
      invariant 0 <= i < n && HasComeTo(was, f.bytes[..], n, record1.Length, js, i)
    {
      ok := Round(f, i, n, rolls, record1, record2, was);
      if !ok { return; }
      i := i - 1;
    }
  }

  /** Slot k holds what slot p[k] held, and the bytes after the slots are as they were. */
  ghost predicate IsShuffledFile(before: seq<Byte>, after: seq<Byte>, n: nat, size: nat, p: seq<nat>)
  {
    && |after| == |before| && |p| == n
    && (forall k :: 0 <= k < n ==> RecordAt(after, k, size) == RecordAt(before, p[k], size))
    && (forall b: nat :: n * size <= b < |before| ==> after[b] == before[b])
  }

  lemma ShuffleOnBytes(before: seq<Byte>, after: seq<Byte>, n: nat, size: nat, p: seq<nat>)
    requires |after| == |before| && Offset(n, size) <= |before| && IsCycle(p) && |p| == n
    requires Records(after, n, size) == Permuted(Records(before, n, size), p)
    requires Tail(after, n, size) == Tail(before, n, size)
    ensures IsShuffledFile(before, after, n, size, p)
  {
    forall k | 0 <= k < n ensures RecordAt(after, k, size) == RecordAt(before, p[k], size) {
      SlotOnBytes(after, k, size);
      SlotOnBytes(before, p[k], size);
      assert Records(after, n, size)[k] == Records(before, n, size)[p[k]];
    }
    OffsetIsProduct(n, size);
    forall b: nat | n * size <= b < |before| ensures after[b] == before[b] {
      assert Tail(after, n, size)[b - n * size] == Tail(before, n, size)[b - n * size];
    }
  }

  /**
   `ShuffleLib`; `ShuffleSys` makes the same calls but does not look at what its reads
   return. The records are moved along the one cycle that the draws select; every
   other byte is left alone. `ok` is false when the program exits with a read error:
   exactly when two or more records are asked for and the file does not hold them all.
   Then nothing has been written.
   */
  method ShuffleRecords(f: File, recordAmount: nat, recordSize: nat, rolls: seq<nat>) returns (ok: bool)
    requires |rolls| >= recordAmount - 1
    modifies f, f.bytes
    ensures ok <==> IsReadable(f.bytes.Length, recordAmount, recordSize)
    ensures var before := Records(old(f.bytes[..]), recordAmount, recordSize);
      var after := Records(f.bytes[..], recordAmount, recordSize);
      var p := CycleOf(Choices(rolls, recordAmount));
      ok && recordAmount > 0 ==> IsCycle(p) && |p| == recordAmount && after == Permuted(before, p)
    ensures Tail(f.bytes[..], recordAmount, recordSize) == Tail(old(f.bytes[..]), recordAmount, recordSize)
    ensures !ok || recordAmount <= 1 ==> f.bytes[..] == old(f.bytes[..])
    ensures ok && recordAmount >= 2 ==>
      IsShuffledFile(old(f.bytes[..]), f.bytes[..], recordAmount, recordSize, CycleOf(Choices(rolls, recordAmount)))
  {
    var record1 := new Byte[recordSize];
    var record2 := new Byte[recordSize];
    ghost var bytes := f.bytes[..];
    ghost var before := Records(f.bytes[..], recordAmount, recordSize);
    ok := ShuffleLoop(f, recordAmount, rolls, record1, record2);
    if ok && recordAmount > 0 {
      WholeLoop(before, Choices(rolls, recordAmount));
    }
    if ok && recordAmount >= 2 {
      ShuffleOnBytes(bytes, f.bytes[..], recordAmount, recordSize, CycleOf(Choices(rolls, recordAmount)));
    }
  }

  /** With two or more records, every slot ends up with the record of another slot. */
  lemma EveryRecordMoves(rolls: seq<nat>, n: nat, k: nat)
    requires n >= 2 && |rolls| >= n - 1 && k < n
    ensures |CycleOf(Choices(rolls, n))| == n && CycleOf(Choices(rolls, n))[k] != k
  {
    ChoicesAreChoices(rolls, n);
    EveryOutcomeIsOneCycle(Choices(rolls, n));
    CycleMovesAll(CycleOf(Choices(rolls, n)), k);
  }
}
