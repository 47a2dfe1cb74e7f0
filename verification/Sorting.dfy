/** What sorting the records of a file by first byte means, as cw02/zad1/bsort.c does it. */
module Sorting {
  import opened RecordFile

  // ---------- what sorting means ----------

  /** The sort key: the first byte. */
  function Key(r: Record): int { if r == [] then 0 else r[0] }

  ghost predicate Sorted(rs: seq<Record>)
  {
    forall i, j :: 0 <= i < j < |rs| ==> Key(rs[i]) <= Key(rs[j])
  }

  /** The records with key `k`, in their order. */
  ghost function WithKey(rs: seq<Record>, k: int): seq<Record>
  {
    if rs == [] then []
    else (if Key(rs[0]) == k then [rs[0]] else []) + WithKey(rs[1..], k)
  }

  /** Records with equal keys keep their order, and none is lost or invented. */
  ghost predicate SameByKey(a: seq<Record>, b: seq<Record>)
  {
    |a| == |b| && forall k :: WithKey(a, k) == WithKey(b, k)
  }

  ghost predicate IsStableSort(before: seq<Record>, after: seq<Record>)
  {
    Sorted(after) && SameByKey(before, after)
  }

  lemma {:induction false} WithKeyConcat(a: seq<Record>, b: seq<Record>, k: int)
    ensures WithKey(a + b, k) == WithKey(a, k) + WithKey(b, k)
    decreases |a|
  {
    if a == [] {
      assert a + b == b;
    } else {
      assert (a + b)[1..] == a[1..] + b;
      WithKeyConcat(a[1..], b, k);
    }
  }

  lemma {:induction false} WithKeyMember(rs: seq<Record>, i: nat)
    requires i < |rs|
    ensures rs[i] in WithKey(rs, Key(rs[i]))
    decreases i
  {
    if i > 0 {
      WithKeyMember(rs[1..], i - 1);
    }
  }

  lemma {:induction false} WithKeyIsMember(rs: seq<Record>, k: int, r: Record)
    requires r in WithKey(rs, k)
    ensures Key(r) == k && exists i :: 0 <= i < |rs| && rs[i] == r
    decreases |rs|
  {
    if r in WithKey(rs[1..], k) {
      WithKeyIsMember(rs[1..], k, r);
      var i :| 0 <= i < |rs[1..]| && rs[1..][i] == r;
      assert rs[i + 1] == r;
    } else {
      assert rs[0] == r;
    }
  }

  /** In two stable sorts of the same records the first keys agree. */
  lemma FirstKey(a: seq<Record>, b: seq<Record>)
    requires a != [] && b != [] && Sorted(a) && SameByKey(a, b)
    ensures Key(a[0]) <= Key(b[0])
  {
    WithKeyMember(b, 0);
    WithKeyIsMember(a, Key(b[0]), b[0]);
  }

  /** There is only one stable sort, so whatever ends in a stable sort ends in the same records. */
  lemma {:induction false} StableSortIsUnique(a: seq<Record>, b: seq<Record>)
    requires Sorted(a) && Sorted(b) && SameByKey(a, b)
    ensures a == b
    decreases |a|
  {
    if a != [] {
      FirstKey(a, b);
      FirstKey(b, a);
      var k := Key(a[0]);
      assert WithKey(a, k)[0] == a[0] && WithKey(b, k)[0] == b[0];
      forall q ensures WithKey(a[1..], q) == WithKey(b[1..], q) {
        assert WithKey(a, q) == WithKey(b, q);
        if q != k {
          assert WithKey(a, q) == [] + WithKey(a[1..], q) == WithKey(a[1..], q);
          assert WithKey(b, q) == [] + WithKey(b[1..], q) == WithKey(b[1..], q);
        } else {
          assert WithKey(a, q)[1..] == WithKey(a[1..], q);
          assert WithKey(b, q)[1..] == WithKey(b[1..], q);
        }
      }
      StableSortIsUnique(a[1..], b[1..]);
    }
  }

  lemma {:induction false} CountWithKey(rs: seq<Record>, r: Record)
    ensures multiset(rs)[r] == multiset(WithKey(rs, Key(r)))[r]
    decreases |rs|
  {
    if rs != [] {
      assert rs == [rs[0]] + rs[1..];
      CountWithKey(rs[1..], r);
    }
  }

  /** A stable sort is a permutation of the records. */
  lemma StableSortPermutes(before: seq<Record>, after: seq<Record>)
    requires IsStableSort(before, after)
    ensures multiset(before) == multiset(after)
  {
    forall r: Record ensures multiset(before)[r] == multiset(after)[r] {
      CountWithKey(before, r);
      CountWithKey(after, r);
    }
  }

  // ---------- the key read as unsigned ----------

  /** A char read as unsigned. */
  function Unsigned(b: Byte): (u: int)
    ensures 0 <= u < 256 && (u == b || u == b + 256)
  {
    if b < 0 then b + 256 else b
  }

  ghost predicate HaveBytes(rs: seq<Record>)
  {
    forall i :: 0 <= i < |rs| ==> rs[i] != []
  }

  /** In order of the first byte as the assignment reads it, an unsigned char; the code compares plain chars. */
  ghost predicate SortedUnsigned(rs: seq<Record>)
    requires HaveBytes(rs)
  {
    forall i, j :: 0 <= i < j < |rs| ==> Unsigned(rs[i][0]) <= Unsigned(rs[j][0])
  }

  /** All first bytes below 128, or all from 128 on. */
  ghost predicate OneSide(rs: seq<Record>)
    requires HaveBytes(rs)
  {
    forall i, j :: 0 <= i < |rs| && 0 <= j < |rs| ==> (rs[i][0] < 0 <==> rs[j][0] < 0)
  }

  lemma OneSideIsKept(a: seq<Record>, b: seq<Record>)
    requires SameByKey(a, b) && HaveBytes(a) && HaveBytes(b) && OneSide(a)
    ensures OneSide(b)
  {
    forall i, j | 0 <= i < |b| && 0 <= j < |b|
      ensures b[i][0] < 0 <==> b[j][0] < 0
    {
      WithKeyMember(b, i);
      WithKeyMember(b, j);
      WithKeyIsMember(a, Key(b[i]), b[i]);
      WithKeyIsMember(a, Key(b[j]), b[j]);
    }
  }

  /** The signed sort is the promised unsigned one exactly when the first bytes lie on one side of 128. */
  lemma UnsignedSortIff(before: seq<Record>, after: seq<Record>)
    requires IsStableSort(before, after) && HaveBytes(before) && HaveBytes(after)
    ensures SortedUnsigned(after) <==> OneSide(before)
  {
    SortedFirstBytes(after);
    if OneSide(before) {
      OneSideIsKept(before, after);
    }
    if SortedUnsigned(after) {
      forall i, j | 0 <= i < |after| && 0 <= j < |after|
        ensures after[i][0] < 0 <==> after[j][0] < 0
      {
        assert i < j ==> Unsigned(after[i][0]) <= Unsigned(after[j][0]) && after[i][0] <= after[j][0];
        assert j < i ==> Unsigned(after[j][0]) <= Unsigned(after[i][0]) && after[j][0] <= after[i][0];
      }
      OneSideIsKept(after, before);
    }
  }

  /** Sorted by key is in order of the first byte, a signed char. */
  lemma SortedFirstBytes(rs: seq<Record>)
    requires HaveBytes(rs)
    ensures Sorted(rs) <==> forall i, j :: 0 <= i < j < |rs| ==> rs[i][0] <= rs[j][0]
  {
    if forall i, j :: 0 <= i < j < |rs| ==> rs[i][0] <= rs[j][0] {
      forall i, j | 0 <= i < j < |rs| ensures Key(rs[i]) <= Key(rs[j]) {
        assert rs[i][0] <= rs[j][0];
      }
    }
    if Sorted(rs) {
      forall i, j | 0 <= i < j < |rs| ensures rs[i][0] <= rs[j][0] {
        assert Key(rs[i]) <= Key(rs[j]);
      }
    }
  }

  /** A file on which the promise fails: first bytes 255 and 0 stay in that order. */
  lemma UnsignedSortCanFail()
    ensures var file: seq<Record> := [[-1], [0]]; IsStableSort(file, file) && HaveBytes(file) && !SortedUnsigned(file)
  {
    var file: seq<Record> := [[-1], [0]];
    assert Unsigned(file[0][0]) == 255 && Unsigned(file[1][0]) == 0;
  }

  /** C division, which truncates toward zero. */
  function Quotient(a: int, m: int): (q: int)
    requires m > 0
  {
    if a >= 0 then a / m else -((-a) / m)
  }

  /** `record[j]%20+65`, with the C remainder, which takes the sign of the dividend. */
  function GeneratedByte(raw: Byte): (b: Byte)
    ensures 46 <= b <= 84
    ensures (b - 65 - raw) % 20 == 0 && (raw >= 0 ==> b >= 65) && (raw <= 0 ==> b <= 65)
  {
    var b: int := raw - 20 * Quotient(raw, 20) + 65;
    b
  }

  /** Files made by the generator are sorted as promised. */
  lemma GeneratedFilesSortAsPromised(raw: seq<Byte>, before: seq<Record>, after: seq<Record>)
    requires IsStableSort(before, after) && HaveBytes(before) && HaveBytes(after) && |raw| == |before|
    requires forall i :: 0 <= i < |before| ==> before[i][0] == GeneratedByte(raw[i])
    ensures SortedUnsigned(after)
  {
    UnsignedSortIff(before, after);
  }

  // ---------- inversions ----------

  /** How many records have a key below `k`. */
  ghost function Below(rs: seq<Record>, k: int): nat
  {
    if rs == [] then 0 else (if Key(rs[0]) < k then 1 else 0) + Below(rs[1..], k)
  }

  /** Pairs of records in the wrong order. */
  ghost function Inversions(rs: seq<Record>): nat
  {
    if rs == [] then 0 else Below(rs[1..], Key(rs[0])) + Inversions(rs[1..])
  }

  lemma {:induction false} BelowConcat(a: seq<Record>, b: seq<Record>, k: int)
    ensures Below(a + b, k) == Below(a, k) + Below(b, k)
    decreases |a|
  {
    if a == [] {
      assert a + b == b;
    } else {
      assert (a + b)[1..] == a[1..] + b;
      BelowConcat(a[1..], b, k);
    }
  }

  lemma PairInversions(x: Record, y: Record, b: seq<Record>)
    ensures Inversions([x, y] + b) ==
            (if Key(y) < Key(x) then 1 else 0) + Below(b, Key(x)) + Below(b, Key(y)) + Inversions(b)
  {
    var s := [x, y] + b;
    assert s[1..] == [y] + b;
    assert s[1..][1..] == b;
  }

  lemma PairBelow(x: Record, y: Record, b: seq<Record>, k: int)
    ensures Below([x, y] + b, k) == (if Key(x) < k then 1 else 0) + (if Key(y) < k then 1 else 0) + Below(b, k)
  {
    var s := [x, y] + b;
    assert s[1..] == [y] + b;
    assert s[1..][1..] == b;
  }

  lemma PairWithKey(x: Record, y: Record, b: seq<Record>, k: int)
    ensures WithKey([x, y] + b, k)
            == (if Key(x) == k then [x] else []) + ((if Key(y) == k then [y] else []) + WithKey(b, k))
  {
    var s := [x, y] + b;
    assert s[1..] == [y] + b;
    assert s[1..][1..] == b;
  }

  lemma PairOrder(x: Record, y: Record, b: seq<Record>, k: int)
    requires Key(y) != Key(x)
    ensures WithKey([x, y] + b, k) == WithKey([y, x] + b, k)
  {
    PairWithKey(x, y, b, k);
    PairWithKey(y, x, b, k);
  }

  /** Exchanging an adjacent pair in the wrong order removes one inversion. */
  lemma {:induction false} SwapRemovesOneInversion(a: seq<Record>, x: Record, y: Record, b: seq<Record>)
    requires Key(y) < Key(x)
    ensures Inversions(a + ([x, y] + b)) == Inversions(a + ([y, x] + b)) + 1
    decreases |a|
  {
    var s, t := [x, y] + b, [y, x] + b;
    if a == [] {
      PairInversions(x, y, b);
      PairInversions(y, x, b);
      assert a + s == s && a + t == t;
    } else {
      SwapRemovesOneInversion(a[1..], x, y, b);
      assert (a + s)[1..] == a[1..] + s;
      assert (a + t)[1..] == a[1..] + t;
      BelowConcat(a[1..], s, Key(a[0]));
      BelowConcat(a[1..], t, Key(a[0]));
      PairBelow(x, y, b, Key(a[0]));
      PairBelow(y, x, b, Key(a[0]));
    }
  }

  lemma SwapKeepsKey(a: seq<Record>, x: Record, y: Record, b: seq<Record>, k: int)
    requires Key(y) != Key(x)
    ensures WithKey(a + ([x, y] + b), k) == WithKey(a + ([y, x] + b), k)
  {
    WithKeyConcat(a, [x, y] + b, k);
    WithKeyConcat(a, [y, x] + b, k);
    PairOrder(x, y, b, k);
  }

  /** It disturbs no key's records. */
  lemma SwapKeepsKeys(a: seq<Record>, x: Record, y: Record, b: seq<Record>)
    requires Key(y) != Key(x)
    ensures SameByKey(a + ([x, y] + b), a + ([y, x] + b))
  {
    forall k ensures WithKey(a + ([x, y] + b), k) == WithKey(a + ([y, x] + b), k) {
      SwapKeepsKey(a, x, y, b, k);
    }
  }

  lemma {:induction false} NothingBelow(rs: seq<Record>, k: int)
    requires forall i :: 0 <= i < |rs| ==> k <= Key(rs[i])
    ensures Below(rs, k) == 0
    decreases |rs|
  {
    if rs != [] {
      NothingBelow(rs[1..], k);
    }
  }

  lemma {:induction false} SortedHasNoInversions(rs: seq<Record>)
    requires Sorted(rs)
    ensures Inversions(rs) == 0
    decreases |rs|
  {
    if rs != [] {
      NothingBelow(rs[1..], Key(rs[0]));
      SortedHasNoInversions(rs[1..]);
    }
  }

  /** The swap at positions e, e+1, as an update of the sequence. */
  function Swapped(rs: seq<Record>, e: nat): seq<Record>
    requires e + 1 < |rs|
  {
    rs[e := rs[e + 1]][e + 1 := rs[e]]
  }

  lemma Neighbours(rs: seq<Record>, e: nat)
    requires e + 1 < |rs|
    ensures rs == rs[..e] + ([rs[e], rs[e + 1]] + rs[e + 2..])
    ensures Swapped(rs, e) == rs[..e] + ([rs[e + 1], rs[e]] + rs[e + 2..])
  {
  }

  lemma SwapMeaning(rs: seq<Record>, e: nat)
    requires e + 1 < |rs| && Key(rs[e]) > Key(rs[e + 1])
    ensures Inversions(rs) == Inversions(Swapped(rs, e)) + 1
    ensures SameByKey(rs, Swapped(rs, e))
  {
    var a, x, y, b := rs[..e], rs[e], rs[e + 1], rs[e + 2..];
    var s, t := a + ([x, y] + b), a + ([y, x] + b);
    SwapRemovesOneInversion(a, x, y, b);
    SwapKeepsKeys(a, x, y, b);
    assert rs == s && Swapped(rs, e) == t by {
      Neighbours(rs, e);
    }
  }

  // ---------- where each record goes ----------

  ghost function Keys(rs: seq<Record>): seq<int>
  {
    seq(|rs|, i requires 0 <= i < |rs| => Key(rs[i]))
  }

  /** How many come before the k-th: those with a smaller key, and those with the same key ahead of it. */
  ghost function Place(keys: seq<int>, k: nat): nat
    requires k < |keys|
  {
    |set j | 0 <= j < |keys| && (keys[j] < keys[k] || (keys[j] == keys[k] && j < k))|
  }

  lemma {:induction false} CountBelow(rs: seq<Record>, m: nat, q: int, members: set<int>)
    requires m <= |rs| && members == set j | 0 <= j < m && Key(rs[j]) < q
    ensures |members| == Below(rs[..m], q)
    decreases m
  {
    if m > 0 {
      var fewer := set j | 0 <= j < m - 1 && Key(rs[j]) < q;
      CountBelow(rs, m - 1, q, fewer);
      BelowConcat(rs[..m - 1], [rs[m - 1]], q);
      assert rs[..m] == rs[..m - 1] + [rs[m - 1]];
      assert members == if Key(rs[m - 1]) < q then fewer + {m - 1} else fewer;
    }
  }

  lemma {:induction false} CountWith(rs: seq<Record>, m: nat, q: int, members: set<int>)
    requires m <= |rs| && members == set j | 0 <= j < m && Key(rs[j]) == q
    ensures |members| == |WithKey(rs[..m], q)|
    decreases m
  {
    if m > 0 {
      var fewer := set j | 0 <= j < m - 1 && Key(rs[j]) == q;
      CountWith(rs, m - 1, q, fewer);
      WithKeyConcat(rs[..m - 1], [rs[m - 1]], q);
      assert rs[..m] == rs[..m - 1] + [rs[m - 1]];
      assert members == if Key(rs[m - 1]) == q then fewer + {m - 1} else fewer;
    }
  }

  lemma PlaceCounts(rs: seq<Record>, k: nat)
    requires k < |rs|
    ensures Place(Keys(rs), k) == Below(rs, Key(rs[k])) + |WithKey(rs[..k], Key(rs[k]))|
  {
    var q := Key(rs[k]);
    var smaller := set j | 0 <= j < |rs| && Key(rs[j]) < q;
    var ahead := set j | 0 <= j < k && Key(rs[j]) == q;
    CountBelow(rs, |rs|, q, smaller);
    CountWith(rs, k, q, ahead);
    assert rs[..|rs|] == rs;
    assert (set j | 0 <= j < |Keys(rs)| && (Keys(rs)[j] < Keys(rs)[k] || (Keys(rs)[j] == Keys(rs)[k] && j < k)))
           == smaller + ahead;
    assert smaller !! ahead;
  }

  lemma {:induction false} BelowNextKey(rs: seq<Record>, q: int)
    ensures Below(rs, q + 1) == Below(rs, q) + |WithKey(rs, q)|
    decreases |rs|
  {
    if rs != [] {
      BelowNextKey(rs[1..], q);
    }
  }

  lemma {:induction false} SameBelow(a: seq<Record>, b: seq<Record>, q: int)
    requires SameByKey(a, b) && q >= -128
    ensures Below(a, q) == Below(b, q)
    decreases q + 128
  {
    if q == -128 {
      NothingBelow(a, q);
      NothingBelow(b, q);
    } else {
      SameBelow(a, b, q - 1);
      BelowNextKey(a, q - 1);
      BelowNextKey(b, q - 1);
    }
  }

  /** In sorted records those with one key stand together, after the smaller ones. */
  lemma {:induction false} SortedPosition(rs: seq<Record>, q: int, m: nat)
    requires Sorted(rs) && m < |WithKey(rs, q)|
    ensures Below(rs, q) + m < |rs| && rs[Below(rs, q) + m] == WithKey(rs, q)[m]
    decreases |rs|
  {
    if Key(rs[0]) < q {
      SortedPosition(rs[1..], q, m);
    } else {
      WithKeyIsMember(rs, q, WithKey(rs, q)[m]);
      assert Key(rs[0]) == q;
      NothingBelow(rs, q);
      NothingBelow(rs[1..], q);
      if m > 0 {
        SortedPosition(rs[1..], q, m - 1);
      }
    }
  }

  lemma WithKeyAt(rs: seq<Record>, k: nat)
    requires k < |rs|
    ensures var q := Key(rs[k]);
      |WithKey(rs[..k], q)| < |WithKey(rs, q)| && WithKey(rs, q)[|WithKey(rs[..k], q)|] == rs[k]
  {
    assert rs == rs[..k] + rs[k..];
    WithKeyConcat(rs[..k], rs[k..], Key(rs[k]));
  }

  /** The k-th record ends up after exactly those that belong before it. */
  lemma StableSortPlaces(before: seq<Record>, after: seq<Record>, k: nat)
    requires IsStableSort(before, after) && k < |before|
    ensures Place(Keys(before), k) < |after| && after[Place(Keys(before), k)] == before[k]
  {
    var q := Key(before[k]);
    var m := |WithKey(before[..k], q)|;
    WithKeyAt(before, k);
    assert WithKey(before, q) == WithKey(after, q);
    SortedPosition(after, q, m);
    assert Place(Keys(before), k) == Below(after, q) + m by {
      PlaceCounts(before, k);
      SameBelow(before, after, q);
    }
  }

  // ---------- the same on bytes ----------

  ghost function FirstBytes(bytes: seq<Byte>, n: nat, size: nat): seq<int>
  {
    seq(n, i requires 0 <= i < n => FirstByte(bytes, i, size))
  }

  /**
   The file after sorting its first `n` records: in order of the first byte, a signed
   char; each record after exactly those with a smaller first byte and those with the
   same first byte that were ahead of it; the bytes after the records as they were.
   */
  ghost predicate IsSortedFile(before: seq<Byte>, after: seq<Byte>, n: nat, size: nat)
  {
    && |after| == |before|
    && (forall i, j :: 0 <= i < j < n ==> FirstByte(after, i, size) <= FirstByte(after, j, size))
    && (forall k :: 0 <= k < n ==>
          RecordAt(after, Place(FirstBytes(before, n, size), k), size) == RecordAt(before, k, size))
    && (forall b: nat :: n * size <= b < |before| ==> after[b] == before[b])
  }

  lemma KeysAreFirstBytes(bytes: seq<Byte>, n: nat, size: nat)
    requires size > 0 && Offset(n, size) <= |bytes|
    ensures Keys(Records(bytes, n, size)) == FirstBytes(bytes, n, size)
    ensures HaveBytes(Records(bytes, n, size))
  {
    forall i | 0 <= i < n
      ensures Records(bytes, n, size)[i] != [] && Key(Records(bytes, n, size)[i]) == FirstByte(bytes, i, size)
    {
      OffsetOrder(i, n, size);
      SlotOnBytes(bytes, i, size);
    }
  }

  lemma StableSortOnBytes(before: seq<Byte>, after: seq<Byte>, n: nat, size: nat)
    requires |after| == |before| && size > 0 && Offset(n, size) <= |before|
    requires IsStableSort(Records(before, n, size), Records(after, n, size))
    requires Tail(after, n, size) == Tail(before, n, size)
    ensures IsSortedFile(before, after, n, size)
  {
    var old_, new_ := Records(before, n, size), Records(after, n, size);
    KeysAreFirstBytes(before, n, size);
    KeysAreFirstBytes(after, n, size);
    forall i, j | 0 <= i < j < n ensures FirstByte(after, i, size) <= FirstByte(after, j, size) {
      assert Keys(new_)[i] <= Keys(new_)[j];
    }
    forall k | 0 <= k < n
      ensures RecordAt(after, Place(FirstBytes(before, n, size), k), size) == RecordAt(before, k, size)
    {
      StableSortPlaces(old_, new_, k);
      SlotOnBytes(before, k, size);
      SlotOnBytes(after, Place(FirstBytes(before, n, size), k), size);
    }
    OffsetIsProduct(n, size);
    forall b: nat | n * size <= b < |before| ensures after[b] == before[b] {
      assert Tail(after, n, size)[b - n * size] == Tail(before, n, size)[b - n * size];
    }
  }
}
