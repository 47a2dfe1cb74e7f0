/**
 A file of fixed-size records, as `lseek`/`read`/`write` and `fseek`/`fread`/`fwrite`
 see it: an array of bytes and a cursor. Above it, the record level: the first `n`
 slots of `size` bytes each.
 */
module RecordFile {

  /** A plain `char`, read as signed. */
  type Byte = b: int | -128 <= b < 128

  type Record = seq<Byte>

  // ---------- slots ----------

  /** Where slot `i` begins: `i * size`, slot after slot. */
  function Offset(i: nat, size: nat): nat
  {
    if i == 0 then 0 else Offset(i - 1, size) + size
  }

  lemma {:induction false} OffsetIsProduct(i: nat, size: nat)
    ensures Offset(i, size) == i * size
    decreases i
  {
    if i > 0 {
      OffsetIsProduct(i - 1, size);
      assert i * size == (i - 1) * size + size;
    }
  }

  lemma {:induction false} OffsetOrder(i: nat, j: nat, size: nat)
    requires i < j
    ensures Offset(i, size) + size == Offset(i + 1, size) <= Offset(j, size)
    decreases j
  {
    if i + 1 < j {
      OffsetOrder(i, j - 1, size);
    }
  }

  /** The record in slot `i`, empty if the file ends before it. */
  function Slot(bytes: seq<Byte>, i: nat, size: nat): Record
  {
    var from := Offset(i, size);
    if from + size <= |bytes| then bytes[from..from + size] else []
  }

  function Records(bytes: seq<Byte>, n: nat, size: nat): seq<Record>
  {
    seq(n, i requires 0 <= i < n => Slot(bytes, i, size))
  }

  /** How many of the first `n` slots lie wholly within the file. */
  function WholeSlots(length: nat, n: nat, size: nat): (m: nat)
    ensures m <= n && Offset(m, size) <= length
    decreases n
  {
    if n == 0 || Offset(n, size) <= length then n else WholeSlots(length, n - 1, size)
  }

  lemma {:induction false} WholeSlotsCount(length: nat, n: nat, size: nat, i: nat)
    requires i <= n
    ensures i <= WholeSlots(length, n, size) <==> Offset(i, size) <= length
    decreases n
  {
    if Offset(n, size) <= length {
      if i < n { OffsetOrder(i, n, size); }
    } else if i < n {
      WholeSlotsCount(length, n - 1, size, i);
    }
  }

  /** Every byte after the last whole one of the first `n` slots. */
  function Tail(bytes: seq<Byte>, n: nat, size: nat): seq<Byte>
  {
    bytes[Offset(WholeSlots(|bytes|, n, size), size)..]
  }

  /** The first `n` slots can be read: they lie within the file, or there are too few for any to be. */
  predicate IsReadable(length: nat, n: int, size: nat)
  {
    n <= 1 || Offset(n, size) <= length
  }

  lemma {:induction false} RegionIsDetermined(a: seq<Byte>, b: seq<Byte>, m: nat, n: nat, size: nat)
    requires m <= n && Offset(m, size) <= |a| && Offset(m, size) <= |b|
    requires Records(a, n, size) == Records(b, n, size)
    ensures a[..Offset(m, size)] == b[..Offset(m, size)]
    decreases m
  {
    if m > 0 {
      OffsetOrder(m - 1, m, size);
      RegionIsDetermined(a, b, m - 1, n, size);
      assert Records(a, n, size)[m - 1] == Records(b, n, size)[m - 1];
      var from := Offset(m - 1, size);
      assert a[..from + size] == a[..from] + a[from..from + size];
      assert b[..from + size] == b[..from] + b[from..from + size];
    }
  }

  /** The records and the remaining bytes determine the file. */
  lemma FileIsDetermined(a: seq<Byte>, b: seq<Byte>, n: nat, size: nat)
    requires |a| == |b| && Records(a, n, size) == Records(b, n, size) && Tail(a, n, size) == Tail(b, n, size)
    ensures a == b
  {
    var end := Offset(WholeSlots(|a|, n, size), size);
    RegionIsDetermined(a, b, WholeSlots(|a|, n, size), n, size);
    assert a == a[..end] + a[end..] && b == b[..end] + b[end..];
  }

  /** The file after a record has been written to slot `i`. */
  function Put(bytes: seq<Byte>, i: nat, r: Record): seq<Byte>
    requires Offset(i, |r|) + |r| <= |bytes|
  {
    bytes[..Offset(i, |r|)] + r + bytes[Offset(i, |r|) + |r|..]
  }

  /** Overwriting a stretch of bytes leaves a stretch on either side of it alone. */
  lemma {:induction false} SpliceLeavesOthers(bytes: seq<Byte>, at: nat, r: Record, from: nat)
    requires at + |r| <= |bytes| && from + |r| <= |bytes|
    requires from + |r| <= at || at + |r| <= from
    ensures (bytes[..at] + r + bytes[at + |r|..])[from..from + |r|] == bytes[from..from + |r|]
  {
  }

  lemma {:induction false} SlotAfterPut(bytes: seq<Byte>, i: nat, r: Record, k: nat)
    requires Offset(i, |r|) + |r| <= |bytes|
    ensures |Put(bytes, i, r)| == |bytes|
    ensures Slot(Put(bytes, i, r), k, |r|) == if k == i then r else Slot(bytes, k, |r|)
  {
    var at, from := Offset(i, |r|), Offset(k, |r|);
    if k < i {
      OffsetOrder(k, i, |r|);
    } else if k > i {
      OffsetOrder(i, k, |r|);
    }
    if k == i {
      assert Put(bytes, i, r)[at..at + |r|] == r;
    } else if from + |r| <= |bytes| {
      SpliceLeavesOthers(bytes, at, r, from);
    }
  }

  /** Writing a slot changes that record and nothing else, neither record nor byte past the region. */
  lemma {:induction false} PutMeaning(bytes: seq<Byte>, i: nat, r: Record, n: nat)
    requires i < n && Offset(i, |r|) + |r| <= |bytes|
    ensures var after := Put(bytes, i, r);
      && |after| == |bytes|
      && Records(after, n, |r|) == Records(bytes, n, |r|)[i := r]
      && Tail(after, n, |r|) == Tail(bytes, n, |r|)
  {
    OffsetOrder(i, n, |r|);
    WholeSlotsCount(|bytes|, n, |r|, i + 1);
    var m := WholeSlots(|bytes|, n, |r|);
    if i + 1 < m { OffsetOrder(i + 1, m, |r|); }
    var after := Put(bytes, i, r);
    forall k: nat | k < n
      ensures Slot(after, k, |r|) == if k == i then r else Slot(bytes, k, |r|)
    {
      SlotAfterPut(bytes, i, r, k);
    }
  }

  // ---------- the same on bytes ----------

  /** The first byte of the i-th record. */
  function FirstByte(bytes: seq<Byte>, i: nat, size: nat): int
  {
    if i * size < |bytes| then bytes[i * size] else 0
  }

  /** The bytes of the i-th record, none if the file ends before it. */
  function RecordAt(bytes: seq<Byte>, i: nat, size: nat): seq<Byte>
  {
    if i * size + size <= |bytes| then bytes[i * size..i * size + size] else []
  }

  lemma SlotOnBytes(bytes: seq<Byte>, i: nat, size: nat)
    ensures Slot(bytes, i, size) == RecordAt(bytes, i, size)
    ensures Slot(bytes, i, size) != [] ==> Slot(bytes, i, size)[0] == FirstByte(bytes, i, size)
  {
    OffsetIsProduct(i, size);
  }

  // ---------- the open file ----------

  class File {
    const bytes: array<Byte>
    var cursor: nat

    constructor (bytes: array<Byte>)
      ensures this.bytes == bytes && cursor == 0
    {
      this.bytes := bytes;
      cursor := 0;
    }

    method Seek(offset: nat)
      modifies this
      ensures cursor == offset
    {
      cursor := offset;
    }

    /** Reads what is left of the file, at most a whole record, and says how much that was. */
    method Read(record: array<Byte>) returns (got: nat)
      requires record != bytes
      modifies this, record
      ensures got == if old(cursor) + record.Length <= bytes.Length then record.Length
                     else if old(cursor) <= bytes.Length then bytes.Length - old(cursor)
                     else 0
      ensures cursor == old(cursor) + got
      ensures got > 0 ==> record[..got] == bytes[old(cursor)..cursor]
    {
      got := if cursor + record.Length <= bytes.Length then record.Length
             else if cursor <= bytes.Length then bytes.Length - cursor
             else 0;
      forall k | 0 <= k < got {
        record[k] := bytes[cursor + k];
      }
      cursor := cursor + got;
    }

    method Write(record: array<Byte>)
      requires cursor + record.Length <= bytes.Length && record != bytes
      modifies this, bytes
      ensures bytes[..] == old(bytes[..cursor]) + record[..] + old(bytes[cursor + record.Length..])
      ensures cursor == old(cursor) + record.Length
    {
      forall k | 0 <= k < record.Length {
        bytes[cursor + k] := record[k];
      }
      cursor := cursor + record.Length;
    }

    /** `lseek(fp, i*recordSize, SEEK_SET);` */
    method SeekSlot(i: nat, size: nat)
      modifies this
      ensures cursor == Offset(i, size)
    {
      OffsetIsProduct(i, size);
      Seek(i * size);
    }

    /** `lseek(fp, i*recordSize, SEEK_SET); read(fp, record, recordSize);`, and whether a whole record came. */
    method ReadSlot(i: nat, record: array<Byte>) returns (whole: bool)
      requires record != bytes
      modifies this, record
      ensures whole <==> Offset(i, record.Length) + record.Length <= bytes.Length
      ensures whole ==> record[..] == Slot(bytes[..], i, record.Length)
      ensures whole ==> cursor == Offset(i, record.Length) + record.Length
    {
      SeekSlot(i, record.Length);
      OffsetIsProduct(i, record.Length);
      var got := Read(record);
      whole := got == record.Length;
    }

    /** `lseek(fp, i*recordSize, SEEK_SET); write(fp, record, recordSize);` */
    method WriteSlot(i: nat, record: array<Byte>)
      requires Offset(i, record.Length) + record.Length <= bytes.Length && record != bytes
      modifies this, bytes
      ensures bytes[..] == Put(old(bytes[..]), i, record[..])
      ensures cursor == Offset(i, record.Length) + record.Length
    {
      SeekSlot(i, record.Length);
      Write(record);
    }
  }
}
