/** The shared table of cw09 and what a reader counts in it. */
module Table {

  const TABLE_SIZE := 100

  type Cells = table: seq<int> | |table| == TABLE_SIZE witness seq(TABLE_SIZE, _ => 1)

  type Divisor = d: int | d > 0 witness 1

  /** What `randTable` and the writers put in: `rand()%999+1`. */
  ghost predicate InRange(table: Cells)
  {
    forall k :: 0 <= k < TABLE_SIZE ==> 1 <= table[k] <= 999
  }

  ghost function Divisible(table: seq<int>, div: Divisor): set<int>
  {
    set i | 0 <= i < |table| && table[i] % div == 0
  }

  /** How many entries are divisible by `div`. */
  ghost function CountDivisible(table: seq<int>, div: Divisor): nat
  {
    |Divisible(table, div)|
  }

  lemma CountNone(table: seq<int>, div: Divisor)
    ensures CountDivisible(table[..0], div) == 0
  {
    assert Divisible(table[..0], div) == {};
  }

  /** Reading one more cell. */
  lemma CountNext(table: seq<int>, i: nat, div: Divisor)
    requires i < |table|
    ensures CountDivisible(table[..i + 1], div) ==
            CountDivisible(table[..i], div) + (if table[i] % div == 0 then 1 else 0)
  {
    var before, after := Divisible(table[..i], div), Divisible(table[..i + 1], div);
    if table[i] % div == 0 {
      assert after == before + {i};
    } else {
      assert after == before;
    }
  }

  // ---------- what writers put in ----------

  datatype Write = Write(cell: nat, value: int)

  /** A cell of the table and a value that may be put in it. */
  type Drawn = w: Write | w.cell < TABLE_SIZE && 1 <= w.value <= 999 witness Write(0, 1)

  /** The table after the writes, made in order. */
  ghost function Overwritten(table: Cells, writes: seq<Drawn>): Cells
    decreases |writes|
  {
    if writes == [] then table
    else Overwritten(table[writes[0].cell := writes[0].value], writes[1..])
  }

  /** One more write changes its cell and no other, whatever was written before. */
  lemma {:induction false} OneMoreWrite(table: Cells, writes: seq<Drawn>, last: Drawn)
    ensures Overwritten(table, writes + [last]) == Overwritten(table, writes)[last.cell := last.value]
    decreases |writes|
  {
    if writes == [] {
      assert writes + [last] == [last];
    } else {
      assert (writes + [last])[1..] == writes[1..] + [last];
      OneMoreWrite(table[writes[0].cell := writes[0].value], writes[1..], last);
    }
  }
}
