/**
 The waiting room: the ring buffer of cw07/zad1/fifo.c and cw07/zad2/fifo.c,
 which are the same text. `head == -1` marks the empty buffer and
 `head == tail` the full one.
 */
module RingBuffer {

  const TAB_SIZE := 1000

  // ---------- the structure as a value ----------

  datatype Ring = Ring(max: int, head: int, tail: int, chair: int, tab: seq<int>)

  ghost predicate ValidRing(r: Ring)
  {
    && 1 <= r.max <= |r.tab|
    && -1 <= r.head < r.max
    && 0 <= r.tail < r.max
  }

  predicate IsEmpty(r: Ring) { r.head == -1 }

  predicate IsFull(r: Ring) { r.head == r.tail }

  function Push(r: Ring, x: int): (Ring, int)
    requires ValidRing(r)
  {
    if IsFull(r) then
      (r, -1)
    else
      var head := if IsEmpty(r) then r.tail else r.head;
      var tail := if r.tail + 1 == r.max then 0 else r.tail + 1;
      (r.(head := head, tail := tail, tab := r.tab[r.tail := x]), 0)
  }

  function Pop(r: Ring): (Ring, int)
    requires ValidRing(r)
  {
    if IsEmpty(r) then
      (r, -1)
    else
      var x := r.tab[r.head];
      var next := if r.head + 1 == r.max then 0 else r.head + 1;
      var head := if next == r.tail then -1 else next;
      (r.(head := head, chair := x), x)
  }

  // ---------- the queue it stands for ----------

  /** The clients in the waiting room, longest wait first. */
  function Contents(r: Ring): seq<int>
    requires ValidRing(r)
  {
    if r.head == -1 then []
    else if r.head < r.tail then r.tab[r.head..r.tail]
    else r.tab[r.head..r.max] + r.tab[..r.tail]
  }

  lemma EmptyAndFull(r: Ring)
    requires ValidRing(r)
    ensures IsEmpty(r) <==> Contents(r) == []
    ensures IsFull(r) <==> |Contents(r)| == r.max
    ensures |Contents(r)| <= r.max
  {
  }

  /** A push appends at the back unless the room is full, in which case it changes nothing. */
  lemma PushMeaning(r: Ring, x: int)
    requires ValidRing(r)
    ensures var (r', res) := Push(r, x);
      && ValidRing(r') && r'.max == r.max && r'.chair == r.chair
      && (if |Contents(r)| == r.max then res == -1 && r' == r
          else res == 0 && Contents(r') == Contents(r) + [x])
  {
  }

  /** A pop takes the front, also recording it in `chair`, unless the room is empty. */
  lemma PopMeaning(r: Ring)
    requires ValidRing(r)
    ensures var (r', x) := Pop(r);
      && ValidRing(r') && r'.max == r.max
      && (if Contents(r) == [] then x == -1 && r' == r
          else Contents(r) == [x] + Contents(r') && r'.chair == x)
  {
  }

  // ---------- whole operation sequences ----------

  datatype Op = PushOp(x: int) | PopOp

  function Do(r: Ring, op: Op): (Ring, int)
    requires ValidRing(r)
  {
    match op
    case PushOp(x) => Push(r, x)
    case PopOp => Pop(r)
  }

  /** What a queue bounded by `max` answers. */
  function QueueDo(q: seq<int>, max: int, op: Op): (seq<int>, int)
  {
    match op
    case PushOp(x) => if |q| == max then (q, -1) else (q + [x], 0)
    case PopOp => if q == [] then (q, -1) else (q[1..], q[0])
  }

  /** The answers to a sequence of operations on the ring. */
  ghost function Answers(r: Ring, ops: seq<Op>): seq<int>
    requires ValidRing(r)
    decreases |ops|
  {
    if ops == [] then []
    else
      PushMeaning(r, if ops[0].PushOp? then ops[0].x else 0);
      PopMeaning(r);
      var (r', a) := Do(r, ops[0]);
      [a] + Answers(r', ops[1..])
  }

  /** The answers to a sequence of operations on the bounded queue. */
  ghost function QueueAnswers(q: seq<int>, max: int, ops: seq<Op>): seq<int>
    decreases |ops|
  {
    if ops == [] then []
    else
      var (q', a) := QueueDo(q, max, ops[0]);
      [a] + QueueAnswers(q', max, ops[1..])
  }

  /** No sequence of operations tells the ring from the bounded queue, wrap-around included. */
  lemma {:induction false} RingRefinesBoundedQueue(r: Ring, ops: seq<Op>)
    requires ValidRing(r)
    ensures Answers(r, ops) == QueueAnswers(Contents(r), r.max, ops)
    decreases |ops|
  {
    if ops != [] {
      PushMeaning(r, if ops[0].PushOp? then ops[0].x else 0);
      PopMeaning(r);
      EmptyAndFull(r);
      var (r', a) := Do(r, ops[0]);
      var (q', b) := QueueDo(Contents(r), r.max, ops[0]);
      assert a == b && Contents(r') == q';
      RingRefinesBoundedQueue(r', ops[1..]);
    }
  }

  // ---------- the structure in shared memory ----------

  class Fifo {
    var max: int
    var head: int
    var tail: int
    var chair: int
    const tab: array<int>

    ghost predicate Valid()
      reads this, tab
    {
      tab.Length == TAB_SIZE && ValidRing(View())
    }

    ghost function View(): Ring
      reads this, tab
    {
      Ring(max, head, tail, chair, tab[..])
    }

    constructor (cn: int)
      requires 1 <= cn <= TAB_SIZE
      ensures Valid() && fresh(tab)
      ensures max == cn && chair == 0 && Contents(View()) == []
    {
      max := cn;
      head := -1;
      tail := 0;
      chair := 0;
      tab := new int[TAB_SIZE];
    }

    method IsEmptyFifo() returns (empty: int)
      requires Valid()
      ensures empty == if Contents(View()) == [] then 1 else 0
    {
      EmptyAndFull(View());
      if head == -1 { empty := 1; } else { empty := 0; }
    }

    method IsFullFifo() returns (full: int)
      requires Valid()
      ensures full == if |Contents(View())| == max then 1 else 0
    {
      EmptyAndFull(View());
      if head == tail { full := 1; } else { full := 0; }
    }

    method PopFifo() returns (x: int)
      requires Valid()
      modifies this
      ensures Valid()
      ensures (View(), x) == Pop(old(View()))
      ensures if old(Contents(View())) == [] then x == -1 && View() == old(View())
              else old(Contents(View())) == [x] + Contents(View()) && chair == x
    {
      PopMeaning(View());
      EmptyAndFull(View());
      var empty := IsEmptyFifo();
      if empty == 1 { return -1; }
      chair := tab[head];
      head := head + 1;
      if head == max { head := 0; }
      if head == tail { head := -1; }
      return chair;
    }

    method PushFifo(x: int) returns (res: int)
      requires Valid()
      modifies this, tab
      ensures Valid() && max == old(max)
      ensures (View(), res) == Push(old(View()), x)
      ensures if |old(Contents(View()))| == max then res == -1 && View() == old(View())
              else res == 0 && Contents(View()) == old(Contents(View())) + [x]
    {
      PushMeaning(View(), x);
      EmptyAndFull(View());
      var full := IsFullFifo();
      if full == 1 { return -1; }
      var empty := IsEmptyFifo();
      if empty == 1 { head := tail; }
      tab[tail] := x;
      tail := tail + 1;
      if tail == max { tail := 0; }
      return 0;
    }
  }
}
