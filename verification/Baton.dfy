/**
 Readers and writers of cw09/zad1b as a transition system: any number of threads,
 three semaphores, and a baton that the last reader hands to a waiting writer by
 posting `semWait` instead of `semCheck`. A step is one semaphore operation, one
 access to a shared counter, or one cell of the table.
 */
module Baton {
  import opened Table

  /** Where a reader is in `rFunc`. */
  datatype ReaderPc =
    | Idle        // wait(semCheck), at the head of the loop
    | Enter       // readers++
    | LeaveCheck  // post(semCheck)
    | Scan        // table[i] % div == 0, for i = 0, 1, ...
    | ExitCheck   // wait(semCheck)
    | Depart      // readers--
    | Decide      // readers==0 && writers!=0
    | HandOver    // post(semWait)
    | Release     // post(semCheck)

  /** Where a writer is in `wFunc`. */
  datatype WriterPc =
    | Idle        // wait(semWriter), at the head of the loop
    | WaitCheck   // wait(semCheck)
    | Announce    // writers++
    | TestReaders // readers>0
    | YieldCheck  // post(semCheck)
    | AwaitBaton  // wait(semWait)
    | Draw        // amount = (rand()%tableSize/10)+1
    | Update      // table[k] = random, amount times
    | Retire      // writers--
    | PostCheck   // post(semCheck)
    | PostTurn    // post(semWriter)

  datatype Thread =
    | Reader(rpc: ReaderPc, div: Divisor, i: nat, count: nat)
    | Writer(wpc: WriterPc, left: nat)

  datatype State = State(
    readers: int,
    writers: int,
    semCheck: nat,
    semWait: nat,
    semWriter: nat,
    table: Cells,
    threads: map<int, Thread>)

  /** Which thread moves next, and what `rand()` would answer it. */
  datatype Turn = Turn(thread: int, roll: nat, roll': nat)

  // ---------- the start ----------

  predicate IsIdle(t: Thread)
  {
    match t
    case Reader(pc, _, _, _) => pc.Idle?
    case Writer(pc, _) => pc.Idle?
  }

  ghost predicate IsInit(s: State)
  {
    && s.readers == 0 && s.writers == 0
    && s.semWait == 0 && s.semWriter == 1 && s.semCheck == 1
    && (forall t :: t in s.threads ==> IsIdle(s.threads[t]))
  }

  // ---------- the steps ----------

  predicate Enabled(s: State, t: int)
  {
    t in s.threads &&
    match s.threads[t]
    case Reader(pc, _, _, _) =>
      pc.Idle? || pc.ExitCheck? ==> s.semCheck > 0
    case Writer(pc, _) =>
      && (pc.Idle? ==> s.semWriter > 0)
      && (pc.WaitCheck? ==> s.semCheck > 0)
      && (pc.AwaitBaton? ==> s.semWait > 0)
  }

  function ReaderNext(s: State, t: int): State
    requires Enabled(s, t) && s.threads[t].Reader?
  {
    var r := s.threads[t];
    match r.rpc
    case Idle => s.(semCheck := s.semCheck - 1, threads := s.threads[t := r.(rpc := Enter)])
    case Enter => s.(readers := s.readers + 1, threads := s.threads[t := r.(rpc := LeaveCheck)])
    case LeaveCheck => s.(semCheck := s.semCheck + 1, threads := s.threads[t := r.(rpc := Scan, i := 0, count := 0)])
    case Scan =>
      if r.i < TABLE_SIZE then
        var hit := s.table[r.i] % r.div == 0;
        s.(threads := s.threads[t := r.(i := r.i + 1, count := if hit then r.count + 1 else r.count)])
      else
        s.(threads := s.threads[t := r.(rpc := ExitCheck)])
    case ExitCheck => s.(semCheck := s.semCheck - 1, threads := s.threads[t := r.(rpc := Depart)])
    case Depart => s.(readers := s.readers - 1, threads := s.threads[t := r.(rpc := Decide)])
    case Decide =>
      s.(threads := s.threads[t := r.(rpc := if s.readers == 0 && s.writers != 0 then HandOver else Release)])
    case HandOver => s.(semWait := s.semWait + 1, threads := s.threads[t := r.(rpc := ReaderPc.Idle)])
    case Release => s.(semCheck := s.semCheck + 1, threads := s.threads[t := r.(rpc := ReaderPc.Idle)])
  }

  function WriterNext(s: State, t: int, roll: nat, roll': nat): State
    requires Enabled(s, t) && s.threads[t].Writer?
  {
    var w := s.threads[t];
    match w.wpc
    case Idle => s.(semWriter := s.semWriter - 1, threads := s.threads[t := w.(wpc := WaitCheck)])
    case WaitCheck => s.(semCheck := s.semCheck - 1, threads := s.threads[t := w.(wpc := Announce)])
    case Announce => s.(writers := s.writers + 1, threads := s.threads[t := w.(wpc := TestReaders)])
    case TestReaders => s.(threads := s.threads[t := w.(wpc := if s.readers > 0 then YieldCheck else Draw)])
    case YieldCheck => s.(semCheck := s.semCheck + 1, threads := s.threads[t := w.(wpc := AwaitBaton)])
    case AwaitBaton => s.(semWait := s.semWait - 1, threads := s.threads[t := w.(wpc := Draw)])
    case Draw => s.(threads := s.threads[t := w.(wpc := Update, left := roll % TABLE_SIZE / 10 + 1)])
    case Update =>
      if w.left > 0 then
        s.(table := s.table[roll % TABLE_SIZE := roll' % 999 + 1],
           threads := s.threads[t := w.(left := w.left - 1)])
      else
        s.(threads := s.threads[t := w.(wpc := Retire)])
    case Retire => s.(writers := s.writers - 1, threads := s.threads[t := w.(wpc := PostCheck)])
    case PostCheck => s.(semCheck := s.semCheck + 1, threads := s.threads[t := w.(wpc := PostTurn)])
    case PostTurn => s.(semWriter := s.semWriter + 1, threads := s.threads[t := w.(wpc := WriterPc.Idle)])
  }

  /** A thread that is scheduled while blocked does not move. */
  function Move(s: State, turn: Turn): State
  {
    if !Enabled(s, turn.thread) then s
    else if s.threads[turn.thread].Reader? then ReaderNext(s, turn.thread)
    else WriterNext(s, turn.thread, turn.roll, turn.roll')
  }

  function Exec(s: State, schedule: seq<Turn>): State
    decreases |schedule|
  {
    if schedule == [] then s else Exec(Move(s, schedule[0]), schedule[1..])
  }

  lemma {:induction false} ExecConcat(s: State, a: seq<Turn>, b: seq<Turn>)
    ensures Exec(s, a + b) == Exec(Exec(s, a), b)
    decreases |a|
  {
    if a == [] {
      assert a + b == b;
    } else {
      assert (a + b)[1..] == a[1..] + b;
      ExecConcat(Move(s, a[0]), a[1..], b);
    }
  }

  // ---------- who is where ----------

  /** Counted in `readers`. */
  predicate IsInside(t: Thread)
  {
    t.Reader? && (t.rpc.LeaveCheck? || t.rpc.Scan? || t.rpc.ExitCheck? || t.rpc.Depart?)
  }

  /** Counted in `writers`. */
  predicate IsAnnounced(t: Thread)
  {
    t.Writer? &&
    var pc := t.wpc;
    pc.TestReaders? || pc.YieldCheck? || pc.AwaitBaton? || pc.Draw? || pc.Update? || pc.Retire?
  }

  /** May write the table. */
  predicate IsWriting(t: Thread)
  {
    t.Writer? && (t.wpc.Draw? || t.wpc.Update? || t.wpc.Retire?)
  }

  /** Holds the baton: between a wait that took it and the post that gives it on. */
  predicate HoldsBaton(t: Thread)
  {
    match t
    case Reader(pc, _, _, _) =>
      pc.Enter? || pc.LeaveCheck? || pc.Depart? || pc.Decide? || pc.HandOver? || pc.Release?
    case Writer(pc, _) =>
      pc.Announce? || pc.TestReaders? || pc.YieldCheck? || pc.Draw? || pc.Update? || pc.Retire? || pc.PostCheck?
  }

  /** Between wait and post on `semWriter`. */
  predicate HoldsTurn(t: Thread)
  {
    t.Writer? && !t.wpc.Idle?
  }

  ghost function Inside(s: State): set<int>
  {
    set t | t in s.threads && IsInside(s.threads[t])
  }
}
