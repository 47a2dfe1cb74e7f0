/**
 Readers and writers of cw09/zad1a as a transition system: any number of threads
 round one mutex and one condition variable. `pthread_cond_wait` is two steps,
 giving up the mutex to sleep and taking it again, and a sleeper may wake without
 a broadcast, as POSIX.1-2017 allows.
 */
module Monitor {
  import opened Table

  /** Where a reader is in `rFunc`. */
  datatype ReaderPc =
    | Idle       // lock, at the head of the loop
    | TestQueue  // writersInQueue!=0
    | Asleep     // on cond
    | Relock     // woken, wants the mutex
    | Enter      // readers++
    | Unlock
    | Scan       // table[i] % div == 0, for i = 0, 1, ...
    | LockOut
    | Depart     // readers--
    | Broadcast
    | UnlockOut

  /** Where a writer is in `wFunc`. */
  datatype WriterPc =
    | Idle       // lock, at the head of the loop
    | Register   // writersInQueue++
    | TestBusy   // readers || writers
    | Asleep     // on cond
    | Relock     // woken, wants the mutex
    | Enter      // writers++
    | Unlock
    | Draw       // amount = (rand()%tableSize/10)+1
    | Update     // table[k] = random, amount times
    | LockOut
    | Depart     // writers--
    | Deregister // writersInQueue--
    | Broadcast
    | UnlockOut

  datatype Thread =
    | Reader(rpc: ReaderPc, div: Divisor, i: nat, count: nat)
    | Writer(wpc: WriterPc, left: nat)

  datatype State = State(
    readers: int,
    writers: int,
    writersInQueue: int,
    mutexFree: bool,
    table: Cells,
    threads: map<int, Thread>)

  /** Which thread moves next, and what `rand()` would answer it. */
  datatype Turn = Turn(thread: int, roll: nat, roll': nat)

  // ---------- the start ----------

  predicate IsIdle(t: Thread)
  {
    match t
    case Reader(pc, _, _, _) => pc.Idle?
    case Writer(pc, _) => pc.Idle?
  }

  ghost predicate IsInit(s: State)
  {
    && s.readers == 0 && s.writers == 0 && s.writersInQueue == 0 && s.mutexFree
    && (forall t :: t in s.threads ==> IsIdle(s.threads[t]))
  }

  // ---------- the steps ----------

  /** The next step takes the mutex. */
  predicate WantsMutex(t: Thread)
  {
    match t
    case Reader(pc, _, _, _) => pc.Idle? || pc.Relock? || pc.LockOut?
    case Writer(pc, _) => pc.Idle? || pc.Relock? || pc.LockOut?
  }

  predicate Enabled(s: State, t: int)
  {
    t in s.threads && (WantsMutex(s.threads[t]) ==> s.mutexFree)
  }

  predicate IsAsleep(t: Thread)
  {
    match t
    case Reader(pc, _, _, _) => pc.Asleep?
    case Writer(pc, _) => pc.Asleep?
  }

  function Woken(t: Thread): Thread
  {
    if !IsAsleep(t) then t
    else match t
      case Reader(_, _, _, _) => t.(rpc := ReaderPc.Relock)
      case Writer(_, _) => t.(wpc := WriterPc.Relock)
  }

  /** `pthread_cond_broadcast` */
  function WakeAll(threads: map<int, Thread>): map<int, Thread>
  {
    map t | t in threads :: Woken(threads[t])
  }

  function ReaderNext(s: State, t: int): State
    requires Enabled(s, t) && s.threads[t].Reader?
  {
    var r := s.threads[t];
    match r.rpc
    case Idle => s.(mutexFree := false, threads := s.threads[t := r.(rpc := TestQueue)])
    case TestQueue =>
      if s.writersInQueue != 0 then
        s.(mutexFree := true, threads := s.threads[t := r.(rpc := ReaderPc.Asleep)])
      else
        s.(threads := s.threads[t := r.(rpc := ReaderPc.Enter)])
    case Asleep => s.(threads := s.threads[t := Woken(r)])
    case Relock => s.(mutexFree := false, threads := s.threads[t := r.(rpc := TestQueue)])
    case Enter => s.(readers := s.readers + 1, threads := s.threads[t := r.(rpc := ReaderPc.Unlock)])
    case Unlock => s.(mutexFree := true, threads := s.threads[t := r.(rpc := Scan, i := 0, count := 0)])
    case Scan =>
      if r.i < TABLE_SIZE then
        var hit := s.table[r.i] % r.div == 0;
        s.(threads := s.threads[t := r.(i := r.i + 1, count := if hit then r.count + 1 else r.count)])
      else
        s.(threads := s.threads[t := r.(rpc := ReaderPc.LockOut)])
    case LockOut => s.(mutexFree := false, threads := s.threads[t := r.(rpc := ReaderPc.Depart)])
    case Depart => s.(readers := s.readers - 1, threads := s.threads[t := r.(rpc := ReaderPc.Broadcast)])
    case Broadcast => s.(threads := WakeAll(s.threads)[t := r.(rpc := ReaderPc.UnlockOut)])
    case UnlockOut => s.(mutexFree := true, threads := s.threads[t := r.(rpc := ReaderPc.Idle)])
  }

  function WriterNext(s: State, t: int, roll: nat, roll': nat): State
    requires Enabled(s, t) && s.threads[t].Writer?
  {
    var w := s.threads[t];
    match w.wpc
    case Idle => s.(mutexFree := false, threads := s.threads[t := w.(wpc := Register)])
    case Register => s.(writersInQueue := s.writersInQueue + 1, threads := s.threads[t := w.(wpc := TestBusy)])
    case TestBusy =>
      if s.readers != 0 || s.writers != 0 then
        s.(mutexFree := true, threads := s.threads[t := w.(wpc := WriterPc.Asleep)])
      else
        s.(threads := s.threads[t := w.(wpc := WriterPc.Enter)])
    case Asleep => s.(threads := s.threads[t := Woken(w)])
    case Relock => s.(mutexFree := false, threads := s.threads[t := w.(wpc := TestBusy)])
    case Enter => s.(writers := s.writers + 1, threads := s.threads[t := w.(wpc := WriterPc.Unlock)])
    case Unlock => s.(mutexFree := true, threads := s.threads[t := w.(wpc := Draw)])
    case Draw => s.(threads := s.threads[t := w.(wpc := Update, left := roll % TABLE_SIZE / 10 + 1)])
    case Update =>
      if w.left > 0 then
        s.(table := s.table[roll % TABLE_SIZE := roll' % 999 + 1],
           threads := s.threads[t := w.(left := w.left - 1)])
      else
        s.(threads := s.threads[t := w.(wpc := WriterPc.LockOut)])
    case LockOut => s.(mutexFree := false, threads := s.threads[t := w.(wpc := WriterPc.Depart)])
    case Depart => s.(writers := s.writers - 1, threads := s.threads[t := w.(wpc := Deregister)])
    case Deregister =>
      s.(writersInQueue := s.writersInQueue - 1, threads := s.threads[t := w.(wpc := WriterPc.Broadcast)])
    case Broadcast => s.(threads := WakeAll(s.threads)[t := w.(wpc := WriterPc.UnlockOut)])
    case UnlockOut => s.(mutexFree := true, threads := s.threads[t := w.(wpc := WriterPc.Idle)])
  }

  /** A thread that is scheduled while it waits for the mutex does not move. */
  function Move(s: State, turn: Turn): State
  {
    if !Enabled(s, turn.thread) then s
    else if s.threads[turn.thread].Reader? then ReaderNext(s, turn.thread)
    else WriterNext(s, turn.thread, turn.roll, turn.roll')
  }

  function Exec(s: State, schedule: seq<Turn>): State
    decreases |schedule|
  {
    if schedule == [] then s else Exec(Move(s, schedule[0]), schedule[1..])
  }

  lemma {:induction false} ExecConcat(s: State, a: seq<Turn>, b: seq<Turn>)
    ensures Exec(s, a + b) == Exec(Exec(s, a), b)
    decreases |a|
  {
    if a == [] {
      assert a + b == b;
    } else {
      assert (a + b)[1..] == a[1..] + b;
      ExecConcat(Move(s, a[0]), a[1..], b);
    }
  }

  // ---------- who is where ----------

  /** Counted in `readers`. */
  predicate IsInside(t: Thread)
  {
    t.Reader? && (t.rpc.Unlock? || t.rpc.Scan? || t.rpc.LockOut? || t.rpc.Depart?)
  }

  /** Counted in `writers`; among these are the threads that may write the table. */
  predicate IsWriting(t: Thread)
  {
    t.Writer? && (t.wpc.Unlock? || t.wpc.Draw? || t.wpc.Update? || t.wpc.LockOut? || t.wpc.Depart?)
  }

  /** Counted in `writersInQueue`. */
  predicate IsRegistered(t: Thread)
  {
    || IsWriting(t)
    || (t.Writer? && (t.wpc.TestBusy? || t.wpc.Asleep? || t.wpc.Relock? || t.wpc.Enter? || t.wpc.Deregister?))
  }

  /** Between taking the mutex and giving it up. */
  predicate HoldsMutex(t: Thread)
  {
    match t
    case Reader(pc, _, _, _) =>
      pc.TestQueue? || pc.Enter? || pc.Unlock? || pc.Depart? || pc.Broadcast? || pc.UnlockOut?
    case Writer(pc, _) =>
      || pc.Register? || pc.TestBusy? || pc.Enter? || pc.Unlock?
      || pc.Depart? || pc.Deregister? || pc.Broadcast? || pc.UnlockOut?
  }

  /** Changed a counter and will broadcast before giving up the mutex. */
  predicate WillBroadcast(t: Thread)
  {
    match t
    case Reader(pc, _, _, _) => pc.Broadcast?
    case Writer(pc, _) => pc.Deregister? || pc.Broadcast?
  }

  ghost function Inside(s: State): set<int>
  {
    set t | t in s.threads && IsInside(s.threads[t])
  }

  ghost function Writing(s: State): set<int>
  {
    set t | t in s.threads && IsWriting(s.threads[t])
  }

  ghost function Registered(s: State): set<int>
  {
    set t | t in s.threads && IsRegistered(s.threads[t])
  }
}
