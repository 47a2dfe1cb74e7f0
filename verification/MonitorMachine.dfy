/**
 `rFunc` and `wFunc` of cw09/zad1a run in place on shared counters, a mutex, a
 condition variable and a table. Each step is proved to be a step of the transition
 system.
 */
module MonitorMachine {
  import opened Table
  import opened Monitor
  import opened MonitorTheorems

  class Program {
    var readers: int
    var writers: int
    var writersInQueue: int
    var mutexFree: bool
    const table: array<int>
    var threads: map<int, Thread>

    ghost predicate Valid()
      reads this
    {
      table.Length == TABLE_SIZE
    }

    ghost function View(): State
      requires Valid()
      reads this, table
    {
      State(readers, writers, writersInQueue, mutexFree, table[..], threads)
    }

    constructor (table: array<int>, threads: map<int, Thread>)
      requires table.Length == TABLE_SIZE
      requires forall t :: t in threads ==> IsIdle(threads[t])
      ensures Valid() && IsInit(View()) && this.table == table && this.threads == threads
    {
      readers, writers, writersInQueue := 0, 0, 0;
      mutexFree := true;
      this.table := table;
      this.threads := threads;
    }

    method ReaderGoto(t: int, pc: ReaderPc)
      requires t in threads && threads[t].Reader?
      modifies this`threads
      ensures threads == old(threads)[t := old(threads)[t].(rpc := pc)]
    {
      threads := threads[t := threads[t].(rpc := pc)];
    }

    method WriterGoto(t: int, pc: WriterPc)
      requires t in threads && threads[t].Writer?
      modifies this`threads
      ensures threads == old(threads)[t := old(threads)[t].(wpc := pc)]
    {
      threads := threads[t := threads[t].(wpc := pc)];
    }

    /** The next step of `rFunc`; `moved` is false when the thread waits for the mutex. */
    method ReaderStep(t: int) returns (moved: bool)
      requires Valid() && t in threads && threads[t].Reader?
      modifies this
      ensures Valid()
      ensures moved == Enabled(old(View()), t)
      ensures View() == if moved then ReaderNext(old(View()), t) else old(View())
    {
      var r := threads[t];
      if WantsMutex(r) {
        if !mutexFree { return false; }
        mutexFree := false;
      }
      match r.rpc {
        case Idle =>
          ReaderGoto(t, TestQueue);
        case TestQueue =>
          if writersInQueue != 0 {
            mutexFree := true;
            ReaderGoto(t, ReaderPc.Asleep);
          } else {
            ReaderGoto(t, ReaderPc.Enter);
          }
        case Asleep =>
          ReaderGoto(t, ReaderPc.Relock);
        case Relock =>
          ReaderGoto(t, TestQueue);
        case Enter =>
          readers := readers + 1;
          ReaderGoto(t, ReaderPc.Unlock);
        case Unlock =>
          mutexFree := true;
          threads := threads[t := r.(rpc := Scan, i := 0, count := 0)];
        case Scan =>
          if r.i < TABLE_SIZE {
            var count := r.count;
            if table[r.i] % r.div == 0 { count := count + 1; }
            threads := threads[t := r.(i := r.i + 1, count := count)];
          } else {
            ReaderGoto(t, ReaderPc.LockOut);
          }
        case LockOut =>
          ReaderGoto(t, ReaderPc.Depart);
        case Depart =>
          readers := readers - 1;
          ReaderGoto(t, ReaderPc.Broadcast);
        case Broadcast =>
          threads := WakeAll(threads);
          ReaderGoto(t, ReaderPc.UnlockOut);
        case UnlockOut =>
          mutexFree := true;
          ReaderGoto(t, ReaderPc.Idle);
      }
      return true;
    }

    /** The next step of `wFunc`; `moved` is false when the thread waits for the mutex. */
    method WriterStep(t: int, roll: nat, roll': nat) returns (moved: bool)
      requires Valid() && t in threads && threads[t].Writer?
      modifies this, table
      ensures Valid()
      ensures moved == Enabled(old(View()), t)
      ensures View() == if moved then WriterNext(old(View()), t, roll, roll') else old(View())
    {
      var w := threads[t];
      if WantsMutex(w) {
        if !mutexFree { return false; }
        mutexFree := false;
      }
      match w.wpc {
        case Idle =>
          WriterGoto(t, Register);
        case Register =>
          writersInQueue := writersInQueue + 1;
          WriterGoto(t, TestBusy);
        case TestBusy =>
          if readers != 0 || writers != 0 {
            mutexFree := true;
            WriterGoto(t, WriterPc.Asleep);
          } else {
            WriterGoto(t, WriterPc.Enter);
          }
        case Asleep =>
          WriterGoto(t, WriterPc.Relock);
        case Relock =>
          WriterGoto(t, TestBusy);
        case Enter =>
          writers := writers + 1;
          WriterGoto(t, WriterPc.Unlock);
        case Unlock =>
          mutexFree := true;
          WriterGoto(t, Draw);
        case Draw =>
          threads := threads[t := w.(wpc := Update, left := roll % TABLE_SIZE / 10 + 1)];
        case Update =>
          if w.left > 0 {
            table[roll % TABLE_SIZE] := roll' % 999 + 1;
            threads := threads[t := w.(left := w.left - 1)];
          } else {
            WriterGoto(t, WriterPc.LockOut);
          }
        case LockOut =>
          WriterGoto(t, WriterPc.Depart);
        case Depart =>
          writers := writers - 1;
          WriterGoto(t, Deregister);
        case Deregister =>
          writersInQueue := writersInQueue - 1;
          WriterGoto(t, WriterPc.Broadcast);
        case Broadcast =>
          threads := WakeAll(threads);
          WriterGoto(t, WriterPc.UnlockOut);
        case UnlockOut =>
          mutexFree := true;
          WriterGoto(t, WriterPc.Idle);
      }
      return true;
    }

    /** Any interleaving of the threads. */
    method Run(schedule: seq<Turn>)
      requires Valid()
      modifies this, table
      ensures Valid()
      ensures View() == Exec(old(View()), schedule)
    {
      var i := 0;
      while i < |schedule|
        invariant 0 <= i <= |schedule| && Valid()
        invariant Exec(View(), schedule[i..]) == Exec(old(View()), schedule)
      {
        var turn := schedule[i];
        if turn.thread in threads {
          var moved: bool;
          if threads[turn.thread].Reader? {
            moved := ReaderStep(turn.thread);
          } else {
            moved := WriterStep(turn.thread, turn.roll, turn.roll');
          }
        }
        assert schedule[i..][1..] == schedule[i + 1..];
        i := i + 1;
      }
    }
  }

  /** Start the threads over a table, let any schedule run, and look at the shared memory. */
  method RunProgram(table: array<int>, threads: map<int, Thread>, schedule: seq<Turn>) returns (program: Program)
    requires table.Length == TABLE_SIZE && InRange(table[..])
    requires forall t :: t in threads ==> IsIdle(threads[t])
    modifies table
    ensures program.Valid() && program.table == table && program.threads.Keys == threads.Keys
    ensures program.readers == |set t | t in program.threads && IsInside(program.threads[t])|
    ensures program.writers == |set t | t in program.threads && IsWriting(program.threads[t])| <= 1
    ensures program.writersInQueue == |set t | t in program.threads && IsRegistered(program.threads[t])|
    ensures program.writers > 0 ==> program.readers == 0
    ensures forall t :: program.mutexFree && t in program.threads && IsAsleep(program.threads[t])
              ==> if program.threads[t].Reader? then program.writersInQueue != 0
                  else program.readers != 0 || program.writers != 0
    ensures forall r :: r in program.threads && program.threads[r].Reader? && program.threads[r].rpc.LockOut?
              ==> program.threads[r].count == CountDivisible(table[..], program.threads[r].div)
    ensures InRange(table[..])
  {
    program := new Program(table, threads);
    ghost var s0 := program.View();
    program.Run(schedule);
    ghost var s := program.View();
    assert s == Exec(s0, schedule);
    SameThreads(s0, schedule);
    CountersAndExclusion(s0, schedule);
    TableStaysInRange(s0, schedule);
    forall t | t in s.threads && s.mutexFree && IsAsleep(s.threads[t])
      ensures MustWait(s, s.threads[t])
    {
      NoLostWakeup(s0, schedule, t);
    }
    forall r | r in s.threads && s.threads[r].Reader? && s.threads[r].rpc.LockOut?
      ensures s.threads[r].count == CountDivisible(s.table, s.threads[r].div)
    {
      FinishedScanIsExact(s0, schedule, r);
    }
  }
}
