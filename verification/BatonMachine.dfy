/**
 `rFunc` and `wFunc` of cw09/zad1b run in place on shared counters, semaphores and a
 table. Each step is proved to be a step of the transition system.
 */
module BatonMachine {
  import opened Table
  import opened Baton
  import opened BatonTheorems
  import BatonInvariant

  class Program {
    var readers: int
    var writers: int
    var semCheck: nat
    var semWait: nat
    var semWriter: nat
    const table: array<int>
    var threads: map<int, Thread>

    ghost predicate Valid()
      reads this
    {
      table.Length == TABLE_SIZE
    }

    ghost function View(): State
      requires Valid()
      reads this, table
    {
      State(readers, writers, semCheck, semWait, semWriter, table[..], threads)
    }

    constructor (table: array<int>, threads: map<int, Thread>)
      requires table.Length == TABLE_SIZE
      requires forall t :: t in threads ==> IsIdle(threads[t])
      ensures Valid() && IsInit(View()) && this.table == table && this.threads == threads
    {
      readers, writers := 0, 0;
      semWait, semWriter, semCheck := 0, 1, 1;
      this.table := table;
      this.threads := threads;
    }

    method ReaderGoto(t: int, pc: ReaderPc)
      requires t in threads && threads[t].Reader?
      modifies this`threads
      ensures threads == old(threads)[t := old(threads)[t].(rpc := pc)]
    {
      threads := threads[t := threads[t].(rpc := pc)];
    }

    method WriterGoto(t: int, pc: WriterPc)
      requires t in threads && threads[t].Writer?
      modifies this`threads
      ensures threads == old(threads)[t := old(threads)[t].(wpc := pc)]
    {
      threads := threads[t := threads[t].(wpc := pc)];
    }

    /** The next step of `rFunc`; `moved` is false when the thread is blocked. */
    method ReaderStep(t: int) returns (moved: bool)
      requires Valid() && t in threads && threads[t].Reader?
      modifies this
      ensures Valid()
      ensures moved == Enabled(old(View()), t)
      ensures View() == if moved then ReaderNext(old(View()), t) else old(View())
    {
      var r := threads[t];
      match r.rpc {
        case Idle =>
          if semCheck == 0 { return false; }
          semCheck := semCheck - 1;
          ReaderGoto(t, Enter);
        case Enter =>
          readers := readers + 1;
          ReaderGoto(t, LeaveCheck);
        case LeaveCheck =>
          semCheck := semCheck + 1;
          threads := threads[t := r.(rpc := Scan, i := 0, count := 0)];
        case Scan =>
          if r.i < TABLE_SIZE {
            var count := r.count;
            if table[r.i] % r.div == 0 { count := count + 1; }
            threads := threads[t := r.(i := r.i + 1, count := count)];
          } else {
            ReaderGoto(t, ExitCheck);
          }
        case ExitCheck =>
          if semCheck == 0 { return false; }
          semCheck := semCheck - 1;
          ReaderGoto(t, Depart);
        case Depart =>
          readers := readers - 1;
          ReaderGoto(t, Decide);
        case Decide =>
          ReaderGoto(t, if readers == 0 && writers != 0 then HandOver else Release);
        case HandOver =>
          semWait := semWait + 1;
          ReaderGoto(t, ReaderPc.Idle);
        case Release =>
          semCheck := semCheck + 1;
          ReaderGoto(t, ReaderPc.Idle);
      }
      return true;
    }

    /** The next step of `wFunc`; `moved` is false when the thread is blocked. */
    method WriterStep(t: int, roll: nat, roll': nat) returns (moved: bool)
      requires Valid() && t in threads && threads[t].Writer?
      modifies this, table
      ensures Valid()
      ensures moved == Enabled(old(View()), t)
      ensures View() == if moved then WriterNext(old(View()), t, roll, roll') else old(View())
    {
      var w := threads[t];
      match w.wpc {
        case Idle =>
          if semWriter == 0 { return false; }
          semWriter := semWriter - 1;
          WriterGoto(t, WaitCheck);
        case WaitCheck =>
          if semCheck == 0 { return false; }
          semCheck := semCheck - 1;
          WriterGoto(t, Announce);
        case Announce =>
          writers := writers + 1;
          WriterGoto(t, TestReaders);
        case TestReaders =>
          WriterGoto(t, if readers > 0 then YieldCheck else Draw);
        case YieldCheck =>
          semCheck := semCheck + 1;
          WriterGoto(t, AwaitBaton);
        case AwaitBaton =>
          if semWait == 0 { return false; }
          semWait := semWait - 1;
          WriterGoto(t, Draw);
        case Draw =>
          threads := threads[t := w.(wpc := Update, left := roll % TABLE_SIZE / 10 + 1)];
        case Update =>
          if w.left > 0 {
            table[roll % TABLE_SIZE] := roll' % 999 + 1;
            threads := threads[t := w.(left := w.left - 1)];
          } else {
            WriterGoto(t, Retire);
          }
        case Retire =>
          writers := writers - 1;
          WriterGoto(t, PostCheck);
        case PostCheck =>
          semCheck := semCheck + 1;
          WriterGoto(t, PostTurn);
        case PostTurn =>
          semWriter := semWriter + 1;
          WriterGoto(t, WriterPc.Idle);
      }
      return true;
    }

    /** Any interleaving of the threads. */
    method Run(schedule: seq<Turn>)
      requires Valid()
      modifies this, table
      ensures Valid()
      ensures View() == Exec(old(View()), schedule)
    {
      var i := 0;
      while i < |schedule|
        invariant 0 <= i <= |schedule| && Valid()
        invariant Exec(View(), schedule[i..]) == Exec(old(View()), schedule)
      {
        var turn := schedule[i];
        if turn.thread in threads {
          var moved: bool;
          if threads[turn.thread].Reader? {
            moved := ReaderStep(turn.thread);
          } else {
            moved := WriterStep(turn.thread, turn.roll, turn.roll');
          }
        }
        assert schedule[i..][1..] == schedule[i + 1..];
        i := i + 1;
      }
    }
  }

  /** Start the threads over a table, let any schedule run, and look at the shared memory. */
  method RunProgram(table: array<int>, threads: map<int, Thread>, schedule: seq<Turn>) returns (program: Program)
    requires table.Length == TABLE_SIZE && InRange(table[..])
    requires forall t :: t in threads ==> IsIdle(threads[t])
    modifies table
    ensures program.Valid() && program.table == table && program.threads.Keys == threads.Keys
    ensures program.semCheck + program.semWait
            + |set t | t in program.threads && HoldsBaton(program.threads[t])| == 1
    ensures program.readers == |set t | t in program.threads && IsInside(program.threads[t])|
    ensures program.writers == |set t | t in program.threads && IsAnnounced(program.threads[t])| <= 1
    ensures forall w, t :: w in program.threads && t in program.threads && w != t && IsWriting(program.threads[w])
              ==> !IsInside(program.threads[t]) && !IsWriting(program.threads[t])
    ensures forall r :: r in program.threads && program.threads[r].Reader? && program.threads[r].rpc.ExitCheck?
              ==> program.threads[r].count == CountDivisible(table[..], program.threads[r].div)
    ensures InRange(table[..])
  {
    program := new Program(table, threads);
    ghost var s0 := program.View();
    program.Run(schedule);
    ghost var s := program.View();
    assert s == Exec(s0, schedule);
    SameThreads(s0, schedule);
    OneBaton(s0, schedule);
    CountersAreExact(s0, schedule);
    TableStaysInRange(s0, schedule);
    forall w, t | w in s.threads && t in s.threads && w != t && IsWriting(s.threads[w])
      ensures !IsInside(s.threads[t]) && !IsWriting(s.threads[t])
    {
      MutualExclusion(s0, schedule, w, t);
    }
    forall r | r in s.threads && s.threads[r].Reader? && s.threads[r].rpc.ExitCheck?
      ensures s.threads[r].count == CountDivisible(s.table, s.threads[r].div)
    {
      FinishedScanIsExact(s0, schedule, r);
    }
  }
}
