/**
 What the monitor guarantees in every run: exclusion, no lost wakeup, writers before
 readers, scans of a single table value, and no thread that is stuck for good.
 */
module MonitorTheorems {
  import opened Sums
  import opened Table
  import opened Threads
  import opened Monitor
  import opened MonitorInvariant

  lemma Reachable(s0: State, schedule: seq<Turn>) returns (owner: Owner)
    requires IsInit(s0)
    ensures InvWith(Exec(s0, schedule), owner)
  {
    InitInv(s0);
    RunKeepsInv(s0, schedule);
    owner :| InvWith(Exec(s0, schedule), owner);
  }

  // ---------- exclusion ----------

  /** The counters are exact, there is at most one active writer, and none beside a reader. */
  lemma CountersAndExclusion(s0: State, schedule: seq<Turn>)
    requires IsInit(s0)
    ensures var s := Exec(s0, schedule);
      && s.readers == |Inside(s)| && s.writers == |Writing(s)| && s.writersInQueue == |Registered(s)|
      && |Writing(s)| <= 1
      && (Writing(s) != {} ==> Inside(s) == {})
  {
    var owner := Reachable(s0, schedule);
    var s := Exec(s0, schedule);
    if Inside(s) != {} {
      assert s.readers > 0;
    }
  }

  // ---------- wakeups ----------

  /** The condition of the loop round `pthread_cond_wait`. */
  predicate MustWait(s: State, t: Thread)
  {
    match t
    case Reader(_, _, _, _) => s.writersInQueue != 0
    case Writer(_, _) => s.readers != 0 || s.writers != 0
  }

  /** Whenever the mutex is free, whoever sleeps still has a reason to. */
  lemma NoLostWakeup(s0: State, schedule: seq<Turn>, t: int)
    requires IsInit(s0)
    requires var s := Exec(s0, schedule); s.mutexFree && t in s.threads && IsAsleep(s.threads[t])
    ensures var s := Exec(s0, schedule); MustWait(s, s.threads[t])
  {
    var owner := Reachable(s0, schedule);
    var s := Exec(s0, schedule);
    assert ThreadInv(s, owner, s.threads[t]);
  }

  /** Somewhere between the loops' heads and yet not asleep. */
  predicate IsBusy(t: Thread) { !IsIdle(t) && !IsAsleep(t) }

  lemma SleepersAreWatched(s: State, owner: Owner, t: int)
    requires InvWith(s, owner) && s.mutexFree && t in s.threads && IsAsleep(s.threads[t])
    ensures exists u :: u in s.threads && IsBusy(s.threads[u])
  {
    assert ThreadInv(s, owner, s.threads[t]);
    if s.readers > 0 {
      HasMember(Inside(s));
      var u :| u in Inside(s);
      assert IsBusy(s.threads[u]);
    } else if s.writers > 0 {
      HasMember(Writing(s));
      var u :| u in Writing(s);
      assert IsBusy(s.threads[u]);
    } else {
      HasMember(Registered(s));
      var u :| u in Registered(s);
      assert ThreadInv(s, owner, s.threads[u]);
      assert IsBusy(s.threads[u]);
    }
  }

  /** Nobody sleeps unless some thread is on its way, so the sleepers are never the only ones left. */
  lemma NeverAllAsleep(s0: State, schedule: seq<Turn>, t: int)
    requires IsInit(s0)
    requires var s := Exec(s0, schedule); t in s.threads && IsAsleep(s.threads[t])
    ensures var s := Exec(s0, schedule); exists u :: u in s.threads && IsBusy(s.threads[u])
  {
    var owner := Reachable(s0, schedule);
    var s := Exec(s0, schedule);
    if s.mutexFree {
      SleepersAreWatched(s, owner, t);
    } else {
      assert IsBusy(s.threads[owner.id]);
    }
  }

  // ---------- writers before readers ----------

  ghost predicate WriterRegisteredThroughout(s: State, schedule: seq<Turn>)
    decreases |schedule|
  {
    s.writersInQueue > 0 && (schedule == [] || WriterRegisteredThroughout(Move(s, schedule[0]), schedule[1..]))
  }

  lemma NoReaderEnters(s: State, turn: Turn, r: int)
    requires Inv(s) && s.writersInQueue > 0
    requires var s' := Move(s, turn); r in s'.threads && IsInside(s'.threads[r])
    ensures r in s.threads && IsInside(s.threads[r])
  {
    if Enabled(s, turn.thread) {
      var owner :| InvWith(s, owner);
      OthersAtMostWake(s, turn);
      assert ThreadInv(s, owner, s.threads[turn.thread]);
    }
  }

  lemma {:induction false} NoReaderEntersLater(s: State, schedule: seq<Turn>, r: int)
    requires Inv(s) && WriterRegisteredThroughout(s, schedule)
    requires var t := Exec(s, schedule); r in t.threads && IsInside(t.threads[r])
    ensures r in s.threads && IsInside(s.threads[r])
    decreases |schedule|
  {
    if schedule != [] {
      MoveKeepsInv(s, schedule[0]);
      NoReaderEntersLater(Move(s, schedule[0]), schedule[1..], r);
      NoReaderEnters(s, schedule[0], r);
    }
  }

  /** From the time a writer registers until no writer is registered, no reader gets in. */
  lemma WritersComeFirst(s0: State, past: seq<Turn>, schedule: seq<Turn>)
    requires IsInit(s0) && WriterRegisteredThroughout(Exec(s0, past), schedule)
    ensures Inside(Exec(Exec(s0, past), schedule)) <= Inside(Exec(s0, past))
  {
    InitInv(s0);
    RunKeepsInv(s0, past);
    var s := Exec(s0, past);
    forall r | r in Inside(Exec(s, schedule))
      ensures r in Inside(s)
    {
      NoReaderEntersLater(s, schedule, r);
    }
  }

  /** The table changes only by a writer's update, one cell at a time, to a value in 1..999. */
  lemma OnlyWritersChangeTheTable(s: State, turn: Turn, k: nat)
    requires k < TABLE_SIZE && Move(s, turn).table[k] != s.table[k]
    ensures turn.thread in s.threads && IsWriting(s.threads[turn.thread])
    ensures 1 <= Move(s, turn).table[k] <= 999
    ensures forall l :: 0 <= l < TABLE_SIZE && l != k ==> Move(s, turn).table[l] == s.table[l]
    ensures var after := Move(s, turn).threads;
      && turn.thread in after && after[turn.thread].Writer?
      && after[turn.thread].left + 1 == s.threads[turn.thread].left
  {
  }

  /** A table that starts in 1..999, as `randTable` makes it, stays there in every run. */
  lemma {:induction false} TableStaysInRange(s: State, schedule: seq<Turn>)
    requires InRange(s.table)
    ensures InRange(Exec(s, schedule).table)
    decreases |schedule|
  {
    if schedule != [] {
      TableStaysInRange(Move(s, schedule[0]), schedule[1..]);
    }
  }

  // ---------- a scan sees one table ----------

  ghost predicate StaysInside(s: State, r: int, schedule: seq<Turn>)
    decreases |schedule|
  {
    && r in s.threads && IsInside(s.threads[r])
    && (schedule == [] || StaysInside(Move(s, schedule[0]), r, schedule[1..]))
  }

  lemma InsideFreezesTable(s: State, r: int, turn: Turn)
    requires Inv(s) && r in s.threads && IsInside(s.threads[r])
    ensures Move(s, turn).table == s.table
  {
    var owner :| InvWith(s, owner);
    CountsArePositive(s, r);
    if Enabled(s, turn.thread) {
      CountsArePositive(s, turn.thread);
    }
  }

  lemma {:induction false} TableFrozen(s: State, r: int, schedule: seq<Turn>)
    requires Inv(s) && StaysInside(s, r, schedule)
    ensures forall k :: 0 <= k <= |schedule| ==> Exec(s, schedule[..k]).table == s.table
    decreases |schedule|
  {
    if schedule != [] {
      var m := Move(s, schedule[0]);
      InsideFreezesTable(s, r, schedule[0]);
      MoveKeepsInv(s, schedule[0]);
      TableFrozen(m, r, schedule[1..]);
      forall k | 0 <= k <= |schedule|
        ensures Exec(s, schedule[..k]).table == s.table
      {
        if k > 0 {
          assert schedule[..k][1..] == schedule[1..][..k - 1];
        }
      }
    }
  }

  lemma SameReaderStep(s: State, r: int, turn: Turn)
    requires r in s.threads && s.threads[r].Reader?
    ensures var t := Move(s, turn); r in t.threads && t.threads[r].Reader? && t.threads[r].div == s.threads[r].div
  {
    if Enabled(s, turn.thread) {
      OthersAtMostWake(s, turn);
    }
  }

  lemma {:induction false} SameReader(s: State, r: int, schedule: seq<Turn>)
    requires r in s.threads && s.threads[r].Reader?
    ensures var t := Exec(s, schedule);
      r in t.threads && t.threads[r].Reader? && t.threads[r].div == s.threads[r].div
    decreases |schedule|
  {
    if schedule != [] {
      SameReaderStep(s, r, schedule[0]);
      SameReader(Move(s, schedule[0]), r, schedule[1..]);
    }
  }

  /**
   A reader that has entered and scanned to the end, however the other threads were
   interleaved with its cells: the table was the same all along, and the reader's
   count is the number of its entries divisible by `div`.
   */
  lemma ScanSeesOneTable(s0: State, past: seq<Turn>, r: int, scan: seq<Turn>)
    requires IsInit(s0)
    requires StaysInside(Exec(s0, past), r, scan)
    requires var t := Exec(Exec(s0, past), scan);
      r in t.threads && t.threads[r].Reader? && t.threads[r].rpc.LockOut?
    ensures var s := Exec(s0, past);
      && r in s.threads && s.threads[r].Reader?
      && (forall k :: 0 <= k <= |scan| ==> Exec(s, scan[..k]).table == s.table)
      && Exec(s, scan).threads[r].count == CountDivisible(s.table, s.threads[r].div)
  {
    InitInv(s0);
    RunKeepsInv(s0, past);
    var s := Exec(s0, past);
    TableFrozen(s, r, scan);
    assert scan[..|scan|] == scan;
    SameReader(s, r, scan);
    RunKeepsInv(s, scan);
    var t := Exec(s, scan);
    var owner :| InvWith(t, owner);
    assert ThreadInv(t, owner, t.threads[r]);
  }

  /** A reader that has finished its scan and not yet left still has the exact count of the table as it is. */
  lemma FinishedScanIsExact(s0: State, schedule: seq<Turn>, r: int)
    requires IsInit(s0)
    requires var s := Exec(s0, schedule); r in s.threads && s.threads[r].Reader? && s.threads[r].rpc.LockOut?
    ensures var s := Exec(s0, schedule); s.threads[r].count == CountDivisible(s.table, s.threads[r].div)
  {
    var owner := Reachable(s0, schedule);
    var s := Exec(s0, schedule);
    assert ThreadInv(s, owner, s.threads[r]);
  }

  // ---------- no thread is stuck ----------

  /** A busy or sleeping thread broadcasts once before it is idle again. */
  function Owes(t: Thread): nat
  {
    match t
    case Reader(pc, _, _, _) => if pc.Idle? || pc.UnlockOut? then 0 else 1
    case Writer(pc, _) => if pc.Idle? || pc.UnlockOut? then 0 else 1
  }

  /** How far a thread is from being idle, or from going to sleep. */
  function Distance(t: Thread): nat
  {
    match t
    case Reader(pc, _, i, _) =>
      (match pc
       case Idle => 0
       case UnlockOut => 1
       case Broadcast => 2
       case Depart => 3
       case LockOut => 4
       case Scan => 5 + (if i < TABLE_SIZE then TABLE_SIZE - i else 0)
       case Unlock => 6 + TABLE_SIZE
       case Enter => 7 + TABLE_SIZE
       case Asleep => 7 + TABLE_SIZE
       case TestQueue => 8 + TABLE_SIZE
       case Relock => 9 + TABLE_SIZE)
    case Writer(pc, left) =>
      (match pc
       case Idle => 0
       case UnlockOut => 1
       case Broadcast => 2
       case Deregister => 3
       case Depart => 4
       case LockOut => 5
       case Update => 6 + left
       case Draw => 17
       case Unlock => 18
       case Enter => 19
       case Asleep => 19
       case TestBusy => 20
       case Relock => 21
       case Register => 22)
  }

  ghost predicate Quiet(s: State)
  {
    forall t :: t in s.threads ==> IsIdle(s.threads[t])
  }

  predicate Broadcasting(t: Thread)
  {
    match t
    case Reader(pc, _, _, _) => pc.Broadcast?
    case Writer(pc, _) => pc.Broadcast?
  }

  lemma {:induction false} SameSum(m: map<int, Thread>, m': map<int, Thread>)
    requires m.Keys == m'.Keys && forall t :: t in m ==> Owes(m[t]) == Owes(m'[t])
    ensures Sum(m, Owes) == Sum(m', Owes)
    decreases m.Keys
  {
    if exists t :: t in m {
      var t :| t in m;
      SumSplit(m, Owes, t);
      SumSplit(m', Owes, t);
      SameSum(m - {t}, m' - {t});
    } else {
      SumZero(m, Owes);
      SumZero(m', Owes);
    }
  }

  lemma BroadcastLowers(s: State, turn: Turn)
    requires Enabled(s, turn.thread) && Broadcasting(s.threads[turn.thread])
    ensures Sum(Move(s, turn).threads, Owes) < Sum(s.threads, Owes)
  {
    var t := turn.thread;
    var s' := Move(s, turn);
    var c := s'.threads[t];
    SameSum(s.threads, WakeAll(s.threads));
    assert s'.threads == WakeAll(s.threads)[t := c];
    SumUpdate(WakeAll(s.threads), Owes, t, c);
  }

  lemma ReaderLowers(s: State, t: int)
    requires Enabled(s, t) && s.threads[t].Reader? && IsBusy(s.threads[t]) && !Broadcasting(s.threads[t])
    ensures var s' := ReaderNext(s, t);
      && t in s'.threads && s'.threads == s.threads[t := s'.threads[t]]
      && Distance(s'.threads[t]) < Distance(s.threads[t]) && Owes(s'.threads[t]) <= Owes(s.threads[t])
  {
  }

  lemma WriterLowers(s: State, t: int, roll: nat, roll': nat)
    requires Enabled(s, t) && s.threads[t].Writer? && IsBusy(s.threads[t]) && !Broadcasting(s.threads[t])
    ensures var s' := WriterNext(s, t, roll, roll');
      && t in s'.threads && s'.threads == s.threads[t := s'.threads[t]]
      && Distance(s'.threads[t]) < Distance(s.threads[t]) && Owes(s'.threads[t]) <= Owes(s.threads[t])
  {
  }

  lemma StepLowers(s: State, turn: Turn)
    requires Enabled(s, turn.thread) && IsBusy(s.threads[turn.thread]) && !Broadcasting(s.threads[turn.thread])
    ensures var s', t := Move(s, turn), turn.thread;
      && t in s'.threads && s'.threads == s.threads[t := s'.threads[t]]
      && Distance(s'.threads[t]) < Distance(s.threads[t]) && Owes(s'.threads[t]) <= Owes(s.threads[t])
  {
    if s.threads[turn.thread].Reader? { ReaderLowers(s, turn.thread); }
    else { WriterLowers(s, turn.thread, turn.roll, turn.roll'); }
  }

  lemma BusyThreadLowers(s: State, turn: Turn)
    requires Enabled(s, turn.thread) && IsBusy(s.threads[turn.thread])
    ensures var s' := Move(s, turn);
      || Sum(s'.threads, Owes) < Sum(s.threads, Owes)
      || (Sum(s'.threads, Owes) == Sum(s.threads, Owes) && Sum(s'.threads, Distance) < Sum(s.threads, Distance))
  {
    var t := turn.thread;
    if Broadcasting(s.threads[t]) {
      BroadcastLowers(s, turn);
    } else {
      StepLowers(s, turn);
      SumUpdate(s.threads, Owes, t, Move(s, turn).threads[t]);
      SumUpdate(s.threads, Distance, t, Move(s, turn).threads[t]);
    }
  }

  /** Unless all threads are idle, one that is neither idle nor asleep can move. */
  lemma NextToMove(s: State, owner: Owner) returns (t: int)
    requires InvWith(s, owner) && !Quiet(s)
    ensures Enabled(s, t) && IsBusy(s.threads[t])
  {
    if owner.AThread? {
      return owner.id;
    }
    t :| t in s.threads && !IsIdle(s.threads[t]);
    if IsAsleep(s.threads[t]) {
      SleepersAreWatched(s, owner, t);
      t :| t in s.threads && IsBusy(s.threads[t]);
    }
  }

  /** Nobody on `cond` wakes by itself: every turn goes to a thread that is not asleep. */
  ghost predicate NoSpuriousWakeup(s: State, schedule: seq<Turn>)
    decreases |schedule|
  {
    schedule == [] ||
    (&& schedule[0].thread in s.threads && !IsAsleep(s.threads[schedule[0].thread])
     && NoSpuriousWakeup(Move(s, schedule[0]), schedule[1..]))
  }

  /** Some continuation without spurious wakeups brings every thread back to the head of its loop. */
  lemma {:induction false} CanQuietenFrom(s: State, owner: Owner) returns (rest: seq<Turn>)
    requires InvWith(s, owner)
    ensures Quiet(Exec(s, rest)) && NoSpuriousWakeup(s, rest)
    decreases Sum(s.threads, Owes), Sum(s.threads, Distance)
  {
    if Quiet(s) {
      return [];
    }
    var t := NextToMove(s, owner);
    var step := Turn(t, 0, 0);
    BusyThreadLowers(s, step);
    MoveKeepsInvWith(s, step, owner);
    var later := CanQuietenFrom(Move(s, step), NextOwner(s, step, owner));
    rest := [step] + later;
    assert rest[1..] == later;
  }

  /**
   From every reachable state every thread can come back to the head of its loop, and
   the broadcasts alone wake whoever has to be woken for it.
   */
  lemma NoThreadIsStuck(s0: State, past: seq<Turn>) returns (future: seq<Turn>)
    requires IsInit(s0)
    ensures Quiet(Exec(s0, past + future)) && NoSpuriousWakeup(Exec(s0, past), future)
  {
    var owner := Reachable(s0, past);
    future := CanQuietenFrom(Exec(s0, past), owner);
    ExecConcat(s0, past, future);
  }

  lemma {:induction false} SameThreads(s: State, schedule: seq<Turn>)
    ensures Exec(s, schedule).threads.Keys == s.threads.Keys
    decreases |schedule|
  {
    if schedule != [] {
      if Enabled(s, schedule[0].thread) {
        OthersAtMostWake(s, schedule[0]);
      }
      SameThreads(Move(s, schedule[0]), schedule[1..]);
    }
  }
}
