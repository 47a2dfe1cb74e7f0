/**
 What one thread of the monitor does in a session, whatever the other threads are
 given in between: who can hold it up, who wakes it, which cells a writer fills, and
 the order of its operations on the mutex and the shared counters.
 */
module MonitorSessions {
  import opened Table
  import opened Threads
  import opened Rounds
  import opened Monitor
  import opened MonitorInvariant
  import opened MonitorTheorems

  // ---------- who can hold a thread up ----------

  ghost predicate MutexIsFree(s: State)
  {
    forall t :: t in s.threads ==> !HoldsMutex(s.threads[t])
  }

  /** A thread is blocked only when it is about to lock and another is between lock and unlock. */
  lemma BlockedOnlyByTheOwner(s0: State, past: seq<Turn>, t: int)
    requires IsInit(s0) && t in Exec(s0, past).threads
    ensures var s := Exec(s0, past);
      Enabled(s, t) <==>
        match s.threads[t]
        case Reader(pc, _, _, _) => pc.Idle? || pc.Relock? || pc.LockOut? ==> MutexIsFree(s)
        case Writer(pc, _) => pc.Idle? || pc.Relock? || pc.LockOut? ==> MutexIsFree(s)
  {
    var owner := Reachable(s0, past);
  }

  /** Another thread's step wakes a sleeper exactly when it is a broadcast. */
  lemma OnlyBroadcastsWake(s: State, turn: Turn, u: int)
    requires u in s.threads && IsAsleep(s.threads[u]) && turn.thread != u
    ensures u in Move(s, turn).threads
    ensures !IsAsleep(Move(s, turn).threads[u]) <==>
              turn.thread in s.threads && Broadcasting(s.threads[turn.thread])
  {
  }

  // ---------- getting in ----------

  /** With no writer registered and the mutex free, a reader given four turns is inside, beside all that were. */
  lemma ReaderGetsInside(s: State, r: int)
    requires s.mutexFree && s.writersInQueue == 0
    requires r in s.threads && s.threads[r].Reader? && s.threads[r].rpc.Idle?
    ensures var turn := Turn(r, 0, 0);
      var t := Exec(s, [turn, turn, turn, turn]);
      && r in t.threads && t.threads[r].Reader? && t.threads[r].rpc.Scan?
      && Inside(t) == Inside(s) + {r}
      && t == s.(readers := s.readers + 1, threads := t.threads)
      && t.threads == s.threads[r := t.threads[r]]
  {
    var turn := Turn(r, 0, 0);
    var s1 := Move(s, turn);
    var s2 := Move(s1, turn);
    var s3 := Move(s2, turn);
    var t := Move(s3, turn);
    ExecOne(s, turn, [turn, turn, turn]);
    ExecOne(s1, turn, [turn, turn]);
    ExecOne(s2, turn, [turn]);
    ExecOne(s3, turn, []);
    assert [turn] + [turn, turn, turn] == [turn, turn, turn, turn];
    assert [turn] + [turn, turn] == [turn, turn, turn];
    assert [turn] + [turn] == [turn, turn] && [turn] + [] == [turn];
    assert t.threads == s.threads[r := t.threads[r]];
  }

  lemma ExecOne(s: State, turn: Turn, rest: seq<Turn>)
    ensures Exec(s, [turn] + rest) == Exec(Move(s, turn), rest)
  {
    assert ([turn] + rest)[1..] == rest;
  }

  /** A writer given three turns is registered: asleep if anybody is in, and else on its way in. */
  lemma WriterRegisters(s: State, w: int)
    requires s.mutexFree && w in s.threads && s.threads[w].Writer? && s.threads[w].wpc.Idle?
    ensures var turn := Turn(w, 0, 0);
      var t := Exec(s, [turn, turn, turn]);
      && t == s.(writersInQueue := s.writersInQueue + 1, mutexFree := t.mutexFree, threads := t.threads)
      && Registered(t) == Registered(s) + {w}
      && w in t.threads && t.threads == s.threads[w := t.threads[w]]
      && (t.mutexFree <==> s.readers != 0 || s.writers != 0)
      && (if s.readers != 0 || s.writers != 0 then IsAsleep(t.threads[w]) else HoldsMutex(t.threads[w]))
  {
    var turn := Turn(w, 0, 0);
    var s1 := Move(s, turn);
    var s2 := Move(s1, turn);
    var t := Move(s2, turn);
    ExecOne(s, turn, [turn, turn]);
    ExecOne(s1, turn, [turn]);
    ExecOne(s2, turn, []);
    assert [turn] + [turn, turn] == [turn, turn, turn];
    assert [turn] + [turn] == [turn, turn] && [turn] + [] == [turn];
    assert t.threads == s.threads[w := t.threads[w]];
  }

  // ---------- a writer's updates ----------

  /** The turns given to one thread. */
  ghost function TurnsOf(schedule: seq<Turn>, t: int): seq<Turn>
    decreases |schedule|
  {
    if schedule == [] then []
    else if schedule[0].thread == t then [schedule[0]] + TurnsOf(schedule[1..], t)
    else TurnsOf(schedule[1..], t)
  }

  /** What the values of `rand()` in these turns make a writer put where. */
  ghost function Writes(turns: seq<Turn>): (writes: seq<Drawn>)
    ensures |writes| == |turns|
  {
    if turns == [] then []
    else [Write(turns[0].roll % TABLE_SIZE, turns[0].roll' % 999 + 1)] + Writes(turns[1..])
  }

  ghost predicate At(s: State, w: int, pc: WriterPc)
  {
    w in s.threads && s.threads[w].Writer? && s.threads[w].wpc == pc
  }

  lemma OneWriter(s: State, w: int, t: int)
    requires Inv(s) && w in s.threads && t in s.threads && w != t && IsWriting(s.threads[w])
    ensures !IsWriting(s.threads[t])
  {
    var owner :| InvWith(s, owner);
    if IsWriting(s.threads[t]) {
      MemberCounts(Writing(s) - {w}, t);
    }
  }

  /** While a thread may write, the others' steps leave it and the table alone. */
  lemma OthersLeaveTheTable(s: State, w: int, turn: Turn)
    requires Inv(s) && w in s.threads && IsWriting(s.threads[w]) && turn.thread != w
    ensures Move(s, turn).table == s.table
    ensures w in Move(s, turn).threads && Move(s, turn).threads[w] == s.threads[w]
  {
    var owner :| InvWith(s, owner);
    CountsArePositive(s, w);
    if Enabled(s, turn.thread) {
      OneWriter(s, w, turn.thread);
      OthersAtMostWake(s, turn);
    }
  }

  lemma {:induction false} NothingWithoutATurn(s: State, w: int, schedule: seq<Turn>)
    requires Inv(s) && w in s.threads && IsWriting(s.threads[w]) && TurnsOf(schedule, w) == []
    ensures var t := Exec(s, schedule); t.table == s.table && w in t.threads && t.threads[w] == s.threads[w]
    decreases |schedule|
  {
    if schedule != [] {
      OthersLeaveTheTable(s, w, schedule[0]);
      MoveKeepsInv(s, schedule[0]);
      NothingWithoutATurn(Move(s, schedule[0]), w, schedule[1..]);
    }
  }

  lemma {:induction false} UpdatesInOrder(s: State, w: int, schedule: seq<Turn>)
    requires Inv(s) && At(s, w, Update)
    ensures var t, turns, left := Exec(s, schedule), TurnsOf(schedule, w), s.threads[w].left;
      && (|turns| <= left ==>
            && At(t, w, Update) && t.threads[w].left == left - |turns|
            && t.table == Overwritten(s.table, Writes(turns)))
      && (|turns| == left + 1 ==> At(t, w, WriterPc.LockOut) && t.table == Overwritten(s.table, Writes(turns[..left])))
    decreases |schedule|
  {
    if schedule != [] {
      var m, rest := Move(s, schedule[0]), schedule[1..];
      var turns, left := TurnsOf(schedule, w), s.threads[w].left;
      MoveKeepsInv(s, schedule[0]);
      if schedule[0].thread != w {
        OthersLeaveTheTable(s, w, schedule[0]);
        UpdatesInOrder(m, w, rest);
      } else if left > 0 {
        UpdatesInOrder(m, w, rest);
        assert turns[1..] == TurnsOf(rest, w);
        if |turns| == left + 1 {
          assert turns[..left][1..] == turns[1..][..left - 1];
        }
      } else if |turns| == 1 {
        NothingWithoutATurn(m, w, rest);
        assert turns[..0] == [];
      }
    }
  }

  lemma {:induction false} FromDraw(s: State, w: int, schedule: seq<Turn>, amount: nat)
    requires Inv(s) && At(s, w, Draw)
    requires TurnsOf(schedule, w) != []
    requires 10 * (amount - 1) <= TurnsOf(schedule, w)[0].roll % TABLE_SIZE < 10 * amount
    ensures var t, turns := Exec(s, schedule), TurnsOf(schedule, w);
      && (|turns| <= amount + 1 ==>
            At(t, w, Update) && t.table == Overwritten(s.table, Writes(turns[1..])))
      && (|turns| == amount + 2 ==>
            At(t, w, WriterPc.LockOut) && t.table == Overwritten(s.table, Writes(turns[1..amount + 1])))
    decreases |schedule|
  {
    var m, rest := Move(s, schedule[0]), schedule[1..];
    MoveKeepsInv(s, schedule[0]);
    if schedule[0].thread != w {
      OthersLeaveTheTable(s, w, schedule[0]);
      FromDraw(m, w, rest, amount);
    } else {
      var turns := TurnsOf(schedule, w);
      assert m.threads[w].left == amount;
      assert turns[1..] == TurnsOf(rest, w);
      UpdatesInOrder(m, w, rest);
      if |turns| == amount + 2 {
        assert turns[1..][..amount] == turns[1..amount + 1];
      }
    }
  }

  /**
   A writer that has drawn makes `amount` updates, one for every ten of `roll % 100`
   begun, in the cells and with the values it draws, and nobody else changes the table
   meanwhile: given its turns among any others, the table is the table at the beginning
   overwritten by its draws in order. Then it goes for the mutex.
   */
  lemma WriterSession(s0: State, past: seq<Turn>, w: int, schedule: seq<Turn>, amount: nat)
    requires IsInit(s0) && At(Exec(s0, past), w, Draw)
    requires TurnsOf(schedule, w) != []
    requires 10 * (amount - 1) <= TurnsOf(schedule, w)[0].roll % TABLE_SIZE < 10 * amount
    ensures var s, turns := Exec(s0, past), TurnsOf(schedule, w);
      var t := Exec(s, schedule);
      && (|turns| <= amount + 1 ==>
            At(t, w, Update) && t.table == Overwritten(s.table, Writes(turns[1..])))
      && (|turns| == amount + 2 ==>
            At(t, w, WriterPc.LockOut) && t.table == Overwritten(s.table, Writes(turns[1..amount + 1])))
  {
    InitInv(s0);
    RunKeepsInv(s0, past);
    FromDraw(Exec(s0, past), w, schedule, amount);
  }

  /** Every cell can be given every value in 1..999, and then no other cell changes. */
  lemma EveryCellCanBeWritten(s: State, w: int, k: nat, value: nat)
    requires At(s, w, Update) && s.threads[w].left > 0 && k < TABLE_SIZE && 1 <= value <= 999
    ensures Move(s, Turn(w, k, value - 1)).table == s.table[k := value]
  {
  }

  // ---------- the order of operations ----------

  /** A step as the mutex and the shared counters show it. */
  datatype Op =
    | Locks | Unlocks
    | Enters | Leaves          // readers
    | Starts | Stops           // writers
    | Registers | Deregisters  // writersInQueue
    | Local | Several

  ghost function Held(s: State): int { if s.mutexFree then 0 else 1 }

  ghost function Effect(s: State, t: State): Op
  {
    var held, readers, writers := Held(t) - Held(s), t.readers - s.readers, t.writers - s.writers;
    match (held, readers, writers, t.writersInQueue - s.writersInQueue)
    case (0, 0, 0, 0) => Local
    case (1, 0, 0, 0) => Locks
    case (-1, 0, 0, 0) => Unlocks
    case (0, 1, 0, 0) => Enters
    case (0, -1, 0, 0) => Leaves
    case (0, 0, 1, 0) => Starts
    case (0, 0, -1, 0) => Stops
    case (0, 0, 0, 1) => Registers
    case (0, 0, 0, -1) => Deregisters
    case _ => Several
  }

  /** The thread is awake and not waiting for the mutex. */
  predicate Acts(s: State, t: int)
  {
    Enabled(s, t) && !IsAsleep(s.threads[t])
  }

  /** The mutex is taken while the thread is between lock and unlock. */
  predicate Honest(s: State, t: int)
  {
    t in s.threads && (HoldsMutex(s.threads[t]) ==> !s.mutexFree)
  }

  lemma OwnersAreHonest(s: State, t: int)
    requires Inv(s) && t in s.threads
    ensures Honest(s, t)
  {
  }

  /** The steps that thread `t` has made, in a run in which others move too. Waking up is not one of them. */
  ghost function Ops(s: State, t: int, schedule: seq<Turn>): seq<Op>
    decreases |schedule|
  {
    if schedule == [] then []
    else
      var m := Move(s, schedule[0]);
      if schedule[0].thread == t && Acts(s, t) then [Effect(s, m)] + Ops(m, t, schedule[1..])
      else Ops(m, t, schedule[1..])
  }

  ghost function Locals(n: nat): seq<Op> { seq(n, _ => Local) }

  /** `pthread_cond_wait`, n times: the mutex is given up and taken again. */
  ghost function CondWaits(n: nat): seq<Op>
  {
    if n == 0 then [] else CondWaits(n - 1) + [Unlocks, Locks]
  }

  ghost function ReaderEntry(n: nat): seq<Op>
  {
    [Locks] + CondWaits(n) + [Local, Enters, Unlocks]
  }

  /** One round of `rFunc`: 100 cells and the end of the loop outside the mutex, the broadcast inside it. */
  ghost function ReaderRound(n: nat): seq<Op>
  {
    ReaderEntry(n) + Locals(TABLE_SIZE + 1) + [Locks, Leaves, Local, Unlocks]
  }

  ghost function WriterEntry(n: nat): seq<Op>
  {
    [Locks, Registers] + CondWaits(n) + [Local, Starts, Unlocks]
  }

  /** One round of `wFunc`: `amount` updates outside the mutex. */
  ghost function WriterRound(n: nat, amount: nat): seq<Op>
  {
    WriterEntry(n) + Locals(amount + 2) + [Locks, Stops, Deregisters, Local, Unlocks]
  }

  ghost function ReaderProgram(): iset<seq<Op>>
  {
    iset n: nat | true :: ReaderRound(n)
  }

  ghost function WriterProgram(): iset<seq<Op>>
  {
    iset n: nat, amount: nat | 1 <= amount <= 10 :: WriterRound(n, amount)
  }

  lemma OneMoreLocal(start: seq<Op>, n: nat)
    ensures start + Locals(n) + [Local] == start + Locals(n + 1)
  {
    assert Locals(n) + [Local] == Locals(n + 1);
  }

  lemma OneMoreWait(start: seq<Op>, n: nat)
    ensures start + CondWaits(n) + [Unlocks] + [Locks] == start + CondWaits(n + 1)
  {
    assert [Unlocks] + [Locks] == [Unlocks, Locks];
  }

  lemma OthersAtMostWakeTheThread(s: State, t: int, turn: Turn)
    requires t in s.threads && (turn.thread != t || !Acts(s, t))
    ensures var m := Move(s, turn);
      t in m.threads && (m.threads[t] == s.threads[t] || m.threads[t] == Woken(s.threads[t]))
  {
    if Enabled(s, turn.thread) && turn.thread != t {
      OthersAtMostWake(s, turn);
    }
  }

  // ---------- readers ----------

  ghost function ReaderSoFar(r: Thread, n: nat): seq<Op>
    requires r.Reader?
  {
    var scanned := ReaderEntry(n) + Locals(TABLE_SIZE + 1);
    match r.rpc
    case Idle => []
    case TestQueue => [Locks] + CondWaits(n)
    case Asleep | Relock => [Locks] + CondWaits(n) + [Unlocks]
    case Enter => [Locks] + CondWaits(n) + [Local]
    case Unlock => [Locks] + CondWaits(n) + [Local, Enters]
    case Scan => ReaderEntry(n) + Locals(r.i)
    case LockOut => scanned
    case Depart => scanned + [Locks]
    case Broadcast => scanned + [Locks, Leaves]
    case UnlockOut => scanned + [Locks, Leaves, Local]
  }

  ghost predicate ScansTheTable(t: Thread)
  {
    t.Reader? && (t.rpc.Scan? ==> t.i <= TABLE_SIZE)
  }

  lemma ReaderSoFarBegins(r: Thread, n: nat)
    requires ScansTheTable(r)
    ensures ReaderSoFar(r, n) <= ReaderRound(if r.rpc.Asleep? || r.rpc.Relock? then n + 1 else n)
  {
  }

  /** How often the thread has waited in this round, after this step. */
  ghost function ReaderWaits(r: Thread, n: nat): nat
    requires r.Reader?
  {
    if r.rpc.Idle? then 0 else if r.rpc.Relock? then n + 1 else n
  }

  ghost predicate ReaderGoesOn(s: State, t: int, m: State, n: nat)
    requires t in s.threads && s.threads[t].Reader?
  {
    && t in m.threads && ScansTheTable(m.threads[t])
    && var ops := ReaderSoFar(s.threads[t], n) + [Effect(s, m)];
    && (|| ops == ReaderSoFar(m.threads[t], ReaderWaits(s.threads[t], n))
        || (m.threads[t].rpc.Idle? && ops == ReaderRound(n)))
  }

  lemma ReaderArrives(s: State, t: int, n: nat)
    requires Acts(s, t) && Honest(s, t) && ScansTheTable(s.threads[t])
    requires var pc := s.threads[t].rpc; pc.Idle? || pc.TestQueue? || pc.Relock? || pc.Enter? || pc.Unlock?
    ensures ReaderGoesOn(s, t, ReaderNext(s, t), n)
  {
    if s.threads[t].rpc.Relock? {
      OneMoreWait([Locks], n);
    }
  }

  lemma ReaderLeaves(s: State, t: int, n: nat)
    requires Acts(s, t) && Honest(s, t) && ScansTheTable(s.threads[t])
    requires var pc := s.threads[t].rpc;
      pc.Scan? || pc.LockOut? || pc.Depart? || pc.Broadcast? || pc.UnlockOut?
    ensures ReaderGoesOn(s, t, ReaderNext(s, t), n)
  {
    OneMoreLocal(ReaderEntry(n), s.threads[t].i);
  }

  lemma ReaderMoves(s: State, t: int, n: nat)
    requires Acts(s, t) && Honest(s, t) && ScansTheTable(s.threads[t])
    ensures ReaderGoesOn(s, t, ReaderNext(s, t), n)
  {
    match s.threads[t].rpc
    case Scan | LockOut | Depart | Broadcast | UnlockOut => ReaderLeaves(s, t, n);
    case _ => ReaderArrives(s, t, n);
  }

  lemma ReaderRoundStays(s: State, turn: Turn, t: int, n: nat)
    requires t in s.threads && (turn.thread != t || !Acts(s, t)) && ScansTheTable(s.threads[t])
    ensures t in Move(s, turn).threads && ScansTheTable(Move(s, turn).threads[t])
    ensures ReaderSoFar(Move(s, turn).threads[t], n) == ReaderSoFar(s.threads[t], n)
  {
    OthersAtMostWakeTheThread(s, t, turn);
  }

  lemma {:induction false} ReaderRoundsFrom(s: State, t: int, schedule: seq<Turn>, n: nat)
    requires Inv(s) && t in s.threads && ScansTheTable(s.threads[t])
    ensures AreRounds(ReaderSoFar(s.threads[t], n) + Ops(s, t, schedule), ReaderProgram())
    decreases |schedule|
  {
    var before := s.threads[t];
    var sofar, round := ReaderSoFar(before, n), ReaderRound(n);
    if schedule == [] {
      ReaderSoFarBegins(before, n);
      assert sofar + [] == sofar;
      var whole := ReaderRound(if before.rpc.Asleep? || before.rpc.Relock? then n + 1 else n);
      BeginningIsRounds(sofar, whole, ReaderProgram());
    } else {
      var m, rest := Move(s, schedule[0]), schedule[1..];
      MoveKeepsInv(s, schedule[0]);
      if schedule[0].thread == t && Acts(s, t) {
        OwnersAreHonest(s, t);
        ReaderMoves(s, t, n);
        ReaderRoundsFrom(m, t, rest, ReaderWaits(before, n));
        var next := ReaderSoFar(m.threads[t], ReaderWaits(before, n));
        OneMoreOp(sofar, Effect(s, m), next, Ops(m, t, rest), round, ReaderProgram());
      } else {
        ReaderRoundStays(s, schedule[0], t, n);
        ReaderRoundsFrom(m, t, rest, n);
        assert Ops(s, t, schedule) == Ops(m, t, rest);
      }
    }
  }

  /** In every run, however interleaved, a reader's steps are rounds of `rFunc`, the last one perhaps unfinished. */
  lemma ReadersRunTheirLoop(s0: State, schedule: seq<Turn>, t: int)
    requires IsInit(s0) && t in s0.threads && s0.threads[t].Reader?
    ensures AreRounds(Ops(s0, t, schedule), ReaderProgram())
  {
    InitInv(s0);
    ReaderRoundsFrom(s0, t, schedule, 0);
    assert [] + Ops(s0, t, schedule) == Ops(s0, t, schedule);
  }

  // ---------- writers ----------

  ghost function WriterSoFar(w: Thread, n: nat, amount: nat): seq<Op>
    requires w.Writer? && (w.wpc.Update? ==> w.left <= amount)
  {
    var updated := WriterEntry(n) + Locals(amount + 2);
    match w.wpc
    case Idle => []
    case Register => [Locks]
    case TestBusy => [Locks, Registers] + CondWaits(n)
    case Asleep | Relock => [Locks, Registers] + CondWaits(n) + [Unlocks]
    case Enter => [Locks, Registers] + CondWaits(n) + [Local]
    case Unlock => [Locks, Registers] + CondWaits(n) + [Local, Starts]
    case Draw => WriterEntry(n)
    case Update => WriterEntry(n) + Locals(1 + amount - w.left)
    case LockOut => updated
    case Depart => updated + [Locks]
    case Deregister => updated + [Locks, Stops]
    case Broadcast => updated + [Locks, Stops, Deregisters]
    case UnlockOut => updated + [Locks, Stops, Deregisters, Local]
  }

  ghost predicate Fits(w: Thread, amount: nat)
  {
    w.Writer? && 1 <= amount <= 10 && (w.wpc.Update? ==> w.left <= amount)
  }

  lemma WriterSoFarBegins(w: Thread, n: nat, amount: nat)
    requires Fits(w, amount)
    ensures WriterSoFar(w, n, amount) <= WriterRound(if w.wpc.Asleep? || w.wpc.Relock? then n + 1 else n, amount)
  {
  }

  /** What the round turns out to be after this step. */
  ghost function WriterWaits(w: Thread, n: nat): nat
    requires w.Writer?
  {
    if w.wpc.Idle? || w.wpc.Register? then 0 else if w.wpc.Relock? then n + 1 else n
  }

  ghost function Amount(w: Thread, m: State, t: int, amount: nat): nat
    requires w.Writer? && t in m.threads && m.threads[t].Writer?
  {
    if w.wpc.Draw? then m.threads[t].left else amount
  }

  ghost predicate WriterGoesOn(s: State, t: int, m: State, n: nat, amount: nat)
    requires t in s.threads && Fits(s.threads[t], amount)
  {
    && t in m.threads && m.threads[t].Writer?
    && var n', amount' := WriterWaits(s.threads[t], n), Amount(s.threads[t], m, t, amount);
    && Fits(m.threads[t], amount')
    && var ops := WriterSoFar(s.threads[t], n, amount) + [Effect(s, m)];
    && (|| ops == WriterSoFar(m.threads[t], n', amount')
        || (m.threads[t].wpc.Idle? && ops == WriterRound(n, amount)))
  }

  lemma WriterArrives(s: State, t: int, roll: nat, roll': nat, n: nat, amount: nat)
    requires Acts(s, t) && Honest(s, t) && Fits(s.threads[t], amount)
    requires var pc := s.threads[t].wpc;
      pc.Idle? || pc.Register? || pc.TestBusy? || pc.Relock? || pc.Enter? || pc.Unlock?
    ensures WriterGoesOn(s, t, WriterNext(s, t, roll, roll'), n, amount)
  {
    if s.threads[t].wpc.Relock? {
      OneMoreWait([Locks, Registers], n);
    }
  }

  lemma WriterWrites(s: State, t: int, roll: nat, roll': nat, n: nat, amount: nat)
    requires Acts(s, t) && Honest(s, t) && Fits(s.threads[t], amount)
    requires s.threads[t].wpc.Draw? || s.threads[t].wpc.Update?
    ensures WriterGoesOn(s, t, WriterNext(s, t, roll, roll'), n, amount)
  {
    if s.threads[t].wpc.Update? {
      OneMoreLocal(WriterEntry(n), 1 + amount - s.threads[t].left);
    } else {
      assert Locals(1) == [Local];
    }
  }

  lemma WriterLeaves(s: State, t: int, roll: nat, roll': nat, n: nat, amount: nat)
    requires Acts(s, t) && Honest(s, t) && Fits(s.threads[t], amount)
    requires var pc := s.threads[t].wpc;
      pc.LockOut? || pc.Depart? || pc.Deregister? || pc.Broadcast? || pc.UnlockOut?
    ensures WriterGoesOn(s, t, WriterNext(s, t, roll, roll'), n, amount)
  {
  }

  lemma WriterMoves(s: State, turn: Turn, n: nat, amount: nat)
    requires Acts(s, turn.thread) && Honest(s, turn.thread) && Fits(s.threads[turn.thread], amount)
    ensures WriterGoesOn(s, turn.thread, Move(s, turn), n, amount)
  {
    var t := turn.thread;
    match s.threads[t].wpc
    case Draw | Update => WriterWrites(s, t, turn.roll, turn.roll', n, amount);
    case LockOut | Depart | Deregister | Broadcast | UnlockOut =>
      WriterLeaves(s, t, turn.roll, turn.roll', n, amount);
    case _ => WriterArrives(s, t, turn.roll, turn.roll', n, amount);
  }

  lemma WriterRoundsBegin(w: Thread, n: nat, amount: nat)
    requires Fits(w, amount)
    ensures AreRounds(WriterSoFar(w, n, amount), WriterProgram())
  {
    var whole := WriterRound(if w.wpc.Asleep? || w.wpc.Relock? then n + 1 else n, amount);
    WriterSoFarBegins(w, n, amount);
    BeginningIsRounds(WriterSoFar(w, n, amount), whole, WriterProgram());
  }

  lemma WriterRoundStays(s: State, turn: Turn, t: int, n: nat, amount: nat)
    requires t in s.threads && (turn.thread != t || !Acts(s, t)) && Fits(s.threads[t], amount)
    ensures t in Move(s, turn).threads && Fits(Move(s, turn).threads[t], amount)
    ensures WriterSoFar(Move(s, turn).threads[t], n, amount) == WriterSoFar(s.threads[t], n, amount)
  {
    OthersAtMostWakeTheThread(s, t, turn);
  }

  /** The steps that the writer makes later complete the round that it is in. */
  ghost predicate WriterRuns(s: State, t: int, n: nat, amount: nat, later: seq<Op>)
  {
    && t in s.threads && Fits(s.threads[t], amount)
    && AreRounds(WriterSoFar(s.threads[t], n, amount) + later, WriterProgram())
  }

  lemma WriterRoundsGoOn(s: State, turn: Turn, n: nat, amount: nat, later: seq<Op>) returns (n': nat, amount': nat)
    requires var t := turn.thread; Acts(s, t) && Honest(s, t) && Fits(s.threads[t], amount)
    ensures turn.thread in Move(s, turn).threads && Fits(Move(s, turn).threads[turn.thread], amount')
    ensures WriterRuns(Move(s, turn), turn.thread, n', amount', later) ==>
              WriterRuns(s, turn.thread, n, amount, [Effect(s, Move(s, turn))] + later)
  {
    var t, m := turn.thread, Move(s, turn);
    WriterMoves(s, turn, n, amount);
    n', amount' := WriterWaits(s.threads[t], n), Amount(s.threads[t], m, t, amount);
    var sofar, next := WriterSoFar(s.threads[t], n, amount), WriterSoFar(m.threads[t], n', amount');
    if WriterRuns(m, t, n', amount', later) {
      OneMoreOp(sofar, Effect(s, m), next, later, WriterRound(n, amount), WriterProgram());
    }
  }

  lemma {:induction false} WriterRoundsFrom(s: State, t: int, schedule: seq<Turn>, n: nat, amount: nat)
    requires Inv(s) && t in s.threads && Fits(s.threads[t], amount)
    ensures WriterRuns(s, t, n, amount, Ops(s, t, schedule))
    decreases |schedule|
  {
    if schedule == [] {
      WriterRoundsBegin(s.threads[t], n, amount);
      assert WriterSoFar(s.threads[t], n, amount) + [] == WriterSoFar(s.threads[t], n, amount);
    } else {
      var m, rest := Move(s, schedule[0]), schedule[1..];
      MoveKeepsInv(s, schedule[0]);
      if schedule[0].thread == t && Acts(s, t) {
        OwnersAreHonest(s, t);
        var n', amount' := WriterRoundsGoOn(s, schedule[0], n, amount, Ops(m, t, rest));
        WriterRoundsFrom(m, t, rest, n', amount');
      } else {
        WriterRoundStays(s, schedule[0], t, n, amount);
        WriterRoundsFrom(m, t, rest, n, amount);
        assert Ops(s, t, schedule) == Ops(m, t, rest);
      }
    }
  }

  /** In every run, however interleaved, a writer's steps are rounds of `wFunc`, the last one perhaps unfinished. */
  lemma WritersRunTheirLoop(s0: State, schedule: seq<Turn>, t: int)
    requires IsInit(s0) && t in s0.threads && s0.threads[t].Writer?
    ensures AreRounds(Ops(s0, t, schedule), WriterProgram())
  {
    InitInv(s0);
    WriterRoundsFrom(s0, t, schedule, 0, 1);
    assert [] + Ops(s0, t, schedule) == Ops(s0, t, schedule);
  }
}
