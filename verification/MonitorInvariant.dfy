/** What every step of the monitor keeps. The owner of the mutex is a witness. */
module MonitorInvariant {
  import opened Table
  import opened Threads
  import opened Monitor

  ghost predicate MutexInv(s: State, owner: Owner)
  {
    && s.mutexFree == owner.Nobody?
    && (owner.AThread? ==> owner.id in s.threads && HoldsMutex(s.threads[owner.id]))
    && (forall t :: t in s.threads && HoldsMutex(s.threads[t]) ==> owner == AThread(t))
  }

  /** The counters are the numbers of threads in each region. */
  ghost predicate CountInv(s: State)
  {
    s.readers == |Inside(s)| && s.writers == |Writing(s)| && s.writersInQueue == |Registered(s)|
  }

  /** A counter has changed and the broadcast that tells the sleepers is still to come. */
  ghost predicate NewsPending(s: State, owner: Owner)
  {
    owner.AThread? && owner.id in s.threads && WillBroadcast(s.threads[owner.id])
  }

  ghost predicate ThreadInv(s: State, owner: Owner, t: Thread)
  {
    match t
    case Reader(pc, div, i, count) =>
      && (pc.Asleep? ==> s.writersInQueue != 0 || NewsPending(s, owner))
      && (pc.Enter? ==> s.writersInQueue == 0)
      && (pc.Scan? ==> i <= TABLE_SIZE && count == CountDivisible(s.table[..i], div))
      && (pc.LockOut? ==> count == CountDivisible(s.table, div))
    case Writer(pc, _) =>
      && (pc.Asleep? ==> s.readers != 0 || s.writers != 0 || NewsPending(s, owner))
      && (pc.Enter? ==> s.readers == 0 && s.writers == 0)
  }

  ghost predicate InvWith(s: State, owner: Owner)
  {
    && MutexInv(s, owner)
    && CountInv(s)
    && s.writers <= 1
    && (s.writers > 0 ==> s.readers == 0)
    && (forall t :: t in s.threads ==> ThreadInv(s, owner, s.threads[t]))
  }

  ghost predicate Inv(s: State)
  {
    exists owner :: InvWith(s, owner)
  }

  lemma InitInv(s: State)
    requires IsInit(s)
    ensures Inv(s)
  {
    assert forall t :: t !in Inside(s) && t !in Writing(s) && t !in Registered(s);
    assert Inside(s) == {} && Writing(s) == {} && Registered(s) == {};
    assert InvWith(s, Nobody);
  }

  // ---------- ownership ----------

  function NextOwner(s: State, turn: Turn, owner: Owner): Owner
    requires Enabled(s, turn.thread)
  {
    var t := turn.thread;
    if HoldsMutex(Move(s, turn).threads[t]) then AThread(t)
    else if HoldsMutex(s.threads[t]) then Nobody
    else owner
  }

  lemma OthersAtMostWakeByReader(s: State, t: int)
    requires Enabled(s, t) && s.threads[t].Reader?
    ensures var s' := ReaderNext(s, t);
      && s'.threads.Keys == s.threads.Keys
      && forall u :: u in s.threads && u != t ==>
           s'.threads[u] == s.threads[u] || s'.threads[u] == Woken(s.threads[u])
  {
  }

  lemma OthersAtMostWakeByWriter(s: State, t: int, roll: nat, roll': nat)
    requires Enabled(s, t) && s.threads[t].Writer?
    ensures var s' := WriterNext(s, t, roll, roll');
      && s'.threads.Keys == s.threads.Keys
      && forall u :: u in s.threads && u != t ==>
           s'.threads[u] == s.threads[u] || s'.threads[u] == Woken(s.threads[u])
  {
  }

  /** A step changes the thread that makes it, and a broadcast also wakes the sleepers. */
  lemma OthersAtMostWake(s: State, turn: Turn)
    requires Enabled(s, turn.thread)
    ensures var s' := Move(s, turn);
      && s'.threads.Keys == s.threads.Keys
      && forall u :: u in s.threads && u != turn.thread ==>
           s'.threads[u] == s.threads[u] || s'.threads[u] == Woken(s.threads[u])
  {
    if s.threads[turn.thread].Reader? {
      OthersAtMostWakeByReader(s, turn.thread);
    } else {
      OthersAtMostWakeByWriter(s, turn.thread, turn.roll, turn.roll');
    }
  }

  lemma MutexStep(s: State, turn: Turn, owner: Owner)
    requires MutexInv(s, owner) && Enabled(s, turn.thread)
    ensures MutexInv(Move(s, turn), NextOwner(s, turn, owner))
  {
    OthersAtMostWake(s, turn);
  }

  // ---------- the counters ----------

  lemma CountersMove(s: State, turn: Turn)
    requires Enabled(s, turn.thread)
    ensures var s', t := Move(s, turn), turn.thread;
      && t in s'.threads
      && s'.readers ==
           s.readers - (if IsInside(s.threads[t]) then 1 else 0) + (if IsInside(s'.threads[t]) then 1 else 0)
      && s'.writers ==
           s.writers - (if IsWriting(s.threads[t]) then 1 else 0) + (if IsWriting(s'.threads[t]) then 1 else 0)
      && s'.writersInQueue == s.writersInQueue - (if IsRegistered(s.threads[t]) then 1 else 0)
                              + (if IsRegistered(s'.threads[t]) then 1 else 0)
  {
  }

  lemma CountStep(s: State, turn: Turn)
    requires Enabled(s, turn.thread) && CountInv(s)
    ensures CountInv(Move(s, turn))
  {
    var s', t := Move(s, turn), turn.thread;
    OthersAtMostWake(s, turn);
    CountersMove(s, turn);
    MemberMoves(Inside(s), Inside(s'), t);
    MemberMoves(Writing(s), Writing(s'), t);
    MemberMoves(Registered(s), Registered(s'), t);
  }

  lemma CountsArePositive(s: State, t: int)
    requires CountInv(s) && t in s.threads
    ensures IsInside(s.threads[t]) ==> s.readers > 0
    ensures IsWriting(s.threads[t]) ==> s.writers > 0
    ensures IsRegistered(s.threads[t]) ==> s.writersInQueue > 0
  {
    if IsInside(s.threads[t]) { MemberCounts(Inside(s), t); }
    if IsWriting(s.threads[t]) { MemberCounts(Writing(s), t); }
    if IsRegistered(s.threads[t]) { MemberCounts(Registered(s), t); }
  }

  /** Every active writer is still registered. */
  lemma WritersAreRegistered(s: State)
    requires CountInv(s)
    ensures s.writers > 0 ==> s.writersInQueue > 0
  {
    if s.writers > 0 {
      HasMember(Writing(s));
      var t :| t in Writing(s);
      MemberCounts(Registered(s), t);
    }
  }

  // ---------- the threads ----------

  lemma ExclusionStep(s: State, turn: Turn, owner: Owner)
    requires InvWith(s, owner) && Enabled(s, turn.thread)
    ensures var s' := Move(s, turn); s'.writers <= 1 && (s'.writers > 0 ==> s'.readers == 0)
  {
    assert ThreadInv(s, owner, s.threads[turn.thread]);
    CountsArePositive(s, turn.thread);
    WritersAreRegistered(s);
  }

  lemma OwnReaderStep(s: State, turn: Turn, owner: Owner)
    requires InvWith(s, owner) && Enabled(s, turn.thread) && s.threads[turn.thread].Reader?
    ensures ThreadInv(Move(s, turn), NextOwner(s, turn, owner), Move(s, turn).threads[turn.thread])
  {
    var before := s.threads[turn.thread];
    assert ThreadInv(s, owner, before);
    CountNone(s.table, before.div);
    if before.rpc.Scan? && before.i < TABLE_SIZE {
      CountNext(s.table, before.i, before.div);
    }
    assert s.table[..TABLE_SIZE] == s.table;
  }

  lemma OwnWriterStep(s: State, turn: Turn, owner: Owner)
    requires InvWith(s, owner) && Enabled(s, turn.thread) && s.threads[turn.thread].Writer?
    ensures ThreadInv(Move(s, turn), NextOwner(s, turn, owner), Move(s, turn).threads[turn.thread])
  {
    assert ThreadInv(s, owner, s.threads[turn.thread]);
  }

  lemma OwnStep(s: State, turn: Turn, owner: Owner)
    requires InvWith(s, owner) && Enabled(s, turn.thread)
    ensures ThreadInv(Move(s, turn), NextOwner(s, turn, owner), Move(s, turn).threads[turn.thread])
  {
    if s.threads[turn.thread].Reader? { OwnReaderStep(s, turn, owner); } else { OwnWriterStep(s, turn, owner); }
  }

  lemma OtherStepOfReader(s: State, turn: Turn, owner: Owner, u: int)
    requires InvWith(s, owner) && Enabled(s, turn.thread) && u in s.threads && u != turn.thread
    requires s.threads[turn.thread].Reader?
    ensures u in Move(s, turn).threads
    ensures ThreadInv(Move(s, turn), NextOwner(s, turn, owner), Move(s, turn).threads[u])
  {
    assert ThreadInv(s, owner, s.threads[u]);
    assert ThreadInv(s, owner, s.threads[turn.thread]);
    CountsArePositive(s, turn.thread);
  }

  lemma OtherStepOfWriter(s: State, turn: Turn, owner: Owner, u: int)
    requires InvWith(s, owner) && Enabled(s, turn.thread) && u in s.threads && u != turn.thread
    requires s.threads[turn.thread].Writer?
    ensures u in Move(s, turn).threads
    ensures ThreadInv(Move(s, turn), NextOwner(s, turn, owner), Move(s, turn).threads[u])
  {
    assert ThreadInv(s, owner, s.threads[u]);
    CountsArePositive(s, u);
    CountsArePositive(s, turn.thread);
  }

  lemma OtherStep(s: State, turn: Turn, owner: Owner, u: int)
    requires InvWith(s, owner) && Enabled(s, turn.thread) && u in s.threads && u != turn.thread
    ensures u in Move(s, turn).threads
    ensures ThreadInv(Move(s, turn), NextOwner(s, turn, owner), Move(s, turn).threads[u])
  {
    if s.threads[turn.thread].Reader? {
      OtherStepOfReader(s, turn, owner, u);
    } else {
      OtherStepOfWriter(s, turn, owner, u);
    }
  }

  lemma MoveKeepsInvWith(s: State, turn: Turn, owner: Owner)
    requires InvWith(s, owner) && Enabled(s, turn.thread)
    ensures InvWith(Move(s, turn), NextOwner(s, turn, owner))
  {
    var s' := Move(s, turn);
    MutexStep(s, turn, owner);
    CountStep(s, turn);
    ExclusionStep(s, turn, owner);
    OthersAtMostWake(s, turn);
    forall u | u in s'.threads
      ensures ThreadInv(s', NextOwner(s, turn, owner), s'.threads[u])
    {
      if u == turn.thread {
        OwnStep(s, turn, owner);
      } else {
        OtherStep(s, turn, owner, u);
      }
    }
  }

  lemma MoveKeepsInv(s: State, turn: Turn)
    requires Inv(s)
    ensures Inv(Move(s, turn))
  {
    var owner :| InvWith(s, owner);
    if Enabled(s, turn.thread) {
      MoveKeepsInvWith(s, turn, owner);
    }
  }

  /** Every state of every run satisfies the invariant. */
  lemma {:induction false} RunKeepsInv(s: State, schedule: seq<Turn>)
    requires Inv(s)
    ensures Inv(Exec(s, schedule))
    decreases |schedule|
  {
    if schedule != [] {
      MoveKeepsInv(s, schedule[0]);
      RunKeepsInv(Move(s, schedule[0]), schedule[1..]);
    }
  }
}
