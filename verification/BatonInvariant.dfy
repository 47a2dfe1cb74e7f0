/**
 What every step of the semaphore protocol keeps. The owners of the baton and of
 `semWriter` are witnesses; the semaphores do not record them.
 */
module BatonInvariant {
  import opened Table
  import opened Threads
  import opened Baton

  ghost predicate BatonInv(s: State, baton: Owner)
  {
    && s.semCheck + s.semWait == (if baton.Nobody? then 1 else 0)
    && (baton.AThread? ==> baton.id in s.threads && HoldsBaton(s.threads[baton.id]))
    && (forall t :: t in s.threads && HoldsBaton(s.threads[t]) ==> baton == AThread(t))
  }

  ghost predicate TurnInv(s: State, turn: Owner)
  {
    && s.semWriter == (if turn.Nobody? then 1 else 0)
    && (turn.AThread? ==> turn.id in s.threads && HoldsTurn(s.threads[turn.id]))
    && (forall t :: t in s.threads && HoldsTurn(s.threads[t]) ==> turn == AThread(t))
    && s.writers == (if turn.AThread? && IsAnnounced(s.threads[turn.id]) then 1 else 0)
  }

  /** The writer whose turn it is waits for the baton. */
  ghost predicate WriterWaits(s: State, turn: Owner)
  {
    turn.AThread? && turn.id in s.threads && s.threads[turn.id].Writer? && s.threads[turn.id].wpc.AwaitBaton?
  }

  /** A reader has left and is about to pass the baton on. */
  ghost predicate ReaderDecides(s: State, baton: Owner)
  {
    baton.AThread? && baton.id in s.threads && s.threads[baton.id].Reader?
    && (s.threads[baton.id].rpc.Decide? || s.threads[baton.id].rpc.HandOver?)
  }

  /** The hand-over is never lost and never made twice. */
  ghost predicate HandoffInv(s: State, baton: Owner, turn: Owner)
  {
    && (WriterWaits(s, turn) ==> s.readers > 0 || s.semWait == 1 || ReaderDecides(s, baton))
    && (s.semWait == 1 ==> s.readers == 0 && WriterWaits(s, turn))
  }

  ghost predicate ThreadInv(s: State, turn: Owner, t: Thread)
  {
    match t
    case Reader(pc, div, i, count) =>
      && (pc.HandOver? ==> s.readers == 0 && WriterWaits(s, turn))
      && (pc.Release? ==> !(s.readers == 0 && s.writers != 0))
      && (pc.Scan? ==> i <= TABLE_SIZE && count == CountDivisible(s.table[..i], div))
      && (pc.ExitCheck? ==> count == CountDivisible(s.table, div))
    case Writer(pc, left) =>
      && (IsWriting(t) ==> s.readers == 0)
      && (pc.YieldCheck? ==> s.readers > 0)
  }

  ghost predicate InvWith(s: State, baton: Owner, turn: Owner)
  {
    && s.readers == |Inside(s)|
    && BatonInv(s, baton)
    && TurnInv(s, turn)
    && HandoffInv(s, baton, turn)
    && (forall t :: t in s.threads ==> ThreadInv(s, turn, s.threads[t]))
  }

  ghost predicate Inv(s: State)
  {
    exists baton, turn :: InvWith(s, baton, turn)
  }

  lemma InitInv(s: State)
    requires IsInit(s)
    ensures Inv(s)
  {
    assert forall t :: t !in Inside(s);
    assert Inside(s) == {};
    assert InvWith(s, Nobody, Nobody);
  }

  // ---------- ownership ----------

  function NextBaton(s: State, turn: Turn, baton: Owner): Owner
    requires Enabled(s, turn.thread)
  {
    var t := turn.thread;
    var after := Move(s, turn).threads[t];
    if HoldsBaton(after) then AThread(t)
    else if HoldsBaton(s.threads[t]) then Nobody
    else baton
  }

  function NextTurn(s: State, turn: Turn, owner: Owner): Owner
    requires Enabled(s, turn.thread)
  {
    var t := turn.thread;
    var after := Move(s, turn).threads[t];
    if HoldsTurn(after) then AThread(t)
    else if HoldsTurn(s.threads[t]) then Nobody
    else owner
  }

  lemma BatonStep(s: State, turn: Turn, baton: Owner)
    requires BatonInv(s, baton) && Enabled(s, turn.thread)
    ensures BatonInv(Move(s, turn), NextBaton(s, turn, baton))
  {
    var t := turn.thread;
    var s' := Move(s, turn);
    assert s'.threads == s.threads[t := s'.threads[t]];
  }

  lemma TurnStep(s: State, turn: Turn, owner: Owner)
    requires TurnInv(s, owner) && Enabled(s, turn.thread)
    ensures TurnInv(Move(s, turn), NextTurn(s, turn, owner))
  {
    var t := turn.thread;
    var s' := Move(s, turn);
    assert s'.threads == s.threads[t := s'.threads[t]];
  }

  // ---------- the number of readers ----------

  lemma ReadersMove(s: State, turn: Turn)
    requires Enabled(s, turn.thread)
    ensures var s', t := Move(s, turn), turn.thread;
      && t in s'.threads && s'.threads == s.threads[t := s'.threads[t]]
      && s'.readers ==
           s.readers - (if IsInside(s.threads[t]) then 1 else 0) + (if IsInside(s'.threads[t]) then 1 else 0)
  {
  }

  lemma InsideStep(s: State, turn: Turn)
    requires Enabled(s, turn.thread) && s.readers == |Inside(s)|
    ensures var s' := Move(s, turn); s'.readers == |Inside(s')|
  {
    ReadersMove(s, turn);
    MemberMoves(Inside(s), Inside(Move(s, turn)), turn.thread);
  }

  lemma InsideMeansReaders(s: State, t: int)
    requires s.readers == |Inside(s)| && t in s.threads && IsInside(s.threads[t])
    ensures s.readers > 0
  {
    MemberCounts(Inside(s), t);
  }

  lemma ReadersMeanInside(s: State) returns (t: int)
    requires s.readers == |Inside(s)| && s.readers > 0
    ensures t in s.threads && IsInside(s.threads[t])
  {
    HasMember(Inside(s));
    t :| t in Inside(s);
  }

  // ---------- the hand-over and the threads ----------

  lemma HandoffStep(s: State, turn: Turn, baton: Owner, owner: Owner)
    requires InvWith(s, baton, owner) && Enabled(s, turn.thread)
    ensures HandoffInv(Move(s, turn), NextBaton(s, turn, baton), NextTurn(s, turn, owner))
  {
    var t := turn.thread;
    var s' := Move(s, turn);
    assert ThreadInv(s, owner, s.threads[t]);
    if IsInside(s.threads[t]) {
      InsideMeansReaders(s, t);
    }
  }

  lemma OwnStep(s: State, turn: Turn, baton: Owner, owner: Owner)
    requires InvWith(s, baton, owner) && Enabled(s, turn.thread)
    ensures ThreadInv(Move(s, turn), NextTurn(s, turn, owner), Move(s, turn).threads[turn.thread])
  {
    var t := turn.thread;
    var before := s.threads[t];
    assert ThreadInv(s, owner, before);
    if before.Reader? {
      CountNone(s.table, before.div);
      if before.rpc.Scan? && before.i < TABLE_SIZE {
        CountNext(s.table, before.i, before.div);
      }
      assert s.table[..TABLE_SIZE] == s.table;
    }
  }

  lemma OtherStep(s: State, turn: Turn, baton: Owner, owner: Owner, u: int)
    requires InvWith(s, baton, owner) && Enabled(s, turn.thread) && u in s.threads && u != turn.thread
    ensures ThreadInv(Move(s, turn), NextTurn(s, turn, owner), s.threads[u])
  {
    var t := turn.thread;
    assert ThreadInv(s, owner, s.threads[u]);
    assert ThreadInv(s, owner, s.threads[t]);
    if IsInside(s.threads[u]) {
      InsideMeansReaders(s, u);
    }
    if IsInside(s.threads[t]) {
      InsideMeansReaders(s, t);
    }
  }

  lemma ThreadsStep(s: State, turn: Turn, baton: Owner, owner: Owner)
    requires InvWith(s, baton, owner) && Enabled(s, turn.thread)
    ensures var s' := Move(s, turn);
      forall u :: u in s'.threads ==> ThreadInv(s', NextTurn(s, turn, owner), s'.threads[u])
  {
    var s' := Move(s, turn);
    ReadersMove(s, turn);
    forall u | u in s'.threads
      ensures ThreadInv(s', NextTurn(s, turn, owner), s'.threads[u])
    {
      if u == turn.thread {
        OwnStep(s, turn, baton, owner);
      } else {
        OtherStep(s, turn, baton, owner, u);
      }
    }
  }

  lemma MoveKeepsInvWith(s: State, turn: Turn, baton: Owner, owner: Owner)
    requires InvWith(s, baton, owner) && Enabled(s, turn.thread)
    ensures InvWith(Move(s, turn), NextBaton(s, turn, baton), NextTurn(s, turn, owner))
  {
    BatonStep(s, turn, baton);
    TurnStep(s, turn, owner);
    InsideStep(s, turn);
    HandoffStep(s, turn, baton, owner);
    ThreadsStep(s, turn, baton, owner);
  }

  lemma MoveKeepsInv(s: State, turn: Turn)
    requires Inv(s)
    ensures Inv(Move(s, turn))
  {
    var baton, owner :| InvWith(s, baton, owner);
    if Enabled(s, turn.thread) {
      MoveKeepsInvWith(s, turn, baton, owner);
    }
  }

  /** Every state of every run satisfies the invariant. */
  lemma {:induction false} RunKeepsInv(s: State, schedule: seq<Turn>)
    requires Inv(s)
    ensures Inv(Exec(s, schedule))
    decreases |schedule|
  {
    if schedule != [] {
      MoveKeepsInv(s, schedule[0]);
      RunKeepsInv(Move(s, schedule[0]), schedule[1..]);
    }
  }
}
