/**
 What one thread of the semaphore version does in a session, whatever the other
 threads are given in between: who can hold it up, which cells a writer fills, and
 the order of its operations on the shared counters.
 */
module BatonSessions {
  import opened Table
  import opened Threads
  import opened Rounds
  import opened Baton
  import opened BatonInvariant
  import opened BatonTheorems

  // ---------- who can hold a thread up ----------

  ghost predicate WriterWaiting(s: State)
  {
    exists w :: w in s.threads && s.threads[w].Writer? && s.threads[w].wpc.AwaitBaton?
  }

  /** Nobody has the baton, and it is not on its way to a waiting writer. */
  ghost predicate BatonIsFree(s: State)
  {
    BatonHolders(s) == {} && !(WriterWaiting(s) && Inside(s) == {})
  }

  ghost predicate TurnIsFree(s: State)
  {
    forall t :: t in s.threads ==> !HoldsTurn(s.threads[t])
  }

  lemma SemaphoresMean(s: State, baton: Owner, turn: Owner)
    requires InvWith(s, baton, turn)
    ensures s.semCheck > 0 <==> BatonIsFree(s)
    ensures s.semWriter > 0 <==> TurnIsFree(s)
    ensures WriterWaiting(s) ==> (s.semWait > 0 <==> Inside(s) == {} && BatonHolders(s) == {})
  {
    OneOrNone(BatonHolders(s), baton);
    if Inside(s) != {} {
      assert s.readers > 0;
    }
    if WriterWaiting(s) {
      var w :| w in s.threads && s.threads[w].Writer? && s.threads[w].wpc.AwaitBaton?;
      assert turn == AThread(w) && WriterWaits(s, turn);
    }
  }

  /**
   A thread is blocked only by what others are doing: at the waits on `semCheck` while
   the baton is in use, at the wait on `semWriter` while another writer has the turn, at
   the wait on `semWait` while a reader is inside or about to pass the baton; elsewhere never.
   */
  lemma BlockedOnlyByOthers(s0: State, past: seq<Turn>, t: int)
    requires IsInit(s0) && t in Exec(s0, past).threads
    ensures var s := Exec(s0, past);
      Enabled(s, t) <==>
        match s.threads[t]
        case Reader(pc, _, _, _) => pc.Idle? || pc.ExitCheck? ==> BatonIsFree(s)
        case Writer(pc, _) =>
          && (pc.Idle? ==> TurnIsFree(s))
          && (pc.WaitCheck? ==> BatonIsFree(s))
          && (pc.AwaitBaton? ==> Inside(s) == {} && BatonHolders(s) == {})
  {
    var baton, turn := Reachable(s0, past);
    SemaphoresMean(Exec(s0, past), baton, turn);
  }

  // ---------- a writer's updates ----------

  /** The turns given to one thread. */
  ghost function TurnsOf(schedule: seq<Turn>, t: int): seq<Turn>
    decreases |schedule|
  {
    if schedule == [] then []
    else if schedule[0].thread == t then [schedule[0]] + TurnsOf(schedule[1..], t)
    else TurnsOf(schedule[1..], t)
  }

  /** What the values of `rand()` in these turns make a writer put where. */
  ghost function Writes(turns: seq<Turn>): (writes: seq<Drawn>)
    ensures |writes| == |turns|
  {
    if turns == [] then []
    else [Write(turns[0].roll % TABLE_SIZE, turns[0].roll' % 999 + 1)] + Writes(turns[1..])
  }

  ghost predicate At(s: State, w: int, pc: WriterPc)
  {
    w in s.threads && s.threads[w].Writer? && s.threads[w].wpc == pc
  }

  /** While a thread may write, the others' steps leave it and the table alone. */
  lemma OthersLeaveTheTable(s: State, w: int, turn: Turn)
    requires Inv(s) && w in s.threads && IsWriting(s.threads[w]) && turn.thread != w
    ensures Move(s, turn).table == s.table
    ensures w in Move(s, turn).threads && Move(s, turn).threads[w] == s.threads[w]
  {
    var baton, owner :| InvWith(s, baton, owner);
    assert HoldsTurn(s.threads[w]);
  }

  lemma {:induction false} NothingWithoutATurn(s: State, w: int, schedule: seq<Turn>)
    requires Inv(s) && w in s.threads && IsWriting(s.threads[w]) && TurnsOf(schedule, w) == []
    ensures var t := Exec(s, schedule); t.table == s.table && w in t.threads && t.threads[w] == s.threads[w]
    decreases |schedule|
  {
    if schedule != [] {
      OthersLeaveTheTable(s, w, schedule[0]);
      MoveKeepsInv(s, schedule[0]);
      NothingWithoutATurn(Move(s, schedule[0]), w, schedule[1..]);
    }
  }

  lemma {:induction false} UpdatesInOrder(s: State, w: int, schedule: seq<Turn>)
    requires Inv(s) && At(s, w, Update)
    ensures var t, turns, left := Exec(s, schedule), TurnsOf(schedule, w), s.threads[w].left;
      && (|turns| <= left ==>
            && At(t, w, Update) && t.threads[w].left == left - |turns|
            && t.table == Overwritten(s.table, Writes(turns)))
      && (|turns| == left + 1 ==> At(t, w, Retire) && t.table == Overwritten(s.table, Writes(turns[..left])))
    decreases |schedule|
  {
    if schedule != [] {
      var m, rest := Move(s, schedule[0]), schedule[1..];
      var turns, left := TurnsOf(schedule, w), s.threads[w].left;
      MoveKeepsInv(s, schedule[0]);
      if schedule[0].thread != w {
        OthersLeaveTheTable(s, w, schedule[0]);
        UpdatesInOrder(m, w, rest);
      } else if left > 0 {
        UpdatesInOrder(m, w, rest);
        assert turns[1..] == TurnsOf(rest, w);
        if |turns| == left + 1 {
          assert turns[..left][1..] == turns[1..][..left - 1];
        }
      } else if |turns| == 1 {
        NothingWithoutATurn(m, w, rest);
        assert turns[..0] == [];
      }
    }
  }

  lemma {:induction false} FromDraw(s: State, w: int, schedule: seq<Turn>, amount: nat)
    requires Inv(s) && At(s, w, Draw)
    requires TurnsOf(schedule, w) != []
    requires 10 * (amount - 1) <= TurnsOf(schedule, w)[0].roll % TABLE_SIZE < 10 * amount
    ensures var t, turns := Exec(s, schedule), TurnsOf(schedule, w);
      && (|turns| <= amount + 1 ==>
            At(t, w, Update) && t.table == Overwritten(s.table, Writes(turns[1..])))
      && (|turns| == amount + 2 ==>
            At(t, w, Retire) && t.table == Overwritten(s.table, Writes(turns[1..amount + 1])))
    decreases |schedule|
  {
    var m, rest := Move(s, schedule[0]), schedule[1..];
    MoveKeepsInv(s, schedule[0]);
    if schedule[0].thread != w {
      OthersLeaveTheTable(s, w, schedule[0]);
      FromDraw(m, w, rest, amount);
    } else {
      var turns := TurnsOf(schedule, w);
      assert m.threads[w].left == amount;
      assert turns[1..] == TurnsOf(rest, w);
      UpdatesInOrder(m, w, rest);
      if |turns| == amount + 2 {
        assert turns[1..][..amount] == turns[1..amount + 1];
      }
    }
  }

  /**
   A writer that has drawn makes `amount` updates, one for every ten of `roll % 100`
   begun, in the cells and with the values it draws, and nobody else changes the table
   meanwhile: given its turns among any others, the table is the table at the beginning
   overwritten by its draws in order. Then it retires.
   */
  lemma WriterSession(s0: State, past: seq<Turn>, w: int, schedule: seq<Turn>, amount: nat)
    requires IsInit(s0) && At(Exec(s0, past), w, Draw)
    requires TurnsOf(schedule, w) != []
    requires 10 * (amount - 1) <= TurnsOf(schedule, w)[0].roll % TABLE_SIZE < 10 * amount
    ensures var s, turns := Exec(s0, past), TurnsOf(schedule, w);
      var t := Exec(s, schedule);
      && (|turns| <= amount + 1 ==>
            At(t, w, Update) && t.table == Overwritten(s.table, Writes(turns[1..])))
      && (|turns| == amount + 2 ==>
            At(t, w, Retire) && t.table == Overwritten(s.table, Writes(turns[1..amount + 1])))
  {
    InitInv(s0);
    RunKeepsInv(s0, past);
    FromDraw(Exec(s0, past), w, schedule, amount);
  }

  /** Every cell can be given every value in 1..999, and then no other cell changes. */
  lemma EveryCellCanBeWritten(s: State, w: int, k: nat, value: nat)
    requires At(s, w, Update) && s.threads[w].left > 0 && k < TABLE_SIZE && 1 <= value <= 999
    ensures Move(s, Turn(w, k, value - 1)).table == s.table[k := value]
  {
  }

  // ---------- the order of operations ----------

  datatype Semaphore = Check | Handover | Permit

  /** A step as the shared semaphores and counters show it. */
  datatype Op = Wait(sem: Semaphore) | Post(sem: Semaphore) | Enters | Leaves | Announces | Retires | Local | Several

  ghost function Effect(s: State, t: State): Op
  {
    var check, wait, permit := t.semCheck - s.semCheck, t.semWait - s.semWait, t.semWriter - s.semWriter;
    match (check, wait, permit, t.readers - s.readers, t.writers - s.writers)
    case (0, 0, 0, 0, 0) => Local
    case (1, 0, 0, 0, 0) => Post(Check)
    case (-1, 0, 0, 0, 0) => Wait(Check)
    case (0, 1, 0, 0, 0) => Post(Handover)
    case (0, -1, 0, 0, 0) => Wait(Handover)
    case (0, 0, 1, 0, 0) => Post(Permit)
    case (0, 0, -1, 0, 0) => Wait(Permit)
    case (0, 0, 0, 1, 0) => Enters
    case (0, 0, 0, -1, 0) => Leaves
    case (0, 0, 0, 0, 1) => Announces
    case (0, 0, 0, 0, -1) => Retires
    case _ => Several
  }

  /** The steps that thread `t` has made, in a run in which others move too. */
  ghost function Ops(s: State, t: int, schedule: seq<Turn>): seq<Op>
    decreases |schedule|
  {
    if schedule == [] then []
    else
      var m := Move(s, schedule[0]);
      if schedule[0].thread == t && Enabled(s, t) then [Effect(s, m)] + Ops(m, t, schedule[1..])
      else Ops(m, t, schedule[1..])
  }

  ghost function Locals(n: nat): seq<Op> { seq(n, _ => Local) }

  /** One round of `rFunc`: 100 cells and the end of the loop between the posts, then the decision whom to post to. */
  ghost function ReaderRound(last: Semaphore): seq<Op>
  {
    [Wait(Check), Enters, Post(Check)] + Locals(TABLE_SIZE + 1) + [Wait(Check), Leaves, Local, Post(last)]
  }

  ghost function WriterStart(waits: bool): seq<Op>
  {
    [Wait(Permit), Wait(Check), Announces, Local] + if waits then [Post(Check), Wait(Handover)] else []
  }

  /** One round of `wFunc`: with or without a wait for the baton, and `amount` updates. */
  ghost function WriterRound(waits: bool, amount: nat): seq<Op>
  {
    WriterStart(waits) + Locals(amount + 2) + [Retires, Post(Check), Post(Permit)]
  }

  ghost function ReaderProgram(): iset<seq<Op>>
  {
    iset last | last in {Check, Handover} :: ReaderRound(last)
  }

  ghost function WriterProgram(): iset<seq<Op>>
  {
    iset waits: bool, amount: nat | 1 <= amount <= 10 :: WriterRound(waits, amount)
  }

  // ---------- readers ----------

  ghost function ReaderSoFar(r: Thread): seq<Op>
    requires r.Reader?
  {
    var inside := [Wait(Check), Enters, Post(Check)];
    var scanned := inside + Locals(TABLE_SIZE + 1);
    match r.rpc
    case Idle => []
    case Enter => [Wait(Check)]
    case LeaveCheck => [Wait(Check), Enters]
    case Scan => inside + Locals(r.i)
    case ExitCheck => scanned
    case Depart => scanned + [Wait(Check)]
    case Decide => scanned + [Wait(Check), Leaves]
    case HandOver | Release => scanned + [Wait(Check), Leaves, Local]
  }

  ghost predicate ScansTheTable(t: Thread)
  {
    t.Reader? && (t.rpc.Scan? ==> t.i <= TABLE_SIZE)
  }

  lemma ReaderSoFarBegins(r: Thread)
    requires ScansTheTable(r)
    ensures ReaderSoFar(r) <= ReaderRound(Check)
  {
  }

  lemma OneMoreLocal(start: seq<Op>, n: nat)
    ensures start + Locals(n) + [Local] == start + Locals(n + 1)
  {
    assert Locals(n) + [Local] == Locals(n + 1);
  }

  lemma ReaderMoves(s: State, t: int)
    requires Enabled(s, t) && ScansTheTable(s.threads[t])
    ensures var m := ReaderNext(s, t);
      && t in m.threads && ScansTheTable(m.threads[t])
      && var before, after, op := s.threads[t], m.threads[t], Effect(s, m);
      || ReaderSoFar(before) + [op] == ReaderSoFar(after)
      || (before.rpc.HandOver? && after.rpc.Idle? && ReaderSoFar(before) + [op] == ReaderRound(Handover))
      || (before.rpc.Release? && after.rpc.Idle? && ReaderSoFar(before) + [op] == ReaderRound(Check))
  {
    var r := s.threads[t];
    OneMoreLocal([Wait(Check), Enters, Post(Check)], r.i);
  }

  lemma OthersLeaveTheThread(s: State, t: int, turn: Turn)
    requires t in s.threads && (turn.thread != t || !Enabled(s, t))
    ensures t in Move(s, turn).threads && Move(s, turn).threads[t] == s.threads[t]
  {
  }

  lemma {:induction false} ReaderRoundsFrom(s: State, t: int, schedule: seq<Turn>)
    requires t in s.threads && ScansTheTable(s.threads[t])
    ensures AreRounds(ReaderSoFar(s.threads[t]) + Ops(s, t, schedule), ReaderProgram())
    decreases |schedule|
  {
    var before := s.threads[t];
    var sofar := ReaderSoFar(before);
    if schedule == [] {
      ReaderSoFarBegins(before);
      assert sofar + [] == sofar;
      BeginningIsRounds(sofar, ReaderRound(Check), ReaderProgram());
    } else {
      var m, rest := Move(s, schedule[0]), schedule[1..];
      if schedule[0].thread == t && Enabled(s, t) {
        ReaderMoves(s, t);
        ReaderRoundsFrom(m, t, rest);
        var round := ReaderRound(if before.rpc.HandOver? then Handover else Check);
        OneMoreOp(sofar, Effect(s, m), ReaderSoFar(m.threads[t]), Ops(m, t, rest), round, ReaderProgram());
      } else {
        OthersLeaveTheThread(s, t, schedule[0]);
        ReaderRoundsFrom(m, t, rest);
      }
    }
  }

  /** In every run, however interleaved, a reader's steps are rounds of `rFunc`, the last one perhaps unfinished. */
  lemma ReadersRunTheirLoop(s0: State, schedule: seq<Turn>, t: int)
    requires IsInit(s0) && t in s0.threads && s0.threads[t].Reader?
    ensures AreRounds(Ops(s0, t, schedule), ReaderProgram())
  {
    ReaderRoundsFrom(s0, t, schedule);
    assert [] + Ops(s0, t, schedule) == Ops(s0, t, schedule);
  }

  // ---------- writers ----------

  ghost function WriterSoFar(w: Thread, waits: bool, amount: nat): seq<Op>
    requires w.Writer? && (w.wpc.Update? ==> w.left <= amount)
  {
    var updated := WriterStart(waits) + Locals(amount + 2);
    match w.wpc
    case Idle => []
    case WaitCheck => [Wait(Permit)]
    case Announce => [Wait(Permit), Wait(Check)]
    case TestReaders => [Wait(Permit), Wait(Check), Announces]
    case YieldCheck => [Wait(Permit), Wait(Check), Announces, Local]
    case AwaitBaton => [Wait(Permit), Wait(Check), Announces, Local, Post(Check)]
    case Draw => WriterStart(waits)
    case Update => WriterStart(waits) + Locals(1 + amount - w.left)
    case Retire => updated
    case PostCheck => updated + [Retires]
    case PostTurn => updated + [Retires, Post(Check)]
  }

  ghost predicate Fits(w: Thread, waits: bool, amount: nat)
  {
    && w.Writer? && 1 <= amount <= 10
    && (w.wpc.YieldCheck? || w.wpc.AwaitBaton? ==> waits)
    && (w.wpc.Update? ==> w.left <= amount)
  }

  lemma WriterSoFarBegins(w: Thread, waits: bool, amount: nat)
    requires Fits(w, waits, amount)
    ensures WriterSoFar(w, waits, amount) <= WriterRound(waits, amount)
  {
  }

  /** What the round turns out to be after this step. */
  ghost function Waits(s: State, w: Thread, waits: bool): bool
    requires w.Writer?
  {
    if w.wpc.TestReaders? then s.readers > 0 else waits
  }

  ghost function Amount(w: Thread, m: State, t: int, amount: nat): nat
    requires w.Writer? && t in m.threads && m.threads[t].Writer?
  {
    if w.wpc.Draw? then m.threads[t].left else amount
  }

  /** From `s` to `m` the writer has gone on with its round, or finished it. */
  ghost predicate WriterGoesOn(s: State, t: int, m: State, waits: bool, amount: nat)
    requires t in s.threads && Fits(s.threads[t], waits, amount)
  {
    && t in m.threads && m.threads[t].Writer?
    && var waits', amount' := Waits(s, s.threads[t], waits), Amount(s.threads[t], m, t, amount);
    && Fits(m.threads[t], waits', amount')
    && var ops := WriterSoFar(s.threads[t], waits, amount) + [Effect(s, m)];
    && (|| ops == WriterSoFar(m.threads[t], waits', amount')
        || (m.threads[t].wpc.Idle? && ops == WriterRound(waits, amount)))
  }

  lemma WriterArrives(s: State, t: int, roll: nat, roll': nat, waits: bool, amount: nat)
    requires Enabled(s, t) && Fits(s.threads[t], waits, amount)
    requires !IsWriting(s.threads[t]) && !s.threads[t].wpc.PostCheck? && !s.threads[t].wpc.PostTurn?
    ensures WriterGoesOn(s, t, WriterNext(s, t, roll, roll'), waits, amount)
  {
  }

  lemma WriterWrites(s: State, t: int, roll: nat, roll': nat, waits: bool, amount: nat)
    requires Enabled(s, t) && Fits(s.threads[t], waits, amount)
    requires s.threads[t].wpc.Draw? || s.threads[t].wpc.Update?
    ensures WriterGoesOn(s, t, WriterNext(s, t, roll, roll'), waits, amount)
  {
    var w := s.threads[t];
    if w.wpc.Update? {
      OneMoreLocal(WriterStart(waits), 1 + amount - w.left);
    } else {
      assert Locals(1) == [Local];
    }
  }

  lemma WriterLeaves(s: State, t: int, roll: nat, roll': nat, waits: bool, amount: nat)
    requires Enabled(s, t) && Fits(s.threads[t], waits, amount)
    requires s.threads[t].wpc.Retire? || s.threads[t].wpc.PostCheck? || s.threads[t].wpc.PostTurn?
    ensures WriterGoesOn(s, t, WriterNext(s, t, roll, roll'), waits, amount)
  {
  }

  lemma WriterMoves(s: State, turn: Turn, waits: bool, amount: nat)
    requires Enabled(s, turn.thread) && Fits(s.threads[turn.thread], waits, amount)
    ensures WriterGoesOn(s, turn.thread, Move(s, turn), waits, amount)
  {
    var t := turn.thread;
    match s.threads[t].wpc
    case Draw | Update => WriterWrites(s, t, turn.roll, turn.roll', waits, amount);
    case Retire | PostCheck | PostTurn => WriterLeaves(s, t, turn.roll, turn.roll', waits, amount);
    case _ => WriterArrives(s, t, turn.roll, turn.roll', waits, amount);
  }

  lemma {:induction false} WriterRoundsFrom(s: State, t: int, schedule: seq<Turn>, waits: bool, amount: nat)
    requires t in s.threads && Fits(s.threads[t], waits, amount)
    ensures AreRounds(WriterSoFar(s.threads[t], waits, amount) + Ops(s, t, schedule), WriterProgram())
    decreases |schedule|
  {
    var before := s.threads[t];
    var sofar, round := WriterSoFar(before, waits, amount), WriterRound(waits, amount);
    if schedule == [] {
      WriterSoFarBegins(before, waits, amount);
      assert sofar + [] == sofar;
      BeginningIsRounds(sofar, round, WriterProgram());
    } else {
      var m, rest := Move(s, schedule[0]), schedule[1..];
      if schedule[0].thread == t && Enabled(s, t) {
        WriterMoves(s, schedule[0], waits, amount);
        var waits', amount' := Waits(s, before, waits), Amount(before, m, t, amount);
        WriterRoundsFrom(m, t, rest, waits', amount');
        var next := WriterSoFar(m.threads[t], waits', amount');
        OneMoreOp(sofar, Effect(s, m), next, Ops(m, t, rest), round, WriterProgram());
      } else {
        OthersLeaveTheThread(s, t, schedule[0]);
        WriterRoundsFrom(m, t, rest, waits, amount);
      }
    }
  }

  /** In every run, however interleaved, a writer's steps are rounds of `wFunc`, the last one perhaps unfinished. */
  lemma WritersRunTheirLoop(s0: State, schedule: seq<Turn>, t: int)
    requires IsInit(s0) && t in s0.threads && s0.threads[t].Writer?
    ensures AreRounds(Ops(s0, t, schedule), WriterProgram())
  {
    WriterRoundsFrom(s0, t, schedule, false, 1);
    assert [] + Ops(s0, t, schedule) == Ops(s0, t, schedule);
  }
}
