/**
 What one process of the barber shop does, whatever the others are given in between:
 who can hold it up, what `takePlace` answers, and the order of its operations on the
 semaphores, the chair and the waiting room.
 */
module BarberSessions {
  import opened Rounds
  import opened BarberShop
  import opened BarberInvariant
  import opened BarberTheorems

  // ---------- who can hold a process up ----------

  ghost predicate WaitingRoomIsFree(s: State)
  {
    !BarberHoldsFifo(s.barber) && forall p :: p in s.clients ==> !HoldsFifo(s.clients[p])
  }

  ghost predicate CheckerIsFree(s: State)
  {
    forall p :: p in s.clients ==> !HoldsChecker(s.clients[p])
  }

  /**
   A client waits for CHECKER only while another is between the wait and the post on it;
   for FIFO only while somebody is in the waiting room; for SLOWER only until the barber
   is up; for the signal only while it is in the line. Otherwise it can always move on.
   */
  lemma ClientBlockedOnlyByOthers(s0: State, past: seq<Process>, p: int)
    requires IsInit(s0) && p in s0.clients
    ensures var s := Exec(s0, past);
      && p in s.clients
      && (ClientEnabled(s, p) <==>
            match s.clients[p].pc
            case WaitChecker => CheckerIsFree(s)
            case WaitFifo => WaitingRoomIsFree(s)
            case SecondSync => s.version.Posix? ==> s.barber.LockForChair?
            case Suspend => p !in NextInLine(s)
            case Done => false
            case _ => true)
  {
    var fifo, checker := Reachable(s0, past);
    OneHaircutPerAdmission(s0, past, p);
    var s := Exec(s0, past);
    if s.clients[p].pc.SecondSync? {
      assert HoldsFifo(s.clients[p]);
    }
  }

  /**
   The barber waits for FIFO only while a client is in the waiting room, and to be woken
   only in an empty shop that nobody has woken; otherwise it can always move on.
   */
  lemma BarberBlockedOnlyByOthers(s0: State, past: seq<Process>)
    requires IsInit(s0)
    ensures var s := Exec(s0, past);
      BarberEnabled(s) <==>
        match s.barber
        case AwaitWake => SomeoneAt(s, SecondSync) || SomeoneAt(s, SitDown) || NextInLine(s) != []
        case LockForChair | LockQueue => WaitingRoomIsFree(s)
        case _ => true
  {
    var fifo, checker := Reachable(s0, past);
    var s := Exec(s0, past);
    SomeoneIsOwner(s, fifo, checker, SecondSync);
    SomeoneIsOwner(s, fifo, checker, SitDown);
  }

  // ---------- what takePlace answers ----------

  /** What `res` says of a client that leaves the waiting room: in the chair, in the queue, or turned away. */
  ghost predicate AnswerIsTrue(s: State, p: int, res: int)
  {
    match res
    case 1 => BeforeChair(s.barber) && s.barberSem > 0 && s.chair == p
    case 0 => p in s.queue
    case -1 => true
    case _ => false
  }

  ghost predicate AnswersAreTrue(s: State)
  {
    forall p :: p in s.clients && s.clients[p].pc.PostFifo? ==> AnswerIsTrue(s, p, s.clients[p].res)
  }

  lemma BarberKeepsAnswer(s: State, fifo: Owner, checker: Owner, p: int, res: int)
    requires Locks(s, fifo, checker) && Handshake(s, Phase(s, fifo)) && BarberEnabled(s)
    requires fifo == AClient(p) && Phase(s, fifo).PostFifo? && AnswerIsTrue(s, p, res)
    ensures AnswerIsTrue(BarberNext(s), p, res)
  {
  }

  lemma BarberKeepsAnswers(s: State, fifo: Owner, checker: Owner)
    requires InvWith(s, fifo, checker) && AnswersAreTrue(s) && BarberEnabled(s)
    ensures AnswersAreTrue(BarberNext(s))
  {
    var t := BarberNext(s);
    OnlyCutsCount(s);
    forall p | p in t.clients && t.clients[p].pc.PostFifo?
      ensures AnswerIsTrue(t, p, t.clients[p].res)
    {
      assert p in s.clients && HoldsFifo(s.clients[p]) && t.clients[p].res == s.clients[p].res;
      BarberKeepsAnswer(s, fifo, checker, p, s.clients[p].res);
    }
  }

  lemma OwnAnswer(s: State, p: int, fifo: Owner, checker: Owner)
    requires Locks(s, fifo, checker) && Handshake(s, Phase(s, fifo)) && ClientEnabled(s, p)
    ensures var t := ClientNext(s, p);
      && p in t.clients && t.clients == s.clients[p := t.clients[p]]
      && (t.clients[p].pc.PostFifo? ==> AnswerIsTrue(t, p, t.clients[p].res))
      && (!HoldsFifo(s.clients[p]) ==> (forall q, res :: AnswerIsTrue(s, q, res) ==> AnswerIsTrue(t, q, res)))
  {
    if HoldsFifo(s.clients[p]) {
      assert fifo == AClient(p);
    }
  }

  lemma ClientKeepsAnswers(s: State, p: int, fifo: Owner, checker: Owner)
    requires InvWith(s, fifo, checker) && AnswersAreTrue(s) && ClientEnabled(s, p)
    ensures AnswersAreTrue(ClientNext(s, p))
  {
    var t := ClientNext(s, p);
    OwnAnswer(s, p, fifo, checker);
    forall q | q in t.clients && t.clients[q].pc.PostFifo?
      ensures AnswerIsTrue(t, q, t.clients[q].res)
    {
      if q != p {
        assert HoldsFifo(s.clients[q]) && fifo == AClient(q);
        assert AnswerIsTrue(s, q, s.clients[q].res);
      }
    }
  }

  lemma {:induction false} AnswersStayTrue(s: State, schedule: seq<Process>)
    requires Inv(s) && AnswersAreTrue(s)
    ensures AnswersAreTrue(Exec(s, schedule))
    decreases |schedule|
  {
    if schedule != [] {
      var fifo, checker :| InvWith(s, fifo, checker);
      if Enabled(s, schedule[0]) {
        match schedule[0]
        case Barber => BarberKeepsAnswers(s, fifo, checker);
        case Visitor(p) => ClientKeepsAnswers(s, p, fifo, checker);
      }
      MoveKeepsInv(s, schedule[0]);
      AnswersStayTrue(Move(s, schedule[0]), schedule[1..]);
    }
  }

  /** 1 means in the chair, 0 in the queue, -1 in neither. */
  ghost predicate AnswerTellsThePlace(s: State, p: int, res: int)
  {
    && (res == 1 <==> InChair(s, WakerPresent(s)) == [p])
    && (res == 0 <==> p in s.queue)
    && (res == -1 <==> p !in NextInLine(s))
    && (res == 1 || res == 0 || res == -1)
  }

  lemma AnswerFromThePlace(s: State, p: int)
    requires Inv(s) && AnswersAreTrue(s)
    requires p in s.clients && s.clients[p].pc.PostFifo?
    ensures AnswerTellsThePlace(s, p, s.clients[p].res)
  {
    var fifo, checker :| InvWith(s, fifo, checker);
    NobodyIsWaking(s, fifo, checker, p);
    assert NextInLine(s) == Line(s, fifo);
    assert ClientFacts(s.cutsNumber, s.clients[p], multiset(NextInLine(s))[p], multiset(s.served)[p]);
    assert AnswerIsTrue(s, p, s.clients[p].res);
    OnePlace(InChair(s, WakerPresent(s)), s.queue, p);
  }

  /** On the way out of the waiting room `res` tells the place that was taken, if any. */
  lemma AnswerMeans(s0: State, past: seq<Process>, s: State, p: int)
    requires IsInit(s0) && s == Exec(s0, past)
    requires p in s.clients && s.clients[p].pc.PostFifo?
    ensures AnswerTellsThePlace(s, p, s.clients[p].res)
  {
    InitInv(s0);
    RunKeepsInv(s0, past);
    assert AnswersAreTrue(s) by {
      AnswersStayTrue(s0, past);
    }
    AnswerFromThePlace(s, p);
  }

  lemma NobodyIsWaking(s: State, fifo: Owner, checker: Owner, p: int)
    requires Locks(s, fifo, checker) && p in s.clients && s.clients[p].pc.PostFifo?
    ensures !WakerPresent(s)
  {
    assert HoldsFifo(s.clients[p]);
    WakerIsOwner(s, fifo, checker);
  }

  /** Who is in line at most once is either at the front, in the chair, or behind, in the queue. */
  lemma OnePlace(chair: seq<int>, queue: seq<int>, p: int)
    requires |chair| <= 1 && multiset(chair + queue)[p] <= 1
    ensures p in chair ==> chair == [p] && p !in queue
    ensures p in chair + queue <==> p in chair || p in queue
  {
    assert multiset(chair + queue)[p] == multiset(chair)[p] + multiset(queue)[p];
  }

  // ---------- the order of operations ----------

  datatype Semaphore = BARBER | SLOWER | FIFO | CHECKER

  /** A step as the shared memory shows it. */
  datatype Op =
    | Wait(sem: Semaphore) | Post(sem: Semaphore)
    | SitsDown   // fifo->chair = myPID
    | Queues     // pushFifo
    | GetsSignal // sigsuspend has returned
    | Calls      // popFifo
    | Cuts       // kill
    | Local | Several

  ghost function Signals(s: State, proc: Process): int
  {
    if proc.Visitor? && proc.pid in s.clients then s.clients[proc.pid].pending else 0
  }

  ghost function SemaphoreOp(s: State, t: State): Op
  {
    var deltas := (t.barberSem - s.barberSem, t.slowerSem - s.slowerSem,
                   t.fifoSem - s.fifoSem, t.checkerSem - s.checkerSem);
    match deltas
    case (0, 0, 0, 0) => Local
    case (1, 0, 0, 0) => Post(BARBER)
    case (-1, 0, 0, 0) => Wait(BARBER)
    case (0, 1, 0, 0) => Post(SLOWER)
    case (0, -1, 0, 0) => Wait(SLOWER)
    case (0, 0, 1, 0) => Post(FIFO)
    case (0, 0, -1, 0) => Wait(FIFO)
    case (0, 0, 0, 1) => Post(CHECKER)
    case (0, 0, 0, -1) => Wait(CHECKER)
    case _ => Several
  }

  ghost function ShopOp(s: State, t: State, proc: Process): Op
  {
    var deltas := (|t.admitted| - |s.admitted|, |t.served| - |s.served|,
                   |t.queue| - |s.queue|, Signals(t, proc) - Signals(s, proc));
    match deltas
    case (0, 0, 0, 0) => Local
    case (1, 0, 0, 0) => SitsDown
    case (1, 0, 1, 0) => Queues
    case (0, 0, 0, -1) => GetsSignal
    case (0, 0, -1, 0) => Calls
    case (0, 1, 0, 0) => Cuts
    case _ => Several
  }

  ghost function Effect(s: State, t: State, proc: Process): Op
  {
    var sem, shop := SemaphoreOp(s, t), ShopOp(s, t, proc);
    if shop.Local? then sem else if sem.Local? then shop else Several
  }

  /** The steps that a process has made, in a run in which others move too. */
  ghost function Ops(s: State, proc: Process, schedule: seq<Process>): seq<Op>
    decreases |schedule|
  {
    if schedule == [] then []
    else
      var m := Move(s, schedule[0]);
      if schedule[0] == proc && Enabled(s, proc) then [Effect(s, m, proc)] + Ops(m, proc, schedule[1..])
      else Ops(m, proc, schedule[1..])
  }

  // ---------- clients ----------

  datatype Visit = TookTheChair | TookAPlace | WasTurnedAway

  ghost function Arrival(version: Version, visit: Visit): seq<Op>
  {
    match visit
    case TookTheChair => [Post(BARBER), if version.Posix? then Wait(SLOWER) else Post(BARBER), SitsDown]
    case TookAPlace => [Queues]
    case WasTurnedAway => [Local]
  }

  ghost function ClientEntry(): seq<Op>
  {
    [Local, Wait(CHECKER), Wait(FIFO), Local]
  }

  /** One round of `getCut`; the `Local` steps are the loop's test, the look at BARBER and a push that fails. */
  ghost function ClientRound(version: Version, visit: Visit): seq<Op>
  {
    ClientEntry() + Arrival(version, visit) + [Post(FIFO), Post(CHECKER)]
    + [if visit.WasTurnedAway? then Local else GetsSignal]
  }

  ghost function ClientProgram(version: Version): iset<seq<Op>>
  {
    iset visit: Visit | true :: ClientRound(version, visit)
  }

  ghost function VisitOf(res: int): Visit
  {
    if res == 1 then TookTheChair else if res == 0 then TookAPlace else WasTurnedAway
  }

  ghost function ClientSoFar(version: Version, c: Client): seq<Op>
  {
    var visited := ClientEntry() + Arrival(version, VisitOf(c.res));
    match c.pc
    case LoopTest => []
    case WaitChecker | Done => [Local]
    case WaitFifo => [Local, Wait(CHECKER)]
    case ReadBarber => [Local, Wait(CHECKER), Wait(FIFO)]
    case FirstPost | Enqueue => ClientEntry()
    case SecondSync => ClientEntry() + [Post(BARBER)]
    case SitDown => ClientEntry() + [Post(BARBER), if version.Posix? then Wait(SLOWER) else Post(BARBER)]
    case PostFifo => visited
    case PostChecker => visited + [Post(FIFO)]
    case Suspend => visited + [Post(FIFO), Post(CHECKER)]
  }

  ghost predicate HasAnswer(c: Client)
  {
    c.pc.PostFifo? || c.pc.PostChecker? || c.pc.Suspend? ==> -1 <= c.res <= 1
  }

  ghost function VisitSoFar(c: Client): Visit
  {
    if c.pc.FirstPost? || c.pc.SecondSync? || c.pc.SitDown? then TookTheChair else VisitOf(c.res)
  }

  lemma ClientSoFarBegins(version: Version, c: Client)
    ensures ClientSoFar(version, c) <= ClientRound(version, VisitSoFar(c))
  {
  }

  lemma ClientMoves(s: State, p: int)
    requires ClientEnabled(s, p) && HasAnswer(s.clients[p])
    ensures var c, t := s.clients[p], ClientNext(s, p);
      && t.version == s.version && p in t.clients && HasAnswer(t.clients[p])
      && var ops := ClientSoFar(s.version, c) + [Effect(s, t, Visitor(p))];
      && (|| ops == ClientSoFar(s.version, t.clients[p])
          || (t.clients[p].pc.LoopTest? && ops == ClientRound(s.version, VisitOf(c.res))))
  {
  }

  lemma OthersLeaveTheClient(s: State, p: int, proc: Process)
    requires p in s.clients && (proc != Visitor(p) || !Enabled(s, proc))
    ensures var t := Move(s, proc);
      && t.version == s.version && p in t.clients
      && t.clients[p].pc == s.clients[p].pc && t.clients[p].res == s.clients[p].res
  {
  }

  lemma {:induction false} ClientRoundsFrom(s: State, p: int, schedule: seq<Process>)
    requires p in s.clients && HasAnswer(s.clients[p])
    ensures AreRounds(ClientSoFar(s.version, s.clients[p]) + Ops(s, Visitor(p), schedule), ClientProgram(s.version))
    decreases |schedule|
  {
    var c, program := s.clients[p], ClientProgram(s.version);
    var sofar := ClientSoFar(s.version, c);
    if schedule == [] {
      ClientSoFarBegins(s.version, c);
      assert sofar + [] == sofar;
      BeginningIsRounds(sofar, ClientRound(s.version, VisitSoFar(c)), program);
    } else {
      var t, rest := Move(s, schedule[0]), schedule[1..];
      if schedule[0] == Visitor(p) && Enabled(s, Visitor(p)) {
        ClientMoves(s, p);
        ClientRoundsFrom(t, p, rest);
        var next, later := ClientSoFar(s.version, t.clients[p]), Ops(t, Visitor(p), rest);
        OneMoreOp(sofar, Effect(s, t, Visitor(p)), next, later, ClientRound(s.version, VisitOf(c.res)), program);
      } else {
        OthersLeaveTheClient(s, p, schedule[0]);
        ClientRoundsFrom(t, p, rest);
      }
    }
  }

  /** In every run, however interleaved, a client's steps are rounds of `getCut`, the last one perhaps unfinished. */
  lemma ClientsRunTheirLoop(s0: State, schedule: seq<Process>, p: int)
    requires IsInit(s0) && p in s0.clients
    ensures AreRounds(Ops(s0, Visitor(p), schedule), ClientProgram(s0.version))
  {
    ClientRoundsFrom(s0, p, schedule);
    assert [] + Ops(s0, Visitor(p), schedule) == Ops(s0, Visitor(p), schedule);
  }

  // ---------- the barber ----------

  ghost function Awakening(version: Version): seq<Op>
  {
    [Wait(BARBER)] + if version.Posix? then [Post(BARBER), Post(SLOWER)] else []
  }

  /** The haircuts of `n` clients from the queue. */
  ghost function QueueCuts(n: nat): seq<Op>
  {
    if n == 0 then [] else QueueCuts(n - 1) + [Wait(FIFO), Calls, Post(FIFO), Cuts]
  }

  /** Woken, the client in the chair cut, and then `n` from the queue. */
  ghost function Shift(version: Version, n: nat): seq<Op>
  {
    Awakening(version) + [Wait(FIFO), Local, Post(FIFO), Cuts] + QueueCuts(n)
  }

  /** One round of `startWork`: from being woken to falling asleep, which is done inside the waiting room. */
  ghost function BarberRound(version: Version, n: nat): seq<Op>
  {
    Shift(version, n) + [Wait(FIFO), Local, Wait(BARBER), Post(FIFO)]
  }

  ghost function BarberProgram(version: Version): iset<seq<Op>>
  {
    iset n: nat | true :: BarberRound(version, n)
  }

  ghost function BarberSoFar(version: Version, pc: BarberPc, n: nat): seq<Op>
  {
    var woken := Awakening(version);
    match pc
    case AwaitWake => []
    case Repost => [Wait(BARBER)]
    case PostSlower => [Wait(BARBER), Post(BARBER)]
    case LockForChair => woken
    case ReadChair => woken + [Wait(FIFO)]
    case UnlockChair => woken + [Wait(FIFO), Local]
    case CutChair => woken + [Wait(FIFO), Local, Post(FIFO)]
    case LockQueue => Shift(version, n)
    case PopQueue => Shift(version, n) + [Wait(FIFO)]
    case UnlockQueue => Shift(version, n) + [Wait(FIFO), Calls]
    case CutQueue => Shift(version, n) + [Wait(FIFO), Calls, Post(FIFO)]
    case GoToSleep => Shift(version, n) + [Wait(FIFO), Local]
    case UnlockAsleep => Shift(version, n) + [Wait(FIFO), Local, Wait(BARBER)]
  }

  ghost function CutsSoFar(pc: BarberPc, n: nat): nat
  {
    match pc
    case CutQueue => n + 1
    case CutChair => 0
    case _ => n
  }

  ghost predicate BarberFits(s: State)
  {
    && (s.barber.Repost? || s.barber.PostSlower? ==> s.version.Posix?)
    && (s.barber.PopQueue? && s.queue != [] ==> s.queue[0] != -1)
  }

  lemma BarberAlwaysFits(s: State)
    requires Inv(s)
    ensures BarberFits(s)
  {
    var fifo, checker :| InvWith(s, fifo, checker);
    if s.queue != [] {
      assert s.queue[0] in Line(s, fifo);
    }
  }

  lemma BarberSoFarBegins(s: State, n: nat)
    requires BarberFits(s)
    ensures var whole := if s.barber.UnlockQueue? || s.barber.CutQueue? then n + 1 else n;
      BarberSoFar(s.version, s.barber, n) <= BarberRound(s.version, whole)
  {
  }

  lemma BarberMoves(s: State, n: nat)
    requires BarberEnabled(s) && BarberFits(s)
    ensures var t := BarberNext(s);
      && t.version == s.version
      && var ops := BarberSoFar(s.version, s.barber, n) + [Effect(s, t, Barber)];
      && (|| ops == BarberSoFar(s.version, t.barber, CutsSoFar(s.barber, n))
          || (t.barber.AwaitWake? && ops == BarberRound(s.version, n)))
  {
  }

  lemma {:induction false} BarberRoundsFrom(s: State, schedule: seq<Process>, n: nat)
    requires Inv(s)
    ensures AreRounds(BarberSoFar(s.version, s.barber, n) + Ops(s, Barber, schedule), BarberProgram(s.version))
    decreases |schedule|
  {
    var sofar, program := BarberSoFar(s.version, s.barber, n), BarberProgram(s.version);
    BarberAlwaysFits(s);
    if schedule == [] {
      BarberSoFarBegins(s, n);
      assert sofar + [] == sofar;
      var whole := if s.barber.UnlockQueue? || s.barber.CutQueue? then n + 1 else n;
      BeginningIsRounds(sofar, BarberRound(s.version, whole), program);
    } else {
      var t, rest := Move(s, schedule[0]), schedule[1..];
      MoveKeepsInv(s, schedule[0]);
      if schedule[0] == Barber && BarberEnabled(s) {
        BarberMoves(s, n);
        BarberRoundsFrom(t, rest, CutsSoFar(s.barber, n));
        var next, later := BarberSoFar(s.version, t.barber, CutsSoFar(s.barber, n)), Ops(t, Barber, rest);
        OneMoreOp(sofar, Effect(s, t, Barber), next, later, BarberRound(s.version, n), program);
      } else {
        OthersLeaveTheBarber(s, schedule[0]);
        BarberRoundsFrom(t, rest, n);
      }
    }
  }

  lemma OthersLeaveTheBarber(s: State, proc: Process)
    requires proc != Barber || !BarberEnabled(s)
    ensures Move(s, proc).version == s.version && Move(s, proc).barber == s.barber
  {
  }

  /** In every run, however interleaved, the barber's steps are rounds of `startWork`, the last perhaps unfinished. */
  lemma TheBarberRunsItsLoop(s0: State, schedule: seq<Process>)
    requires IsInit(s0)
    ensures AreRounds(Ops(s0, Barber, schedule), BarberProgram(s0.version))
  {
    InitInv(s0);
    BarberRoundsFrom(s0, schedule, 0);
    assert [] + Ops(s0, Barber, schedule) == Ops(s0, Barber, schedule);
  }
}
