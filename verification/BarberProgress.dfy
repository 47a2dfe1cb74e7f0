/**
 The barber shop never gets stuck, not even in part: from every reachable state
 some continuation lets every client return with all its haircuts and puts the
 barber to sleep. Deadlock freedom follows.

 The continuation is built greedily. The barber moves whenever it can; otherwise
 the client who owns FIFO moves; otherwise the barber is asleep and any client that
 can move does. Every such step lowers a lexicographic rank: admissions still to
 come, clients admitted and not cut, the clients' distance round their loop, and
 the barber's distance to its sleep.
 */
module BarberProgress {
  import opened Sums
  import opened BarberShop
  import opened BarberInvariant
  import opened BarberTheorems

  // ---------- the rank ----------

  /** Haircuts a client has had or is waiting for. */
  function Booked(c: Client): nat
  {
    c.cutsCounter + (if IsWaiting(c) then 1 else 0)
  }

  ghost function ToBook(cutsNumber: nat): Client -> nat
  {
    (c: Client) => if Booked(c) < cutsNumber then cutsNumber - Booked(c) else 0
  }

  /** Distance to the chair of a sleeping barber; a client turned away goes round once more. */
  function Distance(c: Client): nat
  {
    match c.pc
    case Enqueue => 19
    case PostFifo => 18
    case PostChecker => 17
    case Suspend => 16
    case LoopTest => 15
    case WaitChecker => 14
    case WaitFifo => 13
    case ReadBarber => 12
    case FirstPost => 11
    case SecondSync => 10
    case SitDown => 9
    case Done => 0
  }

  /** A client about to find the barber awake will be sent to the queue. */
  ghost function Detour(s: State, fifo: Owner): nat
  {
    if Phase(s, fifo).ReadBarber? && s.barberSem > 0 then 8 else 0
  }

  function BarberDistance(s: State): nat
  {
    match s.barber
    case AwaitWake => if s.barberSem > 0 then 12 else 0
    case Repost => 11
    case PostSlower => 10
    case LockForChair => 9
    case ReadChair => 8
    case UnlockChair => 7
    case CutChair => 6
    case LockQueue => 6
    case PopQueue => 5
    case UnlockQueue => 4
    case CutQueue => 3
    case GoToSleep => 2
    case UnlockAsleep => 1
  }

  ghost function ToAdmit(s: State): nat { Sum(s.clients, ToBook(s.cutsNumber)) }

  ghost function Travel(s: State, fifo: Owner): nat { Sum(s.clients, Distance) + Detour(s, fifo) }

  ghost predicate Lower(s: State, fifo: Owner, t: State, fifo': Owner)
  {
    || ToAdmit(t) < ToAdmit(s)
    || (ToAdmit(t) == ToAdmit(s) && |Line(t, fifo')| < |Line(s, fifo)|)
    || (ToAdmit(t) == ToAdmit(s) && |Line(t, fifo')| == |Line(s, fifo)| && Travel(t, fifo') < Travel(s, fifo))
    || (ToAdmit(t) == ToAdmit(s) && |Line(t, fifo')| == |Line(s, fifo)| && Travel(t, fifo') == Travel(s, fifo)
        && BarberDistance(t) < BarberDistance(s))
  }

  // ---------- the barber lowers it ----------

  lemma SignalsDoNotMove(s: State)
    ensures ToAdmit(Cut(s)) == ToAdmit(s)
    ensures Sum(Cut(s).clients, Distance) == Sum(s.clients, Distance)
  {
    if s.toCut in s.clients {
      var c := s.clients[s.toCut];
      SumUpdate(s.clients, ToBook(s.cutsNumber), s.toCut, c.(pending := c.pending + 1));
      SumUpdate(s.clients, Distance, s.toCut, c.(pending := c.pending + 1));
    }
  }

  lemma BarberKeepsSums(s: State)
    requires BarberEnabled(s)
    ensures ToAdmit(BarberNext(s)) == ToAdmit(s)
    ensures Sum(BarberNext(s).clients, Distance) == Sum(s.clients, Distance)
  {
    SignalsDoNotMove(s);
  }

  lemma BarberDetour(s: State, fifo: Owner, checker: Owner)
    requires Locks(s, fifo, checker) && Handshake(s, Phase(s, fifo)) && BarberEnabled(s)
    ensures Detour(BarberNext(s), NextFifo(s, Barber, fifo)) <= Detour(s, fifo)
    ensures Service(s, Barber) == [] ==> BarberDistance(BarberNext(s)) < BarberDistance(s)
  {
  }

  lemma BarberLowers(s: State, fifo: Owner, checker: Owner)
    requires InvWith(s, fifo, checker) && BarberEnabled(s)
    ensures Lower(s, fifo, BarberNext(s), NextFifo(s, Barber, fifo))
  {
    BarberKeepsInv(s, fifo, checker);
    BarberKeepsSums(s);
    BarberDetour(s, fifo, checker);
  }

  // ---------- so does a client ----------

  /** The one client that goes round: it must not enter while the barber is awake. */
  ghost predicate GoodMoment(s: State, p: int)
    requires p in s.clients
  {
    s.clients[p].pc.WaitFifo? ==> s.barberSem == 0
  }

  lemma OneClientBooks(s: State, p: int, line: seq<int>)
    requires Ledger(s, line) && ClientEnabled(s, p)
    ensures var t := ClientNext(s, p);
      ToAdmit(t) == ToAdmit(s) - |Admission(s, Visitor(p))|
  {
    var t := ClientNext(s, p);
    var c, c' := s.clients[p], t.clients[p];
    assert t.clients == s.clients[p := c'];
    assert ClientFacts(s.cutsNumber, c, multiset(line)[p], multiset(s.served)[p]);
    assert Booked(c') == Booked(c) + |Admission(s, Visitor(p))|;
    SumUpdate(s.clients, ToBook(s.cutsNumber), p, c');
  }

  lemma OneClientSteps(s: State, p: int, fifo: Owner, checker: Owner)
    requires Locks(s, fifo, checker) && ClientEnabled(s, p) && GoodMoment(s, p)
    requires Admission(s, Visitor(p)) == []
    ensures var t := ClientNext(s, p);
      p in t.clients
      && Distance(t.clients[p]) + Detour(t, NextFifo(s, Visitor(p), fifo)) < Distance(s.clients[p]) + Detour(s, fifo)
  {
    if HoldsFifo(s.clients[p]) {
      assert fifo == AClient(p);
    }
  }

  lemma OneClientTravels(s: State, p: int, fifo: Owner, checker: Owner)
    requires Locks(s, fifo, checker) && ClientEnabled(s, p) && GoodMoment(s, p)
    requires Admission(s, Visitor(p)) == []
    ensures Travel(ClientNext(s, p), NextFifo(s, Visitor(p), fifo)) < Travel(s, fifo)
  {
    var t := ClientNext(s, p);
    ClientFrame(s, p);
    SumUpdate(s.clients, Distance, p, t.clients[p]);
    OneClientSteps(s, p, fifo, checker);
  }

  lemma ClientLowers(s: State, p: int, fifo: Owner, checker: Owner)
    requires InvWith(s, fifo, checker) && ClientEnabled(s, p) && GoodMoment(s, p)
    ensures Lower(s, fifo, ClientNext(s, p), NextFifo(s, Visitor(p), fifo))
  {
    ClientKeepsInv(s, p, fifo, checker);
    OneClientBooks(s, p, Line(s, fifo));
    if Admission(s, Visitor(p)) == [] {
      OneClientTravels(s, p, fifo, checker);
    }
  }

  // ---------- somebody can always move ----------

  /** Everybody has returned and the barber sleeps. */
  ghost predicate Finished(s: State)
  {
    AllDone(s) && !BarberEnabled(s)
  }

  /** The owner of FIFO can go on whenever the barber cannot. */
  lemma OwnerCanMove(s: State, fifo: Owner, checker: Owner)
    requires Locks(s, fifo, checker) && Handshake(s, Phase(s, fifo)) && !BarberEnabled(s) && fifo.AClient?
    ensures ClientEnabled(s, fifo.pid) && GoodMoment(s, fifo.pid)
  {
  }

  /** With FIFO free and the barber blocked, the shop is empty. */
  lemma BlockedMeansAsleep(s: State, fifo: Owner, checker: Owner)
    requires InvWith(s, fifo, checker) && !BarberEnabled(s) && !fifo.AClient?
    ensures s.fifoSem == 1 && s.barberSem == 0 && Line(s, fifo) == []
  {
  }

  lemma VisitorCanMove(s: State, p: int, checker: Owner)
    requires p in s.clients && Ledger(s, []) && Locks(s, Nobody, checker)
    requires !s.clients[p].pc.Done? && (checker.AClient? ==> checker.pid == p)
    ensures ClientEnabled(s, p)
  {
    assert ClientFacts(s.cutsNumber, s.clients[p], multiset([])[p], multiset(s.served)[p]);
  }

  lemma NextToMove(s: State, fifo: Owner, checker: Owner) returns (proc: Process)
    requires InvWith(s, fifo, checker) && !Finished(s)
    ensures Enabled(s, proc)
    ensures proc.Visitor? ==> proc.pid in s.clients && GoodMoment(s, proc.pid)
  {
    if BarberEnabled(s) {
      return Barber;
    }
    if fifo.AClient? {
      OwnerCanMove(s, fifo, checker);
      return Visitor(fifo.pid);
    }
    BlockedMeansAsleep(s, fifo, checker);
    var p: int;
    if checker.AClient? {
      p := checker.pid;
    } else {
      p :| p in s.clients && !s.clients[p].pc.Done?;
    }
    VisitorCanMove(s, p, checker);
    return Visitor(p);
  }

  /** In every reachable state either everything is finished or some process can move. */
  lemma DeadlockFree(s0: State, schedule: seq<Process>)
    requires IsInit(s0)
    ensures var s := Exec(s0, schedule); Finished(s) || exists proc :: Enabled(s, proc)
  {
    var fifo, checker := Reachable(s0, schedule);
    if !Finished(Exec(s0, schedule)) {
      var proc := NextToMove(Exec(s0, schedule), fifo, checker);
    }
  }

  lemma Advance(s: State, fifo: Owner, checker: Owner) returns (proc: Process, fifo': Owner, checker': Owner)
    requires InvWith(s, fifo, checker) && !Finished(s)
    ensures InvWith(Move(s, proc), fifo', checker') && Lower(s, fifo, Move(s, proc), fifo')
  {
    proc := NextToMove(s, fifo, checker);
    fifo', checker' := NextFifo(s, proc, fifo), NextChecker(s, proc, checker);
    match proc {
      case Barber =>
        BarberKeepsInv(s, fifo, checker);
        BarberLowers(s, fifo, checker);
      case Visitor(p) =>
        ClientKeepsInv(s, p, fifo, checker);
        ClientLowers(s, p, fifo, checker);
    }
  }

  lemma {:induction false} CanFinishFrom(s: State, fifo: Owner, checker: Owner) returns (rest: seq<Process>)
    requires InvWith(s, fifo, checker)
    ensures Finished(Exec(s, rest))
    decreases ToAdmit(s), |Line(s, fifo)|, Travel(s, fifo), BarberDistance(s)
  {
    if Finished(s) {
      return [];
    }
    var proc, fifo', checker' := Advance(s, fifo, checker);
    var t := Move(s, proc);
    var later := CanFinishFrom(t, fifo', checker');
    rest := [proc] + later;
    assert rest[1..] == later;
  }

  /**
   From every reachable state the run can go on so that every client returns with
   exactly `cutsNumber` haircuts and the barber is left asleep.
   */
  lemma EveryRunCanFinish(s0: State, past: seq<Process>) returns (future: seq<Process>)
    requires IsInit(s0)
    ensures var t := Exec(s0, past + future);
      && Finished(t)
      && |t.served| == |s0.clients| * s0.cutsNumber
      && (forall p :: p in s0.clients ==> multiset(t.served)[p] == s0.cutsNumber)
  {
    var fifo, checker := Reachable(s0, past);
    future := CanFinishFrom(Exec(s0, past), fifo, checker);
    ExecConcat(s0, past, future);
    CompletedRun(s0, past + future);
  }
}
