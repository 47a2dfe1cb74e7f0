/**
 What the barber shop guarantees in every run: the order of service, the exact
 meaning of the semaphores, one haircut for each admission, and that both versions
 implement the shop described in cw07/Zadanie7.
 */
module BarberTheorems {
  import opened BarberShop
  import opened BarberInvariant

  /** Some client found the barber asleep and is on the way to the chair. */
  ghost predicate WakerPresent(s: State)
  {
    exists p :: p in s.clients && IsWaker(s.clients[p].pc)
  }

  lemma WakerIsOwner(s: State, fifo: Owner, checker: Owner)
    requires Locks(s, fifo, checker)
    ensures WakerPresent(s) <==> IsWaker(Phase(s, fifo))
  {
    if p :| p in s.clients && IsWaker(s.clients[p].pc) {
      assert HoldsFifo(s.clients[p]);
    }
    if IsWaker(Phase(s, fifo)) {
      assert IsWaker(s.clients[fifo.pid].pc);
    }
  }

  ghost function NextInLine(s: State): seq<int>
  {
    Unserved(s, WakerPresent(s))
  }

  lemma Reachable(s0: State, schedule: seq<Process>) returns (fifo: Owner, checker: Owner)
    requires IsInit(s0)
    ensures var s := Exec(s0, schedule); InvWith(s, fifo, checker) && NextInLine(s) == Line(s, fifo)
  {
    InitInv(s0);
    RunKeepsInv(s0, schedule);
    var s := Exec(s0, schedule);
    fifo, checker :| InvWith(s, fifo, checker);
    WakerIsOwner(s, fifo, checker);
  }

  // ---------- the waiting room ----------

  ghost predicate InWaitingRoom(s: State, proc: Process)
  {
    match proc
    case Barber => BarberHoldsFifo(s.barber)
    case Visitor(p) => p in s.clients && HoldsFifo(s.clients[p])
  }

  /** Never are two processes between wait and post on FIFO, so a push or a pop is not interleaved with another. */
  lemma WaitingRoomIsExclusive(s0: State, schedule: seq<Process>, a: Process, b: Process)
    requires IsInit(s0)
    requires InWaitingRoom(Exec(s0, schedule), a) && InWaitingRoom(Exec(s0, schedule), b)
    ensures a == b && Exec(s0, schedule).fifoSem == 0
  {
    var fifo, checker := Reachable(s0, schedule);
  }

  // ---------- order of service ----------

  /**
   In every run: the admissions so far are the haircuts given, then the client in
   the chair or the barber's hand (at most one), then the waiting room in order.
   */
  lemma AdmissionsAreServedInOrder(s0: State, schedule: seq<Process>)
    requires IsInit(s0)
    ensures var s := Exec(s0, schedule);
      && s.admitted == s.served + InChair(s, WakerPresent(s)) + s.queue
      && |InChair(s, WakerPresent(s))| <= 1
      && |s.queue| <= s.chairs
  {
    var fifo, checker := Reachable(s0, schedule);
    var s := Exec(s0, schedule);
    assert s.served + Unserved(s, WakerPresent(s)) == s.served + InChair(s, WakerPresent(s)) + s.queue;
  }

  lemma {:induction false} HistoriesGrow(s: State, schedule: seq<Process>)
    ensures var t := Exec(s, schedule);
      && s.admitted <= t.admitted && s.served <= t.served
      && t.chairs == s.chairs && t.cutsNumber == s.cutsNumber && t.version == s.version
      && t.clients.Keys == s.clients.Keys
    decreases |schedule|
  {
    if schedule != [] {
      var t := Move(s, schedule[0]);
      assert s.admitted <= t.admitted && s.served <= t.served && t.clients.Keys == s.clients.Keys;
      HistoriesGrow(t, schedule[1..]);
    }
  }

  /**
   Whoever was the k-th to be admitted is the k-th to be cut, however the run goes
   on, and at the time of admission at most `chairs` clients were still ahead.
   */
  lemma FirstComeFirstServed(s0: State, past: seq<Process>, future: seq<Process>, k: nat)
    requires IsInit(s0)
    requires k < |Exec(s0, past).admitted|
    ensures var s, t := Exec(s0, past), Exec(s0, past + future);
      && (k < |t.served| ==> t.served[k] == s.admitted[k])
      && k - |s.served| <= s0.chairs
  {
    var s, t := Exec(s0, past), Exec(s0, past + future);
    ExecConcat(s0, past, future);
    HistoriesGrow(s0, past);
    HistoriesGrow(s, future);
    AdmissionsAreServedInOrder(s0, past);
    AdmissionsAreServedInOrder(s0, past + future);
    assert t.served <= t.admitted;
  }

  // ---------- the semaphores ----------

  /** With FIFO free, BARBER is 0 exactly when the barber sleeps in an empty shop. */
  lemma ZeroMeansAsleep(s0: State, schedule: seq<Process>)
    requires IsInit(s0)
    ensures var s := Exec(s0, schedule);
      s.fifoSem > 0 ==> (s.barberSem == 0 <==> s.barber.AwaitWake? && NextInLine(s) == [])
  {
    var fifo, checker := Reachable(s0, schedule);
  }

  ghost predicate SomeoneAt(s: State, pc: ClientPc)
  {
    exists p :: p in s.clients && s.clients[p].pc == pc
  }

  lemma SomeoneIsOwner(s: State, fifo: Owner, checker: Owner, pc: ClientPc)
    requires Locks(s, fifo, checker) && IsWaker(pc)
    ensures SomeoneAt(s, pc) <==> Phase(s, fifo) == pc
  {
    if p :| p in s.clients && s.clients[p].pc == pc {
      assert HoldsFifo(s.clients[p]);
    }
    if Phase(s, fifo) == pc {
      assert s.clients[fifo.pid].pc == pc;
    }
  }

  /** POSIX: the program counters alone fix the values of BARBER and SLOWER. */
  lemma PosixSemaphores(s0: State, schedule: seq<Process>)
    requires IsInit(s0) && s0.version.Posix?
    ensures var s := Exec(s0, schedule);
      && s.barberSem == (match s.barber
           case AwaitWake => if SomeoneAt(s, SecondSync) then 1 else 0
           case Repost | UnlockAsleep => 0
           case _ => 1)
      && s.slowerSem == (if s.barber.LockForChair? && SomeoneAt(s, SecondSync) then 1 else 0)
  {
    HistoriesGrow(s0, schedule);
    var fifo, checker := Reachable(s0, schedule);
    SomeoneIsOwner(Exec(s0, schedule), fifo, checker, SecondSync);
  }

  /** System V: BARBER never leaves 0..2 and counts how far the double post has come. */
  lemma SystemVSemaphore(s0: State, schedule: seq<Process>)
    requires IsInit(s0) && s0.version.SystemV?
    ensures var s := Exec(s0, schedule);
      && s.barberSem == (match s.barber
           case AwaitWake =>
             if SomeoneAt(s, SecondSync) then 1
             else if SomeoneAt(s, SitDown) || NextInLine(s) != [] then 2
             else 0
           case LockForChair => if SomeoneAt(s, SecondSync) then 0 else 1
           case UnlockAsleep => 0
           case _ => 1)
  {
    HistoriesGrow(s0, schedule);
    var fifo, checker := Reachable(s0, schedule);
    SomeoneIsOwner(Exec(s0, schedule), fifo, checker, SecondSync);
    SomeoneIsOwner(Exec(s0, schedule), fifo, checker, SitDown);
  }

  /** The decrement with which the barber goes to sleep never blocks, although it is made while holding FIFO. */
  lemma GoingToSleepNeverBlocks(s0: State, schedule: seq<Process>)
    requires IsInit(s0)
    ensures var s := Exec(s0, schedule);
      s.barber.GoToSleep? ==> BarberEnabled(s) && BarberHoldsFifo(s.barber) && s.fifoSem == 0
  {
    var fifo, checker := Reachable(s0, schedule);
  }

  // ---------- exactly one haircut for each admission ----------

  /**
   A client who is waiting is in exactly one place: in the line or holding one
   undelivered signal. Nobody else is in the line or has a signal. Each client was
   admitted as often as it noticed a haircut, plus the one it is waiting for.
   */
  lemma OneHaircutPerAdmission(s0: State, schedule: seq<Process>, p: int)
    requires IsInit(s0) && p in s0.clients
    ensures var s := Exec(s0, schedule);
      && p in s.clients
      && var c := s.clients[p];
      && multiset(NextInLine(s))[p] + c.pending == (if IsWaiting(c) then 1 else 0)
      && multiset(s.served)[p] == c.cutsCounter + c.pending
      && multiset(s.admitted)[p] == c.cutsCounter + (if IsWaiting(c) then 1 else 0)
      && c.cutsCounter <= s.cutsNumber
  {
    var fifo, checker := Reachable(s0, schedule);
    HistoriesGrow(s0, schedule);
    var s := Exec(s0, schedule);
    assert multiset(s.served + NextInLine(s)) == multiset(s.served) + multiset(NextInLine(s));
  }

  /** A client that has returned noticed all its haircuts, exactly `cutsNumber`, whoever else is still at it. */
  lemma ReturnedClientsAreServed(s0: State, schedule: seq<Process>, p: int)
    requires IsInit(s0) && p in s0.clients
    ensures var s := Exec(s0, schedule);
      && p in s.clients
      && (s.clients[p].pc.Done? ==>
            && s.clients[p].cutsCounter == s0.cutsNumber
            && s.clients[p].pending == 0
            && p !in NextInLine(s)
            && multiset(s.served)[p] == multiset(s.admitted)[p] == s0.cutsNumber)
  {
    var fifo, checker := Reachable(s0, schedule);
    HistoriesGrow(s0, schedule);
    OneHaircutPerAdmission(s0, schedule, p);
  }

  ghost predicate AllDone(s: State)
  {
    forall p :: p in s.clients ==> s.clients[p].pc.Done?
  }

  /** A sequence over a set in which every element occurs n times. */
  lemma {:induction false} SizeByMultiplicity(m: multiset<int>, keys: set<int>, n: nat)
    requires forall x :: x in m ==> x in keys
    requires forall x :: x in keys ==> m[x] == n
    ensures |m| == |keys| * n
    decreases keys
  {
    if exists k :: k in keys {
      var k :| k in keys;
      SizeByMultiplicity(m[k := 0], keys - {k}, n);
      assert |m| == |m[k := 0]| + n;
      assert |keys| == |keys - {k}| + 1;
      assert |keys| * n == |keys - {k}| * n + n;
    } else {
      assert keys == {};
      assert forall x :: x !in m;
      assert m == multiset{};
    }
  }

  lemma NobodyLeft(s: State, line: seq<int>)
    requires Ledger(s, line) && AllDone(s)
    ensures forall p :: p in s.clients ==> multiset(s.served)[p] == s.cutsNumber
    ensures line == []
  {
    assert line == [] || (var p := line[0]; p in line);
    forall p | p in s.clients
      ensures multiset(s.served)[p] == s.cutsNumber && p !in line
    {
      assert ClientFacts(s.cutsNumber, s.clients[p], multiset(line)[p], multiset(s.served)[p]);
    }
  }

  /** When all clients have returned, each was cut `cutsNumber` times, and the shop is empty. */
  lemma CompletedRun(s0: State, schedule: seq<Process>)
    requires IsInit(s0) && AllDone(Exec(s0, schedule))
    ensures var s := Exec(s0, schedule);
      && (forall p :: p in s0.clients ==> multiset(s.served)[p] == s0.cutsNumber)
      && |s.served| == |s0.clients| * s0.cutsNumber
      && s.admitted == s.served
      && NextInLine(s) == []
  {
    var fifo, checker := Reachable(s0, schedule);
    HistoriesGrow(s0, schedule);
    var s := Exec(s0, schedule);
    NobodyLeft(s, NextInLine(s));
    SizeByMultiplicity(multiset(s.served), s.clients.Keys, s.cutsNumber);
  }

  // ---------- the shop it implements ----------

  datatype Seat = Free | Taken(pid: int)

  /** The barber's shop as the assignment describes it. */
  datatype Shop = Shop(asleep: bool, seat: Seat, waiting: seq<int>, capacity: nat, served: seq<int>)

  datatype Event =
    | Internal
    | Wakes(pid: int)      // a client wakes the barber and takes the chair
    | Joins(pid: int)      // a client takes a place in the waiting room
    | TurnedAway(pid: int) // a client finds no free place
    | Called(pid: int)     // the barber calls whoever waited longest
    | IsCut(pid: int)      // a haircut
    | FallsAsleep          // nobody is waiting

  ghost predicate ShopStep(a: Shop, e: Event, b: Shop)
  {
    match e
    case Internal => b == a
    case Wakes(p) => a.asleep && b == a.(asleep := false, seat := Taken(p))
    case Joins(p) => !a.asleep && |a.waiting| < a.capacity && b == a.(waiting := a.waiting + [p])
    case TurnedAway(p) => !a.asleep && |a.waiting| == a.capacity && b == a
    case Called(p) =>
      !a.asleep && a.seat.Free? && [p] <= a.waiting && b == a.(seat := Taken(p), waiting := a.waiting[1..])
    case IsCut(p) => !a.asleep && a.seat == Taken(p) && b == a.(seat := Free, served := a.served + [p])
    case FallsAsleep => !a.asleep && a.seat.Free? && a.waiting == [] && b == a.(asleep := true)
  }

  ghost predicate ShopRun(a: Shop, events: seq<Event>, b: Shop)
    decreases |events|
  {
    if events == [] then a == b
    else exists m :: ShopStep(a, events[0], m) && ShopRun(m, events[1..], b)
  }

  ghost function ShopOf(s: State, waking: bool): Shop
  {
    var chair := InChair(s, waking);
    Shop(
      s.barber.UnlockAsleep? || (BeforeChair(s.barber) && chair == []),
      if chair == [] then Free else Taken(chair[0]),
      s.queue, s.chairs, s.served)
  }

  /** What a step looks like from outside. */
  function EventOf(s: State, proc: Process): Event
  {
    if !Enabled(s, proc) then Internal
    else match proc
      case Barber =>
        (match s.barber
         case CutChair | CutQueue => IsCut(s.toCut)
         case PopQueue => if s.queue == [] then Internal else Called(s.queue[0])
         case GoToSleep => FallsAsleep
         case _ => Internal)
      case Visitor(p) =>
        (match s.clients[p].pc
         case SitDown => Wakes(p)
         case Enqueue => if |s.queue| == s.chairs then TurnedAway(p) else Joins(p)
         case _ => Internal)
  }

  function Events(s: State, schedule: seq<Process>): seq<Event>
    decreases |schedule|
  {
    if schedule == [] then []
    else [EventOf(s, schedule[0])] + Events(Move(s, schedule[0]), schedule[1..])
  }

  lemma BarberStepRefines(s: State, fifo: Owner, checker: Owner)
    requires Locks(s, fifo, checker) && Handshake(s, Phase(s, fifo)) && ServiceOrder(s, IsWaker(Phase(s, fifo)))
    requires Positive(Line(s, fifo)) && BarberEnabled(s)
    ensures ShopStep(ShopOf(s, IsWaker(Phase(s, fifo))), EventOf(s, Barber),
                     ShopOf(BarberNext(s), IsWaker(Phase(BarberNext(s), NextFifo(s, Barber, fifo)))))
  {
    if s.barber.PopQueue? && s.queue != [] {
      assert s.queue[0] in Line(s, fifo);
    }
  }

  lemma ClientStepRefines(s: State, p: int, fifo: Owner, checker: Owner)
    requires Locks(s, fifo, checker) && Handshake(s, Phase(s, fifo)) && ServiceOrder(s, IsWaker(Phase(s, fifo)))
    requires ClientEnabled(s, p)
    ensures ShopStep(ShopOf(s, IsWaker(Phase(s, fifo))), EventOf(s, Visitor(p)),
                     ShopOf(ClientNext(s, p), IsWaker(Phase(ClientNext(s, p), NextFifo(s, Visitor(p), fifo)))))
  {
    if HoldsFifo(s.clients[p]) {
      assert fifo == AClient(p);
    }
  }

  lemma StepRefines(s: State, proc: Process)
    requires Inv(s)
    ensures ShopStep(ShopOf(s, WakerPresent(s)), EventOf(s, proc), ShopOf(Move(s, proc), WakerPresent(Move(s, proc))))
  {
    var fifo, checker :| InvWith(s, fifo, checker);
    WakerIsOwner(s, fifo, checker);
    if Enabled(s, proc) {
      match proc
      case Barber =>
        BarberStepRefines(s, fifo, checker);
        BarberKeepsInv(s, fifo, checker);
        WakerIsOwner(BarberNext(s), NextFifo(s, proc, fifo), checker);
      case Visitor(p) =>
        ClientStepRefines(s, p, fifo, checker);
        ClientKeepsInv(s, p, fifo, checker);
        WakerIsOwner(ClientNext(s, p), NextFifo(s, proc, fifo), NextChecker(s, proc, checker));
    }
  }

  lemma {:induction false} RunRefines(s: State, schedule: seq<Process>)
    requires Inv(s)
    ensures var t := Exec(s, schedule);
      ShopRun(ShopOf(s, WakerPresent(s)), Events(s, schedule), ShopOf(t, WakerPresent(t)))
    decreases |schedule|
  {
    if schedule != [] {
      var m := Move(s, schedule[0]);
      StepRefines(s, schedule[0]);
      MoveKeepsInv(s, schedule[0]);
      RunRefines(m, schedule[1..]);
      assert Events(s, schedule)[1..] == Events(m, schedule[1..]);
    }
  }

  /** Either version, seen from outside, is a run of the shop that starts asleep and empty. */
  lemma BarberShopIsImplemented(s0: State, schedule: seq<Process>)
    requires IsInit(s0)
    ensures var t := Exec(s0, schedule);
      ShopRun(Shop(true, Free, [], s0.chairs, []), Events(s0, schedule), ShopOf(t, WakerPresent(t)))
  {
    InitInv(s0);
    RunRefines(s0, schedule);
  }
}
