/**
 The sleeping barber of cw07, as a transition system. One barber process and any
 number of client processes share the semaphores BARBER, FIFO and CHECKER, the
 ring buffer and its `chair` cell; the POSIX version adds the semaphore SLOWER.

 Both versions run the same code except for the handshake between a client who
 finds the barber asleep and the barber, so one system models both and branches on
 `version` where they differ. A step is one semaphore operation or one access to
 shared memory. A push or a pop is one step: it happens between the wait and the
 post on FIFO, where nobody else is (`BarberTheorems.WaitingRoomIsExclusive`). Here
 the waiting room is the bounded queue that the ring buffer stands for
 (`RingBuffer.RingRefinesBoundedQueue`); `BarberMachine` runs the same steps over the
 ring buffer itself.
 */
module BarberShop {

  datatype Version = Posix | SystemV

  /** Where the barber is in `startWork`, `takeChair` and `cut`. */
  datatype BarberPc =
    | AwaitWake      // wait(BARBER), outer loop
    | Repost         // post(BARBER), POSIX only
    | PostSlower     // post(SLOWER), POSIX only
    | LockForChair   // wait(FIFO)
    | ReadChair      // toCut = fifo->chair
    | UnlockChair    // post(FIFO)
    | CutChair       // kill(toCut)
    | LockQueue      // wait(FIFO)
    | PopQueue       // toCut = popFifo(fifo)
    | UnlockQueue    // post(FIFO), a client was waiting
    | CutQueue       // kill(toCut)
    | GoToSleep      // wait(BARBER), nobody was waiting
    | UnlockAsleep   // post(FIFO)

  /** Where a client is in `getCut` and `takePlace`. */
  datatype ClientPc =
    | LoopTest       // cutsCounter < cutsNumber
    | WaitChecker    // wait(CHECKER)
    | WaitFifo       // wait(FIFO)
    | ReadBarber     // getvalue(BARBER)
    | FirstPost      // post(BARBER)
    | SecondSync     // POSIX: wait(SLOWER); System V: post(BARBER) again
    | SitDown        // fifo->chair = myPID
    | Enqueue        // pushFifo(fifo, myPID)
    | PostFifo       // post(FIFO)
    | PostChecker    // post(CHECKER)
    | Suspend        // sigsuspend, unless turned away
    | Done           // the process has returned

  /** `pending` counts SIGRTMIN signals sent to the process and not yet delivered. */
  datatype Client = Client(pc: ClientPc, res: int, cutsCounter: nat, pending: nat)

  /** `admitted` and `served` record who sat down or joined the queue, and who was cut. */
  datatype State = State(
    version: Version,
    cutsNumber: nat,
    barberSem: nat,
    slowerSem: nat,
    fifoSem: nat,
    checkerSem: nat,
    chairs: nat,
    chair: int,
    queue: seq<int>,
    barber: BarberPc,
    toCut: int,
    clients: map<int, Client>,
    admitted: seq<int>,
    served: seq<int>)

  datatype Process = Barber | Visitor(pid: int)

  // ---------- the start ----------

  const NEWCOMER := Client(LoopTest, 0, 0, 0)

  ghost predicate IsInit(s: State)
  {
    && s.barberSem == 0 && s.slowerSem == 0 && s.fifoSem == 1 && s.checkerSem == 1
    && s.queue == [] && s.chair == 0
    && s.barber == AwaitWake
    && (forall p :: p in s.clients ==> p > 0 && s.clients[p] == NEWCOMER)
    && s.admitted == [] && s.served == []
  }

  // ---------- the barber ----------

  predicate BarberEnabled(s: State)
  {
    match s.barber
    case AwaitWake => s.barberSem > 0
    case LockForChair => s.fifoSem > 0
    case LockQueue => s.fifoSem > 0
    case GoToSleep => s.barberSem > 0
    case _ => true
  }

  /** `kill(toCut, SIGRTMIN)`: the haircut, as the client notices it. */
  function Cut(s: State): State
  {
    s.(served := s.served + [s.toCut],
       clients := if s.toCut in s.clients
         then s.clients[s.toCut := s.clients[s.toCut].(pending := s.clients[s.toCut].pending + 1)]
         else s.clients)
  }

  function BarberNext(s: State): State
    requires BarberEnabled(s)
  {
    match s.barber
    case AwaitWake =>
      s.(barberSem := s.barberSem - 1, barber := if s.version.Posix? then Repost else LockForChair)
    case Repost => s.(barberSem := s.barberSem + 1, barber := PostSlower)
    case PostSlower => s.(slowerSem := s.slowerSem + 1, barber := LockForChair)
    case LockForChair => s.(fifoSem := s.fifoSem - 1, barber := ReadChair)
    case ReadChair => s.(toCut := s.chair, barber := UnlockChair)
    case UnlockChair => s.(fifoSem := s.fifoSem + 1, barber := CutChair)
    case CutChair => Cut(s).(barber := LockQueue)
    case LockQueue => s.(fifoSem := s.fifoSem - 1, barber := PopQueue)
    case PopQueue =>
      if s.queue == [] then
        s.(toCut := -1, barber := GoToSleep)
      else
        var x := s.queue[0];
        s.(queue := s.queue[1..], chair := x, toCut := x, barber := if x != -1 then UnlockQueue else GoToSleep)
    case UnlockQueue => s.(fifoSem := s.fifoSem + 1, barber := CutQueue)
    case CutQueue => Cut(s).(barber := LockQueue)
    case GoToSleep => s.(barberSem := s.barberSem - 1, barber := UnlockAsleep)
    case UnlockAsleep => s.(fifoSem := s.fifoSem + 1, barber := AwaitWake)
  }

  // ---------- the clients ----------

  predicate ClientEnabled(s: State, p: int)
  {
    p in s.clients &&
    var c := s.clients[p];
    match c.pc
    case WaitChecker => s.checkerSem > 0
    case WaitFifo => s.fifoSem > 0
    case SecondSync => s.version.Posix? ==> s.slowerSem > 0
    case Suspend => c.res != -1 ==> c.pending > 0
    case Done => false
    case _ => true
  }

  function ClientNext(s: State, p: int): State
    requires ClientEnabled(s, p)
  {
    var c := s.clients[p];
    match c.pc
    case LoopTest =>
      s.(clients := s.clients[p := c.(pc := if c.cutsCounter < s.cutsNumber then WaitChecker else Done)])
    case WaitChecker =>
      s.(checkerSem := s.checkerSem - 1, clients := s.clients[p := c.(pc := WaitFifo)])
    case WaitFifo =>
      s.(fifoSem := s.fifoSem - 1, clients := s.clients[p := c.(pc := ReadBarber)])
    case ReadBarber =>
      s.(clients := s.clients[p := c.(pc := if s.barberSem == 0 then FirstPost else Enqueue)])
    case FirstPost =>
      s.(barberSem := s.barberSem + 1, clients := s.clients[p := c.(pc := SecondSync)])
    case SecondSync =>
      var s' := if s.version.Posix? then s.(slowerSem := s.slowerSem - 1) else s.(barberSem := s.barberSem + 1);
      s'.(clients := s.clients[p := c.(pc := SitDown)])
    case SitDown =>
      s.(chair := p, admitted := s.admitted + [p],
         clients := s.clients[p := c.(pc := PostFifo, res := 1)])
    case Enqueue =>
      if |s.queue| == s.chairs then
        s.(clients := s.clients[p := c.(pc := PostFifo, res := -1)])
      else
        s.(queue := s.queue + [p], admitted := s.admitted + [p],
           clients := s.clients[p := c.(pc := PostFifo, res := 0)])
    case PostFifo =>
      s.(fifoSem := s.fifoSem + 1, clients := s.clients[p := c.(pc := PostChecker)])
    case PostChecker =>
      s.(checkerSem := s.checkerSem + 1, clients := s.clients[p := c.(pc := Suspend)])
    case Suspend =>
      var c' := if c.res != -1 then c.(cutsCounter := c.cutsCounter + 1, pending := c.pending - 1) else c;
      s.(clients := s.clients[p := c'.(pc := LoopTest)])
  }

  // ---------- runs ----------

  predicate Enabled(s: State, proc: Process)
  {
    match proc
    case Barber => BarberEnabled(s)
    case Visitor(p) => ClientEnabled(s, p)
  }

  /** A process that is scheduled while blocked, or after it has returned, does not move. */
  function Move(s: State, proc: Process): State
  {
    if !Enabled(s, proc) then s
    else match proc
      case Barber => BarberNext(s)
      case Visitor(p) => ClientNext(s, p)
  }

  /** The state after a schedule: which process is given the next step, again and again. */
  function Exec(s: State, schedule: seq<Process>): State
    decreases |schedule|
  {
    if schedule == [] then s else Exec(Move(s, schedule[0]), schedule[1..])
  }

  lemma {:induction false} ExecConcat(s: State, a: seq<Process>, b: seq<Process>)
    ensures Exec(s, a + b) == Exec(Exec(s, a), b)
    decreases |a|
  {
    if a == [] {
      assert a + b == b;
    } else {
      assert (a + b)[1..] == a[1..] + b;
      ExecConcat(Move(s, a[0]), a[1..], b);
    }
  }

  // ---------- who is where ----------

  /** Between the wait and the post on FIFO in `getCut`. */
  predicate HoldsFifo(c: Client)
  {
    c.pc.ReadBarber? || c.pc.FirstPost? || c.pc.SecondSync? || c.pc.SitDown? || c.pc.Enqueue? || c.pc.PostFifo?
  }

  /** Between the wait and the post on CHECKER in `getCut`. */
  predicate HoldsChecker(c: Client)
  {
    c.pc.WaitFifo? || HoldsFifo(c) || c.pc.PostChecker?
  }

  predicate BarberHoldsFifo(pc: BarberPc)
  {
    pc.ReadChair? || pc.UnlockChair? || pc.PopQueue? || pc.UnlockQueue? || pc.GoToSleep? || pc.UnlockAsleep?
  }

  /** Found the barber asleep and has not taken the chair yet. */
  predicate IsWaker(pc: ClientPc)
  {
    pc.FirstPost? || pc.SecondSync? || pc.SitDown?
  }

  /** Haircuts given to a client, noticed or not. */
  function Haircuts(c: Client): nat { c.cutsCounter + c.pending }

  /** Admitted, and not yet back from `sigsuspend`. */
  predicate IsWaiting(c: Client)
  {
    (c.pc.PostFifo? || c.pc.PostChecker? || c.pc.Suspend?) && c.res != -1
  }
}
