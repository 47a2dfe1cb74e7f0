/**
 The barber and client programs run in place: semaphores, program counters and the
 ring buffer of `fifo.c` in one shared object. Each step is proved to be a step of
 the transition system, so every theorem about its runs is a theorem about these.
 */
module BarberMachine {
  import opened RingBuffer
  import opened BarberShop
  import opened BarberTheorems
  import BarberInvariant

  class Premises {
    const version: Version
    const cutsNumber: nat
    var barberSem: nat
    var slowerSem: nat
    var fifoSem: nat
    var checkerSem: nat
    const fifo: Fifo
    var barber: BarberPc
    var toCut: int
    var clients: map<int, Client>
    ghost var admitted: seq<int>
    ghost var served: seq<int>

    ghost predicate Valid()
      reads this, fifo, fifo.tab
    {
      fifo.Valid()
    }

    ghost function View(): State
      requires Valid()
      reads this, fifo, fifo.tab
    {
      State(version, cutsNumber, barberSem, slowerSem, fifoSem, checkerSem,
            fifo.max, fifo.chair, Contents(fifo.View()), barber, toCut, clients, admitted, served)
    }

    constructor (version: Version, chairNumber: int, cutsNumber: nat, pids: set<int>)
      requires 2 <= chairNumber <= 100
      requires forall p :: p in pids ==> p > 0
      ensures Valid() && fresh(fifo) && fresh(fifo.tab)
      ensures IsInit(View())
      ensures View().version == version && View().chairs == chairNumber && View().cutsNumber == cutsNumber
      ensures View().clients.Keys == pids
    {
      this.version := version;
      this.cutsNumber := cutsNumber;
      barberSem, slowerSem, fifoSem, checkerSem := 0, 0, 1, 1;
      fifo := new Fifo(chairNumber);
      barber := AwaitWake;
      toCut := 0;
      clients := map p | p in pids :: NEWCOMER;
      admitted, served := [], [];
    }

    /** `kill(pid, SIGRTMIN)` */
    method Kill()
      requires Valid()
      modifies this`clients, this`served
      ensures View() == Cut(old(View()))
    {
      if toCut in clients {
        clients := clients[toCut := clients[toCut].(pending := clients[toCut].pending + 1)];
      }
      served := served + [toCut];
    }

    /** The next step of `startWork`; `moved` is false when the barber is blocked. */
    method BarberStep() returns (moved: bool)
      requires Valid()
      modifies this, fifo
      ensures Valid()
      ensures moved == BarberEnabled(old(View()))
      ensures View() == Move(old(View()), Barber)
    {
      match barber {
        case AwaitWake =>
          if barberSem == 0 { return false; }
          barberSem := barberSem - 1;
          barber := if version.Posix? then Repost else LockForChair;
        case Repost =>
          barberSem := barberSem + 1;
          barber := PostSlower;
        case PostSlower =>
          slowerSem := slowerSem + 1;
          barber := LockForChair;
        case LockForChair =>
          if fifoSem == 0 { return false; }
          fifoSem := fifoSem - 1;
          barber := ReadChair;
        case ReadChair =>
          toCut := fifo.chair;
          barber := UnlockChair;
        case UnlockChair =>
          fifoSem := fifoSem + 1;
          barber := CutChair;
        case CutChair =>
          Kill();
          barber := LockQueue;
        case LockQueue =>
          if fifoSem == 0 { return false; }
          fifoSem := fifoSem - 1;
          barber := PopQueue;
        case PopQueue =>
          toCut := fifo.PopFifo();
          barber := if toCut != -1 then UnlockQueue else GoToSleep;
        case UnlockQueue =>
          fifoSem := fifoSem + 1;
          barber := CutQueue;
        case CutQueue =>
          Kill();
          barber := LockQueue;
        case GoToSleep =>
          if barberSem == 0 { return false; }
          barberSem := barberSem - 1;
          barber := UnlockAsleep;
        case UnlockAsleep =>
          fifoSem := fifoSem + 1;
          barber := AwaitWake;
      }
      return true;
    }

    method Goto(p: int, pc: ClientPc)
      requires p in clients
      modifies this`clients
      ensures clients == old(clients)[p := old(clients)[p].(pc := pc)]
    {
      clients := clients[p := clients[p].(pc := pc)];
    }

    /** The next step of `takePlace` for client `p`; `moved` is false when it is blocked. */
    method TakePlaceStep(p: int) returns (moved: bool)
      requires Valid() && p in clients
      requires HoldsFifo(clients[p]) && !clients[p].pc.PostFifo?
      modifies this, fifo, fifo.tab
      ensures Valid()
      ensures moved == ClientEnabled(old(View()), p)
      ensures View() == Move(old(View()), Visitor(p))
    {
      var c := clients[p];
      match c.pc {
        case ReadBarber =>
          Goto(p, if barberSem == 0 then FirstPost else Enqueue);
        case FirstPost =>
          barberSem := barberSem + 1;
          Goto(p, SecondSync);
        case SecondSync =>
          if version.Posix? {
            if slowerSem == 0 { return false; }
            slowerSem := slowerSem - 1;
          } else {
            barberSem := barberSem + 1;
          }
          Goto(p, SitDown);
        case SitDown =>
          fifo.chair := p;
          admitted := admitted + [p];
          clients := clients[p := c.(pc := PostFifo, res := 1)];
        case Enqueue =>
          var res := fifo.PushFifo(p);
          if res != -1 { admitted := admitted + [p]; }
          clients := clients[p := c.(pc := PostFifo, res := res)];
      }
      return true;
    }

    /** The next step of `getCut` for client `p`; `moved` is false when it is blocked or has returned. */
    method GetCutStep(p: int) returns (moved: bool)
      requires Valid() && p in clients
      requires !HoldsFifo(clients[p]) || clients[p].pc.PostFifo?
      modifies this
      ensures Valid()
      ensures moved == ClientEnabled(old(View()), p)
      ensures View() == Move(old(View()), Visitor(p))
    {
      var c := clients[p];
      match c.pc {
        case LoopTest =>
          Goto(p, if c.cutsCounter < cutsNumber then WaitChecker else Done);
        case WaitChecker =>
          if checkerSem == 0 { return false; }
          checkerSem := checkerSem - 1;
          Goto(p, WaitFifo);
        case WaitFifo =>
          if fifoSem == 0 { return false; }
          fifoSem := fifoSem - 1;
          Goto(p, ReadBarber);
        case PostFifo =>
          fifoSem := fifoSem + 1;
          Goto(p, PostChecker);
        case PostChecker =>
          checkerSem := checkerSem + 1;
          Goto(p, Suspend);
        case Suspend =>
          if c.res != -1 {
            if c.pending == 0 { return false; }
            clients := clients[p := c.(cutsCounter := c.cutsCounter + 1, pending := c.pending - 1)];
          }
          Goto(p, LoopTest);
        case Done =>
          return false;
      }
      return true;
    }

    /** Any interleaving of the processes. */
    method Run(schedule: seq<Process>)
      requires Valid()
      modifies this, fifo, fifo.tab
      ensures Valid()
      ensures View() == Exec(old(View()), schedule)
    {
      var i := 0;
      while i < |schedule|
        invariant 0 <= i <= |schedule| && Valid()
        invariant Exec(View(), schedule[i..]) == Exec(old(View()), schedule)
      {
        match schedule[i] {
          case Barber =>
            var moved := BarberStep();
          case Visitor(p) =>
            if p in clients {
              var moved: bool;
              if HoldsFifo(clients[p]) && !clients[p].pc.PostFifo? {
                moved := TakePlaceStep(p);
              } else {
                moved := GetCutStep(p);
              }
            }
        }
        assert schedule[i..][1..] == schedule[i + 1..];
        i := i + 1;
      }
    }
  }

  /** Open a shop, let any schedule run, and look at the books. */
  method OpenShop(version: Version, chairNumber: int, cutsNumber: nat, pids: set<int>, schedule: seq<Process>)
    returns (shop: Premises)
    requires 2 <= chairNumber <= 100
    requires forall p :: p in pids ==> p > 0
    ensures shop.Valid()
    ensures shop.admitted == shop.served + BarberInvariant.InChair(shop.View(), WakerPresent(shop.View()))
                             + Contents(shop.fifo.View())
    ensures AllDone(shop.View()) ==> |shop.served| == |pids| * cutsNumber && shop.admitted == shop.served
  {
    shop := new Premises(version, chairNumber, cutsNumber, pids);
    ghost var s0 := shop.View();
    shop.Run(schedule);
    AdmissionsAreServedInOrder(s0, schedule);
    if AllDone(shop.View()) {
      CompletedRun(s0, schedule);
      assert |s0.clients| == |s0.clients.Keys|;
    }
  }
}
