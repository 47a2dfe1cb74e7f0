/**
 What every step of the barber shop keeps, for both versions, any number of
 clients, any number of chairs and any schedule.

 The invariant is stated with the owners of FIFO and CHECKER as witnesses: the
 semaphores themselves do not record who decremented them.
 */
module BarberInvariant {
  import opened BarberShop

  // ---------- the invariant ----------

  datatype Owner = Nobody | TheBarber | AClient(pid: int)

  /** FIFO and CHECKER are mutexes: whoever is in the protected code is the one owner. */
  ghost predicate Locks(s: State, fifo: Owner, checker: Owner)
  {
    && s.fifoSem == (if fifo.Nobody? then 1 else 0)
    && s.checkerSem == (if checker.Nobody? then 1 else 0)
    && !checker.TheBarber?
    && (fifo.TheBarber? <==> BarberHoldsFifo(s.barber))
    && (fifo.AClient? ==> fifo.pid in s.clients && HoldsFifo(s.clients[fifo.pid]))
    && (checker.AClient? ==> checker.pid in s.clients && HoldsChecker(s.clients[checker.pid]))
    && (forall p :: p in s.clients && HoldsFifo(s.clients[p]) ==> fifo == AClient(p))
    && (forall p :: p in s.clients && HoldsChecker(s.clients[p]) ==> checker == AClient(p))
  }

  /** Where the client who owns FIFO is. */
  ghost function Phase(s: State, fifo: Owner): ClientPc
  {
    if fifo.AClient? && fifo.pid in s.clients then s.clients[fifo.pid].pc else LoopTest
  }

  /** The values of BARBER and SLOWER, read off the program counters. */
  ghost predicate Handshake(s: State, phase: ClientPc)
  {
    && (s.version.SystemV? ==> s.slowerSem == 0)
    && (phase.Enqueue? ==> s.barberSem > 0)
    && match s.barber
       case AwaitWake =>
         && s.slowerSem == 0
         && (s.version.Posix? ==> s.barberSem == (if phase.SecondSync? then 1 else 0) && !phase.SitDown?)
         && (s.version.SystemV? ==>
               && s.barberSem <= 2
               && (phase.FirstPost? ==> s.barberSem == 0)
               && (phase.SecondSync? <==> s.barberSem == 1)
               && (phase.SitDown? ==> s.barberSem == 2))
       case Repost => s.version.Posix? && s.barberSem == 0 && s.slowerSem == 0 && phase.SecondSync?
       case PostSlower => s.version.Posix? && s.barberSem == 1 && s.slowerSem == 0 && phase.SecondSync?
       case LockForChair =>
         && !phase.FirstPost?
         && (s.version.Posix? ==> s.barberSem == 1 && s.slowerSem == (if phase.SecondSync? then 1 else 0))
         && (s.version.SystemV? ==> s.barberSem == (if phase.SecondSync? then 0 else 1))
       case UnlockAsleep => s.barberSem == 0 && s.slowerSem == 0 && !IsWaker(phase)
       case _ => s.barberSem == 1 && s.slowerSem == 0 && !IsWaker(phase)
  }

  predicate BeforeChair(pc: BarberPc)
  {
    pc.AwaitWake? || pc.Repost? || pc.PostSlower? || pc.LockForChair?
  }

  /** The client in the barber's chair or hand, not cut yet: nobody or one. */
  ghost function InChair(s: State, waking: bool): seq<int>
  {
    if BeforeChair(s.barber) then
      if s.barberSem == 0 || waking then [] else [s.chair]
    else match s.barber
      case ReadChair => [s.chair]
      case UnlockChair | CutChair | UnlockQueue | CutQueue => [s.toCut]
      case _ => []
  }

  /** Everybody admitted and not cut yet, in the order in which they will be cut. */
  ghost function Unserved(s: State, waking: bool): seq<int>
  {
    InChair(s, waking) + s.queue
  }

  ghost predicate ServiceOrder(s: State, waking: bool)
  {
    && |s.queue| <= s.chairs
    && s.admitted == s.served + Unserved(s, waking)
    && (BeforeChair(s.barber) && InChair(s, waking) == [] ==> s.queue == [])
    && (s.barber.GoToSleep? || s.barber.UnlockAsleep? ==> s.queue == [])
  }

  ghost predicate ClientFacts(cutsNumber: nat, c: Client, unserved: nat, served: nat)
  {
    && c.cutsCounter <= cutsNumber
    && (!c.pc.LoopTest? && !c.pc.Done? ==> c.cutsCounter < cutsNumber)
    && (c.pc.Done? ==> c.cutsCounter == cutsNumber)
    && unserved + c.pending == (if IsWaiting(c) then 1 else 0)
    && served == Haircuts(c)
  }

  ghost predicate Ledger(s: State, unserved: seq<int>)
  {
    && (forall p :: p in s.clients ==>
          ClientFacts(s.cutsNumber, s.clients[p], multiset(unserved)[p], multiset(s.served)[p]))
    && (forall p :: p in s.clients ==> p > 0)
    && (forall p :: p in unserved ==> p in s.clients)
    && (forall p :: p in s.served ==> p in s.clients)
  }

  ghost predicate InvWith(s: State, fifo: Owner, checker: Owner)
  {
    var phase := Phase(s, fifo);
    && Locks(s, fifo, checker)
    && Handshake(s, phase)
    && ServiceOrder(s, IsWaker(phase))
    && Ledger(s, Unserved(s, IsWaker(phase)))
  }

  ghost predicate Inv(s: State)
  {
    exists fifo, checker :: InvWith(s, fifo, checker)
  }

  // ---------- it holds at the start ----------

  lemma InitLedger(s: State)
    requires IsInit(s)
    ensures Ledger(s, [])
  {
  }

  lemma InitInv(s: State)
    requires IsInit(s)
    ensures Inv(s)
  {
    assert Locks(s, Nobody, Nobody);
    assert Handshake(s, LoopTest);
    assert Unserved(s, false) == [];
    InitLedger(s);
    assert InvWith(s, Nobody, Nobody);
  }

  // ---------- ownership ----------

  function NextFifo(s: State, proc: Process, fifo: Owner): Owner
    requires Enabled(s, proc)
  {
    match proc
    case Barber =>
      if BarberHoldsFifo(BarberNext(s).barber) then TheBarber
      else if BarberHoldsFifo(s.barber) then Nobody
      else fifo
    case Visitor(p) =>
      if s.clients[p].pc.WaitFifo? then AClient(p)
      else if s.clients[p].pc.PostFifo? then Nobody
      else fifo
  }

  function NextChecker(s: State, proc: Process, checker: Owner): Owner
    requires Enabled(s, proc)
  {
    match proc
    case Barber => checker
    case Visitor(p) =>
      if s.clients[p].pc.WaitChecker? then AClient(p)
      else if s.clients[p].pc.PostChecker? then Nobody
      else checker
  }

  /** The barber's steps leave every client where it is. */
  lemma BarberFrame(s: State)
    requires BarberEnabled(s)
    ensures var t := BarberNext(s);
      && t.clients.Keys == s.clients.Keys
      && (forall p :: p in t.clients ==> t.clients[p].pc == s.clients[p].pc)
  {
  }

  lemma BarberLocksStep(s: State, fifo: Owner, checker: Owner)
    requires Locks(s, fifo, checker) && BarberEnabled(s)
    ensures Locks(BarberNext(s), NextFifo(s, Barber, fifo), checker)
  {
    BarberFrame(s);
  }

  lemma ClientLocksStep(s: State, p: int, fifo: Owner, checker: Owner)
    requires Locks(s, fifo, checker) && ClientEnabled(s, p)
    ensures Locks(ClientNext(s, p), NextFifo(s, Visitor(p), fifo), NextChecker(s, Visitor(p), checker))
  {
    var t := ClientNext(s, p);
    assert t.clients == s.clients[p := t.clients[p]];
  }

  // ---------- the handshake ----------

  lemma BarberHandshakeStep(s: State, fifo: Owner, checker: Owner)
    requires Locks(s, fifo, checker) && BarberEnabled(s)
    requires Handshake(s, Phase(s, fifo))
    ensures Handshake(BarberNext(s), Phase(BarberNext(s), NextFifo(s, Barber, fifo)))
  {
  }

  lemma ClientHandshakeStep(s: State, p: int, fifo: Owner, checker: Owner)
    requires Locks(s, fifo, checker) && ClientEnabled(s, p)
    requires Handshake(s, Phase(s, fifo))
    ensures Handshake(ClientNext(s, p), Phase(ClientNext(s, p), NextFifo(s, Visitor(p), fifo)))
  {
    if HoldsFifo(s.clients[p]) {
      assert fifo == AClient(p);
    }
  }

  // ---------- the queue and the accounts ----------

  /** A step admits nobody, or one client at the end of the line. */
  function Admission(s: State, proc: Process): seq<int>
    requires Enabled(s, proc)
  {
    match proc
    case Barber => []
    case Visitor(p) =>
      if s.clients[p].pc.SitDown? || (s.clients[p].pc.Enqueue? && |s.queue| != s.chairs) then [p] else []
  }

  /** A step serves nobody, or the client at the head of the line. */
  function Service(s: State, proc: Process): seq<int>
    requires Enabled(s, proc)
  {
    if proc.Barber? && (s.barber.CutChair? || s.barber.CutQueue?) then [s.toCut] else []
  }

  ghost function Line(s: State, fifo: Owner): seq<int>
  {
    Unserved(s, IsWaker(Phase(s, fifo)))
  }

  ghost predicate Positive(line: seq<int>)
  {
    forall p :: p in line ==> p > 0
  }

  lemma PopLine(s: State, fifo: Owner, checker: Owner)
    requires Locks(s, fifo, checker) && ServiceOrder(s, IsWaker(Phase(s, fifo)))
    requires Positive(Line(s, fifo)) && s.barber.PopQueue?
    ensures Line(BarberNext(s), NextFifo(s, Barber, fifo)) == Line(s, fifo)
    ensures ServiceOrder(BarberNext(s), IsWaker(Phase(BarberNext(s), NextFifo(s, Barber, fifo))))
  {
    var t := BarberNext(s);
    if s.queue != [] {
      assert s.queue[0] in Line(s, fifo);
    }
    assert Line(t, NextFifo(s, Barber, fifo)) == Line(s, fifo);
  }

  lemma CutLine(s: State, fifo: Owner, checker: Owner)
    requires Locks(s, fifo, checker) && ServiceOrder(s, IsWaker(Phase(s, fifo)))
    requires s.barber.CutChair? || s.barber.CutQueue?
    ensures Line(s, fifo) == [s.toCut] + Line(BarberNext(s), NextFifo(s, Barber, fifo))
    ensures ServiceOrder(BarberNext(s), IsWaker(Phase(BarberNext(s), NextFifo(s, Barber, fifo))))
  {
    var t := BarberNext(s);
    var after := Line(t, NextFifo(s, Barber, fifo));
    assert Line(s, fifo) == [s.toCut] + after;
    assert s.served + Line(s, fifo) == t.served + after;
  }

  lemma QuietLine(s: State, fifo: Owner, checker: Owner)
    requires Locks(s, fifo, checker) && Handshake(s, Phase(s, fifo)) && ServiceOrder(s, IsWaker(Phase(s, fifo)))
    requires BarberEnabled(s) && !s.barber.PopQueue? && !s.barber.CutChair? && !s.barber.CutQueue?
    ensures Line(BarberNext(s), NextFifo(s, Barber, fifo)) == Line(s, fifo)
    ensures ServiceOrder(BarberNext(s), IsWaker(Phase(BarberNext(s), NextFifo(s, Barber, fifo))))
  {
    var t := BarberNext(s);
    assert InChair(t, IsWaker(Phase(t, NextFifo(s, Barber, fifo)))) == InChair(s, IsWaker(Phase(s, fifo)));
  }

  /** What a step of the client who owns FIFO has to do to the line. */
  ghost predicate HolderKeepsLine(s: State, p: int)
    requires ClientEnabled(s, p)
  {
    var t, fifo' := ClientNext(s, p), NextFifo(s, Visitor(p), AClient(p));
    Line(t, fifo') == Line(s, AClient(p)) + Admission(s, Visitor(p)) && ServiceOrder(t, IsWaker(Phase(t, fifo')))
  }

  lemma SitDownLine(s: State, p: int, checker: Owner)
    requires Locks(s, AClient(p), checker) && Handshake(s, Phase(s, AClient(p)))
    requires ServiceOrder(s, IsWaker(Phase(s, AClient(p)))) && ClientEnabled(s, p) && s.clients[p].pc.SitDown?
    ensures HolderKeepsLine(s, p)
  {
    assert Line(s, AClient(p)) == [];
    assert Line(ClientNext(s, p), AClient(p)) == [p];
  }

  lemma EnqueueLine(s: State, p: int, checker: Owner)
    requires Locks(s, AClient(p), checker) && Handshake(s, Phase(s, AClient(p)))
    requires ServiceOrder(s, IsWaker(Phase(s, AClient(p)))) && ClientEnabled(s, p) && s.clients[p].pc.Enqueue?
    ensures HolderKeepsLine(s, p)
  {
    var t, fifo' := ClientNext(s, p), NextFifo(s, Visitor(p), AClient(p));
    assert InChair(t, IsWaker(Phase(t, fifo'))) == InChair(s, IsWaker(Phase(s, AClient(p))));
    assert t.queue == s.queue + Admission(s, Visitor(p));
    assert Line(t, fifo') == Line(s, AClient(p)) + Admission(s, Visitor(p));
  }

  lemma QuietHolderLine(s: State, p: int, checker: Owner)
    requires Locks(s, AClient(p), checker) && Handshake(s, Phase(s, AClient(p)))
    requires ServiceOrder(s, IsWaker(Phase(s, AClient(p)))) && ClientEnabled(s, p)
    requires !s.clients[p].pc.SitDown? && !s.clients[p].pc.Enqueue?
    ensures HolderKeepsLine(s, p)
  {
    var t, fifo' := ClientNext(s, p), NextFifo(s, Visitor(p), AClient(p));
    assert InChair(t, IsWaker(Phase(t, fifo'))) == InChair(s, IsWaker(Phase(s, AClient(p))));
    assert Line(t, fifo') == Line(s, AClient(p));
    assert Line(s, AClient(p)) + [] == Line(s, AClient(p));
  }

  lemma HolderLine(s: State, p: int, checker: Owner)
    requires Locks(s, AClient(p), checker) && Handshake(s, Phase(s, AClient(p)))
    requires ServiceOrder(s, IsWaker(Phase(s, AClient(p)))) && ClientEnabled(s, p)
    ensures HolderKeepsLine(s, p)
  {
    match s.clients[p].pc
    case SitDown => SitDownLine(s, p, checker);
    case Enqueue => EnqueueLine(s, p, checker);
    case _ => QuietHolderLine(s, p, checker);
  }

  lemma ClientLine(s: State, p: int, fifo: Owner, checker: Owner)
    requires Locks(s, fifo, checker) && Handshake(s, Phase(s, fifo)) && ServiceOrder(s, IsWaker(Phase(s, fifo)))
    requires ClientEnabled(s, p)
    ensures Line(ClientNext(s, p), NextFifo(s, Visitor(p), fifo)) == Line(s, fifo) + Admission(s, Visitor(p))
    ensures var t := ClientNext(s, p); ServiceOrder(t, IsWaker(Phase(t, NextFifo(s, Visitor(p), fifo))))
  {
    if HoldsFifo(s.clients[p]) {
      HolderLine(s, p, checker);
    } else {
      var t, fifo' := ClientNext(s, p), NextFifo(s, Visitor(p), fifo);
      assert IsWaker(Phase(t, fifo')) == IsWaker(Phase(s, fifo));
      assert Line(t, fifo') == Line(s, fifo) + Admission(s, Visitor(p));
    }
  }

  lemma CutLedger(s: State, after: seq<int>)
    requires Ledger(s, [s.toCut] + after)
    ensures Ledger(Cut(s), after)
  {
    var t := Cut(s);
    assert s.toCut in [s.toCut] + after;
    forall p | p in t.clients
      ensures ClientFacts(t.cutsNumber, t.clients[p], multiset(after)[p], multiset(t.served)[p])
    {
      assert ClientFacts(s.cutsNumber, s.clients[p], multiset([s.toCut] + after)[p], multiset(s.served)[p]);
    }
    forall p | p in after ensures p in t.clients {
      assert p in [s.toCut] + after;
    }
  }

  lemma OwnFacts(s: State, p: int, unserved: nat, served: nat)
    requires ClientEnabled(s, p) && ClientFacts(s.cutsNumber, s.clients[p], unserved, served)
    ensures ClientFacts(s.cutsNumber, ClientNext(s, p).clients[p], unserved + |Admission(s, Visitor(p))|, served)
  {
  }

  lemma EntryLedger(s: State, t: State, p: int, before: seq<int>, entry: seq<int>)
    requires Ledger(s, before) && p in s.clients && p in t.clients
    requires t.clients == s.clients[p := t.clients[p]] && t.cutsNumber == s.cutsNumber && t.served == s.served
    requires entry == [] || entry == [p]
    requires ClientFacts(t.cutsNumber, t.clients[p], multiset(before)[p] + |entry|, multiset(t.served)[p])
    ensures Ledger(t, before + entry)
  {
    assert multiset(before + entry) == multiset(before) + multiset(entry);
    forall q | q in t.clients
      ensures ClientFacts(t.cutsNumber, t.clients[q], multiset(before + entry)[q], multiset(t.served)[q])
    {
      assert q != p ==> ClientFacts(s.cutsNumber, s.clients[q], multiset(before)[q], multiset(s.served)[q]);
    }
  }

  /** A client changes its own entry only, and admits itself at most. */
  lemma ClientFrame(s: State, p: int)
    requires ClientEnabled(s, p)
    ensures var t := ClientNext(s, p);
      && p in t.clients && t.clients == s.clients[p := t.clients[p]]
      && t.cutsNumber == s.cutsNumber && t.served == s.served
    ensures Admission(s, Visitor(p)) == [] || Admission(s, Visitor(p)) == [p]
  {
  }

  lemma ClientLedger(s: State, p: int, before: seq<int>)
    requires Ledger(s, before) && ClientEnabled(s, p)
    ensures Ledger(ClientNext(s, p), before + Admission(s, Visitor(p)))
  {
    ClientFrame(s, p);
    OwnFacts(s, p, multiset(before)[p], multiset(s.served)[p]);
    EntryLedger(s, ClientNext(s, p), p, before, Admission(s, Visitor(p)));
  }

  // ---------- every step keeps the invariant ----------

  lemma QuietLedger(s: State, t: State, line: seq<int>)
    requires Ledger(s, line)
    requires t.clients == s.clients && t.served == s.served && t.cutsNumber == s.cutsNumber
    ensures Ledger(t, line)
  {
  }

  lemma BarberLine(s: State, fifo: Owner, checker: Owner)
    requires Locks(s, fifo, checker) && Handshake(s, Phase(s, fifo)) && ServiceOrder(s, IsWaker(Phase(s, fifo)))
    requires Positive(Line(s, fifo)) && BarberEnabled(s)
    ensures Line(s, fifo) == Service(s, Barber) + Line(BarberNext(s), NextFifo(s, Barber, fifo))
    ensures ServiceOrder(BarberNext(s), IsWaker(Phase(BarberNext(s), NextFifo(s, Barber, fifo))))
  {
    match s.barber
    case PopQueue => PopLine(s, fifo, checker);
    case CutChair | CutQueue => CutLine(s, fifo, checker);
    case _ => QuietLine(s, fifo, checker);
  }

  /** Only `cut` touches the clients and the haircuts. */
  lemma OnlyCutsCount(s: State)
    requires BarberEnabled(s)
    ensures var t := BarberNext(s);
      && t.cutsNumber == s.cutsNumber
      && (if s.barber.CutChair? || s.barber.CutQueue? then t.clients == Cut(s).clients && t.served == Cut(s).served
          else t.clients == s.clients && t.served == s.served)
  {
  }

  lemma BarberLedger(s: State, before: seq<int>, after: seq<int>)
    requires BarberEnabled(s) && Ledger(s, before) && before == Service(s, Barber) + after
    ensures Ledger(BarberNext(s), after)
  {
    OnlyCutsCount(s);
    if s.barber.CutChair? || s.barber.CutQueue? {
      CutLedger(s, after);
      QuietLedger(Cut(s), BarberNext(s), after);
    } else {
      assert before == after;
      QuietLedger(s, BarberNext(s), after);
    }
  }

  lemma BarberKeepsInv(s: State, fifo: Owner, checker: Owner)
    requires InvWith(s, fifo, checker) && BarberEnabled(s)
    ensures InvWith(BarberNext(s), NextFifo(s, Barber, fifo), checker)
    ensures Line(s, fifo) == Service(s, Barber) + Line(BarberNext(s), NextFifo(s, Barber, fifo))
  {
    BarberLocksStep(s, fifo, checker);
    BarberHandshakeStep(s, fifo, checker);
    BarberLine(s, fifo, checker);
    BarberLedger(s, Line(s, fifo), Line(BarberNext(s), NextFifo(s, Barber, fifo)));
  }

  lemma ClientKeepsInv(s: State, p: int, fifo: Owner, checker: Owner)
    requires InvWith(s, fifo, checker) && ClientEnabled(s, p)
    ensures InvWith(ClientNext(s, p), NextFifo(s, Visitor(p), fifo), NextChecker(s, Visitor(p), checker))
    ensures Line(ClientNext(s, p), NextFifo(s, Visitor(p), fifo)) == Line(s, fifo) + Admission(s, Visitor(p))
  {
    ClientLocksStep(s, p, fifo, checker);
    ClientHandshakeStep(s, p, fifo, checker);
    ClientLine(s, p, fifo, checker);
    ClientLedger(s, p, Line(s, fifo));
  }

  lemma MoveKeepsInv(s: State, proc: Process)
    requires Inv(s)
    ensures Inv(Move(s, proc))
  {
    var fifo, checker :| InvWith(s, fifo, checker);
    if Enabled(s, proc) {
      match proc
      case Barber => BarberKeepsInv(s, fifo, checker);
      case Visitor(p) => ClientKeepsInv(s, p, fifo, checker);
    }
  }

  /** Every state of every run satisfies the invariant. */
  lemma {:induction false} RunKeepsInv(s: State, schedule: seq<Process>)
    requires Inv(s)
    ensures Inv(Exec(s, schedule))
    decreases |schedule|
  {
    if schedule != [] {
      MoveKeepsInv(s, schedule[0]);
      RunKeepsInv(Move(s, schedule[0]), schedule[1..]);
    }
  }
}
