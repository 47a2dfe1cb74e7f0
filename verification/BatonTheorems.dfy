/**
 What the semaphore protocol guarantees in every run: exclusion, a hand-over that is
 never lost, scans of a single table value, and no thread that is stuck for good.
 */
module BatonTheorems {
  import opened Sums
  import opened Table
  import opened Threads
  import opened Baton
  import opened BatonInvariant

  lemma Reachable(s0: State, schedule: seq<Turn>) returns (baton: Owner, turn: Owner)
    requires IsInit(s0)
    ensures InvWith(Exec(s0, schedule), baton, turn)
  {
    InitInv(s0);
    RunKeepsInv(s0, schedule);
    baton, turn :| InvWith(Exec(s0, schedule), baton, turn);
  }

  // ---------- counting ----------

  ghost function BatonHolders(s: State): set<int>
  {
    set t | t in s.threads && HoldsBaton(s.threads[t])
  }

  ghost function Announced(s: State): set<int>
  {
    set t | t in s.threads && IsAnnounced(s.threads[t])
  }

  lemma OneOrNone(members: set<int>, owner: Owner)
    requires forall t :: t in members <==> owner == AThread(t)
    ensures |members| == if owner.Nobody? then 0 else 1
  {
    if owner.Nobody? {
      assert forall t :: t !in members;
      assert members == {};
    } else {
      assert owner.id in members;
      assert forall t :: t in members ==> t == owner.id;
      assert members == {owner.id};
    }
  }

  /** There is one baton: free in `semCheck`, on its way in `semWait`, or in a thread's hands. */
  lemma OneBaton(s0: State, schedule: seq<Turn>)
    requires IsInit(s0)
    ensures var s := Exec(s0, schedule); s.semCheck + s.semWait + |BatonHolders(s)| == 1
  {
    var baton, turn := Reachable(s0, schedule);
    OneOrNone(BatonHolders(Exec(s0, schedule)), baton);
  }

  /** The shared counters are the numbers of threads they stand for, and at most one writer is announced. */
  lemma CountersAreExact(s0: State, schedule: seq<Turn>)
    requires IsInit(s0)
    ensures var s := Exec(s0, schedule);
      s.readers == |Inside(s)| && s.writers == |Announced(s)| <= 1
  {
    var baton, turn := Reachable(s0, schedule);
    var s := Exec(s0, schedule);
    var announced := if turn.AThread? && IsAnnounced(s.threads[turn.id]) then turn else Nobody;
    OneOrNone(Announced(s), announced);
  }

  /** A thread that may write the table is alone: no reader is inside, no other thread may write. */
  lemma MutualExclusion(s0: State, schedule: seq<Turn>, w: int, t: int)
    requires IsInit(s0)
    requires var s := Exec(s0, schedule);
      w in s.threads && t in s.threads && t != w && IsWriting(s.threads[w])
    ensures var s := Exec(s0, schedule); !IsInside(s.threads[t]) && !IsWriting(s.threads[t])
  {
    var baton, turn := Reachable(s0, schedule);
    var s := Exec(s0, schedule);
    assert ThreadInv(s, turn, s.threads[w]);
    if IsInside(s.threads[t]) {
      InsideMeansReaders(s, t);
    }
  }

  /**
   A writer that found readers inside is never forgotten: some counted reader has
   still to leave, or the last reader is about to post, or the post has been made.
   */
  lemma NoLostHandoff(s0: State, schedule: seq<Turn>, w: int)
    requires IsInit(s0)
    requires var s := Exec(s0, schedule);
      w in s.threads && s.threads[w].Writer? && (s.threads[w].wpc.YieldCheck? || s.threads[w].wpc.AwaitBaton?)
    ensures var s := Exec(s0, schedule);
      || Inside(s) != {}
      || (exists r :: r in s.threads && s.threads[r].Reader? &&
                     (s.threads[r].rpc.Decide? || s.threads[r].rpc.HandOver?))
      || s.semWait == 1
  {
    var baton, turn := Reachable(s0, schedule);
    var s := Exec(s0, schedule);
    assert ThreadInv(s, turn, s.threads[w]);
    assert turn == AThread(w);
    if s.readers > 0 {
      var r := ReadersMeanInside(s);
      assert r in Inside(s);
    }
  }

  /** `semWait` is posted at most once, and only with a writer waiting for it and no reader inside. */
  lemma PostedBatonIsAwaited(s0: State, schedule: seq<Turn>)
    requires IsInit(s0)
    ensures var s := Exec(s0, schedule);
      && s.semWait <= 1
      && (s.semWait == 1 ==>
            && Inside(s) == {}
            && exists w :: w in s.threads && s.threads[w].Writer? && s.threads[w].wpc.AwaitBaton?)
  {
    var baton, turn := Reachable(s0, schedule);
    var s := Exec(s0, schedule);
    if Inside(s) != {} {
      assert |Inside(s)| > 0;
    }
  }

  /** Readers are preferred: with one inside and the baton free, another can enter past a waiting writer. */
  lemma ReadersArePreferred(s0: State, schedule: seq<Turn>, r: int)
    requires IsInit(s0)
    requires var s := Exec(s0, schedule);
      Inside(s) != {} && BatonHolders(s) == {} && r in s.threads && s.threads[r].Reader? && s.threads[r].rpc.Idle?
    ensures Enabled(Exec(s0, schedule), r)
  {
    var baton, turn := Reachable(s0, schedule);
    var s := Exec(s0, schedule);
    OneBaton(s0, schedule);
    assert s.readers > 0;
  }

  /** The table changes only by a writer's update, one cell at a time, to a value in 1..999. */
  lemma OnlyWritersChangeTheTable(s: State, turn: Turn, k: nat)
    requires k < TABLE_SIZE && Move(s, turn).table[k] != s.table[k]
    ensures turn.thread in s.threads && IsWriting(s.threads[turn.thread])
    ensures 1 <= Move(s, turn).table[k] <= 999
    ensures forall l :: 0 <= l < TABLE_SIZE && l != k ==> Move(s, turn).table[l] == s.table[l]
    ensures var after := Move(s, turn).threads;
      && turn.thread in after && after[turn.thread].Writer?
      && after[turn.thread].left + 1 == s.threads[turn.thread].left
  {
  }

  /** A table that starts in 1..999, as `randTable` makes it, stays there in every run. */
  lemma {:induction false} TableStaysInRange(s: State, schedule: seq<Turn>)
    requires InRange(s.table)
    ensures InRange(Exec(s, schedule).table)
    decreases |schedule|
  {
    if schedule != [] {
      TableStaysInRange(Move(s, schedule[0]), schedule[1..]);
    }
  }

  // ---------- a scan sees one table ----------

  ghost predicate StaysInside(s: State, r: int, schedule: seq<Turn>)
    decreases |schedule|
  {
    && r in s.threads && IsInside(s.threads[r])
    && (schedule == [] || StaysInside(Move(s, schedule[0]), r, schedule[1..]))
  }

  lemma InsideFreezesTable(s: State, r: int, turn: Turn)
    requires Inv(s) && r in s.threads && IsInside(s.threads[r])
    ensures Move(s, turn).table == s.table
  {
    var baton, owner :| InvWith(s, baton, owner);
    InsideMeansReaders(s, r);
    if Enabled(s, turn.thread) {
      assert ThreadInv(s, owner, s.threads[turn.thread]);
    }
  }

  lemma {:induction false} TableFrozen(s: State, r: int, schedule: seq<Turn>)
    requires Inv(s) && StaysInside(s, r, schedule)
    ensures forall k :: 0 <= k <= |schedule| ==> Exec(s, schedule[..k]).table == s.table
    decreases |schedule|
  {
    if schedule != [] {
      var m := Move(s, schedule[0]);
      InsideFreezesTable(s, r, schedule[0]);
      MoveKeepsInv(s, schedule[0]);
      TableFrozen(m, r, schedule[1..]);
      forall k | 0 <= k <= |schedule|
        ensures Exec(s, schedule[..k]).table == s.table
      {
        if k > 0 {
          assert schedule[..k][1..] == schedule[1..][..k - 1];
        }
      }
    }
  }

  lemma {:induction false} SameReader(s: State, r: int, schedule: seq<Turn>)
    requires r in s.threads && s.threads[r].Reader?
    ensures var t := Exec(s, schedule);
      r in t.threads && t.threads[r].Reader? && t.threads[r].div == s.threads[r].div
    decreases |schedule|
  {
    if schedule != [] {
      SameReader(Move(s, schedule[0]), r, schedule[1..]);
    }
  }

  /**
   A reader that has entered and scanned to the end, however the other threads were
   interleaved with its cells: the table was the same all along, and the reader's
   count is the number of its entries divisible by `div`.
   */
  lemma ScanSeesOneTable(s0: State, past: seq<Turn>, r: int, scan: seq<Turn>)
    requires IsInit(s0)
    requires StaysInside(Exec(s0, past), r, scan)
    requires var t := Exec(Exec(s0, past), scan);
      r in t.threads && t.threads[r].Reader? && t.threads[r].rpc.ExitCheck?
    ensures var s := Exec(s0, past);
      && r in s.threads && s.threads[r].Reader?
      && (forall k :: 0 <= k <= |scan| ==> Exec(s, scan[..k]).table == s.table)
      && Exec(s, scan).threads[r].count == CountDivisible(s.table, s.threads[r].div)
  {
    InitInv(s0);
    RunKeepsInv(s0, past);
    var s := Exec(s0, past);
    TableFrozen(s, r, scan);
    assert scan[..|scan|] == scan;
    SameReader(s, r, scan);
    RunKeepsInv(s, scan);
    var t := Exec(s, scan);
    var baton, turn :| InvWith(t, baton, turn);
    assert ThreadInv(t, turn, t.threads[r]);
  }

  /** A reader that has finished its scan and not yet left still has the exact count of the table as it is. */
  lemma FinishedScanIsExact(s0: State, schedule: seq<Turn>, r: int)
    requires IsInit(s0)
    requires var s := Exec(s0, schedule); r in s.threads && s.threads[r].Reader? && s.threads[r].rpc.ExitCheck?
    ensures var s := Exec(s0, schedule); s.threads[r].count == CountDivisible(s.table, s.threads[r].div)
  {
    var baton, turn := Reachable(s0, schedule);
    var s := Exec(s0, schedule);
    assert ThreadInv(s, turn, s.threads[r]);
  }

  // ---------- no thread is stuck ----------

  /** How far a thread is from being idle. */
  function Distance(t: Thread): nat
  {
    match t
    case Reader(pc, _, i, _) =>
      (match pc
       case Idle => 0
       case HandOver => 1
       case Release => 1
       case Decide => 2
       case Depart => 3
       case ExitCheck => 4
       case Scan => 5 + (if i < TABLE_SIZE then TABLE_SIZE - i else 0)
       case LeaveCheck => 6 + TABLE_SIZE
       case Enter => 7 + TABLE_SIZE)
    case Writer(pc, left) =>
      (match pc
       case Idle => 0
       case PostTurn => 1
       case PostCheck => 2
       case Retire => 3
       case Update => 4 + left
       case Draw => 15
       case AwaitBaton => 16
       case YieldCheck => 17
       case TestReaders => 18
       case Announce => 19
       case WaitCheck => 20)
  }

  ghost predicate Quiet(s: State)
  {
    forall t :: t in s.threads ==> IsIdle(s.threads[t])
  }

  lemma StepLowers(s: State, turn: Turn)
    requires Enabled(s, turn.thread) && !IsIdle(s.threads[turn.thread])
    ensures Distance(Move(s, turn).threads[turn.thread]) < Distance(s.threads[turn.thread])
  {
  }

  lemma BusyThreadLowers(s: State, turn: Turn)
    requires Enabled(s, turn.thread) && !IsIdle(s.threads[turn.thread])
    ensures Sum(Move(s, turn).threads, Distance) < Sum(s.threads, Distance)
  {
    var t := turn.thread;
    ReadersMove(s, turn);
    StepLowers(s, turn);
    SumUpdate(s.threads, Distance, t, Move(s, turn).threads[t]);
  }

  /** Unless all threads are idle, one that is not idle can move. */
  lemma NextToMove(s: State, baton: Owner, turn: Owner) returns (t: int)
    requires InvWith(s, baton, turn) && !Quiet(s)
    ensures Enabled(s, t) && !IsIdle(s.threads[t])
  {
    if baton.AThread? {
      return baton.id;
    }
    if s.semWait == 1 {
      return turn.id;
    }
    t :| t in s.threads && !IsIdle(s.threads[t]);
    if s.threads[t].Writer? && s.threads[t].wpc.AwaitBaton? {
      assert turn == AThread(t);
      t := ReadersMeanInside(s);
    }
  }

  /** From every reachable state some continuation brings every thread back to the head of its loop. */
  lemma {:induction false} CanQuietenFrom(s: State, baton: Owner, turn: Owner) returns (rest: seq<Turn>)
    requires InvWith(s, baton, turn)
    ensures Quiet(Exec(s, rest))
    decreases Sum(s.threads, Distance)
  {
    if Quiet(s) {
      return [];
    }
    var t := NextToMove(s, baton, turn);
    var step := Turn(t, 0, 0);
    BusyThreadLowers(s, step);
    MoveKeepsInvWith(s, step, baton, turn);
    var later := CanQuietenFrom(Move(s, step), NextBaton(s, step, baton), NextTurn(s, step, turn));
    rest := [step] + later;
    assert rest[1..] == later;
  }

  lemma NoThreadIsStuck(s0: State, past: seq<Turn>) returns (future: seq<Turn>)
    requires IsInit(s0)
    ensures Quiet(Exec(s0, past + future))
  {
    var baton, turn := Reachable(s0, past);
    future := CanQuietenFrom(Exec(s0, past), baton, turn);
    ExecConcat(s0, past, future);
  }

  /** Some thread can move in every reachable state, if there is any thread at all. */
  lemma DeadlockFree(s0: State, past: seq<Turn>)
    requires IsInit(s0) && s0.threads != map[]
    ensures exists t :: Enabled(Exec(s0, past), t)
  {
    var baton, turn := Reachable(s0, past);
    var s := Exec(s0, past);
    if !Quiet(s) {
      var t := NextToMove(s, baton, turn);
    } else {
      SameThreads(s0, past);
      QuietIsEnabled(s, baton, turn);
    }
  }

  lemma {:induction false} SameThreads(s: State, schedule: seq<Turn>)
    ensures Exec(s, schedule).threads.Keys == s.threads.Keys
    decreases |schedule|
  {
    if schedule != [] {
      SameThreads(Move(s, schedule[0]), schedule[1..]);
    }
  }

  lemma QuietIsEnabled(s: State, baton: Owner, turn: Owner)
    requires InvWith(s, baton, turn) && Quiet(s) && s.threads.Keys != {}
    ensures exists t :: Enabled(s, t)
  {
    HasMember(s.threads.Keys);
    var t :| t in s.threads.Keys;
    assert Enabled(s, t);
  }
}
