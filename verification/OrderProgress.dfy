/** The order locks never block for good: someone can always move, and everyone can return. */
module OrderProgress {
  import opened Basics
  import opened OrderLocks
  import opened OrderLockProofs
  import opened Sums

  predicate HasReturned(pc: Pc) {
    pc.Returned? || pc.ReturnedNotFound?
  }

  /** The actions a thread has left at most. */
  function Rank(pc: Pc): nat {
    match pc
    case EnterCreate => 14
    case LoadOrStore => 13
    case Retain => 12
    case LeaveCreate => 11
    case LockMutex => 10
    case ReadOrder => 9
    case WriteOrder => 8
    case CreditUser => 7
    case FindEntry => 6
    case UnlockMutex => 5
    case ReenterCreate => 4
    case Release => 3
    case DropEntry => 2
    case ExitCreate => 1
    case Returned => 0
    case ReturnedNotFound => 0
  }

  /** The next action of the thread takes effect, whether or not the store accepts it. */
  ghost predicate CanMove(s: State, t: ThreadId, quotaPerUnit: real) {
    && t in s.threads
    && forall storeOk: bool ::
         var s' := Next(s, Advance(t, storeOk), quotaPerUnit);
         s'.threads.Keys == s.threads.Keys && Rank(s'.threads[t].pc) < Rank(s.threads[t].pc)
  }

  /** A thread inside createLock is never blocked. */
  lemma CreatorMoves(s: State, t: ThreadId, quotaPerUnit: real)
    requires TableInv(s.threads, s.locks) && t in s.threads && InCreate(s.threads[t].pc)
    ensures CanMove(s, t, quotaPerUnit)
  {
    var th := s.threads[t];
    if Attached(th.pc) {
      assert s.locks.entries[th.key] in s.locks.mutexes;
    }
    CreatorSteps(s.locks, t, th);
  }

  lemma CreatorSteps(l: Locks, t: ThreadId, th: Thread)
    requires InCreate(th.pc) && (Attached(th.pc) ==> th.mutex in l.mutexes)
    ensures Rank(StepLocks(l, t, th).thread.pc) < Rank(th.pc)
  {
  }

  /** Neither is the holder of an order's mutex, up to giving it back. */
  lemma HolderMoves(s: State, t: ThreadId, quotaPerUnit: real)
    requires TableInv(s.threads, s.locks) && HeldInv(s.threads, s.locks)
    requires t in s.threads && Holding(s.threads[t].pc)
    ensures CanMove(s, t, quotaPerUnit)
  {
    var th := s.threads[t];
    if OnLocks(th.pc) {
      assert Attached(th.pc);
      UnlockerMoves(s.locks, t, th);
    } else {
      SectionMoves(s.store, th, true, quotaPerUnit);
      SectionMoves(s.store, th, false, quotaPerUnit);
    }
  }

  lemma UnlockerMoves(l: Locks, t: ThreadId, th: Thread)
    requires th.pc.FindEntry? || th.pc.UnlockMutex?
    requires th.key in l.entries && th.mutex in l.mutexes && l.mutexes[th.mutex].locked
    ensures Rank(StepLocks(l, t, th).thread.pc) < Rank(th.pc)
  {
  }

  lemma SectionMoves(d: Store, th: Thread, storeOk: bool, quotaPerUnit: real)
    requires !OnLocks(th.pc)
    ensures Rank(StepStore(d, th, storeOk, quotaPerUnit).thread.pc) < Rank(th.pc)
  {
    match th.pc
    case ReadOrder => ReaderMoves(d, th, storeOk, quotaPerUnit);
    case WriteOrder =>
    case CreditUser =>
  }

  lemma ReaderMoves(d: Store, th: Thread, storeOk: bool, quotaPerUnit: real)
    ensures var pc := StepReadOrder(d, th, storeOk, quotaPerUnit).thread.pc; pc.FindEntry? || pc.WriteOrder?
  {
  }

  /** Outside createLock, a thread that waits for a taken mutex waits for its holder. */
  lemma WaiterMoves(s: State, t: ThreadId, quotaPerUnit: real) returns (u: ThreadId)
    requires TableInv(s.threads, s.locks) && HeldInv(s.threads, s.locks)
    requires t in s.threads && s.threads[t].pc.LockMutex?
    ensures CanMove(s, u, quotaPerUnit)
  {
    var m := s.threads[t].mutex;
    assert Attached(s.threads[t].pc);
    assert s.locks.entries[s.threads[t].key] in s.locks.mutexes;
    if s.locks.mutexes[m].locked {
      u :| u in s.threads && Holding(s.threads[u].pc) && s.threads[u].mutex == m;
      HolderMoves(s, u, quotaPerUnit);
    } else {
      u := t;
    }
  }

  /** As long as some thread has not returned, some thread can move. */
  lemma SomeoneMoves(s: State, t: ThreadId, quotaPerUnit: real) returns (u: ThreadId)
    requires LockInv(s) && t in s.threads && !HasReturned(s.threads[t].pc)
    ensures CanMove(s, u, quotaPerUnit)
  {
    if s.locks.createLock.Some? {
      u := s.locks.createLock.value;
      CreatorMoves(s, u, quotaPerUnit);
    } else if Holding(s.threads[t].pc) {
      u := t;
      HolderMoves(s, u, quotaPerUnit);
    } else if s.threads[t].pc.LockMutex? {
      u := WaiterMoves(s, t, quotaPerUnit);
    } else {
      u := t;
      EntererMoves(s, t, quotaPerUnit);
    }
  }

  lemma EntererMoves(s: State, t: ThreadId, quotaPerUnit: real)
    requires t in s.threads && s.locks.createLock == None
    requires s.threads[t].pc.EnterCreate? || s.threads[t].pc.ReenterCreate?
    ensures CanMove(s, t, quotaPerUnit)
  {
  }

  /** No deadlock between createLock and the order mutexes: in every reachable state with a thread that
      has not returned, the next action of some thread takes effect. */
  lemma NoDeadlock(s0: State, es: seq<Event>, quotaPerUnit: real, t: ThreadId) returns (u: ThreadId)
    requires Initial(s0)
    requires var s := Run(s0, es, quotaPerUnit); t in s.threads && !HasReturned(s.threads[t].pc)
    ensures CanMove(Run(s0, es, quotaPerUnit), u, quotaPerUnit)
  {
    RunKeepsLocks(s0, es, quotaPerUnit);
    u := SomeoneMoves(Run(s0, es, quotaPerUnit), t, quotaPerUnit);
  }

  // ---------------------------------------------------------------- everyone returns

  function RankOf(ts: map<ThreadId, Thread>): ThreadId -> int {
    t => if t in ts then Rank(ts[t].pc) else 0
  }

  /** The actions all threads together have left at most. */
  ghost function TotalRank(s: State): int {
    SumOver(s.threads.Keys, RankOf(s.threads))
  }

  lemma {:induction false} SumIsNatural(ks: set<ThreadId>, f: ThreadId -> int)
    requires forall k | k in ks :: f(k) >= 0
    ensures SumOver(ks, f) >= 0
    decreases |ks|
  {
    if ks != {} {
      var k :| k in ks && SumOver(ks, f) == f(k) + SumOver(ks - {k}, f);
      SumIsNatural(ks - {k}, f);
    }
  }

  lemma MoveLowersTotal(s: State, t: ThreadId, storeOk: bool, quotaPerUnit: real)
    requires CanMove(s, t, quotaPerUnit)
    ensures 0 <= TotalRank(Next(s, Advance(t, storeOk), quotaPerUnit)) < TotalRank(s)
  {
    var s' := Next(s, Advance(t, storeOk), quotaPerUnit);
    SumOverChange(s.threads.Keys, t, RankOf(s.threads), RankOf(s'.threads));
    SumIsNatural(s'.threads.Keys, RankOf(s'.threads));
  }

  ghost predicate AllReturned(s: State) {
    forall t | t in s.threads :: s.threads[t].pc.Returned?
  }

  lemma SomeoneIsLeft(s: State, quotaPerUnit: real) returns (u: ThreadId)
    requires LockInv(s) && !AllReturned(s)
    ensures CanMove(s, u, quotaPerUnit)
  {
    var t :| t in s.threads && !s.threads[t].pc.Returned?;
    u := SomeoneMoves(s, t, quotaPerUnit);
  }

  // ---------------------------------------------------------------- schedules

  /** A schedule in which every action takes effect. */
  ghost predicate Effective(s: State, es: seq<Event>, quotaPerUnit: real) {
    es == [] ||
    var n := |es| - 1;
    && Effective(s, es[..n], quotaPerUnit)
    && es[n].Advance? && CanMove(Run(s, es[..n], quotaPerUnit), es[n].tid, quotaPerUnit)
  }

  /** One more effective action keeps the invariant and lowers the total. */
  lemma LastAction(s: State, es: seq<Event>, quotaPerUnit: real)
    requires es != [] && Effective(s, es, quotaPerUnit) && LockInv(Run(s, es[..|es| - 1], quotaPerUnit))
    ensures LockInv(Run(s, es, quotaPerUnit))
    ensures 0 <= TotalRank(Run(s, es, quotaPerUnit)) < TotalRank(Run(s, es[..|es| - 1], quotaPerUnit))
  {
    var e, before := es[|es| - 1], Run(s, es[..|es| - 1], quotaPerUnit);
    MoveLowersTotal(before, e.tid, e.storeOk, quotaPerUnit);
    NextKeepsLocks(before, e, quotaPerUnit);
  }

  lemma ReturnedStays(s: State, u: ThreadId, quotaPerUnit: real)
    requires u in s.threads && s.threads[u].pc.Returned?
    ensures !CanMove(s, u, quotaPerUnit)
  {
    assert Rank(Next(s, Advance(u, true), quotaPerUnit).threads[u].pc) == 0;
  }

  lemma StuckIffReturned(s: State, quotaPerUnit: real)
    requires LockInv(s)
    ensures AllReturned(s) <==> forall u :: !CanMove(s, u, quotaPerUnit)
  {
    if AllReturned(s) {
      forall u ensures !CanMove(s, u, quotaPerUnit) {
        if u in s.threads { ReturnedStays(s, u, quotaPerUnit); }
      }
    } else {
      var u := SomeoneIsLeft(s, quotaPerUnit);
    }
  }

  lemma {:induction false} ScheduleIsBounded(s: State, es: seq<Event>, quotaPerUnit: real)
    requires LockInv(s) && Effective(s, es, quotaPerUnit)
    ensures LockInv(Run(s, es, quotaPerUnit))
    ensures |es| + TotalRank(Run(s, es, quotaPerUnit)) <= TotalRank(s)
    ensures TotalRank(Run(s, es, quotaPerUnit)) >= 0
  {
    if es == [] {
      SumIsNatural(s.threads.Keys, RankOf(s.threads));
      assert Run(s, es, quotaPerUnit) == s;
    } else {
      ScheduleIsBounded(s, es[..|es| - 1], quotaPerUnit);
      LastAction(s, es, quotaPerUnit);
    }
  }

  /** With no further arrivals every schedule of effective actions, whatever the store answers, has at most
      `TotalRank` of them, and it is stuck exactly when every thread has returned. */
  lemma EveryScheduleEnds(s: State, es: seq<Event>, quotaPerUnit: real)
    requires LockInv(s) && Effective(s, es, quotaPerUnit)
    ensures |es| <= TotalRank(s)
    ensures var s' := Run(s, es, quotaPerUnit); AllReturned(s') <==> forall u :: !CanMove(s', u, quotaPerUnit)
  {
    ScheduleIsBounded(s, es, quotaPerUnit);
    StuckIffReturned(Run(s, es, quotaPerUnit), quotaPerUnit);
  }

  /** The store gives these answers to the actions of the schedule. */
  ghost predicate Answered(es: seq<Event>, answers: nat -> bool) {
    forall i | 0 <= i < |es| :: es[i].Advance? && es[i].storeOk == answers(i)
  }

  lemma Mover(s: State, es: seq<Event>, quotaPerUnit: real) returns (u: ThreadId)
    requires LockInv(s) && Effective(s, es, quotaPerUnit) && !AllReturned(Run(s, es, quotaPerUnit))
    ensures CanMove(Run(s, es, quotaPerUnit), u, quotaPerUnit)
  {
    ScheduleIsBounded(s, es, quotaPerUnit);
    u := SomeoneIsLeft(Run(s, es, quotaPerUnit), quotaPerUnit);
  }

  lemma OneMore(s: State, es: seq<Event>, u: ThreadId, storeOk: bool, quotaPerUnit: real) returns (more: seq<Event>)
    requires Effective(s, es, quotaPerUnit) && CanMove(Run(s, es, quotaPerUnit), u, quotaPerUnit)
    ensures Effective(s, more, quotaPerUnit) && |more| == |es| + 1 && more[..|es|] == es
    ensures more[|es|].Advance? && more[|es|].storeOk == storeOk
  {
    more := es + [Advance(u, storeOk)];
    assert more[..|es|] == es;
  }

  lemma AnsweredMore(es: seq<Event>, more: seq<Event>, answers: nat -> bool)
    requires Answered(es, answers) && |more| == |es| + 1 && more[..|es|] == es
    requires more[|es|].Advance? && more[|es|].storeOk == answers(|es|)
    ensures Answered(more, answers)
  {
    assert forall i | 0 <= i < |es| :: more[i] == more[..|es|][i];
  }

  lemma {:induction false} Completed(s: State, es: seq<Event>, answers: nat -> bool, quotaPerUnit: real)
    returns (all: seq<Event>)
    requires LockInv(s) && Effective(s, es, quotaPerUnit) && Answered(es, answers)
    ensures Effective(s, all, quotaPerUnit) && Answered(all, answers) && AllReturned(Run(s, all, quotaPerUnit))
    decreases TotalRank(s) - |es|
  {
    if AllReturned(Run(s, es, quotaPerUnit)) {
      all := es;
    } else {
      var u := Mover(s, es, quotaPerUnit);
      var more := OneMore(s, es, u, answers(|es|), quotaPerUnit);
      AnsweredMore(es, more, answers);
      ScheduleIsBounded(s, more, quotaPerUnit);
      all := Completed(s, more, answers, quotaPerUnit);
    }
  }

  /** So from every state of the invariant everyone returns, for any sequence of answers of the store. */
  lemma EveryoneReturns(s: State, answers: nat -> bool, quotaPerUnit: real) returns (es: seq<Event>)
    requires LockInv(s)
    ensures Effective(s, es, quotaPerUnit) && Answered(es, answers)
    ensures |es| <= TotalRank(s) && AllReturned(Run(s, es, quotaPerUnit))
  {
    es := Completed(s, [], answers, quotaPerUnit);
    ScheduleIsBounded(s, es, quotaPerUnit);
  }
}
