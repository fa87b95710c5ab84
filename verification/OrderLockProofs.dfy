/** Every run keeps the lock invariant of OrderLocks, one component of the invariant at a time. */
module OrderLockProofs {
  import opened Basics
  import opened OrderLocks

  type Threads = map<ThreadId, Thread>

  // ---------------------------------------------------------------- createLock

  lemma CreateStep(ts: Threads, l: Locks, t: ThreadId, th: Thread, l': Locks)
    requires CreateInv(ts, l) && t in ts
    requires
      || (l'.createLock == l.createLock && (InCreate(th.pc) <==> InCreate(ts[t].pc)))
      || (l.createLock == None && l'.createLock == Some(t) && InCreate(th.pc))
      || (InCreate(ts[t].pc) && l'.createLock == None && !InCreate(th.pc))
    ensures CreateInv(ts[t := th], l')
  {
  }

  lemma LocksKeepCreate(ts: Threads, l: Locks, t: ThreadId)
    requires CreateInv(ts, l) && t in ts && OnLocks(ts[t].pc)
    ensures var r := StepLocks(l, t, ts[t]); CreateInv(ts[t := r.thread], r.locks)
  {
    var r := StepLocks(l, t, ts[t]);
    CreateStep(ts, l, t, r.thread, r.locks);
  }

  // ---------------------------------------------------------------- the table of entries

  lemma TableStep(ts: Threads, l: Locks, t: ThreadId, th: Thread, l': Locks)
    requires TableInv(ts, l) && t in ts && th.key == ts[t].key
    requires l'.entries == l.entries && l'.mutexes.Keys == l.mutexes.Keys && l'.nextMutex == l.nextMutex
    requires Attached(th.pc) ==> th.key in l.entries && th.mutex == l.entries[th.key]
    ensures TableInv(ts[t := th], l')
  {
  }

  lemma LoadOrStoreTable(ts: Threads, l: Locks, t: ThreadId)
    requires TableInv(ts, l) && t in ts && ts[t].pc.LoadOrStore?
    ensures var r := StepLoadOrStore(l, ts[t]); TableInv(ts[t := r.thread], r.locks)
  {
    if ts[t].key in l.entries {
      TableStep(ts, l, t, StepLoadOrStore(l, ts[t]).thread, l);
    }
  }

  /** The entry is dropped only when no other thread points to it. */
  lemma DropEntryTable(ts: Threads, l: Locks, t: ThreadId)
    requires CreateInv(ts, l) && TableInv(ts, l) && CountInv(ts, l) && t in ts && ts[t].pc.DropEntry?
    ensures var r := StepDropEntry(l, ts[t]); TableInv(ts[t := r.thread], r.locks)
  {
    var r := StepDropEntry(l, ts[t]);
    var ts' := ts[t := r.thread];
    if l.mutexes[ts[t].mutex].refCount == 0 {
      assert CountedOn(ts, ts[t].mutex) == {};
      forall u | u in ts' && Attached(ts'[u].pc)
        ensures ts'[u].key in r.locks.entries && r.locks.entries[ts'[u].key] == ts'[u].mutex
      {
        assert u != t && ts'[u] == ts[u];
        assert u in CountedOn(ts, ts[u].mutex);
      }
    } else {
      TableStep(ts, l, t, r.thread, r.locks);
    }
  }

  /** The other actions leave the entries alone, and a thread that stays attached keeps its mutex. */
  lemma EntriesStay(l: Locks, t: ThreadId, th: Thread)
    requires OnLocks(th.pc) && !th.pc.LoadOrStore? && !th.pc.DropEntry?
    requires Attached(th.pc) ==> th.key in l.entries && l.entries[th.key] == th.mutex
    ensures var r := StepLocks(l, t, th);
      && r.thread.key == th.key && (Attached(r.thread.pc) ==> Attached(th.pc) && r.thread.mutex == th.mutex)
      && r.locks.entries == l.entries && r.locks.mutexes.Keys == l.mutexes.Keys && r.locks.nextMutex == l.nextMutex
  {
  }

  lemma LocksKeepTable(ts: Threads, l: Locks, t: ThreadId)
    requires CreateInv(ts, l) && TableInv(ts, l) && CountInv(ts, l) && t in ts && OnLocks(ts[t].pc)
    ensures var r := StepLocks(l, t, ts[t]); TableInv(ts[t := r.thread], r.locks)
  {
    var r := StepLocks(l, t, ts[t]);
    if ts[t].pc.LoadOrStore? {
      LoadOrStoreTable(ts, l, t);
    } else if ts[t].pc.DropEntry? {
      DropEntryTable(ts, l, t);
    } else {
      EntriesStay(l, t, ts[t]);
      TableStep(ts, l, t, r.thread, r.locks);
    }
  }

  // ---------------------------------------------------------------- the reference counts

  lemma CountedOnStep(ts: Threads, t: ThreadId, th: Thread, m: MutexId)
    requires t in ts
    ensures CountedOn(ts[t := th], m) ==
      if Counted(th.pc) && th.mutex == m then CountedOn(ts, m) + {t} else CountedOn(ts, m) - {t}
  {
  }

  lemma CountStepSame(ts: Threads, l: Locks, t: ThreadId, th: Thread, l': Locks)
    requires CountInv(ts, l) && t in ts
    requires Counted(th.pc) == Counted(ts[t].pc)
    requires Counted(th.pc) ==> th.mutex == ts[t].mutex
    requires l'.mutexes.Keys == l.mutexes.Keys
    requires forall m | m in l.mutexes :: l'.mutexes[m].refCount == l.mutexes[m].refCount
    requires l'.entries == l.entries
    requires !ts[t].pc.Retain? && !ts[t].pc.DropEntry?
    requires l'.createLock == l.createLock || l.createLock == None || l.createLock == Some(t)
    ensures CountInv(ts[t := th], l')
  {
    var ts' := ts[t := th];
    forall m ensures CountedOn(ts', m) == CountedOn(ts, m) { CountedOnStep(ts, t, th, m); }
    forall k | InTransit(ts, l, k) ensures InTransit(ts', l', k) {}
  }

  lemma FreshEntryCounts(ts: Threads, l: Locks, t: ThreadId)
    requires l.createLock == Some(t) && TableInv(ts, l) && CountInv(ts, l)
    requires t in ts && ts[t].pc.LoadOrStore? && ts[t].key !in l.entries
    ensures var r := StepLoadOrStore(l, ts[t]); CountInv(ts[t := r.thread], r.locks)
  {
    var r := StepLoadOrStore(l, ts[t]);
    var ts' := ts[t := r.thread];
    forall m ensures CountedOn(ts', m) == CountedOn(ts, m) { CountedOnStep(ts, t, r.thread, m); }
    assert CountedOn(ts, l.nextMutex) == {};
    assert InTransit(ts', r.locks, ts[t].key);
  }

  lemma RetainCounts(ts: Threads, l: Locks, t: ThreadId)
    requires CountInv(ts, l) && l.createLock == Some(t) && t in ts && ts[t].pc.Retain?
    requires ts[t].key in l.entries && l.entries[ts[t].key] == ts[t].mutex && ts[t].mutex in l.mutexes
    ensures var r := StepRetain(l, ts[t]); CountInv(ts[t := r.thread], r.locks)
  {
    var r := StepRetain(l, ts[t]);
    var ts' := ts[t := r.thread];
    var mine := ts[t].mutex;
    forall m ensures CountedOn(ts', m) == if m == mine then CountedOn(ts, m) + {t} else CountedOn(ts, m) {
      CountedOnStep(ts, t, r.thread, m);
    }
    assert t !in CountedOn(ts, mine);
  }

  lemma ReleasedOn(ts: Threads, t: ThreadId, th: Thread, m: MutexId)
    requires t in ts && Counted(ts[t].pc) && !Counted(th.pc)
    ensures CountedOn(ts[t := th], m) == if m == ts[t].mutex then CountedOn(ts, m) - {t} else CountedOn(ts, m)
    ensures |CountedOn(ts[t := th], m)| == |CountedOn(ts, m)| - if m == ts[t].mutex then 1 else 0
  {
    CountedOnStep(ts, t, th, m);
    if m == ts[t].mutex {
      assert t in CountedOn(ts, m);
    } else {
      assert t !in CountedOn(ts, m);
    }
  }

  lemma ReleaseCounts(ts: Threads, l: Locks, t: ThreadId)
    requires CountInv(ts, l) && l.createLock == Some(t) && t in ts && ts[t].pc.Release?
    requires forall k | k in l.entries && l.entries[k] == ts[t].mutex :: k == ts[t].key
    requires ts[t].mutex in l.mutexes
    ensures var r := StepRelease(l, ts[t]); CountInv(ts[t := r.thread], r.locks)
  {
    var r := StepRelease(l, ts[t]);
    var ts' := ts[t := r.thread];
    forall m | m in l.mutexes ensures r.locks.mutexes[m].refCount == |CountedOn(ts', m)| {
      ReleasedOn(ts, t, r.thread, m);
    }
    forall k | k in l.entries ensures CountedOn(ts', l.entries[k]) != {} || InTransit(ts', r.locks, k) {
      ReleasedOn(ts, t, r.thread, l.entries[k]);
    }
  }

  lemma KeptEntryCounts(ts: Threads, l: Locks, t: ThreadId, th: Thread)
    requires CountInv(ts, l) && l.createLock == Some(t) && t in ts && ts[t].pc.DropEntry? && !Counted(th.pc)
    requires ts[t].key in l.entries && CountedOn(ts, l.entries[ts[t].key]) != {}
    ensures CountInv(ts[t := th], l)
  {
    var ts' := ts[t := th];
    forall m ensures CountedOn(ts', m) == CountedOn(ts, m) { CountedOnStep(ts, t, th, m); }
  }

  lemma DroppedEntryCounts(ts: Threads, l: Locks, t: ThreadId, th: Thread)
    requires CountInv(ts, l) && l.createLock == Some(t) && t in ts && ts[t].pc.DropEntry? && !Counted(th.pc)
    ensures CountInv(ts[t := th], l.(entries := l.entries - {ts[t].key}))
  {
    var ts' := ts[t := th];
    forall m ensures CountedOn(ts', m) == CountedOn(ts, m) { CountedOnStep(ts, t, th, m); }
  }

  lemma DropEntryCounts(ts: Threads, l: Locks, t: ThreadId)
    requires CountInv(ts, l) && l.createLock == Some(t) && t in ts && ts[t].pc.DropEntry?
    requires ts[t].key in l.entries && l.entries[ts[t].key] == ts[t].mutex && ts[t].mutex in l.mutexes
    ensures var r := StepDropEntry(l, ts[t]); CountInv(ts[t := r.thread], r.locks)
  {
    var r := StepDropEntry(l, ts[t]);
    if l.mutexes[ts[t].mutex].refCount == 0 {
      DroppedEntryCounts(ts, l, t, r.thread);
    } else {
      KeptEntryCounts(ts, l, t, r.thread);
    }
  }

  predicate Quiet(pc: Pc) {
    OnLocks(pc) && !pc.LoadOrStore? && !pc.Retain? && !pc.Release? && !pc.DropEntry?
  }

  /** A quiet action neither counts nor discounts its thread, and leaves entries and counts alone. */
  lemma QuietStep(l: Locks, t: ThreadId, th: Thread)
    requires Quiet(th.pc)
    requires th.pc.FindEntry? ==> th.key in l.entries && l.entries[th.key] == th.mutex
    ensures var r := StepLocks(l, t, th);
      && Counted(r.thread.pc) == Counted(th.pc) && r.thread.mutex == th.mutex
      && r.locks.entries == l.entries && r.locks.mutexes.Keys == l.mutexes.Keys
      && (forall m | m in l.mutexes :: r.locks.mutexes[m].refCount == l.mutexes[m].refCount)
      && (r.locks.createLock == l.createLock || l.createLock == None || InCreate(th.pc))
  {
  }

  lemma QuietKeepsCounts(ts: Threads, l: Locks, t: ThreadId)
    requires CreateInv(ts, l) && CountInv(ts, l) && t in ts && Quiet(ts[t].pc)
    requires ts[t].pc.FindEntry? ==> ts[t].key in l.entries && l.entries[ts[t].key] == ts[t].mutex
    ensures var r := StepLocks(l, t, ts[t]); CountInv(ts[t := r.thread], r.locks)
  {
    var r := StepLocks(l, t, ts[t]);
    QuietStep(l, t, ts[t]);
    CountStepSame(ts, l, t, r.thread, r.locks);
  }

  lemma LocksKeepCounts(ts: Threads, l: Locks, t: ThreadId)
    requires CreateInv(ts, l) && TableInv(ts, l) && CountInv(ts, l) && t in ts && OnLocks(ts[t].pc)
    ensures var r := StepLocks(l, t, ts[t]); CountInv(ts[t := r.thread], r.locks)
  {
    match ts[t].pc
    case LoadOrStore =>
      if ts[t].key in l.entries {
        CountStepSame(ts, l, t, StepLoadOrStore(l, ts[t]).thread, l);
      } else {
        FreshEntryCounts(ts, l, t);
      }
    case Retain => RetainCounts(ts, l, t);
    case Release => ReleaseCounts(ts, l, t);
    case DropEntry => DropEntryCounts(ts, l, t);
    case _ => QuietKeepsCounts(ts, l, t);
  }

  // ---------------------------------------------------------------- the holders

  /** Every locked mutex other than `except` keeps a holder when only thread t moves and t does not
      stop holding it. */
  lemma HeldStep(ts: Threads, l: Locks, t: ThreadId, th: Thread, l': Locks)
    requires HeldInv(ts, l) && t in ts && !l'.crashed && !th.pc.ReturnedNotFound?
    requires Holding(th.pc) == Holding(ts[t].pc)
    requires Holding(th.pc) ==> th.mutex == ts[t].mutex
    requires forall m | m in l.mutexes :: m in l'.mutexes && l'.mutexes[m].locked == l.mutexes[m].locked
    requires forall m | m in l'.mutexes && m !in l.mutexes :: !l'.mutexes[m].locked
    ensures HeldInv(ts[t := th], l')
  {
    var ts' := ts[t := th];
    forall m | m in l'.mutexes && l'.mutexes[m].locked
      ensures exists u :: u in ts' && Holding(ts'[u].pc) && ts'[u].mutex == m
    {
      var u :| u in ts && Holding(ts[u].pc) && ts[u].mutex == m;
      assert u in ts' && Holding(ts'[u].pc);
    }
  }

  lemma LockMutexHeld(ts: Threads, l: Locks, t: ThreadId)
    requires HeldInv(ts, l) && t in ts && ts[t].pc.LockMutex?
    ensures var r := StepLockMutex(l, ts[t]); HeldInv(ts[t := r.thread], r.locks)
  {
    var r := StepLockMutex(l, ts[t]);
    var ts' := ts[t := r.thread];
    if r.locks == l {
      assert ts' == ts;
    } else {
      assert Holding(ts'[t].pc);
      forall m | m in r.locks.mutexes && r.locks.mutexes[m].locked && m != ts[t].mutex
        ensures exists u :: u in ts' && Holding(ts'[u].pc) && ts'[u].mutex == m
      {
        var u :| u in ts && Holding(ts[u].pc) && ts[u].mutex == m;
        assert u in ts' && Holding(ts'[u].pc);
      }
    }
  }

  /** The mutex a holder unlocks is locked, and by that holder alone. */
  lemma UnlockMutexHeld(ts: Threads, l: Locks, t: ThreadId)
    requires HeldInv(ts, l) && t in ts && ts[t].pc.UnlockMutex?
    ensures var r := StepUnlockMutex(l, ts[t]); HeldInv(ts[t := r.thread], r.locks)
  {
    var r := StepUnlockMutex(l, ts[t]);
    var ts' := ts[t := r.thread];
    forall m | m in r.locks.mutexes && r.locks.mutexes[m].locked
      ensures exists u :: u in ts' && Holding(ts'[u].pc) && ts'[u].mutex == m
    {
      var u :| u in ts && Holding(ts[u].pc) && ts[u].mutex == m;
      assert u in ts' && Holding(ts'[u].pc);
    }
  }

  /** The other actions lock and unlock nothing, and a holder keeps its mutex. */
  lemma HoldersStay(l: Locks, t: ThreadId, th: Thread)
    requires OnLocks(th.pc) && !th.pc.LockMutex? && !th.pc.UnlockMutex? && !th.pc.ReturnedNotFound?
    requires th.pc.FindEntry? ==> th.key in l.entries && l.entries[th.key] == th.mutex
    requires forall m | m in l.mutexes :: m < l.nextMutex
    ensures var r := StepLocks(l, t, th);
      && r.locks.crashed == l.crashed && !r.thread.pc.ReturnedNotFound?
      && Holding(r.thread.pc) == Holding(th.pc) && (Holding(th.pc) ==> r.thread.mutex == th.mutex)
      && (forall m | m in l.mutexes :: m in r.locks.mutexes && r.locks.mutexes[m].locked == l.mutexes[m].locked)
      && (forall m | m in r.locks.mutexes && m !in l.mutexes :: !r.locks.mutexes[m].locked)
  {
  }

  lemma LocksKeepHeld(ts: Threads, l: Locks, t: ThreadId)
    requires TableInv(ts, l) && HeldInv(ts, l) && t in ts && OnLocks(ts[t].pc)
    ensures var r := StepLocks(l, t, ts[t]); HeldInv(ts[t := r.thread], r.locks)
  {
    var r := StepLocks(l, t, ts[t]);
    if ts[t].pc.LockMutex? {
      LockMutexHeld(ts, l, t);
    } else if ts[t].pc.UnlockMutex? {
      UnlockMutexHeld(ts, l, t);
    } else {
      HoldersStay(l, t, ts[t]);
      HeldStep(ts, l, t, r.thread, r.locks);
    }
  }

  // ---------------------------------------------------------------- all components, all events

  lemma SectionKeepsHolding(d: Store, th: Thread, storeOk: bool, quotaPerUnit: real)
    requires !OnLocks(th.pc)
    ensures var th' := StepStore(d, th, storeOk, quotaPerUnit).thread;
      Holding(th'.pc) && th'.key == th.key && th'.mutex == th.mutex && th'.job == th.job
  {
  }

  /** Inside the locked section the lock tables and the thread's part in them stay the same. */
  lemma SectionKeepsCreate(ts: Threads, l: Locks, t: ThreadId, th: Thread)
    requires CreateInv(ts, l) && TableInv(ts, l) && t in ts && !OnLocks(ts[t].pc)
    requires Holding(th.pc) && th.key == ts[t].key && th.mutex == ts[t].mutex
    ensures CreateInv(ts[t := th], l) && TableInv(ts[t := th], l)
  {
    CreateStep(ts, l, t, th, l);
    TableStep(ts, l, t, th, l);
  }

  lemma SectionKeepsHeld(ts: Threads, l: Locks, t: ThreadId, th: Thread)
    requires CountInv(ts, l) && HeldInv(ts, l) && t in ts && !OnLocks(ts[t].pc)
    requires Holding(th.pc) && th.mutex == ts[t].mutex
    ensures CountInv(ts[t := th], l) && HeldInv(ts[t := th], l)
  {
    CountStepSame(ts, l, t, th, l);
    HeldStep(ts, l, t, th, l);
  }

  lemma SectionStep(s: State, t: ThreadId, storeOk: bool, quotaPerUnit: real) returns (th: Thread)
    requires t in s.threads && !OnLocks(s.threads[t].pc)
    ensures var s' := Next(s, Advance(t, storeOk), quotaPerUnit);
      s'.threads == s.threads[t := th] && s'.locks == s.locks
    ensures Holding(th.pc) && th.key == s.threads[t].key && th.mutex == s.threads[t].mutex
  {
    th := StepStore(s.store, s.threads[t], storeOk, quotaPerUnit).thread;
    SectionKeepsHolding(s.store, s.threads[t], storeOk, quotaPerUnit);
  }

  lemma SectionKeepsLocks(s: State, t: ThreadId, storeOk: bool, quotaPerUnit: real)
    requires LockInv(s) && t in s.threads && !OnLocks(s.threads[t].pc)
    ensures LockInv(Next(s, Advance(t, storeOk), quotaPerUnit))
  {
    var th := SectionStep(s, t, storeOk, quotaPerUnit);
    SectionKeepsCreate(s.threads, s.locks, t, th);
    SectionKeepsHeld(s.threads, s.locks, t, th);
  }

  lemma ArriveKeepsLocks(ts: Threads, l: Locks, t: ThreadId, th: Thread)
    requires CreateInv(ts, l) && TableInv(ts, l) && t !in ts && th.pc.EnterCreate?
    ensures CreateInv(ts[t := th], l) && TableInv(ts[t := th], l)
  {
  }

  lemma ArriveKeepsCounts(ts: Threads, l: Locks, t: ThreadId, th: Thread)
    requires CountInv(ts, l) && t !in ts && th.pc.EnterCreate?
    ensures CountInv(ts[t := th], l)
  {
    var ts' := ts[t := th];
    forall m ensures CountedOn(ts', m) == CountedOn(ts, m) {}
    forall k | InTransit(ts, l, k) ensures InTransit(ts', l, k) {}
  }

  lemma ArriveKeepsHeld(ts: Threads, l: Locks, t: ThreadId, th: Thread)
    requires HeldInv(ts, l) && t !in ts && th.pc.EnterCreate?
    ensures HeldInv(ts[t := th], l)
  {
    var ts' := ts[t := th];
    forall m | m in l.mutexes && l.mutexes[m].locked
      ensures exists u :: u in ts' && Holding(ts'[u].pc) && ts'[u].mutex == m
    {
      var u :| u in ts && Holding(ts[u].pc) && ts[u].mutex == m;
      assert u in ts' && Holding(ts'[u].pc);
    }
  }

  lemma NextKeepsLocks(s: State, e: Event, quotaPerUnit: real)
    requires LockInv(s)
    ensures LockInv(Next(s, e, quotaPerUnit))
  {
    match e
    case Arrive(t, job, key) =>
      if t !in s.threads {
        var th := Thread(job, key, EnterCreate, 0, None);
        ArriveKeepsLocks(s.threads, s.locks, t, th);
        ArriveKeepsCounts(s.threads, s.locks, t, th);
        ArriveKeepsHeld(s.threads, s.locks, t, th);
      }
    case InsertOrder(_, _) =>
    case Advance(t, storeOk) =>
      if t in s.threads {
        if OnLocks(s.threads[t].pc) {
          LocksKeepCreate(s.threads, s.locks, t);
          LocksKeepTable(s.threads, s.locks, t);
          LocksKeepCounts(s.threads, s.locks, t);
          LocksKeepHeld(s.threads, s.locks, t);
        } else {
          SectionKeepsLocks(s, t, storeOk, quotaPerUnit);
        }
      }
  }

  /** Every reachable state of every interleaving satisfies the lock invariant. */
  lemma {:induction false} RunKeepsLocks(s: State, es: seq<Event>, quotaPerUnit: real)
    requires Initial(s)
    ensures LockInv(Run(s, es, quotaPerUnit))
  {
    if es != [] {
      RunKeepsLocks(s, es[..|es| - 1], quotaPerUnit);
      NextKeepsLocks(Run(s, es[..|es| - 1], quotaPerUnit), es[|es| - 1], quotaPerUnit);
    }
  }
}
