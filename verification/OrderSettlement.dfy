/** Who settles an order, what its user gets for it, and how one undisturbed thread ends. */
module OrderSettlement {
  import opened Basics
  import opened OrderLocks
  import opened OrderLockProofs
  import opened OrderCredit
  import opened Sums

  // ---------------------------------------------------------------- what an order is worth

  /** The money of a Stripe order, the amount of any other one, times the unit. */
  function Worth(o: TopUp, quotaPerUnit: real): real {
    (if o.provider == Stripe then o.money else o.amount as real) * quotaPerUnit
  }

  /** A Stripe order is worth its money and any other order its amount, times the unit. */
  lemma OrderIsWorth(o: TopUp, quotaPerUnit: real)
    ensures IsCutOff(ManualQuota(o, quotaPerUnit), Worth(o, quotaPerUnit))
    ensures o.provider != Stripe ==> AmountQuota(o, quotaPerUnit) == ManualQuota(o, quotaPerUnit)
  {
    TruncateCutsOff(Worth(o, quotaPerUnit));
  }

  /** User `u` gets `c` for the order. */
  predicate GainedFrom(o: TopUp, u: int, quotaPerUnit: real, c: int) {
    if o.user != u then c == 0
    else IsCutOff(c, Worth(o, quotaPerUnit))
  }

  /** With an integer unit: the amount times the unit, and for a Stripe order the largest integer that its money
      times the unit reaches. */
  lemma GainOfWholeUnits(o: TopUp, unit: nat, c: int)
    ensures o.provider != Stripe ==> (GainedFrom(o, o.user, unit as real, c) <==> c == o.amount * unit)
    ensures o.provider == Stripe && o.money >= 0.0 ==>
      (GainedFrom(o, o.user, unit as real, c) <==> c as real <= o.money * unit as real < c as real + 1.0)
  {
    if o.provider != Stripe {
      assert o.amount as real * unit as real == (o.amount * unit) as real;
    } else if o.money >= 0.0 {
      assert o.money * unit as real >= 0.0;
    }
  }

  /** When no thread is between saving and crediting and no credit failed, every user has gained exactly what
      the rows of their newly successful orders say: the money of a Stripe order or the amount of any
      other one, times the unit. */
  lemma CreditedAsPaid(s0: State, es: seq<Event>, quotaPerUnit: real, u: int, gain: TradeNo -> int)
    requires Initial(s0) && u in s0.store.quota
    requires var s := Run(s0, es, quotaPerUnit);
      s.store.lost == {} && forall t | t in s.threads :: !s.threads[t].pc.CreditUser?
    requires var orders := Run(s0, es, quotaPerUnit).store.orders;
      forall k | k in orders :: GainedFrom(orders[k], u, quotaPerUnit, gain(k))
    ensures var d := Run(s0, es, quotaPerUnit).store;
      var settled := set k | k in d.orders && d.orders[k].status == Success
        && !(k in s0.store.orders && s0.store.orders[k].status == Success);
      u in d.quota && d.quota[u] == s0.store.quota[u] + SumOver(settled, gain)
  {
    var d := Run(s0, es, quotaPerUnit).store;
    var successes := set k | k in d.orders && Succeeded(d.orders, k) && !Succeeded(s0.store.orders, k);
    QuiescentCreditIsExact(s0, es, quotaPerUnit, u);
    forall k | k in successes ensures gain(k) == Share(d.orders, u, quotaPerUnit)(k) {
      GainIsShare(d.orders, u, quotaPerUnit, k, gain(k));
    }
    SumOverFrame(successes, gain, Share(d.orders, u, quotaPerUnit));
    assert successes == set k | k in d.orders && d.orders[k].status == Success
      && !(k in s0.store.orders && s0.store.orders[k].status == Success);
  }

  lemma GainIsShare(orders: Orders, u: int, quotaPerUnit: real, k: TradeNo, c: int)
    requires k in orders && GainedFrom(orders[k], u, quotaPerUnit, c)
    ensures c == Share(orders, u, quotaPerUnit)(k)
  {
    var o := orders[k];
    OrderIsWorth(o, quotaPerUnit);
    if o.user == u {
      CutOffIsUnique(c, ManualQuota(o, quotaPerUnit), Worth(o, quotaPerUnit));
    }
  }

  // ---------------------------------------------------------------- who settles an order

  /** Which job may bring an order of which provider into which state. */
  predicate MaySettle(job: Job, provider: Provider, status: Status) {
    match status
    case Pending => false
    case Success =>
      (match job
       case AdminComplete => true
       case EpayNotify(_) => provider == Epay
       case StripePaid(subscription) => provider == Stripe && !subscription
       case StripeAsyncFailed => false
       case StripeExpired(_) => false)
    case Failed => provider == Stripe && job.StripeAsyncFailed?
    case Expired => provider == Stripe && job == StripeExpired(false)
  }

  /** The terms of an order: everything but its status and the payment method. */
  predicate SameTerms(o: TopUp, p: TopUp) {
    o.user == p.user && o.amount == p.amount && o.money == p.money && o.provider == p.provider
  }

  /** An action that changes an order settles it by a job that may, for the order the thread came for. */
  lemma ActionSettles(s0: State, s: State, t: ThreadId, storeOk: bool, quotaPerUnit: real, k: TradeNo)
    requires RowsInv(s0, s) && t in s.threads && k in s.store.orders
    ensures var orders := Next(s, Advance(t, storeOk), quotaPerUnit).store.orders;
      && k in orders && SameTerms(s.store.orders[k], orders[k])
      && (orders[k] != s.store.orders[k] ==>
            && s.threads[t].key == k && s.store.orders[k].status == Pending
            && MaySettle(s.threads[t].job, orders[k].provider, orders[k].status))
  {
  }

  /** Every thread still has the job and the order with which it arrived. */
  lemma {:induction false} ThreadsArrived(s0: State, es: seq<Event>, quotaPerUnit: real, t: ThreadId)
    returns (i: nat)
    requires Initial(s0) && t in Run(s0, es, quotaPerUnit).threads
    ensures var th := Run(s0, es, quotaPerUnit).threads[t]; i < |es| && es[i] == Arrive(t, th.job, th.key)
  {
    var n := |es| - 1;
    var s := Run(s0, es[..n], quotaPerUnit);
    if t in s.threads {
      NextKeepsJob(s, es[n], quotaPerUnit, t);
      i := ThreadsArrived(s0, es[..n], quotaPerUnit, t);
    } else {
      i := n;
    }
  }

  lemma NextKeepsJob(s: State, e: Event, quotaPerUnit: real, t: ThreadId)
    requires t in s.threads
    ensures var s' := Next(s, e, quotaPerUnit);
      t in s'.threads && s'.threads[t].job == s.threads[t].job && s'.threads[t].key == s.threads[t].key
  {
    if e.Advance? && t == e.tid && !OnLocks(s.threads[t].pc) {
      SectionKeepsHolding(s.store, s.threads[t], e.storeOk, quotaPerUnit);
    }
  }

  /** An order that is new was just inserted. */
  lemma OrdersStay(s0: State, s: State, e: Event, quotaPerUnit: real, k: TradeNo)
    requires RowsInv(s0, s)
    ensures k in s.store.orders ==> k in Next(s, e, quotaPerUnit).store.orders
    ensures k !in s.store.orders && k in Next(s, e, quotaPerUnit).store.orders ==>
      Next(s, e, quotaPerUnit).store.orders[k].status == Pending
  {
    if k in s.store.orders && e.Advance? && e.tid in s.threads {
      ActionSettles(s0, s, e.tid, e.storeOk, quotaPerUnit, k);
    }
  }

  lemma {:induction false} StartOrdersStay(s0: State, es: seq<Event>, quotaPerUnit: real, k: TradeNo)
    requires Initial(s0) && k in s0.store.orders
    ensures k in Run(s0, es, quotaPerUnit).store.orders
  {
    if es != [] {
      StartOrdersStay(s0, es[..|es| - 1], quotaPerUnit, k);
      RunKeepsCredit(s0, es[..|es| - 1], quotaPerUnit);
      OrdersStay(s0, Run(s0, es[..|es| - 1], quotaPerUnit), es[|es| - 1], quotaPerUnit, k);
    }
  }

  /** A thread arrived for the order whose job may bring it into its state. */
  ghost predicate SettlerArrived(es: seq<Event>, k: TradeNo, o: TopUp) {
    exists i :: 0 <= i < |es| && es[i].Arrive? && es[i].key == k && MaySettle(es[i].job, o.provider, o.status)
  }

  /** Over every run: the terms of an order never change, and if it was settled, then a thread arrived for it
      whose job may do that. */
  lemma {:induction false} SettledByItsJob(s0: State, es: seq<Event>, quotaPerUnit: real, k: TradeNo)
    requires Initial(s0) && k in Run(s0, es, quotaPerUnit).store.orders
    ensures var o := Run(s0, es, quotaPerUnit).store.orders[k];
      && (k in s0.store.orders ==> SameTerms(s0.store.orders[k], o))
      && (o.status == Pending || (k in s0.store.orders && s0.store.orders[k].status != Pending)
          || SettlerArrived(es, k, o))
  {
    if es != [] {
      var prior := es[..|es| - 1];
      var s := Run(s0, prior, quotaPerUnit);
      RunKeepsCredit(s0, prior, quotaPerUnit);
      OrdersStay(s0, s, es[|es| - 1], quotaPerUnit, k);
      if k in s.store.orders {
        SettledByItsJob(s0, prior, quotaPerUnit, k);
        LastEventSettles(s0, es, quotaPerUnit, k);
        ArrivedBefore(es, k, s.store.orders[k]);
      } else if k in s0.store.orders {
        StartOrdersStay(s0, prior, quotaPerUnit, k);
      }
    }
  }

  lemma ArrivedBefore(es: seq<Event>, k: TradeNo, o: TopUp)
    requires es != []
    ensures SettlerArrived(es[..|es| - 1], k, o) ==> SettlerArrived(es, k, o)
  {
    var prior := es[..|es| - 1];
    if SettlerArrived(prior, k, o) {
      var i :| 0 <= i < |prior| && prior[i].Arrive? && prior[i].key == k
        && MaySettle(prior[i].job, o.provider, o.status);
      assert es[i] == prior[i];
    }
  }

  lemma LastEventSettles(s0: State, es: seq<Event>, quotaPerUnit: real, k: TradeNo)
    requires Initial(s0) && es != [] && k in Run(s0, es[..|es| - 1], quotaPerUnit).store.orders
    requires RowsInv(s0, Run(s0, es[..|es| - 1], quotaPerUnit))
    ensures k in Run(s0, es, quotaPerUnit).store.orders
    ensures var o := Run(s0, es[..|es| - 1], quotaPerUnit).store.orders[k];
      var o' := Run(s0, es, quotaPerUnit).store.orders[k];
      SameTerms(o, o') && (o' == o || SettlerArrived(es, k, o'))
  {
    var n := |es| - 1;
    var s, e := Run(s0, es[..n], quotaPerUnit), es[n];
    if e.Advance? && e.tid in s.threads {
      ActionSettles(s0, s, e.tid, e.storeOk, quotaPerUnit, k);
      var i := ThreadsArrived(s0, es[..n], quotaPerUnit, e.tid);
      assert es[i] == es[..n][i];
    }
  }

  // ---------------------------------------------------------------- one undisturbed thread

  function Iterate<S>(f: S -> S, s: S, n: nat): S {
    if n == 0 then s else f(Iterate(f, s, n - 1))
  }

  lemma {:induction false} IterateAdd<S>(f: S -> S, s: S, m: nat, n: nat)
    ensures Iterate(f, s, m + n) == Iterate(f, Iterate(f, s, m), n)
  {
    if n > 0 { IterateAdd(f, s, m, n - 1); }
  }

  /** The next action of thread `t`, which the store accepts. */
  function Action(t: ThreadId, quotaPerUnit: real): State -> State {
    s => Next(s, Advance(t, true), quotaPerUnit)
  }

  /** Thread `t` alone leads from one state to the other. */
  ghost predicate Alone(s: State, t: ThreadId, s': State, quotaPerUnit: real) {
    exists n: nat :: Iterate(Action(t, quotaPerUnit), s, n) == s'
  }

  lemma AloneOnce(s: State, t: ThreadId, quotaPerUnit: real)
    ensures Alone(s, t, Next(s, Advance(t, true), quotaPerUnit), quotaPerUnit)
  {
    var f := Action(t, quotaPerUnit);
    assert Iterate(f, s, 0) == s;
    assert Iterate(f, s, 1) == f(s);
  }

  lemma AloneThrough(s: State, t: ThreadId, s': State, s'': State, quotaPerUnit: real)
    requires Alone(s, t, s', quotaPerUnit) && Alone(s', t, s'', quotaPerUnit)
    ensures Alone(s, t, s'', quotaPerUnit)
  {
    var f := Action(t, quotaPerUnit);
    var m: nat :| Iterate(f, s, m) == s';
    var n: nat :| Iterate(f, s', n) == s'';
    IterateAdd(f, s, m, n);
  }

  lemma AloneThrice(s: State, t: ThreadId, s1: State, s2: State, s3: State, quotaPerUnit: real)
    requires Alone(s, t, s1, quotaPerUnit) && Alone(s1, t, s2, quotaPerUnit) && Alone(s2, t, s3, quotaPerUnit)
    ensures Alone(s, t, s3, quotaPerUnit)
  {
    AloneThrough(s, t, s1, s2, quotaPerUnit);
    AloneThrough(s, t, s2, s3, quotaPerUnit);
  }

  /** One action of a thread on the lock tables. */
  lemma OnTheLocks(s: State, t: ThreadId, quotaPerUnit: real) returns (s': State)
    requires t in s.threads && OnLocks(s.threads[t].pc)
    ensures Alone(s, t, s', quotaPerUnit)
    ensures var r := StepLocks(s.locks, t, s.threads[t]);
      s' == State(s.threads[t := r.thread], r.locks, s.store)
  {
    s' := Next(s, Advance(t, true), quotaPerUnit);
    AloneOnce(s, t, quotaPerUnit);
  }

  lemma InTheSection(s: State, t: ThreadId, quotaPerUnit: real) returns (s': State)
    requires t in s.threads && !OnLocks(s.threads[t].pc)
    ensures Alone(s, t, s', quotaPerUnit)
    ensures var r := StepStore(s.store, s.threads[t], true, quotaPerUnit);
      s' == State(s.threads[t := r.thread], s.locks, r.store)
  {
    s' := Next(s, Advance(t, true), quotaPerUnit);
    AloneOnce(s, t, quotaPerUnit);
  }

  /** Entering: the thread has a fresh mutex of its own, counted once. */
  lemma SoloEnters(s: State, t: ThreadId, quotaPerUnit: real) returns (s': State)
    requires t in s.threads && s.threads[t].pc.EnterCreate?
    requires s.locks.createLock == None && s.threads[t].key !in s.locks.entries
    ensures Alone(s, t, s', quotaPerUnit) && s'.store == s.store && t in s'.threads
    ensures s'.threads[t] == s.threads[t].(pc := LeaveCreate, mutex := s.locks.nextMutex)
    ensures s'.locks.entries == s.locks.entries[s.threads[t].key := s.locks.nextMutex]
    ensures s.locks.nextMutex in s'.locks.mutexes
      && s'.locks.mutexes[s.locks.nextMutex] == RefCountedMutex(false, 1)
  {
    var s1 := OnTheLocks(s, t, quotaPerUnit);
    var s2 := OnTheLocks(s1, t, quotaPerUnit);
    s' := OnTheLocks(s2, t, quotaPerUnit);
    AloneThrice(s, t, s1, s2, s', quotaPerUnit);
  }

  /** The lock half: the thread holds that mutex. */
  lemma SoloLocks(s: State, t: ThreadId, quotaPerUnit: real) returns (s': State)
    requires t in s.threads && s.threads[t].pc.EnterCreate?
    requires s.locks.createLock == None && s.threads[t].key !in s.locks.entries
    ensures Alone(s, t, s', quotaPerUnit) && s'.store == s.store && s'.locks.createLock == None && t in s'.threads
    ensures s'.threads[t] == s.threads[t].(pc := ReadOrder, mutex := s.locks.nextMutex)
    ensures s'.locks.entries == s.locks.entries[s.threads[t].key := s.locks.nextMutex]
    ensures s.locks.nextMutex in s'.locks.mutexes
      && s'.locks.mutexes[s.locks.nextMutex] == RefCountedMutex(true, 1)
  {
    var s1 := SoloEnters(s, t, quotaPerUnit);
    var s2 := OnTheLocks(s1, t, quotaPerUnit);
    s' := OnTheLocks(s2, t, quotaPerUnit);
    AloneThrice(s, t, s1, s2, s', quotaPerUnit);
  }

  lemma SoloUnlocksMutex(s: State, t: ThreadId, m: MutexId, quotaPerUnit: real) returns (s': State)
    requires t in s.threads && s.threads[t].pc.FindEntry? && s.locks.createLock == None
    requires s.threads[t].key in s.locks.entries && s.locks.entries[s.threads[t].key] == m
    requires m in s.locks.mutexes && s.locks.mutexes[m] == RefCountedMutex(true, 1)
    ensures Alone(s, t, s', quotaPerUnit) && s'.store == s.store && t in s'.threads
    ensures s'.threads[t] == s.threads[t].(pc := Release, mutex := m)
    ensures s'.locks == s.locks.(createLock := Some(t), mutexes := s.locks.mutexes[m := RefCountedMutex(false, 1)])
  {
    var s1 := OnTheLocks(s, t, quotaPerUnit);
    var s2 := OnTheLocks(s1, t, quotaPerUnit);
    s' := OnTheLocks(s2, t, quotaPerUnit);
    AloneThrice(s, t, s1, s2, s', quotaPerUnit);
  }

  lemma SoloReleases(s: State, t: ThreadId, m: MutexId, quotaPerUnit: real) returns (s': State)
    requires t in s.threads && s.threads[t].pc.Release? && s.threads[t].mutex == m
    requires m in s.locks.mutexes && s.locks.mutexes[m].refCount == 1
    ensures Alone(s, t, s', quotaPerUnit) && s'.store == s.store && t in s'.threads
    ensures s'.threads[t] == s.threads[t].(pc := DropEntry)
    ensures s'.locks.createLock == s.locks.createLock && s'.locks.entries == s.locks.entries
    ensures m in s'.locks.mutexes && s'.locks.mutexes[m].refCount == 0
  {
    s' := OnTheLocks(s, t, quotaPerUnit);
  }

  lemma SoloDrops(s: State, t: ThreadId, m: MutexId, quotaPerUnit: real) returns (s': State)
    requires t in s.threads && s.threads[t].pc.DropEntry? && s.threads[t].mutex == m
    requires m in s.locks.mutexes && s.locks.mutexes[m].refCount == 0
    ensures Alone(s, t, s', quotaPerUnit) && s'.store == s.store && t in s'.threads
    ensures s'.threads[t].pc.ExitCreate? && s'.locks.entries == s.locks.entries - {s.threads[t].key}
  {
    s' := OnTheLocks(s, t, quotaPerUnit);
  }

  lemma SoloExits(s: State, t: ThreadId, quotaPerUnit: real) returns (s': State)
    requires t in s.threads && s.threads[t].pc.ExitCreate?
    ensures Alone(s, t, s', quotaPerUnit) && s'.store == s.store && t in s'.threads && s'.threads[t].pc.Returned?
    ensures s'.locks.createLock == None && s'.locks.entries == s.locks.entries
  {
    s' := OnTheLocks(s, t, quotaPerUnit);
  }

  lemma SoloDropsEntry(s: State, t: ThreadId, m: MutexId, quotaPerUnit: real) returns (s': State)
    requires t in s.threads && s.threads[t].pc.Release? && s.threads[t].mutex == m && s.locks.createLock == Some(t)
    requires m in s.locks.mutexes && s.locks.mutexes[m].refCount == 1
    ensures Alone(s, t, s', quotaPerUnit) && s'.store == s.store && t in s'.threads && s'.threads[t].pc.Returned?
    ensures s'.locks.createLock == None && s'.locks.entries == s.locks.entries - {s.threads[t].key}
  {
    var s1 := SoloReleases(s, t, m, quotaPerUnit);
    var s2 := SoloDrops(s1, t, m, quotaPerUnit);
    s' := SoloExits(s2, t, quotaPerUnit);
    AloneThrice(s, t, s1, s2, s', quotaPerUnit);
  }

  /** The unlock half of the last user: the entry is gone. */
  lemma SoloUnlocks(s: State, t: ThreadId, m: MutexId, quotaPerUnit: real) returns (s': State)
    requires t in s.threads && s.threads[t].pc.FindEntry? && s.locks.createLock == None
    requires s.threads[t].key in s.locks.entries && s.locks.entries[s.threads[t].key] == m
    requires m in s.locks.mutexes && s.locks.mutexes[m] == RefCountedMutex(true, 1)
    ensures Alone(s, t, s', quotaPerUnit) && s'.store == s.store && t in s'.threads && s'.threads[t].pc.Returned?
    ensures s'.locks.createLock == None && s'.locks.entries == s.locks.entries - {s.threads[t].key}
  {
    var s1 := SoloUnlocksMutex(s, t, m, quotaPerUnit);
    s' := SoloDropsEntry(s1, t, m, quotaPerUnit);
    AloneThrough(s, t, s1, s', quotaPerUnit);
  }

  /** The thread arrives where nobody else deals with its order. */
  predicate Undisturbed(s: State, t: ThreadId, job: Job, k: TradeNo) {
    && t !in s.threads && s.locks.createLock == None && k !in s.locks.entries
    && (k != "" || job.EpayNotify?)
  }

  /** The thread arrives, returns, and leaves no lock behind. */
  ghost predicate Served(s: State, s': State, t: ThreadId, job: Job, k: TradeNo, quotaPerUnit: real) {
    && Alone(Next(s, Arrive(t, job, k), quotaPerUnit), t, s', quotaPerUnit)
    && t in s'.threads && s'.threads[t].pc.Returned?
    && s'.locks.entries == s.locks.entries && s'.locks.createLock == None
  }

  /** The state in which the section starts. */
  ghost predicate InSection(s: State, b: State, t: ThreadId, job: Job, k: TradeNo, quotaPerUnit: real) {
    && Alone(Next(s, Arrive(t, job, k), quotaPerUnit), t, b, quotaPerUnit)
    && t in b.threads && b.threads[t] == Thread(job, k, ReadOrder, s.locks.nextMutex, None)
    && b.store == s.store && OwnMutex(s, b, k)
  }

  predicate OwnMutex(s: State, b: State, k: TradeNo) {
    && b.locks.createLock == None && b.locks.entries == s.locks.entries[k := s.locks.nextMutex]
    && s.locks.nextMutex in b.locks.mutexes && b.locks.mutexes[s.locks.nextMutex] == RefCountedMutex(true, 1)
  }

  lemma SoloArrives(s: State, t: ThreadId, job: Job, k: TradeNo, quotaPerUnit: real) returns (b: State)
    requires Undisturbed(s, t, job, k)
    ensures InSection(s, b, t, job, k, quotaPerUnit)
  {
    var a := Next(s, Arrive(t, job, k), quotaPerUnit);
    b := SoloLocks(a, t, quotaPerUnit);
  }

  lemma SoloLeaves(s: State, c: State, t: ThreadId, job: Job, k: TradeNo, quotaPerUnit: real) returns (s': State)
    requires k !in s.locks.entries && Alone(Next(s, Arrive(t, job, k), quotaPerUnit), t, c, quotaPerUnit)
    requires t in c.threads && c.threads[t].pc.FindEntry? && c.threads[t].key == k && OwnMutex(s, c, k)
    ensures Served(s, s', t, job, k, quotaPerUnit) && s'.store == c.store
  {
    s' := SoloUnlocks(c, t, s.locks.nextMutex, quotaPerUnit);
    AloneThrough(Next(s, Arrive(t, job, k), quotaPerUnit), t, c, s', quotaPerUnit);
    assert s.locks.entries[k := s.locks.nextMutex] - {k} == s.locks.entries;
  }

  /** A section that is over after its first action. */
  lemma SoloOneAction(s: State, t: ThreadId, job: Job, k: TradeNo, quotaPerUnit: real) returns (s': State)
    requires Undisturbed(s, t, job, k)
    requires var th := Thread(job, k, ReadOrder, s.locks.nextMutex, None);
      StepReadOrder(s.store, th, true, quotaPerUnit).thread == Leave(th)
    ensures Served(s, s', t, job, k, quotaPerUnit)
    ensures s'.store ==
      StepReadOrder(s.store, Thread(job, k, ReadOrder, s.locks.nextMutex, None), true, quotaPerUnit).store
  {
    var b := SoloArrives(s, t, job, k, quotaPerUnit);
    var c := InTheSection(b, t, quotaPerUnit);
    AloneThrough(Next(s, Arrive(t, job, k), quotaPerUnit), t, b, c, quotaPerUnit);
    s' := SoloLeaves(s, c, t, job, k, quotaPerUnit);
  }

  /** The order is stored as `row` and its user, if there is one, gains `x` cut off. */
  ghost predicate Credits(d: Store, d': Store, k: TradeNo, row: TopUp, x: real) {
    && d'.orders == d.orders[k := row] && d'.credited == d.credited + [k] && d'.lost == d.lost
    && d'.quota.Keys == d.quota.Keys
    && forall u | u in d.quota ::
         if u == row.user then IsCutOff(d'.quota[u] - d.quota[u], x) else d'.quota[u] == d.quota[u]
  }

  lemma FulfilledCredits(d: Store, k: TradeNo, quotaPerUnit: real)
    requires k in d.orders
    ensures var o := d.orders[k];
      Credits(d, Fulfilled(d, k, quotaPerUnit), k, o.(status := Success), Worth(o, quotaPerUnit))
  {
    OrderIsWorth(d.orders[k], quotaPerUnit);
  }

  predicate PendingWith(d: Store, k: TradeNo, provider: Provider) {
    k in d.orders && d.orders[k].status == Pending && d.orders[k].provider == provider
  }

  /** A payment that Stripe reports: exactly a pending Stripe order that is no subscription succeeds, and its
      user gains the money of the order times the unit. */
  lemma SoloStripePaid(s: State, t: ThreadId, subscription: bool, k: TradeNo, quotaPerUnit: real) returns (s': State)
    requires Undisturbed(s, t, StripePaid(subscription), k)
    ensures Served(s, s', t, StripePaid(subscription), k, quotaPerUnit)
    ensures
      if PendingWith(s.store, k, Stripe) && !subscription then
        var o := s.store.orders[k]; Credits(s.store, s'.store, k, o.(status := Success), o.money * quotaPerUnit)
      else s'.store == s.store
  {
    s' := SoloOneAction(s, t, StripePaid(subscription), k, quotaPerUnit);
    if k in s.store.orders { FulfilledCredits(s.store, k, quotaPerUnit); }
  }

  /** A manual completion: exactly a pending order that is worth at least one unit of quota succeeds, and its
      user gains that. */
  lemma SoloAdminComplete(s: State, t: ThreadId, k: TradeNo, quotaPerUnit: real) returns (s': State)
    requires Undisturbed(s, t, AdminComplete, k)
    ensures Served(s, s', t, AdminComplete, k, quotaPerUnit)
    ensures Completes(s.store, s'.store, k, quotaPerUnit)
  {
    s' := SoloOneAction(s, t, AdminComplete, k, quotaPerUnit);
    CompletesByHand(s.store, Thread(AdminComplete, k, ReadOrder, s.locks.nextMutex, None), quotaPerUnit);
  }

  ghost predicate Completes(d: Store, d': Store, k: TradeNo, quotaPerUnit: real) {
    if k !in d.orders || d.orders[k].status != Pending then d' == d
    else
      var o := d.orders[k];
      if Worth(o, quotaPerUnit) < 1.0 then d' == d
      else Credits(d, d', k, o.(status := Success), Worth(o, quotaPerUnit))
  }

  lemma WorthOneUnit(o: TopUp, quotaPerUnit: real)
    ensures ManualQuota(o, quotaPerUnit) > 0 <==> Worth(o, quotaPerUnit) >= 1.0
  {
    OrderIsWorth(o, quotaPerUnit);
  }

  /** The section of a manual completion. */
  lemma CompletionSection(d: Store, th: Thread, quotaPerUnit: real)
    requires th.job.AdminComplete?
    ensures StepReadOrder(d, th, true, quotaPerUnit).store ==
      if th.key in d.orders && d.orders[th.key].status == Pending && ManualQuota(d.orders[th.key], quotaPerUnit) > 0
      then Fulfilled(d, th.key, quotaPerUnit) else d
  {
  }

  lemma CompletesByHand(d: Store, th: Thread, quotaPerUnit: real)
    requires th.job.AdminComplete?
    ensures Completes(d, StepReadOrder(d, th, true, quotaPerUnit).store, th.key, quotaPerUnit)
  {
    CompletionSection(d, th, quotaPerUnit);
    if th.key in d.orders {
      WorthOneUnit(d.orders[th.key], quotaPerUnit);
      FulfilledCredits(d, th.key, quotaPerUnit);
    }
  }

  /** An expired checkout: exactly a pending Stripe order that is no subscription expires, and nothing else
      changes. */
  lemma SoloStripeExpired(s: State, t: ThreadId, subscription: bool, k: TradeNo, quotaPerUnit: real)
    returns (s': State)
    requires Undisturbed(s, t, StripeExpired(subscription), k)
    ensures Served(s, s', t, StripeExpired(subscription), k, quotaPerUnit)
    ensures s'.store ==
      if PendingWith(s.store, k, Stripe) && !subscription
      then s.store.(orders := s.store.orders[k := s.store.orders[k].(status := Expired)]) else s.store
  {
    s' := SoloOneAction(s, t, StripeExpired(subscription), k, quotaPerUnit);
  }

  /** The thread has read its pending order and is about to save it. */
  lemma SoloReads(s: State, t: ThreadId, job: Job, k: TradeNo, quotaPerUnit: real) returns (c: State)
    requires Undisturbed(s, t, job, k)
    requires
      || (job.EpayNotify? && PendingWith(s.store, k, Epay))
      || (job.StripeAsyncFailed? && PendingWith(s.store, k, Stripe))
    ensures Alone(Next(s, Arrive(t, job, k), quotaPerUnit), t, c, quotaPerUnit)
    ensures OwnMutex(s, c, k) && c.store == s.store && t in c.threads
    ensures c.threads[t] == Thread(job, k, WriteOrder, s.locks.nextMutex, Some(s.store.orders[k]))
  {
    var b := SoloArrives(s, t, job, k, quotaPerUnit);
    c := InTheSection(b, t, quotaPerUnit);
    AloneThrough(Next(s, Arrive(t, job, k), quotaPerUnit), t, b, c, quotaPerUnit);
  }

  /** A failed asynchronous payment: exactly a pending Stripe order fails, and nothing else changes. */
  lemma SoloStripeFailed(s: State, t: ThreadId, k: TradeNo, quotaPerUnit: real) returns (s': State)
    requires Undisturbed(s, t, StripeAsyncFailed, k)
    ensures Served(s, s', t, StripeAsyncFailed, k, quotaPerUnit)
    ensures s'.store ==
      if PendingWith(s.store, k, Stripe)
      then s.store.(orders := s.store.orders[k := s.store.orders[k].(status := Failed)]) else s.store
  {
    if PendingWith(s.store, k, Stripe) {
      var c := SoloReads(s, t, StripeAsyncFailed, k, quotaPerUnit);
      var d := InTheSection(c, t, quotaPerUnit);
      AloneThrough(Next(s, Arrive(t, StripeAsyncFailed, k), quotaPerUnit), t, c, d, quotaPerUnit);
      s' := SoloLeaves(s, d, t, StripeAsyncFailed, k, quotaPerUnit);
    } else {
      s' := SoloOneAction(s, t, StripeAsyncFailed, k, quotaPerUnit);
    }
  }

  /** The order succeeded as `row`, but no credit went through. */
  predicate Loses(d: Store, d': Store, k: TradeNo, row: TopUp) {
    d' == d.(orders := d.orders[k := row], lost := d.lost + {k})
  }

  /** The order succeeds as `row`, and then the credit `x` goes through unless it is negative. */
  ghost predicate Pays(d: Store, d': Store, k: TradeNo, row: TopUp, x: real) {
    if x > -1.0 then Credits(d, d', k, row, x) else Loses(d, d', k, row)
  }

  /** What a success notification is to do: exactly a pending Epay order succeeds, paid as notified, and its
      user gains its amount times the unit; a negative credit is refused after the order has succeeded. */
  ghost predicate Notified(d: Store, d': Store, paidWith: string, k: TradeNo, quotaPerUnit: real) {
    if !PendingWith(d, k, Epay) then d' == d
    else
      var o := d.orders[k];
      Pays(d, d', k, o.(status := Success, paymentMethod := paidWith), AmountWorth(o, quotaPerUnit))
  }

  function AmountWorth(o: TopUp, quotaPerUnit: real): real {
    o.amount as real * quotaPerUnit
  }

  lemma AmountIsWorth(o: TopUp, quotaPerUnit: real)
    ensures IsCutOff(AmountQuota(o, quotaPerUnit), AmountWorth(o, quotaPerUnit))
    ensures AmountQuota(o, quotaPerUnit) >= 0 <==> AmountWorth(o, quotaPerUnit) > -1.0
  {
    TruncateCutsOff(AmountWorth(o, quotaPerUnit));
  }

  lemma SavesAndPays(d: Store, th: Thread, quotaPerUnit: real)
    requires th.job.EpayNotify? && th.pc.WriteOrder? && PendingWith(d, th.key, Epay)
    requires th.row == Some(d.orders[th.key])
    ensures var saved := StepWriteOrder(d, th, true);
      var paid := StepCreditUser(saved.store, saved.thread, true, quotaPerUnit);
      && saved.thread == th.(pc := CreditUser, row := saved.thread.row)
      && paid.thread == Leave(saved.thread)
      && Notified(d, paid.store, th.job.paidWith, th.key, quotaPerUnit)
  {
    var o := d.orders[th.key];
    var row := o.(status := Success, paymentMethod := th.job.paidWith);
    AmountIsWorth(o, quotaPerUnit);
    assert AmountQuota(row, quotaPerUnit) == AmountQuota(o, quotaPerUnit);
  }

  lemma SectionPays(c: State, t: ThreadId, quotaPerUnit: real) returns (e: State)
    requires t in c.threads && c.threads[t].job.EpayNotify? && c.threads[t].pc.WriteOrder?
    requires PendingWith(c.store, c.threads[t].key, Epay)
    requires c.threads[t].row == Some(c.store.orders[c.threads[t].key])
    ensures Alone(c, t, e, quotaPerUnit) && e.locks == c.locks && t in e.threads
    ensures e.threads[t].pc.FindEntry? && e.threads[t].key == c.threads[t].key
    ensures Notified(c.store, e.store, c.threads[t].job.paidWith, c.threads[t].key, quotaPerUnit)
  {
    SavesAndPays(c.store, c.threads[t], quotaPerUnit);
    var d := InTheSection(c, t, quotaPerUnit);
    e := InTheSection(d, t, quotaPerUnit);
    AloneThrough(c, t, d, e, quotaPerUnit);
  }

  lemma SoloPays(s: State, t: ThreadId, paidWith: string, k: TradeNo, quotaPerUnit: real) returns (e: State)
    requires Undisturbed(s, t, EpayNotify(paidWith), k) && PendingWith(s.store, k, Epay)
    ensures Alone(Next(s, Arrive(t, EpayNotify(paidWith), k), quotaPerUnit), t, e, quotaPerUnit)
    ensures t in e.threads && e.threads[t].pc.FindEntry? && e.threads[t].key == k && OwnMutex(s, e, k)
    ensures Notified(s.store, e.store, paidWith, k, quotaPerUnit)
  {
    var c := SoloReads(s, t, EpayNotify(paidWith), k, quotaPerUnit);
    e := SectionPays(c, t, quotaPerUnit);
    AloneThrough(Next(s, Arrive(t, EpayNotify(paidWith), k), quotaPerUnit), t, c, e, quotaPerUnit);
  }

  lemma SoloNotification(s: State, t: ThreadId, paidWith: string, k: TradeNo, quotaPerUnit: real)
    returns (s': State)
    requires Undisturbed(s, t, EpayNotify(paidWith), k)
    ensures Served(s, s', t, EpayNotify(paidWith), k, quotaPerUnit)
    ensures Notified(s.store, s'.store, paidWith, k, quotaPerUnit)
  {
    if PendingWith(s.store, k, Epay) {
      var e := SoloPays(s, t, paidWith, k, quotaPerUnit);
      s' := SoloLeaves(s, e, t, EpayNotify(paidWith), k, quotaPerUnit);
    } else {
      s' := SoloOneAction(s, t, EpayNotify(paidWith), k, quotaPerUnit);
    }
  }
}
