/** What every interleaving guarantees about orders and quota. */
module OrderCredit {
  import opened Basics
  import opened OrderLocks
  import opened OrderLockProofs
  import opened Sums

  type Orders = map<TradeNo, TopUp>

  ghost function Elements(xs: seq<TradeNo>): set<TradeNo> {
    set x | x in xs
  }

  predicate Succeeded(orders: Orders, k: TradeNo) {
    k in orders && orders[k].status == Success
  }

  /** What order k adds to the quota of user u once credited. */
  function Share(orders: Orders, u: int, quotaPerUnit: real): TradeNo -> int {
    k => if k in orders && orders[k].user == u then ManualQuota(orders[k], quotaPerUnit) else 0
  }

  /** A thread between its read and its credit still sees the stored row. */
  ghost predicate RowsInv(s0: State, s: State) {
    && (forall t | t in s.threads && s.threads[t].pc.WriteOrder? ::
          var th := s.threads[t];
          && th.key in s.store.orders && th.row == Some(s.store.orders[th.key])
          && s.store.orders[th.key].status == Pending && !OneTransaction(th.job)
          && s.store.orders[th.key].provider == if th.job.EpayNotify? then Epay else Stripe)
    && (forall t | t in s.threads && s.threads[t].pc.CreditUser? ::
          var th := s.threads[t];
          && th.key in s.store.orders && th.row == Some(s.store.orders[th.key])
          && s.store.orders[th.key].status == Success && s.store.orders[th.key].provider == Epay
          && th.key !in s.store.credited && th.key !in s.store.lost && !Succeeded(s0.store.orders, th.key))
  }

  /** Each credit belongs to one order that left pending during the run. */
  ghost predicate LedgerInv(s0: State, s: State) {
    && NoDuplicates(s.store.credited)
    && (forall k | k in s.store.credited ::
          Succeeded(s.store.orders, k) && !Succeeded(s0.store.orders, k) && k !in s.store.lost)
    && (forall k | k in s.store.lost :: Succeeded(s.store.orders, k) && !Succeeded(s0.store.orders, k))
  }

  /** Every success that is not yet credited or lost is about to be. */
  ghost predicate SettledInv(s0: State, s: State) {
    forall k | Succeeded(s.store.orders, k) ::
      || Succeeded(s0.store.orders, k) || k in s.store.credited || k in s.store.lost
      || exists t :: t in s.threads && s.threads[t].pc.CreditUser? && s.threads[t].key == k
  }

  ghost predicate QuotaInv(s0: State, s: State, quotaPerUnit: real) {
    && s.store.quota.Keys == s0.store.quota.Keys
    && forall u | u in s.store.quota ::
         s.store.quota[u] ==
           s0.store.quota[u] + SumOver(Elements(s.store.credited), Share(s.store.orders, u, quotaPerUnit))
  }

  ghost predicate CreditInv(s0: State, s: State, quotaPerUnit: real) {
    RowsInv(s0, s) && LedgerInv(s0, s) && SettledInv(s0, s) && QuotaInv(s0, s, quotaPerUnit)
  }

  // ---------------------------------------------------------------- mutual exclusion

  /** At most one thread is between locking and unlocking the mutex of an order. */
  ghost predicate Exclusive(s: State) {
    forall t, u | t in s.threads && u in s.threads && Holding(s.threads[t].pc) && Holding(s.threads[u].pc)
        && s.threads[t].key == s.threads[u].key :: t == u
  }

  lemma LocksExclude(s: State)
    requires LockInv(s)
    ensures Exclusive(s)
  {
    forall t | t in s.threads && Holding(s.threads[t].pc)
      ensures s.threads[t].key in s.locks.entries && s.locks.entries[s.threads[t].key] == s.threads[t].mutex
    {
      assert Attached(s.threads[t].pc);
    }
  }

  // ---------------------------------------------------------------- effect on the orders

  /** A store write by thread t touches only t's own order, which is pending. */
  ghost predicate WritesOwnPending(s: State, t: ThreadId, s': State)
    requires t in s.threads
  {
    var k := s.threads[t].key;
    s'.store.orders == s.store.orders
    || (k in s.store.orders && s.store.orders[k].status == Pending && k in s'.store.orders
        && s'.store.orders == s.store.orders[k := s'.store.orders[k]]
        && s'.store.orders[k].user == s.store.orders[k].user)
  }

  lemma SectionWritesOwnPending(s0: State, s: State, t: ThreadId, storeOk: bool, quotaPerUnit: real)
    requires RowsInv(s0, s) && t in s.threads && !OnLocks(s.threads[t].pc)
    ensures WritesOwnPending(s, t, Next(s, Advance(t, storeOk), quotaPerUnit))
  {
    if s.threads[t].pc.WriteOrder? {
      var th := s.threads[t];
      assert th.row == Some(s.store.orders[th.key]);
    }
  }

  /** Once an order has left pending, no event changes its row again. */
  lemma NextFreezesSettled(s0: State, s: State, e: Event, quotaPerUnit: real, k: TradeNo)
    requires RowsInv(s0, s)
    requires k in s.store.orders && s.store.orders[k].status != Pending
    ensures k in Next(s, e, quotaPerUnit).store.orders
    ensures Next(s, e, quotaPerUnit).store.orders[k] == s.store.orders[k]
  {
    match e
    case Arrive(_, _, _) =>
    case InsertOrder(_, _) =>
    case Advance(t, storeOk) =>
      if t in s.threads && !OnLocks(s.threads[t].pc) {
        SectionWritesOwnPending(s0, s, t, storeOk, quotaPerUnit);
      }
  }

  // ---------------------------------------------------------------- steps that leave the store alone

  /** Nothing in the store changes and nobody enters or leaves the credit step. */
  lemma QuietStep(s0: State, s: State, s': State, t: ThreadId, th: Thread, quotaPerUnit: real)
    requires CreditInv(s0, s, quotaPerUnit)
    requires s'.store == s.store && s'.threads == s.threads[t := th] && !th.pc.CreditUser?
    requires t in s.threads ==> !s.threads[t].pc.CreditUser?
    requires th.pc.WriteOrder? ==>
      && th.key in s.store.orders && th.row == Some(s.store.orders[th.key])
      && s.store.orders[th.key].status == Pending && !OneTransaction(th.job)
      && s.store.orders[th.key].provider == if th.job.EpayNotify? then Epay else Stripe
    ensures CreditInv(s0, s', quotaPerUnit)
  {
    forall k | Succeeded(s'.store.orders, k)
      ensures
        || Succeeded(s0.store.orders, k) || k in s'.store.credited || k in s'.store.lost
        || exists u :: u in s'.threads && s'.threads[u].pc.CreditUser? && s'.threads[u].key == k
    {
      if !Succeeded(s0.store.orders, k) && k !in s.store.credited && k !in s.store.lost {
        var u :| u in s.threads && s.threads[u].pc.CreditUser? && s.threads[u].key == k;
        assert s'.threads[u] == s.threads[u];
      }
    }
  }

  // ---------------------------------------------------------------- the quota sums

  lemma ShareFrame(orders: Orders, orders': Orders, ks: set<TradeNo>, u: int, quotaPerUnit: real)
    requires forall k | k in ks && k in orders :: k in orders' && orders'[k] == orders[k]
    requires forall k | k in ks :: k in orders
    ensures SumOver(ks, Share(orders', u, quotaPerUnit)) == SumOver(ks, Share(orders, u, quotaPerUnit))
  {
    SumOverFrame(ks, Share(orders', u, quotaPerUnit), Share(orders, u, quotaPerUnit));
  }

  /** Crediting one more order moves exactly its user's quota, by its worth. */
  lemma QuotaAfterCredit(s0: State, d: Store, d': Store, k: TradeNo, quotaPerUnit: real)
    requires k !in d.credited && k in d'.orders && d'.credited == d.credited + [k]
    requires forall j | j in d.credited :: j in d.orders && j in d'.orders && d'.orders[j] == d.orders[j]
    requires d.quota.Keys == s0.store.quota.Keys
    requires forall u | u in d.quota ::
      d.quota[u] == s0.store.quota[u] + SumOver(Elements(d.credited), Share(d.orders, u, quotaPerUnit))
    requires d'.quota == AddQuota(d.quota, d'.orders[k].user, ManualQuota(d'.orders[k], quotaPerUnit))
    ensures d'.quota.Keys == s0.store.quota.Keys
    ensures forall u | u in d'.quota ::
      d'.quota[u] == s0.store.quota[u] + SumOver(Elements(d'.credited), Share(d'.orders, u, quotaPerUnit))
  {
    assert Elements(d'.credited) == Elements(d.credited) + {k};
    forall u | u in d'.quota
      ensures d'.quota[u] == s0.store.quota[u] + SumOver(Elements(d'.credited), Share(d'.orders, u, quotaPerUnit))
    {
      SumOverAdd(Elements(d.credited), k, Share(d'.orders, u, quotaPerUnit));
      ShareFrame(d.orders, d'.orders, Elements(d.credited), u, quotaPerUnit);
    }
  }

  /** Writing a row that is not in the ledger moves no quota. */
  lemma QuotaAfterWrite(s0: State, d: Store, d': Store, quotaPerUnit: real)
    requires d'.credited == d.credited && d'.quota == d.quota && d.quota.Keys == s0.store.quota.Keys
    requires forall j | j in d.credited :: j in d.orders && j in d'.orders && d'.orders[j] == d.orders[j]
    requires forall u | u in d.quota ::
      d.quota[u] == s0.store.quota[u] + SumOver(Elements(d.credited), Share(d.orders, u, quotaPerUnit))
    ensures forall u | u in d'.quota ::
      d'.quota[u] == s0.store.quota[u] + SumOver(Elements(d'.credited), Share(d'.orders, u, quotaPerUnit))
  {
    forall u | u in d'.quota
      ensures d'.quota[u] == s0.store.quota[u] + SumOver(Elements(d'.credited), Share(d'.orders, u, quotaPerUnit))
    {
      ShareFrame(d.orders, d'.orders, Elements(d.credited), u, quotaPerUnit);
    }
  }

  lemma LedgerAfterCredit(s0: State, s: State, s': State, k: TradeNo)
    requires LedgerInv(s0, s) && !Succeeded(s0.store.orders, k) && k !in s.store.lost && k !in s.store.credited
    requires s'.store.credited == s.store.credited + [k] && s'.store.lost == s.store.lost
    requires Succeeded(s'.store.orders, k)
    requires forall j | j != k && Succeeded(s.store.orders, j) :: Succeeded(s'.store.orders, j)
    ensures LedgerInv(s0, s')
  {
  }

  // ---------------------------------------------------------------- steps that write an order

  /** A holder writes its pending order: the rows other threads rely on are other orders. */
  lemma WriteKeepsRows(s0: State, s: State, s': State, t: ThreadId, o: TopUp)
    requires Exclusive(s) && RowsInv(s0, s) && t in s.threads && Holding(s.threads[t].pc)
    requires s'.threads.Keys == s.threads.Keys && forall u | u in s.threads && u != t :: s'.threads[u] == s.threads[u]
    requires s'.store.orders == s.store.orders[s.threads[t].key := o]
    requires forall k | k in s'.store.credited && k !in s.store.credited :: k == s.threads[t].key
    requires s'.store.lost == s.store.lost
    requires !s'.threads[t].pc.WriteOrder?
    requires s'.threads[t].pc.CreditUser? ==>
      && s'.threads[t].key == s.threads[t].key && s'.threads[t].row == Some(o)
      && o.status == Success && o.provider == Epay
      && s.threads[t].key !in s'.store.credited && s.threads[t].key !in s.store.lost
      && !Succeeded(s0.store.orders, s.threads[t].key)
    ensures RowsInv(s0, s')
  {
    assert forall u | u in s.threads && u != t && Holding(s.threads[u].pc) :: s.threads[u].key != s.threads[t].key;
  }

  lemma WriteKeepsSettled(s0: State, s: State, s': State, t: ThreadId, o: TopUp)
    requires SettledInv(s0, s) && t in s.threads && !s.threads[t].pc.CreditUser?
    requires s'.threads.Keys == s.threads.Keys && forall u | u in s.threads && u != t :: s'.threads[u] == s.threads[u]
    requires s'.store.orders == s.store.orders[s.threads[t].key := o]
    requires forall k | k in s.store.credited :: k in s'.store.credited
    requires s'.store.lost == s.store.lost
    requires o.status == Success ==>
      || s.threads[t].key in s'.store.credited
      || (s'.threads[t].pc.CreditUser? && s'.threads[t].key == s.threads[t].key)
    ensures SettledInv(s0, s')
  {
    forall k | Succeeded(s'.store.orders, k)
      ensures
        || Succeeded(s0.store.orders, k) || k in s'.store.credited || k in s'.store.lost
        || exists u :: u in s'.threads && s'.threads[u].pc.CreditUser? && s'.threads[u].key == k
    {
      if k == s.threads[t].key {
        if k !in s'.store.credited { assert t in s'.threads && s'.threads[t].pc.CreditUser?; }
      } else if !Succeeded(s0.store.orders, k) && k !in s.store.credited && k !in s.store.lost {
        var u :| u in s.threads && s.threads[u].pc.CreditUser? && s.threads[u].key == k;
        assert s'.threads[u] == s.threads[u];
      }
    }
  }

  /** A pending order was not a success at the start either, since successes are frozen. */
  ghost predicate StartFrozen(s0: State, s: State) {
    forall k | Succeeded(s0.store.orders, k) :: Succeeded(s.store.orders, k)
  }

  /** A section that settles and credits its order in one transaction. */
  lemma FulfilStep(s0: State, s: State, s': State, t: ThreadId, quotaPerUnit: real)
    requires Exclusive(s) && CreditInv(s0, s, quotaPerUnit) && StartFrozen(s0, s)
    requires t in s.threads && s.threads[t].pc.ReadOrder?
    requires s.threads[t].key in s.store.orders && s.store.orders[s.threads[t].key].status == Pending
    requires s'.store == Fulfilled(s.store, s.threads[t].key, quotaPerUnit)
    requires s'.threads == s.threads[t := Leave(s.threads[t])]
    ensures CreditInv(s0, s', quotaPerUnit)
  {
    var k := s.threads[t].key;
    var o := s'.store.orders[k];
    WriteKeepsRows(s0, s, s', t, o);
    WriteKeepsSettled(s0, s, s', t, o);
    LedgerAfterCredit(s0, s, s', k);
    assert o == s.store.orders[k].(status := Success);
    assert ManualQuota(o, quotaPerUnit) == ManualQuota(s.store.orders[k], quotaPerUnit);
    QuotaAfterCredit(s0, s.store, s'.store, k, quotaPerUnit);
  }

  /** A section that expires its order in one transaction. */
  lemma ExpireStep(s0: State, s: State, s': State, t: ThreadId, quotaPerUnit: real)
    requires Exclusive(s) && CreditInv(s0, s, quotaPerUnit) && StartFrozen(s0, s)
    requires t in s.threads && s.threads[t].pc.ReadOrder?
    requires s.threads[t].key in s.store.orders && s.store.orders[s.threads[t].key].status == Pending
    requires var k := s.threads[t].key;
      s'.store == s.store.(orders := s.store.orders[k := s.store.orders[k].(status := Expired)])
    requires s'.threads == s.threads[t := Leave(s.threads[t])]
    ensures CreditInv(s0, s', quotaPerUnit)
  {
    var o := s'.store.orders[s.threads[t].key];
    WriteKeepsRows(s0, s, s', t, o);
    WriteKeepsSettled(s0, s, s', t, o);
    QuotaAfterWrite(s0, s.store, s'.store, quotaPerUnit);
  }

  lemma TransactionStep(s0: State, s: State, s': State, t: ThreadId, storeOk: bool, quotaPerUnit: real)
    requires Exclusive(s) && CreditInv(s0, s, quotaPerUnit) && StartFrozen(s0, s)
    requires t in s.threads && s.threads[t].pc.ReadOrder?
    requires s' == Next(s, Advance(t, storeOk), quotaPerUnit) && s'.store != s.store
    ensures CreditInv(s0, s', quotaPerUnit)
  {
    if s.threads[t].job.StripeExpired? {
      ExpireStep(s0, s, s', t, quotaPerUnit);
    } else {
      FulfilStep(s0, s, s', t, quotaPerUnit);
    }
  }

  lemma WriteStep(s0: State, s: State, s': State, t: ThreadId, storeOk: bool, quotaPerUnit: real)
    requires Exclusive(s) && CreditInv(s0, s, quotaPerUnit) && StartFrozen(s0, s)
    requires t in s.threads && s.threads[t].pc.WriteOrder?
    requires storeOk && s' == Next(s, Advance(t, storeOk), quotaPerUnit)
    ensures CreditInv(s0, s', quotaPerUnit)
  {
    var th := s.threads[t];
    var o := SavedRow(th.job, th.row.value);
    WriteKeepsRows(s0, s, s', t, o);
    WriteKeepsSettled(s0, s, s', t, o);
    QuotaAfterWrite(s0, s.store, s'.store, quotaPerUnit);
  }

  // ---------------------------------------------------------------- the credit step

  lemma CreditKeepsRows(s0: State, s: State, s': State, t: ThreadId)
    requires Exclusive(s) && RowsInv(s0, s) && t in s.threads && Holding(s.threads[t].pc)
    requires s'.threads.Keys == s.threads.Keys && forall u | u in s.threads && u != t :: s'.threads[u] == s.threads[u]
    requires s'.store.orders == s.store.orders && s'.threads[t].pc.FindEntry?
    requires forall k | k in s'.store.credited && k !in s.store.credited :: k == s.threads[t].key
    requires forall k | k in s'.store.lost && k !in s.store.lost :: k == s.threads[t].key
    ensures RowsInv(s0, s')
  {
    assert forall u | u in s.threads && u != t && Holding(s.threads[u].pc) :: s.threads[u].key != s.threads[t].key;
  }

  lemma CreditKeepsSettled(s0: State, s: State, s': State, t: ThreadId)
    requires SettledInv(s0, s) && t in s.threads
    requires s'.threads.Keys == s.threads.Keys && forall u | u in s.threads && u != t :: s'.threads[u] == s.threads[u]
    requires s'.store.orders == s.store.orders
    requires forall k | k in s.store.credited :: k in s'.store.credited
    requires s.store.lost <= s'.store.lost
    requires s.threads[t].key in s'.store.credited || s.threads[t].key in s'.store.lost
    ensures SettledInv(s0, s')
  {
    forall k | Succeeded(s'.store.orders, k)
      ensures
        || Succeeded(s0.store.orders, k) || k in s'.store.credited || k in s'.store.lost
        || exists u :: u in s'.threads && s'.threads[u].pc.CreditUser? && s'.threads[u].key == k
    {
      if !Succeeded(s0.store.orders, k) && k !in s'.store.credited && k !in s'.store.lost {
        var u :| u in s.threads && s.threads[u].pc.CreditUser? && s.threads[u].key == k;
        assert s'.threads[u] == s.threads[u];
      }
    }
  }

  lemma CreditStep(s0: State, s: State, s': State, t: ThreadId, storeOk: bool, quotaPerUnit: real)
    requires Exclusive(s) && CreditInv(s0, s, quotaPerUnit) && t in s.threads && s.threads[t].pc.CreditUser?
    requires s' == Next(s, Advance(t, storeOk), quotaPerUnit)
    ensures CreditInv(s0, s', quotaPerUnit)
  {
    CreditKeepsRows(s0, s, s', t);
    CreditKeepsSettled(s0, s, s', t);
    if s'.store.credited != s.store.credited {
      LedgerAfterCredit(s0, s, s', s.threads[t].key);
      QuotaAfterCredit(s0, s.store, s'.store, s.threads[t].key, quotaPerUnit);
    } else {
      QuotaAfterWrite(s0, s.store, s'.store, quotaPerUnit);
    }
  }

  // ---------------------------------------------------------------- every event, every run

  lemma LocksStep(s0: State, s: State, t: ThreadId, storeOk: bool, quotaPerUnit: real)
    requires CreditInv(s0, s, quotaPerUnit) && t in s.threads && OnLocks(s.threads[t].pc)
    ensures CreditInv(s0, Next(s, Advance(t, storeOk), quotaPerUnit), quotaPerUnit)
  {
    var r := StepLocks(s.locks, t, s.threads[t]);
    assert !r.thread.pc.WriteOrder? && !r.thread.pc.CreditUser?;
    QuietStep(s0, s, Next(s, Advance(t, storeOk), quotaPerUnit), t, r.thread, quotaPerUnit);
  }

  lemma SectionStep(s0: State, s: State, t: ThreadId, storeOk: bool, quotaPerUnit: real)
    requires Exclusive(s) && CreditInv(s0, s, quotaPerUnit) && StartFrozen(s0, s)
    requires t in s.threads && !OnLocks(s.threads[t].pc)
    ensures CreditInv(s0, Next(s, Advance(t, storeOk), quotaPerUnit), quotaPerUnit)
  {
    var s' := Next(s, Advance(t, storeOk), quotaPerUnit);
    var th := s.threads[t];
    match th.pc
    case ReadOrder =>
      if s'.store == s.store {
        QuietStep(s0, s, s', t, StepReadOrder(s.store, th, storeOk, quotaPerUnit).thread, quotaPerUnit);
      } else {
        TransactionStep(s0, s, s', t, storeOk, quotaPerUnit);
      }
    case WriteOrder =>
      if storeOk {
        WriteStep(s0, s, s', t, storeOk, quotaPerUnit);
      } else {
        QuietStep(s0, s, s', t, Leave(th), quotaPerUnit);
      }
    case CreditUser => CreditStep(s0, s, s', t, storeOk, quotaPerUnit);
  }

  lemma InsertStep(s0: State, s: State, key: TradeNo, order: TopUp, quotaPerUnit: real)
    requires CreditInv(s0, s, quotaPerUnit) && key !in s.store.orders && order.status == Pending
    ensures CreditInv(s0, Next(s, InsertOrder(key, order), quotaPerUnit), quotaPerUnit)
  {
    var s' := Next(s, InsertOrder(key, order), quotaPerUnit);
    QuotaAfterWrite(s0, s.store, s'.store, quotaPerUnit);
    assert forall k | Succeeded(s'.store.orders, k) :: Succeeded(s.store.orders, k);
  }

  lemma NextKeepsCredit(s0: State, s: State, e: Event, quotaPerUnit: real)
    requires Exclusive(s) && CreditInv(s0, s, quotaPerUnit) && StartFrozen(s0, s)
    ensures CreditInv(s0, Next(s, e, quotaPerUnit), quotaPerUnit)
  {
    match e
    case Arrive(t, job, key) =>
      if t !in s.threads {
        var s' := Next(s, e, quotaPerUnit);
        if s' != s { QuietStep(s0, s, s', t, Thread(job, key, EnterCreate, 0, None), quotaPerUnit); }
      }
    case InsertOrder(key, order) =>
      if key !in s.store.orders && order.status == Pending { InsertStep(s0, s, key, order, quotaPerUnit); }
    case Advance(t, storeOk) =>
      if t in s.threads {
        if OnLocks(s.threads[t].pc) {
          LocksStep(s0, s, t, storeOk, quotaPerUnit);
        } else {
          SectionStep(s0, s, t, storeOk, quotaPerUnit);
        }
      }
  }

  lemma {:induction false} RunKeepsCredit(s0: State, es: seq<Event>, quotaPerUnit: real)
    requires Initial(s0)
    ensures CreditInv(s0, Run(s0, es, quotaPerUnit), quotaPerUnit)
    ensures StartFrozen(s0, Run(s0, es, quotaPerUnit))
  {
    if es == [] {
      assert Elements(s0.store.credited) == {};
    } else {
      var s := Run(s0, es[..|es| - 1], quotaPerUnit);
      RunKeepsCredit(s0, es[..|es| - 1], quotaPerUnit);
      RunKeepsLocks(s0, es[..|es| - 1], quotaPerUnit);
      LocksExclude(s);
      NextKeepsCredit(s0, s, es[|es| - 1], quotaPerUnit);
      forall k | Succeeded(s0.store.orders, k) ensures Succeeded(Run(s0, es, quotaPerUnit).store.orders, k) {
        NextFreezesSettled(s0, s, es[|es| - 1], quotaPerUnit, k);
      }
    }
  }

  // ---------------------------------------------------------------- main results

  /** In every reachable state: at most one thread holds an order's lock; all threads counted for an
      order share one mutex whose refCount is their number; outside createLock an order has an entry
      exactly while that number is positive; a holder about to unlock finds its own mutex, locked. */
  lemma OrderLockSafety(s0: State, es: seq<Event>, quotaPerUnit: real, k: TradeNo)
    requires Initial(s0)
    ensures var s := Run(s0, es, quotaPerUnit);
      var counted := set t | t in s.threads && Counted(s.threads[t].pc) && s.threads[t].key == k;
      && (forall t, u | t in s.threads && u in s.threads && Holding(s.threads[t].pc) && Holding(s.threads[u].pc)
            && s.threads[t].key == s.threads[u].key :: t == u)
      && (k in s.locks.entries ==>
            && s.locks.entries[k] in s.locks.mutexes
            && s.locks.mutexes[s.locks.entries[k]].refCount == |counted|
            && forall t | t in counted :: s.threads[t].mutex == s.locks.entries[k])
      && (counted != {} ==> k in s.locks.entries)
      && (s.locks.createLock == None && k in s.locks.entries ==> counted != {})
      && (forall t | t in s.threads && Holding(s.threads[t].pc) ::
            && s.threads[t].key in s.locks.entries && s.locks.entries[s.threads[t].key] == s.threads[t].mutex
            && s.threads[t].mutex in s.locks.mutexes && s.locks.mutexes[s.threads[t].mutex].locked)
      && (forall t | t in s.threads :: !s.threads[t].pc.ReturnedNotFound?)
      && !s.locks.crashed
  {
    var s := Run(s0, es, quotaPerUnit);
    RunKeepsLocks(s0, es, quotaPerUnit);
    LocksExclude(s);
    var counted := set t | t in s.threads && Counted(s.threads[t].pc) && s.threads[t].key == k;
    CountedShareEntry(s, k);
    forall t | t in s.threads && Holding(s.threads[t].pc)
      ensures s.threads[t].key in s.locks.entries && s.locks.entries[s.threads[t].key] == s.threads[t].mutex
    {
      assert Attached(s.threads[t].pc);
    }
  }

  lemma CountedShareEntry(s: State, k: TradeNo)
    requires LockInv(s)
    ensures var counted := set t | t in s.threads && Counted(s.threads[t].pc) && s.threads[t].key == k;
      && (counted != {} ==> k in s.locks.entries)
      && (k in s.locks.entries ==> CountedOn(s.threads, s.locks.entries[k]) == counted)
  {
    var counted := set t | t in s.threads && Counted(s.threads[t].pc) && s.threads[t].key == k;
    forall t | t in s.threads && Counted(s.threads[t].pc)
      ensures s.threads[t].key in s.locks.entries && s.locks.entries[s.threads[t].key] == s.threads[t].mutex
    {
      assert Attached(s.threads[t].pc);
    }
    if counted != {} {
      var t :| t in counted;
    }
  }

  /** An order leaves pending at most once: from then on no continuation of the run, whatever the
      threads do, changes its row. */
  lemma {:induction false} LeavesPendingOnce(s0: State, es: seq<Event>, more: seq<Event>, quotaPerUnit: real,
                                             k: TradeNo)
    requires Initial(s0) && k in Run(s0, es, quotaPerUnit).store.orders
    requires Run(s0, es, quotaPerUnit).store.orders[k].status != Pending
    ensures k in Run(s0, es + more, quotaPerUnit).store.orders
    ensures Run(s0, es + more, quotaPerUnit).store.orders[k] == Run(s0, es, quotaPerUnit).store.orders[k]
    decreases |more|
  {
    if more == [] {
      assert es + more == es;
    } else {
      var prior := es + more[..|more| - 1];
      LeavesPendingOnce(s0, es, more[..|more| - 1], quotaPerUnit, k);
      RunKeepsCredit(s0, prior, quotaPerUnit);
      assert (es + more)[..|es + more| - 1] == prior;
      NextFreezesSettled(s0, Run(s0, prior, quotaPerUnit), more[|more| - 1], quotaPerUnit, k);
    }
  }

  /** An order is credited at most once, and only if it left pending for success during the run. */
  lemma CreditedAtMostOnce(s0: State, es: seq<Event>, quotaPerUnit: real)
    requires Initial(s0)
    ensures var d := Run(s0, es, quotaPerUnit).store;
      && NoDuplicates(d.credited)
      && forall k | k in d.credited :: Succeeded(d.orders, k) && !Succeeded(s0.store.orders, k)
  {
    RunKeepsCredit(s0, es, quotaPerUnit);
  }

  /** When no thread is between saving an order and crediting it and no credit failed, every user has
      gained exactly the worth of their orders that succeeded during the run. */
  lemma QuiescentCreditIsExact(s0: State, es: seq<Event>, quotaPerUnit: real, u: int)
    requires Initial(s0) && u in s0.store.quota
    requires var s := Run(s0, es, quotaPerUnit);
      s.store.lost == {} && forall t | t in s.threads :: !s.threads[t].pc.CreditUser?
    ensures var d := Run(s0, es, quotaPerUnit).store;
      var successes := set k | k in d.orders && Succeeded(d.orders, k) && !Succeeded(s0.store.orders, k);
      u in d.quota && d.quota[u] == s0.store.quota[u] + SumOver(successes, Share(d.orders, u, quotaPerUnit))
  {
    RunKeepsCredit(s0, es, quotaPerUnit);
    var d := Run(s0, es, quotaPerUnit).store;
    var successes := set k | k in d.orders && Succeeded(d.orders, k) && !Succeeded(s0.store.orders, k);
    assert Elements(d.credited) == successes;
  }
}
