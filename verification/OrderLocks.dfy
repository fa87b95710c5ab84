/**
  The per-order lock of the top-up handlers (a table of reference-counted mutexes behind one
  creation lock) and the crediting done under it, as a state machine over threads.

  Each atomic action of LockOrder, UnlockOrder and the locked sections is one program counter.  A run is
  any sequence of events: threads arrive and advance in any order, orders are inserted at any time, and
  each store operation may succeed or fail.
*/
module OrderLocks {
  import opened Basics

  type TradeNo = string
  type ThreadId = nat
  type MutexId = nat

  datatype Provider = Epay | Stripe | OtherProvider
  datatype Status = Pending | Success | Failed | Expired

  datatype TopUp = TopUp(user: int, amount: int, money: real, paymentMethod: string,
                         provider: Provider, status: Status)

  /** What a thread does between LockOrder and UnlockOrder. */
  datatype Job =
    | EpayNotify(paidWith: string)
    | StripeAsyncFailed
    // the other sections are one database transaction; a subscription order is handled elsewhere
    | AdminComplete
    | StripePaid(subscription: bool)
    | StripeExpired(subscription: bool)

  predicate OneTransaction(job: Job) {
    job.AdminComplete? || job.StripePaid? || job.StripeExpired?
  }

  datatype Pc =
    // LockOrder
    | EnterCreate | LoadOrStore | Retain | LeaveCreate | LockMutex
    // the locked section
    | ReadOrder | WriteOrder | CreditUser
    // UnlockOrder
    | FindEntry | UnlockMutex | ReenterCreate | Release | DropEntry | ExitCreate
    // returned normally, or through UnlockOrder's early return
    | Returned | ReturnedNotFound

  datatype Thread = Thread(job: Job, key: TradeNo, pc: Pc, mutex: MutexId, row: Option<TopUp>)

  datatype RefCountedMutex = RefCountedMutex(locked: bool, refCount: int)

  datatype Locks = Locks(
    createLock: Option<ThreadId>,
    entries: map<TradeNo, MutexId>,
    mutexes: map<MutexId, RefCountedMutex>,
    nextMutex: MutexId,
    // unlocking an unlocked mutex ends the process
    crashed: bool)

  datatype Store = Store(
    orders: map<TradeNo, TopUp>,
    quota: map<int, int>,
    // history: every credit that reached a user, and every order whose credit failed
    credited: seq<TradeNo>,
    lost: set<TradeNo>)

  datatype State = State(threads: map<ThreadId, Thread>, locks: Locks, store: Store)

  datatype Event =
    | Arrive(tid: ThreadId, job: Job, key: TradeNo)
    | InsertOrder(key: TradeNo, order: TopUp)
    | Advance(tid: ThreadId, storeOk: bool)

  // ---------------------------------------------------------------- LockOrder and UnlockOrder

  /** One action of a thread on the lock tables. */
  datatype LockStep = LockStep(thread: Thread, locks: Locks)

  function StepLoadOrStore(l: Locks, th: Thread): LockStep {
    if th.key in l.entries then LockStep(th.(pc := Retain, mutex := l.entries[th.key]), l)
    else
      LockStep(th.(pc := Retain, mutex := l.nextMutex),
               l.(entries := l.entries[th.key := l.nextMutex],
                  mutexes := l.mutexes[l.nextMutex := RefCountedMutex(false, 0)],
                  nextMutex := l.nextMutex + 1))
  }

  function StepRetain(l: Locks, th: Thread): LockStep {
    if th.mutex !in l.mutexes then LockStep(th, l)
    else
      var m := l.mutexes[th.mutex];
      LockStep(th.(pc := LeaveCreate), l.(mutexes := l.mutexes[th.mutex := m.(refCount := m.refCount + 1)]))
  }

  function StepLockMutex(l: Locks, th: Thread): LockStep {
    if th.mutex !in l.mutexes || l.mutexes[th.mutex].locked then LockStep(th, l)
    else LockStep(th.(pc := ReadOrder),
                  l.(mutexes := l.mutexes[th.mutex := l.mutexes[th.mutex].(locked := true)]))
  }

  function StepFindEntry(l: Locks, th: Thread): LockStep {
    if th.key !in l.entries then LockStep(th.(pc := ReturnedNotFound), l)
    else LockStep(th.(pc := UnlockMutex, mutex := l.entries[th.key]), l)
  }

  function StepUnlockMutex(l: Locks, th: Thread): LockStep {
    if th.mutex !in l.mutexes || !l.mutexes[th.mutex].locked then LockStep(th, l.(crashed := true))
    else LockStep(th.(pc := ReenterCreate),
                  l.(mutexes := l.mutexes[th.mutex := l.mutexes[th.mutex].(locked := false)]))
  }

  function StepRelease(l: Locks, th: Thread): LockStep {
    if th.mutex !in l.mutexes then LockStep(th, l)
    else
      var m := l.mutexes[th.mutex];
      LockStep(th.(pc := DropEntry), l.(mutexes := l.mutexes[th.mutex := m.(refCount := m.refCount - 1)]))
  }

  function StepDropEntry(l: Locks, th: Thread): LockStep {
    if th.mutex in l.mutexes && l.mutexes[th.mutex].refCount == 0 then
      LockStep(th.(pc := ExitCreate), l.(entries := l.entries - {th.key}))
    else LockStep(th.(pc := ExitCreate), l)
  }

  predicate OnLocks(pc: Pc) {
    !(pc.ReadOrder? || pc.WriteOrder? || pc.CreditUser?)
  }

  /** Blocking on a taken lock leaves everything as it is. */
  function StepLocks(l: Locks, t: ThreadId, th: Thread): LockStep
    requires OnLocks(th.pc)
  {
    match th.pc
    case EnterCreate =>
      if l.createLock.Some? then LockStep(th, l) else LockStep(th.(pc := LoadOrStore), l.(createLock := Some(t)))
    case LoadOrStore => StepLoadOrStore(l, th)
    case Retain => StepRetain(l, th)
    case LeaveCreate => LockStep(th.(pc := LockMutex), l.(createLock := None))
    case LockMutex => StepLockMutex(l, th)
    case FindEntry => StepFindEntry(l, th)
    case UnlockMutex => StepUnlockMutex(l, th)
    case ReenterCreate =>
      if l.createLock.Some? then LockStep(th, l) else LockStep(th.(pc := Release), l.(createLock := Some(t)))
    case Release => StepRelease(l, th)
    case DropEntry => StepDropEntry(l, th)
    case ExitCreate => LockStep(th.(pc := Returned), l.(createLock := None))
    case Returned => LockStep(th, l)
    case ReturnedNotFound => LockStep(th, l)
  }

  // ---------------------------------------------------------------- the locked sections

  /** One action of a thread on the store. */
  datatype StoreStep = StoreStep(thread: Thread, store: Store)

  /** The quota that a number of units buys. */
  function UnitsQuota(units: real, quotaPerUnit: real): int {
    Truncate(units * quotaPerUnit)
  }

  /** The quota bought by an order handled through its Amount. */
  function AmountQuota(o: TopUp, quotaPerUnit: real): int {
    UnitsQuota(o.amount as real, quotaPerUnit)
  }

  /** ManualCompleteTopUp and Recharge: Stripe orders are worth their Money, the others their Amount. */
  function ManualQuota(o: TopUp, quotaPerUnit: real): int {
    if o.provider == Stripe then UnitsQuota(o.money, quotaPerUnit) else AmountQuota(o, quotaPerUnit)
  }

  /** An update that matches no user row changes nothing and reports no error. */
  function AddQuota(quota: map<int, int>, user: int, amount: int): map<int, int> {
    if user in quota then quota[user := quota[user] + amount] else quota
  }

  function Leave(th: Thread): Thread {
    th.(pc := FindEntry)
  }

  /** The whole transaction of a section that settles and credits its order. */
  function Fulfilled(d: Store, key: TradeNo, quotaPerUnit: real): Store
    requires key in d.orders
  {
    var o := d.orders[key];
    d.(orders := d.orders[key := o.(status := Success)],
       quota := AddQuota(d.quota, o.user, ManualQuota(o, quotaPerUnit)),
       credited := d.credited + [key])
  }

  /** Reads the row and decides whether the section goes on to write it.  A section of one database
      transaction does all its work here. */
  function StepReadOrder(d: Store, th: Thread, storeOk: bool, quotaPerUnit: real): StoreStep {
    if th.key !in d.orders then StoreStep(Leave(th), d)
    else
      var o := d.orders[th.key];
      match th.job
      case EpayNotify(_) =>
        if o.provider != Epay || o.status != Pending then StoreStep(Leave(th), d)
        else StoreStep(th.(pc := WriteOrder, row := Some(o)), d)
      case StripeAsyncFailed =>
        if o.provider != Stripe || o.status != Pending then StoreStep(Leave(th), d)
        else StoreStep(th.(pc := WriteOrder, row := Some(o)), d)
      case AdminComplete =>
        if o.status != Pending || ManualQuota(o, quotaPerUnit) <= 0 || !storeOk then StoreStep(Leave(th), d)
        else StoreStep(Leave(th), Fulfilled(d, th.key, quotaPerUnit))
      case StripePaid(subscription) =>
        if subscription || o.provider != Stripe || o.status != Pending || !storeOk then StoreStep(Leave(th), d)
        else StoreStep(Leave(th), Fulfilled(d, th.key, quotaPerUnit))
      case StripeExpired(subscription) =>
        if subscription || o.provider != Stripe || o.status != Pending || !storeOk then StoreStep(Leave(th), d)
        else StoreStep(Leave(th), d.(orders := d.orders[th.key := o.(status := Expired)]))
  }

  /** The row a section saves over the stored one. */
  function SavedRow(job: Job, row: TopUp): TopUp {
    match job
    case EpayNotify(paidWith) => row.(paymentMethod := paidWith, status := Success)
    case StripeAsyncFailed => row.(status := Failed)
    case _ => row
  }

  function StepWriteOrder(d: Store, th: Thread, storeOk: bool): StoreStep {
    if th.row.None? || !storeOk then StoreStep(Leave(th), d)
    else
      var saved := SavedRow(th.job, th.row.value);
      StoreStep(th.(pc := if th.job.EpayNotify? then CreditUser else FindEntry, row := Some(saved)),
                d.(orders := d.orders[th.key := saved]))
  }

  /** IncreaseUserQuota refuses a negative quota. */
  function StepCreditUser(d: Store, th: Thread, storeOk: bool, quotaPerUnit: real): StoreStep {
    if th.row.None? then StoreStep(Leave(th), d)
    else
      var q := AmountQuota(th.row.value, quotaPerUnit);
      if q < 0 || !storeOk then StoreStep(Leave(th), d.(lost := d.lost + {th.key}))
      else StoreStep(Leave(th), d.(quota := AddQuota(d.quota, th.row.value.user, q),
                                   credited := d.credited + [th.key]))
  }

  function StepStore(d: Store, th: Thread, storeOk: bool, quotaPerUnit: real): StoreStep
    requires !OnLocks(th.pc)
  {
    match th.pc
    case ReadOrder => StepReadOrder(d, th, storeOk, quotaPerUnit)
    case WriteOrder => StepWriteOrder(d, th, storeOk)
    case CreditUser => StepCreditUser(d, th, storeOk, quotaPerUnit)
  }

  // ---------------------------------------------------------------- runs

  /** An event that is not possible in the current state changes nothing. */
  function Next(s: State, e: Event, quotaPerUnit: real): State {
    match e
    case Arrive(t, job, key) =>
      if t in s.threads || (key == "" && !job.EpayNotify?) then s
      else s.(threads := s.threads[t := Thread(job, key, EnterCreate, 0, None)])
    case InsertOrder(key, order) =>
      if key in s.store.orders || order.status != Pending then s
      else s.(store := s.store.(orders := s.store.orders[key := order]))
    case Advance(t, storeOk) =>
      if t !in s.threads then s
      else if OnLocks(s.threads[t].pc) then
        var r := StepLocks(s.locks, t, s.threads[t]);
        State(s.threads[t := r.thread], r.locks, s.store)
      else
        var r := StepStore(s.store, s.threads[t], storeOk, quotaPerUnit);
        State(s.threads[t := r.thread], s.locks, r.store)
  }

  function Run(s: State, es: seq<Event>, quotaPerUnit: real): State {
    if es == [] then s
    else Next(Run(s, es[..|es| - 1], quotaPerUnit), es[|es| - 1], quotaPerUnit)
  }

  predicate Initial(s: State) {
    && s.threads == map[] && s.store.credited == [] && s.store.lost == {}
    && s.locks.createLock == None && s.locks.entries == map[] && s.locks.mutexes == map[] && !s.locks.crashed
  }

  // ---------------------------------------------------------------- the lock invariant

  /** Inside a createLock critical section. */
  predicate InCreate(pc: Pc) {
    pc.LoadOrStore? || pc.Retain? || pc.LeaveCreate? || pc.Release? || pc.DropEntry? || pc.ExitCreate?
  }

  /** Owns the order's mutex. */
  predicate Holding(pc: Pc) {
    pc.ReadOrder? || pc.WriteOrder? || pc.CreditUser? || pc.FindEntry? || pc.UnlockMutex?
  }

  /** Has been counted by LockOrder and not yet discounted by UnlockOrder. */
  predicate Counted(pc: Pc) {
    pc.LeaveCreate? || pc.LockMutex? || Holding(pc) || pc.ReenterCreate? || pc.Release?
  }

  /** Carries a pointer to the entry of its order. */
  predicate Attached(pc: Pc) {
    Counted(pc) || pc.Retain? || pc.DropEntry?
  }

  ghost function CountedOn(ts: map<ThreadId, Thread>, m: MutexId): set<ThreadId> {
    set t | t in ts && Counted(ts[t].pc) && ts[t].mutex == m
  }

  ghost predicate CreateInv(ts: map<ThreadId, Thread>, l: Locks) {
    && (forall t | t in ts && InCreate(ts[t].pc) :: l.createLock == Some(t))
    && (l.createLock.Some? ==> l.createLock.value in ts && InCreate(ts[l.createLock.value].pc))
  }

  ghost predicate TableInv(ts: map<ThreadId, Thread>, l: Locks) {
    && (forall k | k in l.entries :: l.entries[k] in l.mutexes)
    && (forall j, k | j in l.entries && k in l.entries && l.entries[j] == l.entries[k] :: j == k)
    && (forall m | m in l.mutexes :: m < l.nextMutex)
    && (forall t | t in ts && Attached(ts[t].pc) :: ts[t].key in l.entries && l.entries[ts[t].key] == ts[t].mutex)
  }

  /** The holder of createLock is between creating and counting, or between discounting and
      dropping, the entry of order k. */
  ghost predicate InTransit(ts: map<ThreadId, Thread>, l: Locks, k: TradeNo) {
    && l.createLock.Some? && l.createLock.value in ts && ts[l.createLock.value].key == k
    && (ts[l.createLock.value].pc.Retain? || ts[l.createLock.value].pc.DropEntry?)
  }

  ghost predicate CountInv(ts: map<ThreadId, Thread>, l: Locks) {
    && (forall m | m in l.mutexes :: l.mutexes[m].refCount == |CountedOn(ts, m)|)
    && (forall k | k in l.entries :: CountedOn(ts, l.entries[k]) != {} || InTransit(ts, l, k))
  }

  ghost predicate HeldInv(ts: map<ThreadId, Thread>, l: Locks) {
    && (forall t | t in ts && Holding(ts[t].pc) :: ts[t].mutex in l.mutexes && l.mutexes[ts[t].mutex].locked)
    && (forall t, u | t in ts && u in ts && Holding(ts[t].pc) && Holding(ts[u].pc) && ts[t].mutex == ts[u].mutex ::
          t == u)
    && (forall m | m in l.mutexes && l.mutexes[m].locked ::
          exists t :: t in ts && Holding(ts[t].pc) && ts[t].mutex == m)
    && !l.crashed
    && (forall t | t in ts :: !ts[t].pc.ReturnedNotFound?)
  }

  ghost predicate LockInv(s: State) {
    && CreateInv(s.threads, s.locks) && TableInv(s.threads, s.locks)
    && CountInv(s.threads, s.locks) && HeldInv(s.threads, s.locks)
  }
}
