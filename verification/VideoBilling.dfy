/**
  Billing of asynchronous video tasks while they are polled: a task is pre-charged, re-billed by
  tokens when it succeeds and refunded when it fails.
*/
module VideoBilling {
  import opened Basics
  import opened Sums

  datatype Status = NotStart | Submitted | Queued | InProgress | Success | Failure

  datatype Task = Task(user: int, status: Status, quota: int)

  datatype State = State(
    tasks: map<string, Task>,
    balances: map<int, int>,
    // history: failure refunds that reached the user, departures from Failure, and refunds for a row
    // that had failed already
    refunded: multiset<string>,
    reopened: multiset<string>,
    failedAgain: multiset<string>)

  /** The upstream status: empty counts as a failure, anything else unknown ends the poll. */
  datatype Report = Empty | Known(status: Status) | Unknown

  /** Ratios apply when the response names a model with a configured ratio and the group is known. */
  datatype Rates = Rates(modelRatio: real, groupRatio: real)

  /** One poll of one task, with the outcome of each store operation it may perform.  `copy` is the task as
      the poller has it in memory, which need not be what is stored by now. */
  datatype Poll = Poll(id: string, copy: Option<Task>, report: Report, totalTokens: int, rates: Option<Rates>,
                       chargeOk: bool, storeOk: bool, creditOk: bool)

  function TokenQuota(tokens: int, r: Rates): int {
    Truncate(tokens as real * r.modelRatio * r.groupRatio)
  }

  /** The quota the tokens are worth, when re-billing applies. */
  function ActualQuota(p: Poll): Option<int> {
    if p.totalTokens > 0 && p.rates.Some? && p.rates.value.modelRatio > 0.0
    then Some(TokenQuota(p.totalTokens, p.rates.value))
    else None
  }

  predicate Fails(r: Report) {
    r.Empty? || r == Known(Failure)
  }

  /** The statuses the poll handles without failing the task. */
  predicate Progresses(r: Report) {
    r.Known? && (r.status.Submitted? || r.status.Queued? || r.status.InProgress? || r.status.Success?)
  }

  /** The amount taken from (or, negative, given back to) the user by re-billing. */
  function Adjustment(t: Task, p: Poll): int {
    if p.report == Known(Success) && ActualQuota(p).Some? && p.chargeOk then ActualQuota(p).value - t.quota else 0
  }

  /** A failure refund is issued once the failure is stored; a negative quota is refused. */
  predicate RefundIssued(t: Task, p: Poll) {
    Fails(p.report) && p.storeOk && t.quota != 0 && t.status != Failure
  }

  predicate RefundPaid(t: Task, p: Poll) {
    RefundIssued(t, p) && p.creditOk && t.quota >= 0
  }

  function AddTo(balances: map<int, int>, user: int, amount: int): map<int, int> {
    if user in balances then balances[user := balances[user] + amount] else balances
  }

  lemma AddToTwice(balances: map<int, int>, user: int, x: int, y: int)
    ensures AddTo(AddTo(balances, user, x), user, y) == AddTo(balances, user, y + x)
  {
  }

  predicate Handles(r: Report) {
    Fails(r) || Progresses(r)
  }

  /** The task after a handled report. */
  function Updated(t: Task, p: Poll): Task
    requires Handles(p.report)
  {
    if Fails(p.report) then t.(status := Failure)
    else t.(status := p.report.status, quota := t.quota + Adjustment(t, p))
  }

  predicate Failed(tasks: map<string, Task>, id: string) {
    id in tasks && tasks[id].status == Failure
  }

  /** The whole row is saved, whatever is stored by now. */
  function Step(s: State, p: Poll): State {
    if p.copy.None? || !Handles(p.report) then s
    else
      var t := p.copy.value;
      var t' := Updated(t, p);
      State(if p.storeOk then s.tasks[p.id := t'] else s.tasks,
            AddTo(s.balances, t.user, (if RefundPaid(t, p) then t.quota else 0) - Adjustment(t, p)),
            if RefundPaid(t, p) then s.refunded + multiset{p.id} else s.refunded,
            if p.storeOk && Failed(s.tasks, p.id) && t'.status != Failure
              then s.reopened + multiset{p.id} else s.reopened,
            if RefundPaid(t, p) && Failed(s.tasks, p.id) then s.failedAgain + multiset{p.id} else s.failedAgain)
  }

  function Run(s: State, ps: seq<Poll>): State {
    if ps == [] then s else Step(Run(s, ps[..|ps| - 1]), ps[|ps| - 1])
  }

  /** The copy belongs to an existing user, the one of the stored task. */
  predicate Owned(s: State, p: Poll) {
    p.copy.Some? ==>
      && p.copy.value.user in s.balances
      && (p.id in s.tasks ==> s.tasks[p.id].user == p.copy.value.user)
  }

  /** The poller works on what is stored. */
  predicate Fresh(s: State, p: Poll) {
    p.copy.Some? ==> p.id in s.tasks && s.tasks[p.id] == p.copy.value
  }

  // ---------------------------------------------------------------- conservation

  /** The quota a task holds: nothing once it has failed. */
  function Held(t: Task): int {
    if t.status == Failure then 0 else t.quota
  }

  function HeldBy(tasks: map<string, Task>, id: string): int {
    if id in tasks then Held(tasks[id]) else 0
  }

  function Charge(tasks: map<string, Task>, u: int): string -> int {
    id => if id in tasks && tasks[id].user == u then Held(tasks[id]) else 0
  }

  /** What user u has left plus what their live tasks hold. */
  ghost function Wealth(s: State, u: int): int
    requires u in s.balances
  {
    s.balances[u] + SumOver(s.tasks.Keys, Charge(s.tasks, u))
  }

  /** What a poll of task `t` leaks by itself: a task reopened from Failure counts its refunded quota again,
      an adjustment that is not stored is lost track of, and a refund that is issued but not paid is
      lost. */
  function Leak(t: Task, p: Poll): int {
    if p.storeOk && t.status == Failure && Progresses(p.report) then t.quota
    else if !p.storeOk then -Adjustment(t, p)
    else if RefundIssued(t, p) && !RefundPaid(t, p) then -t.quota
    else 0
  }

  /** How much less the stored task holds than the copy that overwrites it. */
  function Overwritten(s: State, p: Poll): int
    requires p.copy.Some?
  {
    if p.storeOk then Held(p.copy.value) - HeldBy(s.tasks, p.id) else 0
  }

  /** How far one poll moves the wealth of the task's user. */
  function Drift(s: State, p: Poll): int {
    if p.copy.None? || !Handles(p.report) then 0 else Leak(p.copy.value, p) + Overwritten(s, p)
  }

  /** The three ways a poll can leak by itself, each visible before or during that one poll. */
  predicate Leaks(t: Task, p: Poll) {
    || (p.storeOk && t.status == Failure && Progresses(p.report) && t.quota != 0)
    || (!p.storeOk && p.report == Known(Success) && p.chargeOk && ActualQuota(p).Some?
        && ActualQuota(p).value != t.quota)
    || (Fails(p.report) && p.storeOk && t.status != Failure && t.quota != 0 && (!p.creditOk || t.quota < 0))
  }

  lemma LeakIff(t: Task, p: Poll)
    ensures Leak(t, p) != 0 <==> Leaks(t, p)
  {
  }

  lemma MovedByPoll(s: State, p: Poll)
    requires p.copy.Some? && Handles(p.report)
    ensures var t := p.copy.value;
      Drift(s, p) == (if RefundPaid(t, p) then t.quota else 0) - Adjustment(t, p)
        + if p.storeOk then Held(Updated(t, p)) - HeldBy(s.tasks, p.id) else 0
  {
  }

  /** Storing a task moves what the live tasks of its user hold by the difference. */
  lemma StoredMoves(tasks: map<string, Task>, id: string, t: Task, u: int)
    requires id in tasks ==> tasks[id].user == t.user
    ensures var tasks' := tasks[id := t];
      SumOver(tasks'.Keys, Charge(tasks', u)) ==
        SumOver(tasks.Keys, Charge(tasks, u)) + if t.user == u then Held(t) - HeldBy(tasks, id) else 0
  {
    var tasks' := tasks[id := t];
    if id in tasks {
      assert tasks'.Keys == tasks.Keys;
      SumOverChange(tasks.Keys, id, Charge(tasks, u), Charge(tasks', u));
    } else {
      assert tasks'.Keys == tasks.Keys + {id};
      SumOverAdd(tasks.Keys, id, Charge(tasks', u));
      SumOverFrame(tasks.Keys, Charge(tasks, u), Charge(tasks', u));
    }
  }

  lemma StepWealth(s: State, p: Poll, u: int)
    requires Owned(s, p) && u in s.balances
    ensures u in Step(s, p).balances
    ensures Wealth(Step(s, p), u) ==
      Wealth(s, u) + if p.copy.Some? && p.copy.value.user == u then Drift(s, p) else 0
  {
    if p.copy.Some? && Handles(p.report) {
      MovedByPoll(s, p);
      StoredMoves(s.tasks, p.id, Updated(p.copy.value, p), u);
    }
  }

  /** A poll conserves every user's wealth exactly when what it leaks by itself is made up for by what it
      overwrites. */
  lemma PollConservesIff(s: State, p: Poll)
    requires Owned(s, p)
    ensures (forall u | u in s.balances :: u in Step(s, p).balances && Wealth(Step(s, p), u) == Wealth(s, u))
      <==> Drift(s, p) == 0
  {
    forall u | u in s.balances
      ensures u in Step(s, p).balances
      ensures Wealth(Step(s, p), u) ==
        Wealth(s, u) + if p.copy.Some? && p.copy.value.user == u then Drift(s, p) else 0
    {
      StepWealth(s, p, u);
    }
    if Drift(s, p) != 0 {
      assert p.copy.value.user in s.balances;
    }
  }

  /** A poll that works on what is stored conserves exactly when it is none of the three leaks; one that
      does not leak by itself, exactly when it overwrites a task that holds the same. */
  lemma DriftIff(s: State, p: Poll)
    requires p.copy.Some?
    ensures Fresh(s, p) && Handles(p.report) ==> (Drift(s, p) == 0 <==> !Leaks(p.copy.value, p))
    ensures !Leaks(p.copy.value, p) && Handles(p.report) ==>
      (Drift(s, p) == 0 <==> p.storeOk ==> Held(p.copy.value) == HeldBy(s.tasks, p.id))
  {
    LeakIff(p.copy.value, p);
  }

  /** Every poll of the run is on a task of its user and conserves. */
  predicate NoDrift(s: State, ps: seq<Poll>) {
    ps == [] ||
    var before := Run(s, ps[..|ps| - 1]);
    NoDrift(s, ps[..|ps| - 1]) && Owned(before, ps[|ps| - 1]) && Drift(before, ps[|ps| - 1]) == 0
  }

  /** Over every such run, user balance plus the quota of live tasks is constant. */
  lemma {:induction false} RunConserves(s: State, ps: seq<Poll>, u: int)
    requires u in s.balances && NoDrift(s, ps)
    ensures u in Run(s, ps).balances && Wealth(Run(s, ps), u) == Wealth(s, u)
  {
    if ps != [] {
      RunConserves(s, ps[..|ps| - 1], u);
      StepWealth(Run(s, ps[..|ps| - 1]), ps[|ps| - 1], u);
    }
  }

  // ---------------------------------------------------------------- refunds

  /** A task is refunded at most once more often than it was reopened or failed again from an old copy. */
  lemma {:induction false} RefundsBounded(s: State, ps: seq<Poll>, id: string)
    requires s.refunded == s.reopened == s.failedAgain == multiset{}
    ensures var r := Run(s, ps);
      r.refunded[id] <= r.reopened[id] + r.failedAgain[id] + if Failed(r.tasks, id) then 1 else 0
  {
    if ps != [] {
      RefundsBounded(s, ps[..|ps| - 1], id);
    }
  }

  ghost predicate AllFresh(s: State, ps: seq<Poll>) {
    ps == [] || (AllFresh(s, ps[..|ps| - 1]) && Fresh(Run(s, ps[..|ps| - 1]), ps[|ps| - 1]))
  }

  /** Polls that work on what is stored never fail a task again. */
  lemma {:induction false} FreshNeverFailsAgain(s: State, ps: seq<Poll>)
    requires s.failedAgain == multiset{} && AllFresh(s, ps)
    ensures Run(s, ps).failedAgain == multiset{}
  {
    if ps != [] {
      FreshNeverFailsAgain(s, ps[..|ps| - 1]);
    }
  }

  function OneTask(id: string, t: Task, balance: int, refunded: nat, reopened: nat, failedAgain: nat): State {
    State(map[id := t], map[t.user := balance],
          multiset{}[id := refunded], multiset{}[id := reopened], multiset{}[id := failedAgain])
  }

  lemma RunOfThree(s: State, p: Poll, q: Poll, r: Poll)
    ensures Run(s, [p, q, r]) == Step(Step(Step(s, p), q), r)
  {
    var one, two, three := [p], [p, q], [p, q, r];
    assert one[..0] == [] && two[..1] == one && three[..2] == two;
    assert Run(s, one) == Step(s, p);
    assert Run(s, two) == Step(Run(s, one), q);
  }

  /** The bound is met: a failed task that upstream reports in progress again is refunded twice. */
  lemma ReopenedRefundedTwice(id: string, quota: int)
    requires quota > 0
    ensures var live, dead := Task(1, InProgress, quota), Task(1, Failure, quota);
      var fail := Poll(id, Some(live), Known(Failure), 0, None, true, true, true);
      var again := Poll(id, Some(dead), Known(InProgress), 0, None, true, true, true);
      Run(OneTask(id, live, 0, 0, 0, 0), [fail, again, fail]) == OneTask(id, dead, 2 * quota, 2, 1, 0)
  {
    var live, dead := Task(1, InProgress, quota), Task(1, Failure, quota);
    var fail := Poll(id, Some(live), Known(Failure), 0, None, true, true, true);
    var again := Poll(id, Some(dead), Known(InProgress), 0, None, true, true, true);
    var start := OneTask(id, live, 0, 0, 0, 0);
    FailsAndReopens(id, live, dead, start, fail, again, quota);
    FailsFromCopy(id, live, live, Step(Step(start, fail), again), fail, quota, 1, 1, 0);
    RunOfThree(start, fail, again, fail);
  }

  lemma FailsAndReopens(id: string, live: Task, dead: Task, start: State, fail: Poll, again: Poll, quota: int)
    requires quota > 0 && live == Task(1, InProgress, quota) && dead == Task(1, Failure, quota)
    requires fail == Poll(id, Some(live), Known(Failure), 0, None, true, true, true)
    requires again == Poll(id, Some(dead), Known(InProgress), 0, None, true, true, true)
    requires start == OneTask(id, live, 0, 0, 0, 0)
    ensures Step(Step(start, fail), again) == OneTask(id, live, quota, 1, 1, 0)
  {
    FailsFromCopy(id, live, live, start, fail, 0, 0, 0, 0);
    Reopens(id, dead, Step(start, fail), again, quota, 1, 0, 0);
  }

  lemma Reopens(id: string, dead: Task, s: State, again: Poll, balance: int, a: nat, b: nat, c: nat)
    requires dead.status == Failure && s == OneTask(id, dead, balance, a, b, c)
    requires again == Poll(id, Some(dead), Known(InProgress), 0, None, true, true, true)
    ensures Step(s, again) == OneTask(id, dead.(status := InProgress), balance, a, b + 1, c)
  {
  }

  /** A live copy fails the stored task, which may have failed before. */
  lemma FailsFromCopy(id: string, stored: Task, live: Task, s: State, fail: Poll, balance: int, a: nat, b: nat, c: nat)
    requires live.status != Failure && live.quota > 0 && stored.user == live.user
    requires fail == Poll(id, Some(live), Known(Failure), 0, None, true, true, true)
    requires s == OneTask(id, stored, balance, a, b, c)
    ensures Step(s, fail) ==
      OneTask(id, live.(status := Failure), balance + live.quota, a + 1, b,
              c + if stored.status == Failure then 1 else 0)
  {
  }

  /** It is also met without reopening: two pollers that loaded the live task both fail and refund it. */
  lemma StaleRefundedTwice(id: string, quota: int)
    requires quota > 0
    ensures var live, dead := Task(1, InProgress, quota), Task(1, Failure, quota);
      var fail := Poll(id, Some(live), Known(Failure), 0, None, true, true, true);
      Step(Step(OneTask(id, live, 0, 0, 0, 0), fail), fail) == OneTask(id, dead, 2 * quota, 2, 0, 1)
  {
    var live, dead := Task(1, InProgress, quota), Task(1, Failure, quota);
    var fail := Poll(id, Some(live), Known(Failure), 0, None, true, true, true);
    var start := OneTask(id, live, 0, 0, 0, 0);
    FailsFromCopy(id, live, live, start, fail, 0, 0, 0, 0);
    FailsFromCopy(id, dead, live, Step(start, fail), fail, quota, 1, 0, 0);
  }

  // ---------------------------------------------------------------- what a success costs

  lemma TokensAreWorth(tokens: int, r: Rates)
    ensures IsCutOff(TokenQuota(tokens, r), tokens as real * r.modelRatio * r.groupRatio)
  {
    TruncateCutsOff(tokens as real * r.modelRatio * r.groupRatio);
  }

  /** A stored success is billed again exactly if it reports tokens, the model has a positive ratio, the group
      is known and the charge works: the task then holds the tokens times both ratios, cut off, and its
      user pays the difference or gets it back.  Otherwise no quota moves. */
  lemma SuccessIsBilled(s: State, p: Poll)
    requires p.copy.Some? && p.report == Known(Success) && p.storeOk
    ensures var t, s' := p.copy.value, Step(s, p);
      && p.id in s'.tasks && s'.tasks[p.id].user == t.user && s'.tasks[p.id].status == Success
      && (if p.totalTokens > 0 && p.rates.Some? && p.rates.value.modelRatio > 0.0 && p.chargeOk
          then IsCutOff(s'.tasks[p.id].quota,
                        p.totalTokens as real * p.rates.value.modelRatio * p.rates.value.groupRatio)
          else s'.tasks[p.id].quota == t.quota)
      && s'.balances.Keys == s.balances.Keys
      && forall u | u in s.balances ::
           s'.balances[u] == s.balances[u] + if u == t.user then t.quota - s'.tasks[p.id].quota else 0
  {
    if p.rates.Some? { TokensAreWorth(p.totalTokens, p.rates.value); }
  }

  // ---------------------------------------------------------------- repetition

  /** Once a success has been charged and stored, polling the same success again, from what is stored,
      changes nothing. */
  lemma SuccessIsIdempotent(s: State, p: Poll)
    requires p.copy.Some? && p.report == Known(Success) && p.chargeOk && p.storeOk
    ensures var s1 := Step(s, p);
      && p.id in s1.tasks && Step(s1, p.(copy := Some(s1.tasks[p.id]))) == s1
      && (ActualQuota(p).Some? ==> s1.tasks[p.id].quota == ActualQuota(p).value)
  {
    var s1 := Step(s, p);
    var t1 := s1.tasks[p.id];
    var again := p.(copy := Some(t1));
    assert ActualQuota(again) == ActualQuota(p);
    assert Adjustment(t1, again) == 0 && Updated(t1, again) == t1;
    assert s1.tasks[p.id := t1] == s1.tasks;
    assert AddTo(s1.balances, t1.user, 0) == s1.balances;
  }

  // ---------------------------------------------------------------- the poll as it runs

  class Biller {
    var tasks: map<string, Task>
    var balances: map<int, int>
    ghost var refunded: multiset<string>
    ghost var reopened: multiset<string>
    ghost var failedAgain: multiset<string>

    ghost function Snapshot(): State
      reads this
    {
      State(tasks, balances, refunded, reopened, failedAgain)
    }

    constructor (ts: map<string, Task>, bs: map<int, int>)
      ensures Snapshot() == State(ts, bs, multiset{}, multiset{}, multiset{})
    {
      tasks, balances := ts, bs;
      refunded, reopened, failedAgain := multiset{}, multiset{}, multiset{};
    }

    /** Model.IncreaseUserQuota and DecreaseUserQuota. */
    method AddToUser(user: int, amount: int)
      modifies this`balances
      ensures balances == AddTo(old(balances), user, amount)
    {
      if user in balances {
        balances := balances[user := balances[user] + amount];
      }
    }

    /** Charges the difference to the actual cost, or gives it back. */
    method Rebill(t: Task, p: Poll) returns (t': Task)
      requires p.report == Known(Success)
      modifies this`balances
      ensures t' == t.(quota := t.quota + Adjustment(t, p))
      ensures balances == AddTo(old(balances), t.user, -Adjustment(t, p))
    {
      t' := t;
      assert AddTo(balances, t.user, 0) == balances;
      if p.totalTokens > 0 && p.rates.Some? && p.rates.value.modelRatio > 0.0 {
        var actual := TokenQuota(p.totalTokens, p.rates.value);
        assert ActualQuota(p) == Some(actual);
        var delta := actual - t.quota;
        if delta > 0 {
          if p.chargeOk {
            AddToUser(t.user, -delta);
            t' := t.(quota := actual);
          }
        } else if delta < 0 {
          var back := -delta;
          if p.chargeOk {
            AddToUser(t.user, back);
            t' := t.(quota := actual);
          }
        }
      }
    }

    /** The status switch: the new task, whether the status was handled, and whether to refund. */
    method ApplyReport(t: Task, p: Poll) returns (t': Task, handled: bool, shouldRefund: bool)
      modifies this`balances
      ensures handled <==> Handles(p.report)
      ensures handled ==> t' == Updated(t, p)
      ensures shouldRefund <==> Fails(p.report) && t.quota != 0 && t.status != Failure
      ensures balances == AddTo(old(balances), t.user, -Adjustment(t, p))
    {
      t', handled, shouldRefund := t, true, false;
      assert AddTo(balances, t.user, 0) == balances;
      match p.report
      case Empty =>
        t' := t.(status := Failure);
        shouldRefund := t.quota != 0 && t.status != Failure;
      case Unknown => handled := false;
      case Known(status) =>
        match status
        case NotStart => handled := false;
        case Submitted => t' := t.(status := Submitted);
        case Queued => t' := t.(status := Queued);
        case InProgress => t' := t.(status := InProgress);
        case Success =>
          t' := Rebill(t, p);
          t' := t'.(status := Success);
        case Failure =>
          t' := t.(status := Failure);
          shouldRefund := t.quota != 0 && t.status != Failure;
    }

    /** Saving the task writes the whole row. */
    method Save(id: string, task: Task)
      modifies this`tasks, this`reopened
      ensures tasks == old(tasks)[id := task]
      ensures reopened ==
        if Failed(old(tasks), id) && task.status != Failure then old(reopened) + multiset{id} else old(reopened)
    {
      if Failed(tasks, id) && task.status != Failure { reopened := reopened + multiset{id}; }
      tasks := tasks[id := task];
    }

    /** A negative quota is refused. */
    method Refund(id: string, t: Task, creditOk: bool, ghost failedBefore: bool)
      modifies this`balances, this`refunded, this`failedAgain
      ensures var paid := t.quota >= 0 && creditOk;
        && balances == (if paid then AddTo(old(balances), t.user, t.quota) else old(balances))
        && refunded == (if paid then old(refunded) + multiset{id} else old(refunded))
        && failedAgain == (if paid && failedBefore then old(failedAgain) + multiset{id} else old(failedAgain))
    {
      if t.quota >= 0 && creditOk {
        AddToUser(t.user, t.quota);
        refunded := refunded + multiset{id};
        if failedBefore { failedAgain := failedAgain + multiset{id}; }
      }
    }

    /** The end of a poll: the task is saved, and a refund is issued if that worked. */
    method Finish(p: Poll, loaded: Task, task: Task, shouldRefund: bool)
      requires shouldRefund <==> Fails(p.report) && loaded.quota != 0 && loaded.status != Failure
      modifies this
      ensures tasks == if p.storeOk then old(tasks)[p.id := task] else old(tasks)
      ensures balances ==
        AddTo(old(balances), loaded.user, if RefundPaid(loaded, p) then loaded.quota else 0)
      ensures refunded == if RefundPaid(loaded, p) then old(refunded) + multiset{p.id} else old(refunded)
      ensures reopened ==
        if p.storeOk && Failed(old(tasks), p.id) && task.status != Failure
        then old(reopened) + multiset{p.id} else old(reopened)
      ensures failedAgain ==
        if RefundPaid(loaded, p) && Failed(old(tasks), p.id)
        then old(failedAgain) + multiset{p.id} else old(failedAgain)
    {
      assert AddTo(balances, loaded.user, 0) == balances;
      if p.storeOk {
        Save(p.id, task);
        if shouldRefund {
          Refund(p.id, loaded, p.creditOk, old(Failed(tasks, p.id)));
        }
      }
    }

    /** updateVideoSingleTask from the reported status on, on the poller's copy of the task. */
    method UpdateSingleTask(p: Poll) returns (ok: bool)
      modifies this
      ensures Snapshot() == Step(old(Snapshot()), p)
      ensures ok <==> p.copy.Some? && Handles(p.report)
    {
      if p.copy.None? {
        return false;
      }
      var loaded := p.copy.value;
      var task, handled, shouldRefund := ApplyReport(loaded, p);
      if !handled {
        UnhandledCostsNothing(old(balances), loaded, p);
        return false;
      }
      ghost var charged := balances;
      Finish(p, loaded, task, shouldRefund);
      HandledStep(old(Snapshot()), p, charged, Snapshot());
      return true;
    }

    static lemma HandledStep(s: State, p: Poll, charged: map<int, int>, s': State)
      requires p.copy.Some? && Handles(p.report)
      requires charged == AddTo(s.balances, p.copy.value.user, -Adjustment(p.copy.value, p))
      requires s'.balances == AddTo(charged, p.copy.value.user,
                                    if RefundPaid(p.copy.value, p) then p.copy.value.quota else 0)
      requires s' == Step(s, p).(balances := s'.balances)
      ensures s' == Step(s, p)
    {
      var t := p.copy.value;
      AddToTwice(s.balances, t.user, -Adjustment(t, p), if RefundPaid(t, p) then t.quota else 0);
    }

    static lemma UnhandledCostsNothing(bs: map<int, int>, t: Task, p: Poll)
      requires !Handles(p.report)
      ensures AddTo(bs, t.user, -Adjustment(t, p)) == bs
    {
    }
  }
}
