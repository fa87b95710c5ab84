/**
  Refunds of failed Midjourney tasks when several polling passes work from snapshots and write back
  with a compare-and-set on the status.  Tasks do not affect one another, so the state is one task.
*/
module Midjourney {
  import opened Basics

  type PollerId = nat

  const FAILURE := "FAILURE"
  const COMPLETE := "100%"
  const TIMEOUT_MILLIS := 3600000
  const TIMEOUT_REASON := "上游任务超时（超过1小时）"

  /** The stored columns.  `rest` stands for the other columns that are compared with a report, `extras`
      for the properties and buttons, which are overwritten but not compared. */
  datatype Row = Row(status: string, progress: string, code: int, failReason: string, submitTime: int,
                     rest: string, extras: string)

  /** A report without extras leaves the stored ones. */
  datatype Report = Report(status: string, progress: string, failReason: string, submitTime: int,
                           rest: string, extras: Option<string>)

  /** The task in the memory of one pass, which handling a report overwrites. */
  datatype Poller = Loaded(snapshot: Row) | Handled(memory: Row)

  /** The quota of the task never changes; `refunds` counts the refunds issued.  `countsMatched` says whether
      the database reports the rows that an update matched or only those that it changed. */
  datatype State = State(row: Row, quota: int, pollers: map<PollerId, Poller>, refunds: nat, countsMatched: bool)

  /** `Process` is one report handled by one pass at time `now`; `storeOk` and `creditOk` say whether
      the two database writes succeed.  `Repeat` is a second report on the same task in the response
      of the same pass.  The other two events are the bulk updates that give up on a task whose
      channel is gone, or which never got an upstream id. */
  datatype Event =
    | Load(poller: PollerId)
    | Process(poller: PollerId, report: Report, now: int, storeOk: bool, creditOk: bool)
    | Repeat(poller: PollerId, report: Report, now: int, storeOk: bool, creditOk: bool)
    | FailChannelGone(reason: string)
    | FailNoId

  /** After an hour without completion the pass rewrites the report itself. */
  function Effective(snapshot: Row, r: Report, now: int): Report {
    if now - snapshot.submitTime > TIMEOUT_MILLIS && snapshot.progress != COMPLETE
    then r.(status := FAILURE, failReason := TIMEOUT_REASON) else r
  }

  /** Whether the report differs from the snapshot in anything that is stored. */
  predicate NeedsUpdate(before: Row, r: Report) {
    || before.code != 1
    || before.progress != r.progress
    || before.status != r.status
    || before.failReason != r.failReason
    || before.submitTime != r.submitTime
    || (before.progress != COMPLETE && r.failReason != "")
    || before.rest != r.rest
  }

  /** The report ends the task as failed. */
  predicate Refunding(r: Report) {
    (r.progress != COMPLETE && r.failReason != "") || (r.progress == COMPLETE && r.status == FAILURE)
  }

  function Written(before: Row, r: Report): Row {
    Row(r.status, if Refunding(r) then COMPLETE else r.progress, 1, r.failReason, r.submitTime, r.rest,
        if r.extras.Some? then r.extras.value else before.extras)
  }

  /** The refund is paid: there is something to return, a negative quota is refused, and the write works. */
  predicate Paid(r: Report, quota: int, creditOk: bool) {
    Refunding(r) && quota > 0 && creditOk
  }

  /** The compare-and-set reports an affected row. */
  predicate Won(row: Row, fromStatus: string, after: Row, storeOk: bool, countsMatched: bool) {
    storeOk && row.status == fromStatus && (countsMatched || after != row)
  }

  /** Pass `p`, whose memory holds `memory`, handles a report. */
  function Handle(s: State, p: PollerId, memory: Row, report: Report, now: int, storeOk: bool, creditOk: bool): State {
    var r := Effective(memory, report, now);
    if !NeedsUpdate(memory, r) then s.(pollers := s.pollers[p := Handled(memory)])
    else
      var after := Written(memory, r);
      var s1 := s.(pollers := s.pollers[p := Handled(after)]);
      if !Won(s.row, memory.status, after, storeOk, s.countsMatched) then s1
      else s1.(row := after, refunds := s.refunds + if Paid(r, s.quota, creditOk) then 1 else 0)
  }

  function Next(s: State, e: Event): State {
    match e
    case Load(p) =>
      if s.row.progress == COMPLETE || (p in s.pollers && s.pollers[p].Loaded?) then s
      else s.(pollers := s.pollers[p := Loaded(s.row)])
    case Process(p, report, now, storeOk, creditOk) =>
      if p !in s.pollers || s.pollers[p].Handled? then s
      else Handle(s, p, s.pollers[p].snapshot, report, now, storeOk, creditOk)
    case Repeat(p, report, now, storeOk, creditOk) =>
      if p !in s.pollers || s.pollers[p].Loaded? then s
      else Handle(s, p, s.pollers[p].memory, report, now, storeOk, creditOk)
    case FailChannelGone(reason) => s.(row := s.row.(status := FAILURE, progress := COMPLETE, failReason := reason))
    case FailNoId => s.(row := s.row.(status := FAILURE, progress := COMPLETE))
  }

  function Run(s: State, es: seq<Event>): State {
    if es == [] then s else Next(Run(s, es[..|es| - 1]), es[|es| - 1])
  }

  // ---------------------------------------------------------------- one report, step by step

  class Store {
    var row: Row
    var balance: int
    const countsMatched: bool

    /** The conditional update; it reports whether this caller won, that is, whether a row was affected. */
    method UpdateWithStatus(fromStatus: string, task: Row, storeOk: bool) returns (won: bool)
      modifies this`row
      ensures won <==> Won(old(row), fromStatus, task, storeOk, countsMatched)
      ensures row == if storeOk && old(row.status) == fromStatus then task else old(row)
    {
      var affected := 0;
      if storeOk && row.status == fromStatus {
        if countsMatched || row != task {
          affected := 1;
        }
        row := task;
      }
      won := affected > 0;
    }

    /** A negative quota is refused. */
    method IncreaseUserQuota(quota: int, creditOk: bool) returns (ok: bool)
      modifies this`balance
      ensures ok <==> quota >= 0 && creditOk
      ensures balance == old(balance) + if ok then quota else 0
    {
      if quota < 0 {
        return false;
      }
      if creditOk {
        balance := balance + quota;
      }
      ok := creditOk;
    }
  }

  /** The in-memory task of one pass, overwritten while a report is handled. */
  class Task {
    var row: Row
    var quota: int

    /** Copies the report over the task; a report that ends it as failed also completes it. */
    method TakeOver(r: Report) returns (shouldReturnQuota: bool)
      modifies this`row
      ensures row == Written(old(row), r) && (shouldReturnQuota <==> Refunding(r) && quota != 0)
    {
      row := row.(code := 1, progress := r.progress, submitTime := r.submitTime, rest := r.rest);
      row := row.(status := r.status, failReason := r.failReason);
      if r.extras.Some? {
        row := row.(extras := r.extras.value);
      }
      shouldReturnQuota := false;
      if (row.progress != COMPLETE && r.failReason != "") || (row.progress == COMPLETE && row.status == FAILURE) {
        row := row.(progress := COMPLETE);
        if quota != 0 {
          shouldReturnQuota := true;
        }
      }
    }

    /** Handling one report, the first or a repeated one of its pass, changes the memory of the pass, the
        stored row and the user's balance as the state machine says. */
    method ProcessReport(report: Report, now: int, storeOk: bool, creditOk: bool, store: Store,
                         ghost s: State, ghost p: PollerId)
      requires s.row == store.row && s.quota == quota && s.countsMatched == store.countsMatched
      modifies this`row, store
      ensures var t := Handle(s, p, old(row), report, now, storeOk, creditOk);
        && t.pollers == s.pollers[p := Handled(row)] && store.row == t.row
        && store.balance == old(store.balance) + quota * (t.refunds - s.refunds)
    {
      var r := report;
      if now - row.submitTime > TIMEOUT_MILLIS && row.progress != COMPLETE {
        r := r.(failReason := TIMEOUT_REASON);
        r := r.(status := FAILURE);
      }
      if !NeedsUpdate(row, r) {
        return;
      }
      var preStatus := row.status;
      var shouldReturnQuota := TakeOver(r);
      var won := store.UpdateWithStatus(preStatus, row, storeOk);
      if won && shouldReturnQuota {
        var paid := store.IncreaseUserQuota(quota, creditOk);
      }
    }
  }

  /** A report is worth storing exactly when it changes a compared column of the unfinished snapshot, so
      skipping the others loses no status and no refund; only new extras on their own are lost. */
  lemma UpdateNeededIff(before: Row, r: Report)
    requires before.progress != COMPLETE
    ensures NeedsUpdate(before, r) <==> Written(before, r).(extras := before.extras) != before
    ensures !NeedsUpdate(before, r) ==> !Refunding(r)
  {
    if Refunding(r) {
      assert Written(before, r).progress == COMPLETE;
    }
  }

  // ---------------------------------------------------------------- what a pass stores

  /** A pass that wins stores the columns of the report; it completes the task and adds FAILURE and the
      reason when more than an hour has passed, and keeps the extras when the report has none. */
  lemma WinnerStores(s: State, p: PollerId, report: Report, now: int, creditOk: bool)
    requires p in s.pollers && s.pollers[p].Loaded? && s.pollers[p].snapshot.status == s.row.status
    requires s.pollers[p].snapshot.progress != "100%" && s.pollers[p].snapshot.code != 1
    ensures var snapshot := s.pollers[p].snapshot;
      var row := Next(s, Process(p, report, now, true, creditOk)).row;
      var late := now - snapshot.submitTime > 3600000;
      && row.status == (if late then "FAILURE" else report.status)
      && row.failReason == (if late then TIMEOUT_REASON else report.failReason)
      && (row.progress == "100%" <==> late || report.progress == "100%" || report.failReason != "")
      && (row.progress != "100%" ==> row.progress == report.progress)
      && row.code == 1 && row.submitTime == report.submitTime && row.rest == report.rest
      && row.extras == (if report.extras.Some? then report.extras.value else snapshot.extras)
  {
  }

  // ---------------------------------------------------------------- clean reports

  /** The report marks the task FAILURE exactly when it ends it as failed. */
  predicate Clean(r: Report) {
    Refunding(r) <==> r.status == FAILURE
  }

  /** A failed task is finished: no pass will load it. */
  predicate FailedIsFinished(row: Row) {
    row.status == FAILURE ==> row.progress == COMPLETE
  }

  predicate Start(s: State) {
    s.pollers == map[] && s.refunds == 0 && FailedIsFinished(s.row)
  }

  ghost predicate Allowed(es: seq<Event>, allowed: Report -> bool) {
    forall i | 0 <= i < |es| :: !es[i].Repeat? && (es[i].Process? ==> allowed(es[i].report))
  }

  /** Whatever the passes do with reports of this kind, none of them twice in one response, the task is
      refunded at most once. */
  ghost predicate RefundedOnce(allowed: Report -> bool, countsMatched: bool) {
    forall s: State, es: seq<Event> | Start(s) && s.countsMatched == countsMatched && Allowed(es, allowed) ::
      Run(s, es).refunds <= 1
  }

  /** No pass holds a FAILURE snapshot, and a refunded task rests in FAILURE. */
  ghost predicate Inv(s: State) {
    && FailedIsFinished(s.row)
    && (forall p | p in s.pollers && s.pollers[p].Loaded? :: s.pollers[p].snapshot.status != FAILURE)
    && s.refunds <= 1
    && (s.refunds == 1 ==> s.row.status == FAILURE)
  }

  lemma NextKeepsInv(s: State, e: Event)
    requires Inv(s) && !e.Repeat? && (e.Process? ==> Clean(e.report))
    ensures Inv(Next(s, e))
  {
  }

  lemma {:induction false} RunKeepsInv(s: State, es: seq<Event>, allowed: Report -> bool)
    requires Start(s) && Allowed(es, allowed) && forall r | allowed(r) :: Clean(r)
    ensures Inv(Run(s, es))
  {
    if es != [] {
      var n := |es| - 1;
      assert Allowed(es[..n], allowed);
      RunKeepsInv(s, es[..n], allowed);
      assert !es[n].Repeat? && (es[n].Process? ==> allowed(es[n].report));
      NextKeepsInv(Run(s, es[..n]), es[n]);
    }
  }

  // ---------------------------------------------------------------- what goes wrong otherwise

  lemma RunMore(s: State, es: seq<Event>, a: Event)
    ensures Run(s, es + [a]) == Next(Run(s, es), a)
  {
    assert (es + [a])[..|es|] == es;
  }

  /** One more event, with the state it must lead to. */
  lemma Extend(s: State, es: seq<Event>, before: State, a: Event, after: State) returns (more: seq<Event>)
    requires Run(s, es) == before && Next(before, a) == after
    ensures more == es + [a] && Run(s, more) == after
  {
    RunMore(s, es, a);
    more := es + [a];
  }

  /** A pass that loads the task. */
  lemma Loads(s: State, es: seq<Event>, before: State, p: PollerId) returns (more: seq<Event>, after: State)
    requires Run(s, es) == before && before.row.progress != COMPLETE && p !in before.pollers
    ensures more == es + [Load(p)] && after == Run(s, more)
    ensures after == before.(pollers := before.pollers[p := Loaded(before.row)])
  {
    after := before.(pollers := before.pollers[p := Loaded(before.row)]);
    more := Extend(s, es, before, Load(p), after);
  }

  /** The state after pass `p` has won the compare-and-set with report `r`. */
  function AfterWin(before: State, p: PollerId, snapshot: Row, r: Report): State {
    State(Written(snapshot, r), before.quota, before.pollers[p := Handled(Written(snapshot, r))],
          before.refunds + if Refunding(r) then 1 else 0, before.countsMatched)
  }

  /** A pass that wins the compare-and-set at time `now`. */
  lemma Wins(s: State, es: seq<Event>, before: State, p: PollerId, report: Report, now: int)
    returns (more: seq<Event>, after: State)
    requires Run(s, es) == before && p in before.pollers && before.pollers[p].Loaded? && before.quota == 1
    requires var snapshot := before.pollers[p].snapshot;
      var r := Effective(snapshot, report, now);
      NeedsUpdate(snapshot, r) && Won(before.row, snapshot.status, Written(snapshot, r), true, before.countsMatched)
    ensures more == es + [Process(p, report, now, true, true)] && after == Run(s, more)
    ensures var snapshot := before.pollers[p].snapshot;
      after == AfterWin(before, p, snapshot, Effective(snapshot, report, now))
  {
    var snapshot := before.pollers[p].snapshot;
    after := AfterWin(before, p, snapshot, Effective(snapshot, report, now));
    more := Extend(s, es, before, Process(p, report, now, true, true), after);
  }

  /** A refunding report that keeps the status: two passes win the compare-and-set, the second one after
      the hour is over. */
  lemma StatusKeepingRefund(r: Report, countsMatched: bool) returns (s: State, es: seq<Event>)
    requires Refunding(r) && r.status != FAILURE
    ensures Start(s) && s.countsMatched == countsMatched && Run(s, es).refunds == 2
    ensures forall i | 0 <= i < |es| :: !es[i].Repeat? && (es[i].Process? ==> es[i].report == r)
  {
    s := State(Row(r.status, "0%", 0, "", 0, "", ""), 1, map[], 0, countsMatched);
    var t := s;
    es, t := Loads(s, [], t, 1);
    es, t := Loads(s, es, t, 2);
    es, t := Wins(s, es, t, 1, r, 0);
    es, t := Wins(s, es, t, 2, r, TIMEOUT_MILLIS + 1);
  }

  /** A report that marks FAILURE without ending the task: the next passes load FAILURE.  When the hour is
      over they end the task themselves, and win the compare-and-set from FAILURE to FAILURE - even
      if only changed rows count, since giving up on the channel changes the reason in between. */
  lemma UnfinishedFailure(r: Report, countsMatched: bool) returns (s: State, es: seq<Event>)
    requires r.status == FAILURE && !Refunding(r)
    ensures Start(s) && s.countsMatched == countsMatched && Run(s, es).refunds == 2
    ensures forall i | 0 <= i < |es| :: !es[i].Repeat? && (es[i].Process? ==> es[i].report == r)
  {
    var late := r.submitTime + TIMEOUT_MILLIS + 1;
    var t;
    s, es, t := HoldUnfinished(r, countsMatched);
    es, t := Wins(s, es, t, 2, r, late);
    es, t := GivesUp(s, es, t, "channel");
    es, t := Wins(s, es, t, 3, r, late);
  }

  /** Two passes hold the unfinished FAILURE. */
  lemma HoldUnfinished(r: Report, countsMatched: bool) returns (s: State, es: seq<Event>, t: State)
    requires r.status == FAILURE && !Refunding(r)
    ensures Start(s) && s.countsMatched == t.countsMatched == countsMatched && t == Run(s, es)
    ensures forall i | 0 <= i < |es| :: !es[i].Repeat? && (es[i].Process? ==> es[i].report == r)
    ensures t.quota == 1 && t.refunds == 0 && t.pollers.Keys == {1, 2, 3}
    ensures t.row.status == FAILURE && t.row.progress == r.progress != COMPLETE && t.row.failReason == ""
    ensures t.row.submitTime == r.submitTime && t.pollers[2] == t.pollers[3] == Loaded(t.row)
  {
    s := State(Row("IN_PROGRESS", "0%", 0, "", 0, "", ""), 1, map[], 0, countsMatched);
    t := s;
    es, t := Loads(s, [], t, 1);
    es, t := Wins(s, es, t, 1, r, 0);
    es, t := Loads(s, es, t, 2);
    es, t := Loads(s, es, t, 3);
  }

  lemma GivesUp(s: State, es: seq<Event>, before: State, reason: string) returns (more: seq<Event>, after: State)
    requires Run(s, es) == before
    ensures more == es + [FailChannelGone(reason)] && after == Run(s, more)
    ensures after == before.(row := before.row.(status := FAILURE, progress := COMPLETE, failReason := reason))
  {
    after := Next(before, FailChannelGone(reason));
    more := Extend(s, es, before, FailChannelGone(reason), after);
  }

  /** The second report says nothing new in the compared columns. */
  predicate SaysTheSame(first: Report, second: Report) {
    first.failReason == second.failReason && first.submitTime == second.submitTime && first.rest == second.rest
  }

  /** One response that lists a failing task twice, with clean reports: the pass refunds it twice exactly when
      the second report says something new, or is not yet complete and its write counts. */
  lemma RepeatedReportIff(first: Report, second: Report, countsMatched: bool) returns (s: State, es: seq<Event>)
    requires Clean(first) && Refunding(first) && Clean(second) && Refunding(second)
    ensures Start(s) && s.countsMatched == countsMatched
    ensures |es| == 3 && es[1].Process? && es[2].Repeat? && es[1].report == first && es[2].report == second
    ensures var memory := Written(s.row, first);
      Run(s, es).refunds == 2 <==>
        || !SaysTheSame(first, second)
        || (second.progress != COMPLETE && (countsMatched || Written(memory, second) != memory))
  {
    s := State(Row("IN_PROGRESS", "0%", 0, "", 0, "", ""), 1, map[], 0, countsMatched);
    var t := s;
    es, t := Loads(s, [], t, 1);
    es, t := Wins(s, es, t, 1, first, 0);
    var memory := t.pollers[1].memory;
    es := Extend(s, es, t, Repeat(1, second, 0, true, true), Handle(t, 1, memory, second, 0, true, true));
  }

  /** A task is refunded at most once, under every interleaving of passes and whichever rows the database
      counts, exactly when every report marks FAILURE iff it ends the task. */
  lemma RefundedOnceIff(allowed: Report -> bool, countsMatched: bool)
    ensures RefundedOnce(allowed, countsMatched) <==> forall r | allowed(r) :: Clean(r)
  {
    if forall r | allowed(r) :: Clean(r) {
      forall s: State, es: seq<Event> | Start(s) && s.countsMatched == countsMatched && Allowed(es, allowed)
        ensures Run(s, es).refunds <= 1
      {
        RunKeepsInv(s, es, allowed);
      }
    } else {
      var r :| allowed(r) && !Clean(r);
      var s, es;
      if Refunding(r) {
        s, es := StatusKeepingRefund(r, countsMatched);
      } else {
        s, es := UnfinishedFailure(r, countsMatched);
      }
      assert Allowed(es, allowed);
    }
  }

  /** Every refunding report in the run is a FAILURE handled from a non-FAILURE snapshot. */
  ghost predicate RefundsLeaveNonFailure(s: State, es: seq<Event>) {
    forall i | 0 <= i < |es| && es[i].Process? && Refunding(es[i].report) ::
      es[i].report.status == FAILURE && SnapshotNotFailed(Run(s, es[..i]), es[i].poller)
  }

  ghost predicate SnapshotNotFailed(s: State, p: PollerId) {
    p in s.pollers && s.pollers[p].Loaded? && s.pollers[p].snapshot.status != FAILURE
  }

  lemma LeavesMore(s: State, es: seq<Event>, a: Event)
    requires RefundsLeaveNonFailure(s, es)
    requires a.Process? && Refunding(a.report) ==> a.report.status == FAILURE && SnapshotNotFailed(Run(s, es), a.poller)
    ensures RefundsLeaveNonFailure(s, es + [a])
  {
    var more := es + [a];
    assert more[..|es|] == es;
    forall i | 0 <= i < |more| && more[i].Process? && Refunding(more[i].report)
      ensures more[i].report.status == FAILURE && SnapshotNotFailed(Run(s, more[..i]), more[i].poller)
    {
      if i < |es| {
        assert more[..i] == es[..i];
      }
    }
  }

  lemma LoadsLeaving(s: State, es: seq<Event>, before: State, p: PollerId) returns (more: seq<Event>, after: State)
    requires Run(s, es) == before && before.row.progress != COMPLETE && p !in before.pollers
    requires RefundsLeaveNonFailure(s, es)
    ensures after == Run(s, more) && RefundsLeaveNonFailure(s, more)
    ensures after == before.(pollers := before.pollers[p := Loaded(before.row)])
  {
    LeavesMore(s, es, Load(p));
    more, after := Loads(s, es, before, p);
  }

  lemma WinsLeaving(s: State, es: seq<Event>, before: State, p: PollerId, r: Report)
    returns (more: seq<Event>, after: State)
    requires Run(s, es) == before && p in before.pollers && before.pollers[p].Loaded? && before.quota == 1
    requires var snapshot := before.pollers[p].snapshot;
      NeedsUpdate(snapshot, r) && Won(before.row, snapshot.status, Written(snapshot, r), true, before.countsMatched)
    requires RefundsLeaveNonFailure(s, es)
    requires Refunding(r) ==> r.status == FAILURE && before.pollers[p].snapshot.status != FAILURE
    ensures after == Run(s, more) && RefundsLeaveNonFailure(s, more)
    ensures after == AfterWin(before, p, before.pollers[p].snapshot, r)
  {
    more, after := Wins(s, es, before, p, r, before.pollers[p].snapshot.submitTime);
    LeavesMore(s, es, more[|es|]);
  }

  /** An unfinished FAILURE that one pass still holds while another pass reopens the task. */
  lemma HoldStaleFailure(failing: Report, going: Report, countsMatched: bool)
    returns (s: State, es: seq<Event>, t: State)
    requires failing == Report(FAILURE, "50%", "", 0, "", None)
    requires going == Report("IN_PROGRESS", "60%", "", 0, "", None)
    ensures Start(s) && s.countsMatched == t.countsMatched == countsMatched && RefundsLeaveNonFailure(s, es)
    ensures t == Run(s, es) && t.quota == 1 && t.refunds == 0 && t.pollers.Keys == {1, 2, 3}
    ensures t.row == Row("IN_PROGRESS", "60%", 1, "", 0, "", "")
    ensures t.pollers[2] == Loaded(Row(FAILURE, "50%", 1, "", 0, "", ""))
  {
    s := State(Row("IN_PROGRESS", "0%", 0, "", 0, "", ""), 1, map[], 0, countsMatched);
    t := s;
    es, t := LoadsLeaving(s, [], t, 1);
    es, t := WinsLeaving(s, es, t, 1, failing);
    es, t := LoadsLeaving(s, es, t, 2);
    es, t := LoadsLeaving(s, es, t, 3);
    es, t := WinsLeaving(s, es, t, 3, going);
  }

  /** Requiring only that refunding reports write FAILURE over a non-FAILURE snapshot is not enough:
      a stale FAILURE snapshot can reopen a refunded task. */
  lemma StaleFailureReopens(countsMatched: bool) returns (s: State, es: seq<Event>)
    ensures Start(s) && s.countsMatched == countsMatched
    ensures RefundsLeaveNonFailure(s, es) && Run(s, es).refunds == 2
  {
    var failing, going := Report(FAILURE, "50%", "", 0, "", None), Report("IN_PROGRESS", "60%", "", 0, "", None);
    var last := Report(FAILURE, COMPLETE, "", 0, "", None);
    var t;
    s, es, t := HoldStaleFailure(failing, going, countsMatched);
    es, t := LoadsLeaving(s, es, t, 4);
    es, t := WinsLeaving(s, es, t, 4, last);
    es, t := WinsLeaving(s, es, t, 2, going);
    es, t := LoadsLeaving(s, es, t, 5);
    es, t := WinsLeaving(s, es, t, 5, last);
  }
}
