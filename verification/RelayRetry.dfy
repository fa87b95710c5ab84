/** The retry loops of the relay: how often they try, and what happens to the pre-consumed quota. */
module RelayRetry {
  import opened Basics

  /** `groups` is the number of groups an "auto" token may use. */
  datatype Config = Config(retryTimes: int, auto: bool, groups: nat, crossGroup: bool)

  /** The retry counter, its one-shot reset mark, and the index of the current auto group. */
  datatype Counter = Counter(retry: int, resetNextTry: bool, group: nat)

  // ---------------------------------------------------------------- choosing a channel

  /** The first group from `i` on that has a channel; groups after the starting one begin at
      priority zero. */
  function Search(c: Config, available: (nat, int) -> bool, i: nat, start: nat, retry: int): (found: nat)
    requires i <= c.groups
    ensures i <= found <= c.groups
    decreases c.groups - i
  {
    if i == c.groups || available(i, if i > start then 0 else retry) then i
    else Search(c, available, i + 1, start, retry)
  }

  function Found(c: Config, p: Counter, available: (nat, int) -> bool): bool
    requires p.group <= c.groups
  {
    if c.auto then Search(c, available, p.group, p.group, p.retry) < c.groups else available(0, p.retry)
  }

  function Selected(c: Config, p: Counter, available: (nat, int) -> bool): (q: Counter)
    requires p.group <= c.groups
    ensures q.group <= c.groups
  {
    if !c.auto then p
    else
      var i := Search(c, available, p.group, p.group, p.retry);
      var q := Counter(if i > p.group then 0 else p.retry, p.resetNextTry, i);
      if i < c.groups && c.crossGroup && q.retry >= c.retryTimes then Counter(0, true, i + 1) else q
  }

  function Increased(p: Counter): Counter {
    if p.resetNextTry then p.(resetNextTry := false) else p.(retry := p.retry + 1)
  }

  class RetryParam {
    var retry: int
    var resetNextTry: bool
    var group: nat

    ghost function Abstract(): Counter reads this { Counter(retry, resetNextTry, group) }

    constructor (group: nat)
      ensures Abstract() == Counter(0, false, group)
    {
      retry, resetNextTry, this.group := 0, false, group;
    }

    method IncreaseRetry()
      modifies this
      ensures Abstract() == Increased(old(Abstract()))
    {
      if resetNextTry {
        resetNextTry := false;
        return;
      }
      retry := retry + 1;
    }

    method GetChannel(c: Config, available: (nat, int) -> bool) returns (found: bool)
      requires group <= c.groups
      modifies this
      ensures found == Found(c, old(Abstract()), available) && Abstract() == Selected(c, old(Abstract()), available)
    {
      if !c.auto {
        return available(0, retry);
      }
      found := false;
      ghost var before := Abstract();
      var start, i := group, group;
      while i < c.groups && !found
        invariant start == before.group <= i <= c.groups && !found
        invariant Abstract() == Counter(if i > start then 0 else before.retry, before.resetNextTry, i)
        invariant Search(c, available, start, start, before.retry) == Search(c, available, i, start, before.retry)
      {
        var priority := if i > start then 0 else retry;
        if available(i, priority) {
          found := true;
          if c.crossGroup && priority >= c.retryTimes {
            group := i + 1;
            retry := 0;
            resetNextTry := true;
          } else {
            group := i;
          }
          return;
        }
        group := i + 1;
        retry := 0;
        i := i + 1;
      }
    }
  }

  // ---------------------------------------------------------------- when to retry

  /** An upstream error; the last two say what the operator's settings make of its code and status. */
  datatype Failure = Failure(channelError: bool, skipRetry: bool, status: int, skippedCode: bool, retriedStatus: bool)

  datatype Context = Context(affinityFailed: bool, specificChannel: bool)

  predicate ShouldRetry(ctx: Context, e: Failure, retriesLeft: int) {
    if ctx.affinityFailed then false
    else if e.channelError then true
    else if e.skipRetry || retriesLeft <= 0 || ctx.specificChannel then false
    else if 200 <= e.status < 300 then false
    else if e.status < 100 || e.status > 599 then true
    else !e.skippedCode && e.retriedStatus
  }

  datatype TaskFailure = TaskFailure(status: int, localError: bool, skippedStatus: bool)

  predicate ShouldRetryTask(ctx: Context, e: TaskFailure, retriesLeft: int) {
    if ctx.affinityFailed || retriesLeft <= 0 || ctx.specificChannel then false
    else if e.status == 429 || e.status == 307 then true
    else if 500 <= e.status < 600 then !e.skippedStatus
    else !(e.status == 400 || e.status == 408 || e.localError || 200 <= e.status < 300)
  }

  // ---------------------------------------------------------------- one pass

  /** Where the channel of a pass comes from: the request brought one, a task is locked to one, or one
      is selected.  A locked or selected channel may fail to be set up. */
  datatype Source = Given | Locked(setupOk: bool) | Select(available: (nat, int) -> bool, setupOk: bool)

  datatype Outcome<E> = Success(quota: int) | Failed(error: E)

  /** What one pass of a loop meets, up to the outcome of its attempt. */
  datatype Pass<E> = Pass(source: Source, channelError: E, bodyOk: bool, bodyError: E, outcome: Outcome<E>,
                          ctx: Context)

  predicate HasChannel(c: Config, p: Counter, source: Source)
    requires p.group <= c.groups
  {
    match source
    case Given => true
    case Locked(setupOk) => p.retry > 0 ==> setupOk
    case Select(available, setupOk) => Found(c, p, available) && setupOk
  }

  function Chosen(c: Config, p: Counter, source: Source): (q: Counter)
    requires p.group <= c.groups
    ensures q.group <= c.groups
  {
    if source.Select? then Selected(c, p, source.available) else p
  }

  method ChannelFor(param: RetryParam, c: Config, source: Source) returns (found: bool)
    requires param.group <= c.groups
    modifies param
    ensures found == HasChannel(c, old(param.Abstract()), source)
    ensures param.Abstract() == Chosen(c, old(param.Abstract()), source)
  {
    match source {
      case Given => found := true;
      case Locked(setupOk) => found := param.retry <= 0 || setupOk;
      case Select(available, setupOk) => {
        found := param.GetChannel(c, available);
        found := found && setupOk;
      }
    }
  }

  // ---------------------------------------------------------------- the budget of attempts

  /** The groups a selection can still move on to. */
  function GroupsAhead(c: Config, p: Counter): nat
    requires p.group <= c.groups
  {
    if c.auto then c.groups - p.group else 0
  }

  /** Attempts that are left: the rest of the current group and all of the later ones. */
  function Budget(c: Config, p: Counter): int
    requires p.group <= c.groups
  {
    Attempts(c, GroupsAhead(c, p)) + c.retryTimes + 1 - p.retry
  }

  function Attempts(c: Config, groups: nat): int {
    groups * (c.retryTimes + 1)
  }

  /** One more than the retries, in every group from the first one on and once beside them. */
  function Bound(c: Config, group: nat): int
    requires group <= c.groups
  {
    Budget(c, Counter(0, false, group))
  }

  /** Between two passes of the loop, after `tried` attempts. */
  predicate InBudget(c: Config, group: nat, p: Counter, tried: nat)
    requires group <= c.groups
  {
    && 0 <= c.retryTimes && 0 <= p.retry <= c.retryTimes + 1 && !p.resetNextTry && p.group <= c.groups
    && 0 <= Budget(c, p) && tried + Budget(c, p) <= Bound(c, group)
  }

  lemma MoreAttempts(c: Config, fewer: nat, more: nat)
    requires 0 <= c.retryTimes && fewer < more
    ensures 0 <= Attempts(c, fewer) && Attempts(c, fewer) + c.retryTimes + 1 <= Attempts(c, more)
  {
    Multiples(fewer, more, c.retryTimes + 1);
  }

  lemma Multiples(fewer: nat, more: nat, n: nat)
    requires fewer < more
    ensures 0 <= fewer * n && fewer * n + n <= more * n
  {
    var d := more - fewer - 1;
    assert more * n == (fewer + d + 1) * n == fewer * n + d * n + n;
  }

  lemma StartInBudget(c: Config, group: nat)
    requires 0 <= c.retryTimes && group <= c.groups
    ensures InBudget(c, group, Counter(0, false, group), 0)
  {
    assert Attempts(c, 0) == 0;
    if c.auto && group < c.groups {
      MoreAttempts(c, 0, c.groups - group);
    }
  }

  /** A pass with a channel uses up some of the budget, whether or not the counter was reset. */
  lemma PassUsesBudget(c: Config, group: nat, p: Counter, source: Source, tried: nat)
    requires group <= c.groups && InBudget(c, group, p, tried)
    requires p.retry <= c.retryTimes && HasChannel(c, p, source)
    ensures InBudget(c, group, Increased(Chosen(c, p, source)), tried + 1)
    ensures Budget(c, Increased(Chosen(c, p, source))) < Budget(c, p)
    ensures tried + 1 <= Bound(c, group)
  {
    assert Attempts(c, 0) == 0;
    if GroupsAhead(c, p) > 0 {
      MoreAttempts(c, 0, GroupsAhead(c, p));
    }
    var q := Chosen(c, p, source);
    if GroupsAhead(c, q) > 0 {
      MoreAttempts(c, 0, GroupsAhead(c, q));
    }
    if source.Select? && c.auto && q.group > p.group {
      MoreAttempts(c, c.groups - q.group, c.groups - p.group);
    }
  }

  // ---------------------------------------------------------------- the exact maximum

  /** How many attempts a counter that only selects can still lead to: the retries left in the current
      group, and for every later group all retries with one more - or just the retries when a group
      is only left because it has no channel. */
  function Rest(c: Config, p: Counter): int
    requires p.group <= c.groups
  {
    if p.retry > c.retryTimes then 0
    else if !c.auto then c.retryTimes + 1 - p.retry
    else if p.group == c.groups then 0
    else Later(c, c.groups - p.group - 1) + c.retryTimes + 1 - p.retry
  }

  function Later(c: Config, groups: nat): int {
    groups * if c.crossGroup then c.retryTimes + 1 else c.retryTimes
  }

  /** The attempts of a request that came with a channel: the first pass uses that one, the later
      passes select. */
  function MaxAttempts(c: Config, group: nat): int
    requires group <= c.groups
  {
    if !c.auto then c.retryTimes + 1
    else if !c.crossGroup then (c.groups - group) * c.retryTimes + 1
    else if c.retryTimes == 0 || group == c.groups then 1
    else (c.groups - group) * (c.retryTimes + 1)
  }

  lemma LaterMore(c: Config, fewer: nat, more: nat)
    requires 0 <= c.retryTimes && fewer < more
    ensures 0 <= Later(c, fewer)
    ensures Later(c, more) >= Later(c, fewer) + if c.crossGroup then c.retryTimes + 1 else c.retryTimes
  {
    Multiples(fewer, more, if c.crossGroup then c.retryTimes + 1 else c.retryTimes);
  }

  lemma LaterOne(c: Config, groups: nat)
    ensures Later(c, groups + 1) == Later(c, groups) + if c.crossGroup then c.retryTimes + 1 else c.retryTimes
  {
    var n := if c.crossGroup then c.retryTimes + 1 else c.retryTimes;
    assert (groups + 1) * n == groups * n + n;
  }

  lemma MaxAttemptsIs(c: Config, group: nat)
    requires 0 <= c.retryTimes && group <= c.groups
    ensures MaxAttempts(c, group) == 1 + Rest(c, Counter(1, false, group))
  {
    if c.auto && group < c.groups {
      LaterOne(c, c.groups - group - 1);
    }
  }

  predicate BetweenPasses(c: Config, p: Counter) {
    0 <= c.retryTimes && 0 <= p.retry && !p.resetNextTry && p.group <= c.groups
  }

  /** A pass that selects takes at least one from the rest. */
  lemma SelectionUsesRest(c: Config, p: Counter, source: Source)
    requires BetweenPasses(c, p) && p.retry <= c.retryTimes && source.Select? && HasChannel(c, p, source)
    ensures var q := Increased(Chosen(c, p, source)); BetweenPasses(c, q) && Rest(c, q) + 1 <= Rest(c, p)
  {
    var q := Increased(Chosen(c, p, source));
    if c.auto {
      if q.group < c.groups && q.group > p.group {
        LaterMore(c, c.groups - q.group - 1, c.groups - p.group - 1);
      }
      if p.group + 1 < c.groups {
        LaterMore(c, 0, c.groups - p.group - 1);
      }
    }
  }

  // ---------------------------------------------------------------- which passes make an attempt

  type Retry<!E> = (Context, E, int) -> bool

  /** The counter before pass `k`, if the loop gets there. */
  function CounterAt<E>(c: Config, group: nat, passes: nat -> Pass<E>, k: nat): (p: Counter)
    requires group <= c.groups
    ensures p.group <= c.groups
  {
    if k == 0 then Counter(0, false, group)
    else Increased(Chosen(c, CounterAt(c, group, passes, k - 1), passes(k - 1).source))
  }

  /** Pass `k` makes an attempt: a retry is left, and it has a channel and a body. */
  predicate Tries<E>(c: Config, group: nat, passes: nat -> Pass<E>, k: nat)
    requires group <= c.groups
  {
    var p := CounterAt(c, group, passes, k);
    p.retry <= c.retryTimes && HasChannel(c, p, passes(k).source) && passes(k).bodyOk
  }

  /** Pass `k` fails in a way that asks for another one. */
  predicate GoesOn<E>(c: Config, group: nat, passes: nat -> Pass<E>, retry: Retry<E>, k: nat)
    requires group <= c.groups
  {
    var q := Chosen(c, CounterAt(c, group, passes, k), passes(k).source);
    passes(k).outcome.Failed? && retry(passes(k).ctx, passes(k).outcome.error, c.retryTimes - q.retry)
  }

  /** The logged passes all try, and all but perhaps the last fail and ask for another one. */
  predicate IsPrefix<E(==)>(c: Config, group: nat, passes: nat -> Pass<E>, retry: Retry<E>, log: seq<Outcome<E>>)
    requires group <= c.groups
    decreases |log|, 0
  {
    log == [] ||
    var n := |log| - 1;
    && IsGoing(c, group, passes, retry, log[..n])
    && Tries(c, group, passes, n) && log[n] == passes(n).outcome
  }

  /** Every attempt so far failed and asked for another pass. */
  predicate IsGoing<E(==)>(c: Config, group: nat, passes: nat -> Pass<E>, retry: Retry<E>, log: seq<Outcome<E>>)
    requires group <= c.groups
    decreases |log|, 1
  {
    IsPrefix(c, group, passes, retry, log) && (log == [] || GoesOn(c, group, passes, retry, |log| - 1))
  }

  /** The log is complete: its last attempt does not ask for another pass, or the next pass makes none. */
  predicate IsLog<E(==)>(c: Config, group: nat, passes: nat -> Pass<E>, retry: Retry<E>, log: seq<Outcome<E>>)
    requires group <= c.groups
  {
    && IsPrefix(c, group, passes, retry, log)
    && (IsGoing(c, group, passes, retry, log) ==> !Tries(c, group, passes, |log|))
  }

  lemma Grows<E>(c: Config, group: nat, passes: nat -> Pass<E>, retry: Retry<E>, log: seq<Outcome<E>>)
    requires group <= c.groups && IsGoing(c, group, passes, retry, log)
    ensures !Tries(c, group, passes, |log|) ==> IsLog(c, group, passes, retry, log)
    ensures Tries(c, group, passes, |log|) ==>
      if GoesOn(c, group, passes, retry, |log|) then IsGoing(c, group, passes, retry, log + [passes(|log|).outcome])
      else IsLog(c, group, passes, retry, log + [passes(|log|).outcome])
  {
    assert (log + [passes(|log|).outcome])[..|log|] == log;
  }

  lemma {:induction false} PrefixAt<E>(c: Config, group: nat, passes: nat -> Pass<E>, retry: Retry<E>,
                                       log: seq<Outcome<E>>, k: nat)
    requires group <= c.groups && IsPrefix(c, group, passes, retry, log) && k < |log|
    ensures Tries(c, group, passes, k) && log[k] == passes(k).outcome
    ensures k < |log| - 1 ==> GoesOn(c, group, passes, retry, k)
  {
    if k < |log| - 1 {
      PrefixAt(c, group, passes, retry, log[..|log| - 1], k);
    }
  }

  lemma LogNotLonger<E>(c: Config, group: nat, passes: nat -> Pass<E>, retry: Retry<E>,
                        one: seq<Outcome<E>>, two: seq<Outcome<E>>)
    requires group <= c.groups && IsLog(c, group, passes, retry, one) && IsLog(c, group, passes, retry, two)
    ensures |one| <= |two|
  {
    if |one| > |two| {
      PrefixAt(c, group, passes, retry, one, |two|);
      if |two| > 0 {
        PrefixAt(c, group, passes, retry, one, |two| - 1);
      }
    }
  }

  /** There is only one such log: the passes decide which attempts are made. */
  lemma LogIsUnique<E>(c: Config, group: nat, passes: nat -> Pass<E>, retry: Retry<E>,
                       one: seq<Outcome<E>>, two: seq<Outcome<E>>)
    requires group <= c.groups && IsLog(c, group, passes, retry, one) && IsLog(c, group, passes, retry, two)
    ensures one == two
  {
    LogNotLonger(c, group, passes, retry, one, two);
    LogNotLonger(c, group, passes, retry, two, one);
    forall k | 0 <= k < |one| ensures one[k] == two[k] {
      PrefixAt(c, group, passes, retry, one, k);
      PrefixAt(c, group, passes, retry, two, k);
    }
  }

  // ---------------------------------------------------------------- the loops

  predicate EndsInSuccess<E>(log: seq<Outcome<E>>) {
    |log| > 0 && log[|log| - 1].Success?
  }

  /** What the passes of a request look like: the first one uses the channel that the request came with,
      and handling it records the channel, so every later one selects. */
  ghost predicate GivenThenSelect<E(!new)>(passes: nat -> Pass<E>) {
    passes(0).source.Given? && forall k: nat | k > 0 :: passes(k).source.Select?
  }

  /** A task that continues another one stays with the channel of that one. */
  ghost predicate AlwaysLocked<E(!new)>(passes: nat -> Pass<E>) {
    forall k: nat :: passes(k).source.Locked?
  }

  ghost predicate WithinBounds<E(!new)>(c: Config, group: nat, passes: nat -> Pass<E>, tried: nat)
    requires group <= c.groups
  {
    c.retryTimes >= 0 ==>
      && tried <= Bound(c, group)
      && (GivenThenSelect(passes) ==> tried <= MaxAttempts(c, group))
      && (AlwaysLocked(passes) ==> tried <= c.retryTimes + 1)
  }

  /** Every sequence of attempts, of either loop, stays in the budget. */
  lemma {:induction false} LogIsBounded<E(!new)>(c: Config, group: nat, passes: nat -> Pass<E>, retry: Retry<E>,
                                                 log: seq<Outcome<E>>)
    requires group <= c.groups && c.retryTimes >= 0 && IsPrefix(c, group, passes, retry, log)
    ensures InBudget(c, group, CounterAt(c, group, passes, |log|), |log|)
  {
    if log == [] {
      StartInBudget(c, group);
    } else {
      var n := |log| - 1;
      LogIsBounded(c, group, passes, retry, log[..n]);
      PassUsesBudget(c, group, CounterAt(c, group, passes, n), passes(n).source, n);
    }
  }

  /** The attempts made and the rest never exceed the maximum. */
  lemma {:induction false} LogUsesRest<E(!new)>(c: Config, group: nat, passes: nat -> Pass<E>, retry: Retry<E>,
                                                log: seq<Outcome<E>>)
    requires group <= c.groups && c.retryTimes >= 0 && GivenThenSelect(passes)
    requires log != [] && IsPrefix(c, group, passes, retry, log)
    ensures var p := CounterAt(c, group, passes, |log|);
      BetweenPasses(c, p) && |log| + Rest(c, p) <= MaxAttempts(c, group)
  {
    var n := |log| - 1;
    if n == 0 {
      MaxAttemptsIs(c, group);
      assert CounterAt(c, group, passes, 0) == Counter(0, false, group);
      assert CounterAt(c, group, passes, 1) == Counter(1, false, group);
    } else {
      LogUsesRest(c, group, passes, retry, log[..n]);
      SelectionUsesRest(c, CounterAt(c, group, passes, n), passes(n).source);
    }
  }

  lemma RestIsNatural(c: Config, p: Counter)
    requires BetweenPasses(c, p)
    ensures Rest(c, p) >= 0
  {
    if c.auto && p.group < c.groups && p.retry <= c.retryTimes {
      if p.group + 1 < c.groups {
        LaterMore(c, 0, c.groups - p.group - 1);
      }
      assert Later(c, 0) == 0;
    }
  }

  lemma {:induction false} LockedCounter<E(!new)>(c: Config, group: nat, passes: nat -> Pass<E>, k: nat)
    requires group <= c.groups && AlwaysLocked(passes)
    ensures CounterAt(c, group, passes, k) == Counter(k, false, group)
  {
    if k > 0 {
      LockedCounter(c, group, passes, k - 1);
      assert passes(k - 1).source.Locked?;
    }
  }

  lemma {:induction false} CounterIsNatural<E(!new)>(c: Config, group: nat, passes: nat -> Pass<E>, k: nat)
    requires group <= c.groups
    ensures CounterAt(c, group, passes, k).retry >= 0
  {
    if k > 0 {
      CounterIsNatural(c, group, passes, k - 1);
    }
  }

  /** Every log is within the bounds. */
  lemma BoundsOf<E(!new)>(c: Config, group: nat, passes: nat -> Pass<E>, retry: Retry<E>, log: seq<Outcome<E>>)
    requires group <= c.groups && IsPrefix(c, group, passes, retry, log)
    ensures WithinBounds(c, group, passes, |log|)
  {
    if c.retryTimes >= 0 {
      LogIsBounded(c, group, passes, retry, log);
      if GivenThenSelect(passes) {
        RestIsNatural(c, Counter(1, false, group));
        MaxAttemptsIs(c, group);
        if log != [] {
          LogUsesRest(c, group, passes, retry, log);
          RestIsNatural(c, CounterAt(c, group, passes, |log|));
        }
      }
      if AlwaysLocked(passes) && log != [] {
        LockedCounter(c, group, passes, |log| - 1);
      }
    }
  }

  /** The loop that both relays share; `log` holds the outcomes of the attempts, in order. */
  method LoopOverChannels<E(!new)>(c: Config, group: nat, passes: nat -> Pass<E>, retry: Retry<E>)
    returns (log: seq<Outcome<E>>, error: Option<E>)
    requires group <= c.groups
    ensures IsLog(c, group, passes, retry, log)
    ensures c.retryTimes >= 0 ==> (error.None? <==> EndsInSuccess(log))
    ensures c.retryTimes < 0 ==> log == [] && error.None?
  {
    log, error := [], None;
    var param := new RetryParam(group);
    while param.retry <= c.retryTimes
      invariant fresh(param) && param.Abstract() == CounterAt(c, group, passes, |log|)
      invariant IsGoing(c, group, passes, retry, log)
      invariant error.Some? <==> |log| > 0
      invariant |log| > 0 ==> c.retryTimes >= 0
      decreases if c.retryTimes >= 0 then Budget(c, param.Abstract()) else 0
    {
      ghost var before := param.Abstract();
      UseBudget(c, group, passes, retry, log);
      Grows(c, group, passes, retry, log);
      var pass := passes(|log|);
      var found := ChannelFor(param, c, pass.source);
      if !found || !pass.bodyOk {
        return log, Some(if found then pass.bodyError else pass.channelError);
      }
      log := log + [pass.outcome];
      if pass.outcome.Success? || !retry(pass.ctx, pass.outcome.error, c.retryTimes - param.retry) {
        return log, if pass.outcome.Success? then None else Some(pass.outcome.error);
      }
      error := Some(pass.outcome.error);
      param.IncreaseRetry();
    }
    Grows(c, group, passes, retry, log);
  }

  /** The same, with what follows for the number of attempts. */
  method TryChannels<E(!new)>(c: Config, group: nat, passes: nat -> Pass<E>, retry: Retry<E>)
    returns (log: seq<Outcome<E>>, error: Option<E>)
    requires group <= c.groups
    ensures IsLog(c, group, passes, retry, log) && WithinBounds(c, group, passes, |log|)
    ensures c.retryTimes >= 0 ==> (error.None? <==> EndsInSuccess(log))
    ensures c.retryTimes < 0 ==> log == [] && error.None?
  {
    log, error := LoopOverChannels(c, group, passes, retry);
    BoundsOf(c, group, passes, retry, log);
  }

  /** Inside the loop the budget is not used up, and an attempt uses some of it. */
  lemma UseBudget<E(!new)>(c: Config, group: nat, passes: nat -> Pass<E>, retry: Retry<E>, log: seq<Outcome<E>>)
    requires group <= c.groups && IsGoing(c, group, passes, retry, log)
    requires CounterAt(c, group, passes, |log|).retry <= c.retryTimes
    ensures c.retryTimes >= 0 && 0 <= Budget(c, CounterAt(c, group, passes, |log|))
    ensures Tries(c, group, passes, |log|) ==>
      0 <= Budget(c, CounterAt(c, group, passes, |log| + 1)) < Budget(c, CounterAt(c, group, passes, |log|))
  {
    CounterIsNatural(c, group, passes, |log|);
    LogIsBounded(c, group, passes, retry, log);
    if Tries(c, group, passes, |log|) {
      PassUsesBudget(c, group, CounterAt(c, group, passes, |log|), passes(|log|).source, |log|);
    }
  }

  /** Refunds once exactly when it ends with an error and quota was pre-consumed. */
  method Relay(c: Config, group: nat, billing: bool, passes: nat -> Pass<Failure>)
    returns (log: seq<Outcome<Failure>>, error: Option<Failure>, refunds: nat)
    requires group <= c.groups
    ensures IsLog(c, group, passes, ShouldRetry, log) && WithinBounds(c, group, passes, |log|)
    ensures c.retryTimes >= 0 ==> (error.None? <==> EndsInSuccess(log))
    ensures c.retryTimes < 0 ==> log == [] && error.None?
    ensures refunds == if error.Some? && billing then 1 else 0
  {
    log, error := TryChannels(c, group, passes, ShouldRetry);
    refunds := 0;
    if error.Some? && billing {
      refunds := 1;
    }
  }

  /** What is left of a task submission: settled with the quota of the last attempt, answered with an
      error, or neither because no attempt was allowed and there is no result to settle. */
  datatype Ending = Settled(quota: int) | Answered(error: TaskFailure) | NoResult

  method RelayTask(c: Config, group: nat, billing: bool, passes: nat -> Pass<TaskFailure>)
    returns (log: seq<Outcome<TaskFailure>>, ending: Ending, refunds: nat)
    requires group <= c.groups
    ensures IsLog(c, group, passes, ShouldRetryTask, log) && WithinBounds(c, group, passes, |log|)
    ensures ending.Settled? <==> EndsInSuccess(log)
    ensures EndsInSuccess(log) ==> ending.quota == log[|log| - 1].quota
    ensures ending.NoResult? <==> c.retryTimes < 0
    ensures refunds == if ending.Answered? && billing then 1 else 0
  {
    var error;
    log, error := TryChannels(c, group, passes, ShouldRetryTask);
    refunds := 0;
    if error.None? {
      ending := if log == [] then NoResult else Settled(log[|log| - 1].quota);
    } else {
      ending := Answered(error.value);
      if billing {
        refunds := 1;
      }
    }
  }

  // ---------------------------------------------------------------- what the bounds mean

  /** With one fixed group and a counter that grows by one per pass, at most one attempt more than
      the retries. */
  lemma FixedGroupBound<E(!new)>(c: Config, group: nat, passes: nat -> Pass<E>, retry: Retry<E>, log: seq<Outcome<E>>)
    requires group <= c.groups && c.retryTimes >= 0 && !c.auto && IsLog(c, group, passes, retry, log)
    ensures |log| <= c.retryTimes + 1
  {
    BoundsOf(c, group, passes, retry, log);
    assert Attempts(c, 0) == 0;
  }

  // ---------------------------------------------------------------- the maximum is reached

  /** Selection at counter `p`.  A group that is only left for want of a channel has lost its channels when
      the retries are used up, unless it is the last one; all groups before it have lost theirs. */
  function StubbornSource(c: Config, p: Counter): Source {
    Select((g: nat, priority: int) =>
      !c.auto || c.crossGroup || g > p.group || (g == p.group && (p.retry < c.retryTimes || g + 1 == c.groups)), true)
  }

  /** The source of pass `k`, and the counter that it meets. */
  function StubbornAt(c: Config, group: nat, k: nat): Source
    requires group <= c.groups
    decreases k, 1
  {
    if k == 0 then Given else StubbornSource(c, StubbornCounter(c, group, k))
  }

  function StubbornCounter(c: Config, group: nat, k: nat): (p: Counter)
    requires group <= c.groups
    ensures p.group <= c.groups
    decreases k, 0
  {
    if k == 0 then Counter(0, false, group)
    else Increased(Chosen(c, StubbornCounter(c, group, k - 1), StubbornAt(c, group, k - 1)))
  }

  /** Every attempt fails with the same error. */
  function Stubborn<E>(c: Config, group: nat, e: E, ctx: Context): nat -> Pass<E>
    requires group <= c.groups
  {
    (k: nat) => Pass(StubbornAt(c, group, k), e, true, e, Failed(e), ctx)
  }

  lemma {:induction false} StubbornCounterAt<E>(c: Config, group: nat, e: E, ctx: Context, k: nat)
    requires group <= c.groups
    ensures CounterAt(c, group, Stubborn(c, group, e, ctx), k) == StubbornCounter(c, group, k)
  {
    if k > 0 {
      StubbornCounterAt(c, group, e, ctx, k - 1);
    }
  }

  /** A group has a channel for every priority or for none: the number of the retry is clipped to the
      priorities that exist. */
  ghost predicate ClipsPriorities<E(!new)>(passes: nat -> Pass<E>) {
    forall k: nat, g: nat, i: int, j: int | passes(k).source.Select? ::
      passes(k).source.available(g, i) == passes(k).source.available(g, j)
  }

  /** The counters that a stubborn run meets after its first pass. */
  predicate Met(c: Config, p: Counter) {
    BetweenPasses(c, p) && (p.retry > 0 || (c.auto && c.crossGroup && c.retryTimes > 0))
  }

  lemma StubbornSearch(c: Config, p: Counter)
    requires Met(c, p) && c.auto && p.group < c.groups && p.retry <= c.retryTimes
    ensures Search(c, StubbornSource(c, p).available, p.group, p.group, p.retry) ==
      if c.crossGroup || p.retry < c.retryTimes || p.group + 1 == c.groups then p.group else p.group + 1
  {
  }

  /** While there is a rest, a stubborn pass has a channel and takes exactly one from the rest; when it
      is used up, the next pass makes no attempt.  No retry is left only at the end. */
  lemma StubbornStep(c: Config, p: Counter)
    requires Met(c, p)
    ensures var source := StubbornSource(c, p);
      var q := Increased(Chosen(c, p, source));
      if Rest(c, p) > 0 then
        && p.retry <= c.retryTimes && HasChannel(c, p, source) && Met(c, q) && Rest(c, q) + 1 == Rest(c, p)
        && (Chosen(c, p, source).retry >= c.retryTimes ==> Rest(c, q) == 0)
      else
        p.retry > c.retryTimes || !HasChannel(c, p, source)
  {
    assert Later(c, 0) == 0;
    if c.auto && p.group < c.groups && p.retry <= c.retryTimes {
      StubbornSearch(c, p);
      if p.group + 1 < c.groups {
        LaterOne(c, c.groups - p.group - 2);
        LaterMore(c, 0, c.groups - p.group - 1);
      }
    }
  }

  lemma StubbornFirst<E(!new)>(c: Config, group: nat, e: E, ctx: Context, retry: Retry<E>)
    returns (log: seq<Outcome<E>>)
    requires group <= c.groups && c.retryTimes >= 0 && forall left | left > 0 :: retry(ctx, e, left)
    ensures log == [Failed(e)]
    ensures CounterAt(c, group, Stubborn(c, group, e, ctx), 1) == Counter(1, false, group)
    ensures if c.retryTimes > 0 then IsGoing(c, group, Stubborn(c, group, e, ctx), retry, log)
            else IsLog(c, group, Stubborn(c, group, e, ctx), retry, log)
  {
    var passes := Stubborn(c, group, e, ctx);
    log := [Failed(e)];
    assert CounterAt(c, group, passes, 0) == Counter(0, false, group);
    assert IsGoing(c, group, passes, retry, []);
    Grows(c, group, passes, retry, []);
    assert [] + [passes(0).outcome] == log;
    if c.retryTimes == 0 && IsGoing(c, group, passes, retry, log) {
      Grows(c, group, passes, retry, log);
    }
  }

  /** One more attempt, after which the run goes on or is complete. */
  lemma StubbornGrows<E(!new)>(c: Config, group: nat, e: E, ctx: Context, retry: Retry<E>, log: seq<Outcome<E>>)
    returns (more: seq<Outcome<E>>)
    requires group <= c.groups && forall left | left > 0 :: retry(ctx, e, left)
    requires log != [] && IsGoing(c, group, Stubborn(c, group, e, ctx), retry, log)
    requires var p := CounterAt(c, group, Stubborn(c, group, e, ctx), |log|); Met(c, p) && Rest(c, p) > 0
    ensures |more| == |log| + 1
    ensures var p := CounterAt(c, group, Stubborn(c, group, e, ctx), |log|);
      var q := CounterAt(c, group, Stubborn(c, group, e, ctx), |more|);
      && Met(c, q) && Rest(c, q) + 1 == Rest(c, p)
      && (IsGoing(c, group, Stubborn(c, group, e, ctx), retry, more)
          || (IsLog(c, group, Stubborn(c, group, e, ctx), retry, more) && Rest(c, q) == 0))
  {
    var passes, n := Stubborn(c, group, e, ctx), |log|;
    var p := CounterAt(c, group, passes, n);
    StubbornCounterAt(c, group, e, ctx, n);
    StubbornStep(c, p);
    Grows(c, group, passes, retry, log);
    more := log + [passes(n).outcome];
    assert CounterAt(c, group, passes, n + 1) == Increased(Chosen(c, p, passes(n).source));
  }

  lemma StubbornEnds<E(!new)>(c: Config, group: nat, e: E, ctx: Context, retry: Retry<E>, log: seq<Outcome<E>>)
    requires group <= c.groups && log != [] && IsGoing(c, group, Stubborn(c, group, e, ctx), retry, log)
    requires var p := CounterAt(c, group, Stubborn(c, group, e, ctx), |log|); Met(c, p) && Rest(c, p) <= 0
    ensures IsLog(c, group, Stubborn(c, group, e, ctx), retry, log)
    ensures Rest(c, CounterAt(c, group, Stubborn(c, group, e, ctx), |log|)) == 0
  {
    var p := CounterAt(c, group, Stubborn(c, group, e, ctx), |log|);
    RestIsNatural(c, p);
    StubbornCounterAt(c, group, e, ctx, |log|);
    StubbornStep(c, p);
    Grows(c, group, Stubborn(c, group, e, ctx), retry, log);
  }

  /** The maximum is reached, by every error that asks for another attempt as long as a retry is left:
      with an auto token the counter starts again in every group. */
  lemma MaximumIsReached<E(!new)>(c: Config, group: nat, e: E, ctx: Context, retry: Retry<E>)
    returns (passes: nat -> Pass<E>, log: seq<Outcome<E>>)
    requires group <= c.groups && c.retryTimes >= 0 && forall left | left > 0 :: retry(ctx, e, left)
    ensures GivenThenSelect(passes) && ClipsPriorities(passes)
    ensures IsLog(c, group, passes, retry, log) && |log| == MaxAttempts(c, group)
  {
    passes := Stubborn(c, group, e, ctx);
    log := StubbornFirst(c, group, e, ctx, retry);
    MaxAttemptsIs(c, group);
    if c.retryTimes > 0 {
      while Rest(c, CounterAt(c, group, passes, |log|)) > 0
        invariant log != [] && IsGoing(c, group, passes, retry, log) && Met(c, CounterAt(c, group, passes, |log|))
        invariant |log| + Rest(c, CounterAt(c, group, passes, |log|)) == MaxAttempts(c, group)
        decreases Rest(c, CounterAt(c, group, passes, |log|))
      {
        var more := StubbornGrows(c, group, e, ctx, retry, log);
        if !IsGoing(c, group, passes, retry, more) {
          return passes, more;
        }
        log := more;
      }
      StubbornEnds(c, group, e, ctx, retry, log);
    }
  }

  /** In particular by a rate-limited channel, in both loops. */
  lemma RateLimitedReaches(c: Config, group: nat)
    requires group <= c.groups && c.retryTimes >= 0
    ensures exists passes: nat -> Pass<Failure>, log ::
      && GivenThenSelect(passes) && ClipsPriorities(passes)
      && IsLog(c, group, passes, ShouldRetry, log) && |log| == MaxAttempts(c, group)
    ensures exists passes: nat -> Pass<TaskFailure>, log ::
      && GivenThenSelect(passes) && ClipsPriorities(passes)
      && IsLog(c, group, passes, ShouldRetryTask, log) && |log| == MaxAttempts(c, group)
  {
    var ctx := Context(false, false);
    var one, oneLog := MaximumIsReached(c, group, Failure(false, false, 429, false, true), ctx, ShouldRetry);
    var two, twoLog := MaximumIsReached(c, group, TaskFailure(429, false, false), ctx, ShouldRetryTask);
  }
}
