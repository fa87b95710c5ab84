/** Which attempts of a relayed request are followed by another one, said of the errors themselves. */
module RelayLaws {
  import opened Basics
  import opened RelayRetry

  /** The retries that are left after pass `k` has chosen its channel. */
  function RetriesLeft<E>(c: Config, group: nat, passes: nat -> Pass<E>, k: nat): int
    requires group <= c.groups
  {
    c.retryTimes - Chosen(c, CounterAt(c, group, passes, k), passes(k).source).retry
  }

  lemma FollowedIffGoesOn<E>(c: Config, group: nat, passes: nat -> Pass<E>, retry: Retry<E>, log: seq<Outcome<E>>,
                             k: nat)
    requires group <= c.groups && IsLog(c, group, passes, retry, log) && k < |log|
    ensures k + 1 < |log| <==> GoesOn(c, group, passes, retry, k) && Tries(c, group, passes, k + 1)
  {
    PrefixAt(c, group, passes, retry, log, k);
    if k + 1 < |log| {
      PrefixAt(c, group, passes, retry, log, k + 1);
    }
  }

  /** An attempt of a request is followed by another one exactly if it failed, the channel was not bound by
      affinity, the error is the channel's fault or else a retry is left, nothing forbids one, and the
      status is no success and either no HTTP status or one that is retried; and if the next pass has a
      retry, a channel and a body. */
  lemma RequestFollowedIff(c: Config, group: nat, passes: nat -> Pass<Failure>, log: seq<Outcome<Failure>>, k: nat)
    requires group <= c.groups && IsLog(c, group, passes, ShouldRetry, log) && k < |log|
    ensures k + 1 < |log| <==>
      && log[k].Failed? && !passes(k).ctx.affinityFailed
      && (log[k].error.channelError ||
            (&& RetriesLeft(c, group, passes, k) > 0 && !log[k].error.skipRetry && !passes(k).ctx.specificChannel
             && (log[k].error.status < 200 || log[k].error.status >= 300)
             && (log[k].error.status < 100 || log[k].error.status > 599
                 || (log[k].error.retriedStatus && !log[k].error.skippedCode))))
      && Tries(c, group, passes, k + 1)
  {
    PrefixAt(c, group, passes, ShouldRetry, log, k);
    FollowedIffGoesOn(c, group, passes, ShouldRetry, log, k);
  }

  /** An attempt of a task submission is followed by another one exactly if it failed, the channel was not bound
      by affinity or by the request, a retry is left, and its status is 429 or 307, a server error that is
      not skipped, or neither 400, 408, a success nor a local error; and if the next pass can try. */
  lemma SubmissionFollowedIff(c: Config, group: nat, passes: nat -> Pass<TaskFailure>, log: seq<Outcome<TaskFailure>>,
                              k: nat)
    requires group <= c.groups && IsLog(c, group, passes, ShouldRetryTask, log) && k < |log|
    ensures k + 1 < |log| <==>
      && log[k].Failed? && !passes(k).ctx.affinityFailed && !passes(k).ctx.specificChannel
      && RetriesLeft(c, group, passes, k) > 0
      && (var e := log[k].error;
          || e.status == 429 || e.status == 307
          || (500 <= e.status <= 599 && !e.skippedStatus)
          || (e.status != 400 && e.status != 408 && !e.localError
              && (e.status < 200 || 299 < e.status < 500 || e.status > 599)))
      && Tries(c, group, passes, k + 1)
  {
    PrefixAt(c, group, passes, ShouldRetryTask, log, k);
    FollowedIffGoesOn(c, group, passes, ShouldRetryTask, log, k);
  }

  // ---------------------------------------------------------------- which group is taken

  /** The retry number with which a group is asked: the current one only for the group it belongs to. */
  function AskedWith(p: Counter, g: nat): int {
    if g == p.group then p.retry else 0
  }

  /** Group `g` is the first one from the current group on that has a channel. */
  predicate FirstWithChannel(c: Config, p: Counter, available: (nat, int) -> bool, g: nat) {
    && p.group <= g < c.groups && available(g, AskedWith(p, g))
    && forall h: nat | p.group <= h < g :: !available(h, AskedWith(p, h))
  }

  lemma {:induction false} SearchFindsFirst(c: Config, p: Counter, available: (nat, int) -> bool, i: nat)
    requires p.group <= i <= c.groups && forall h: nat | p.group <= h < i :: !available(h, AskedWith(p, h))
    ensures var g := Search(c, available, i, p.group, p.retry);
      if g < c.groups then FirstWithChannel(c, p, available, g)
      else forall h: nat | p.group <= h < c.groups :: !available(h, AskedWith(p, h))
    decreases c.groups - i
  {
    if i < c.groups && !available(i, AskedWith(p, i)) {
      SearchFindsFirst(c, p, available, i + 1);
    }
  }

  /** An "auto" token gets a channel exactly if some group from the current one on has one, and then from the
      first such group.  The next pass continues there with the next retry - or, if the token may change
      groups and the retries of that group are used up, starts afresh in the group after it. */
  lemma AutoTakesFirstGroup(c: Config, p: Counter, available: (nat, int) -> bool)
    requires c.auto && p.group <= c.groups && !p.resetNextTry
    ensures Found(c, p, available) <==> exists g: nat :: FirstWithChannel(c, p, available, g)
    ensures forall g: nat | FirstWithChannel(c, p, available, g) ::
      Increased(Selected(c, p, available)) ==
        if c.crossGroup && AskedWith(p, g) >= c.retryTimes then Counter(0, false, g + 1)
        else Counter(AskedWith(p, g) + 1, false, g)
  {
    SearchFindsFirst(c, p, available, p.group);
    var i := Search(c, available, p.group, p.group, p.retry);
    forall g: nat | FirstWithChannel(c, p, available, g) ensures g == i {
      if i < c.groups {
        assert FirstWithChannel(c, p, available, i);
      }
    }
  }

  /** Any other token asks its one group, with the number of the retry. */
  lemma FixedAsksItsGroup(c: Config, p: Counter, available: (nat, int) -> bool)
    requires !c.auto && p.group <= c.groups && !p.resetNextTry
    ensures Found(c, p, available) <==> available(0, p.retry)
    ensures Increased(Selected(c, p, available)) == p.(retry := p.retry + 1)
  {
  }
}
