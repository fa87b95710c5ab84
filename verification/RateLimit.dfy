/**
  The in-memory sliding-window rate limiter: a bounded queue of accept times per key, plus a
  background pass that forgets keys whose newest entry is older than the expiration.
*/
module RateLimit {
  import opened Basics

  // ---------------------------------------------------------------- one key

  datatype Decision = Decision(accepted: bool, entry: Option<seq<int>>)

  /** A new key allocates room for the limit, which a negative limit makes panic. */
  predicate Panics(entry: Option<seq<int>>, maxRequests: int) {
    entry.None? && maxRequests < 0
  }

  /** InMemoryRateLimiter.Request on the entry of one key; None when the key is absent.  A request that
      panics is not accepted and leaves no entry. */
  function Decide(entry: Option<seq<int>>, maxRequests: int, duration: int, now: int): Decision
    requires entry.Some? ==> entry.value != []
  {
    if Panics(entry, maxRequests) then Decision(false, None)
    else if entry.None? then Decision(true, Some([now]))
    else if |entry.value| < maxRequests then Decision(true, Some(entry.value + [now]))
    else if now - entry.value[0] >= duration then Decision(true, Some(entry.value[1..] + [now]))
    else Decision(false, entry)
  }

  /** Whether the eviction pass deletes this queue. */
  predicate Expired(queue: seq<int>, expiration: int, now: int) {
    queue == [] || now - queue[|queue| - 1] > expiration
  }

  function Evict(entry: Option<seq<int>>, expiration: int, now: int): Option<seq<int>> {
    if entry.Some? && Expired(entry.value, expiration, now) then None else entry
  }

  /** The lifetime of idle keys is a duration in nanoseconds.  Eviction passes are made only for a
      positive one, and compare whole seconds. */
  predicate Evicting(lifetime: int) {
    lifetime > 0
  }

  function Seconds(lifetime: int): nat
    requires Evicting(lifetime)
  {
    lifetime / 1_000_000_000
  }

  /** The window is at most one second longer than the lifetime, or no key is ever evicted. */
  predicate Fits(duration: int, lifetime: int) {
    !Evicting(lifetime) || duration <= Seconds(lifetime) + 1
  }

  // ---------------------------------------------------------------- runs of one key

  datatype Event = Request(now: int) | EvictionPass(now: int)

  /** The entry of the key, every accept time so far, and the answers given. */
  datatype Run = Run(entry: Option<seq<int>>, accepts: seq<int>, answers: seq<bool>)

  ghost function Next(r: Run, e: Event, maxRequests: int, duration: int, lifetime: int): Run
    requires r.entry.Some? ==> r.entry.value != []
  {
    match e
    case Request(now) =>
      var d := Decide(r.entry, maxRequests, duration, now);
      Run(d.entry, if d.accepted then r.accepts + [now] else r.accepts, r.answers + [d.accepted])
    case EvictionPass(now) =>
      if Evicting(lifetime) then r.(entry := Evict(r.entry, Seconds(lifetime), now)) else r
  }

  ghost function Exec(es: seq<Event>, maxRequests: int, duration: int, lifetime: int): (r: Run)
    ensures r.entry.Some? ==> r.entry.value != []
  {
    if es == [] then Run(None, [], [])
    else Next(Exec(es[..|es| - 1], maxRequests, duration, lifetime), es[|es| - 1], maxRequests, duration, lifetime)
  }

  /** The clock never goes back. */
  ghost predicate ClockOk(es: seq<Event>) {
    forall i, j | 0 <= i < j < |es| :: es[i].now <= es[j].now
  }

  /** How many times lie in the last `duration` seconds before now. */
  function CountRecent(times: seq<int>, duration: int, now: int): nat {
    if times == [] then 0
    else CountRecent(times[..|times| - 1], duration, now) + (if now - times[|times| - 1] < duration then 1 else 0)
  }

  /** A limit of zero lets one request through per window, a negative one none. */
  function Effective(maxRequests: int): nat {
    if maxRequests < 0 then 0 else if maxRequests == 0 then 1 else maxRequests
  }

  predicate Sorted(times: seq<int>) {
    forall i, j | 0 <= i < j < |times| :: times[i] <= times[j]
  }

  predicate AllPast(times: seq<int>, now: int) {
    forall i | 0 <= i < |times| :: times[i] <= now
  }

  predicate AllLeft(times: seq<int>, duration: int, now: int) {
    forall i | 0 <= i < |times| :: now - times[i] >= duration
  }

  predicate AllRecent(times: seq<int>, duration: int, now: int) {
    forall i | 0 <= i < |times| :: now - times[i] < duration
  }

  // ---------------------------------------------------------------- counting

  lemma {:induction false} CountRecentOld(times: seq<int>, duration: int, now: int)
    requires AllLeft(times, duration, now)
    ensures CountRecent(times, duration, now) == 0
  {
    if times != [] {
      CountRecentOld(times[..|times| - 1], duration, now);
    }
  }

  lemma {:induction false} CountRecentNew(times: seq<int>, duration: int, now: int)
    requires AllRecent(times, duration, now)
    ensures CountRecent(times, duration, now) == |times|
  {
    if times != [] {
      CountRecentNew(times[..|times| - 1], duration, now);
    }
  }

  lemma {:induction false} CountRecentAtMost(times: seq<int>, duration: int, now: int)
    ensures CountRecent(times, duration, now) <= |times|
  {
    if times != [] { CountRecentAtMost(times[..|times| - 1], duration, now); }
  }

  lemma {:induction false} CountRecentConcat(a: seq<int>, b: seq<int>, duration: int, now: int)
    ensures CountRecent(a + b, duration, now) == CountRecent(a, duration, now) + CountRecent(b, duration, now)
  {
    if b == [] {
      assert a + b == a;
    } else {
      assert (a + b)[..|a + b| - 1] == a + b[..|b| - 1];
      CountRecentConcat(a, b[..|b| - 1], duration, now);
    }
  }

  lemma CountRecentFirstLeft(times: seq<int>, duration: int, now: int)
    requires times != [] && now - times[0] >= duration
    ensures CountRecent(times, duration, now) < |times|
  {
    assert times == times[..1] + times[1..];
    CountRecentConcat(times[..1], times[1..], duration, now);
    CountRecentOld(times[..1], duration, now);
    CountRecentAtMost(times[1..], duration, now);
  }

  /** Only the tail counts when everything before it has left the window. */
  lemma CountOfTail(times: seq<int>, tail: seq<int>, duration: int, now: int)
    requires IsTail(tail, times) && AllLeft(times[..|times| - |tail|], duration, now)
    ensures CountRecent(times, duration, now) == CountRecent(tail, duration, now)
  {
    var gone := times[..|times| - |tail|];
    assert times == gone + tail;
    CountRecentConcat(gone, tail, duration, now);
    CountRecentOld(gone, duration, now);
  }

  predicate IsTail(tail: seq<int>, times: seq<int>) {
    |tail| <= |times| && tail == times[|times| - |tail|..]
  }

  lemma TailIsRecent(times: seq<int>, tail: seq<int>, duration: int, now: int)
    requires IsTail(tail, times) && Sorted(times) && tail != [] && now - tail[0] < duration
    ensures AllRecent(tail, duration, now)
  {
    var n := |times| - |tail|;
    forall i | 0 <= i < |tail| ensures now - tail[i] < duration {
      assert tail[0] == times[n] && tail[i] == times[n + i];
    }
  }

  // ---------------------------------------------------------------- the queue against the history

  /** The queue is the tail of the accepts and everything before it has left the window. */
  ghost predicate Agrees(r: Run, maxRequests: int, duration: int, now: int) {
    var q := if r.entry.Some? then r.entry.value else [];
    && (r.entry.Some? ==> q != [])
    && |q| <= Effective(maxRequests)
    && IsTail(q, r.accepts)
    && Sorted(r.accepts) && AllPast(r.accepts, now)
    && AllLeft(r.accepts[..|r.accepts| - |q|], duration, now)
  }

  lemma AgreesLater(r: Run, maxRequests: int, duration: int, now: int, later: int)
    requires Agrees(r, maxRequests, duration, now) && now <= later
    ensures Agrees(r, maxRequests, duration, later)
  {
  }

  /** In a state that agrees, the queue decides exactly by counting the window. */
  lemma DecideCounts(r: Run, maxRequests: int, duration: int, now: int)
    requires Agrees(r, maxRequests, duration, now)
    ensures Decide(r.entry, maxRequests, duration, now).accepted <==>
      CountRecent(r.accepts, duration, now) < Effective(maxRequests)
  {
    var q := if r.entry.Some? then r.entry.value else [];
    CountOfTail(r.accepts, q, duration, now);
    CountRecentAtMost(q, duration, now);
    if q != [] {
      if now - q[0] >= duration {
        CountRecentFirstLeft(q, duration, now);
      } else {
        TailIsRecent(r.accepts, q, duration, now);
        CountRecentNew(q, duration, now);
      }
    }
  }

  /** Appending an accept to a tail of the queue keeps the agreement when what is cut off has left
      the window. */
  lemma AppendAgrees(r: Run, kept: seq<int>, answers: seq<bool>, maxRequests: int, duration: int, now: int)
    requires Agrees(r, maxRequests, duration, now) && |kept| < Effective(maxRequests)
    requires IsTail(kept, r.accepts)
    requires AllLeft(r.accepts[..|r.accepts| - |kept|], duration, now)
    ensures Agrees(Run(Some(kept + [now]), r.accepts + [now], answers), maxRequests, duration, now)
  {
    SortedMore(r.accepts, now);
    TailMore(r.accepts, kept, now);
  }

  lemma SortedMore(times: seq<int>, now: int)
    requires Sorted(times) && AllPast(times, now)
    ensures Sorted(times + [now]) && AllPast(times + [now], now)
  {
  }

  lemma TailMore(times: seq<int>, tail: seq<int>, now: int)
    requires IsTail(tail, times)
    ensures IsTail(tail + [now], times + [now])
    ensures (times + [now])[..|times| + 1 - |tail + [now]|] == times[..|times| - |tail|]
  {
    var more := times + [now];
    assert more[|times| - |tail|..] == tail + [now];
  }

  lemma RequestAgrees(r: Run, maxRequests: int, duration: int, lifetime: int, now: int)
    requires Agrees(r, maxRequests, duration, now)
    ensures Agrees(Next(r, Request(now), maxRequests, duration, lifetime), maxRequests, duration, now)
  {
    var d := Decide(r.entry, maxRequests, duration, now);
    var answers := r.answers + [d.accepted];
    if !d.accepted {
      AgreesFrame(r, answers, maxRequests, duration, now);
    } else if r.entry.None? {
      assert [now] == [] + [now];
      AppendAgrees(r, [], answers, maxRequests, duration, now);
    } else if |r.entry.value| < maxRequests {
      AppendAgrees(r, r.entry.value, answers, maxRequests, duration, now);
    } else {
      ShiftAgrees(r, answers, maxRequests, duration, now);
    }
  }

  lemma AgreesFrame(r: Run, answers: seq<bool>, maxRequests: int, duration: int, now: int)
    requires Agrees(r, maxRequests, duration, now)
    ensures Agrees(r.(answers := answers), maxRequests, duration, now)
  {
  }

  lemma TailLess(times: seq<int>, tail: seq<int>, duration: int, now: int)
    requires IsTail(tail, times) && tail != [] && now - tail[0] >= duration
    requires AllLeft(times[..|times| - |tail|], duration, now)
    ensures IsTail(tail[1..], times) && AllLeft(times[..|times| - |tail[1..]|], duration, now)
  {
    var n := |times| - |tail|;
    assert times[..n + 1] == times[..n] + [tail[0]];
  }

  lemma ShiftAgrees(r: Run, answers: seq<bool>, maxRequests: int, duration: int, now: int)
    requires Agrees(r, maxRequests, duration, now) && r.entry.Some? && now - r.entry.value[0] >= duration
    ensures Agrees(Run(Some(r.entry.value[1..] + [now]), r.accepts + [now], answers), maxRequests, duration, now)
  {
    var q := r.entry.value;
    TailLess(r.accepts, q, duration, now);
    AppendAgrees(r, q[1..], answers, maxRequests, duration, now);
  }

  /** Eviction forgets only accepts that left the window, as long as the window fits. */
  lemma EvictionAgrees(r: Run, maxRequests: int, duration: int, lifetime: int, now: int)
    requires Agrees(r, maxRequests, duration, now) && Fits(duration, lifetime)
    ensures Agrees(Next(r, EvictionPass(now), maxRequests, duration, lifetime), maxRequests, duration, now)
  {
    if Evicting(lifetime) && r.entry.Some? && Expired(r.entry.value, Seconds(lifetime), now) {
      var q := r.entry.value;
      assert q[|q| - 1] == r.accepts[|r.accepts| - 1];
      assert r.accepts[..|r.accepts|] == r.accepts;
      assert forall i | 0 <= i < |r.accepts| :: r.accepts[i] <= r.accepts[|r.accepts| - 1];
    }
  }

  lemma {:induction false} ExecAgrees(es: seq<Event>, maxRequests: int, duration: int, lifetime: int, now: int)
    requires ClockOk(es) && Fits(duration, lifetime)
    requires forall i | 0 <= i < |es| :: es[i].now <= now
    ensures Agrees(Exec(es, maxRequests, duration, lifetime), maxRequests, duration, now)
  {
    if es != [] {
      var prior, e := es[..|es| - 1], es[|es| - 1];
      ExecAgrees(prior, maxRequests, duration, lifetime, e.now);
      var r := Exec(prior, maxRequests, duration, lifetime);
      match e
      case Request(n) => RequestAgrees(r, maxRequests, duration, lifetime, n);
      case EvictionPass(n) => EvictionAgrees(r, maxRequests, duration, lifetime, n);
      AgreesLater(Exec(es, maxRequests, duration, lifetime), maxRequests, duration, e.now, now);
    }
  }

  // ---------------------------------------------------------------- main results

  /** Over the whole history and whatever eviction passes ran before, a request is accepted exactly
      when fewer than `limit` were accepted in the last `duration` seconds. */
  ghost predicate CountsTheWindow(limit: int, maxRequests: int, duration: int, lifetime: int) {
    forall es: seq<Event>, now: int | ClockOk(es + [Request(now)]) ::
      var r := Exec(es, maxRequests, duration, lifetime);
      Decide(r.entry, maxRequests, duration, now).accepted <==>
        CountRecent(r.accepts, duration, now) < limit
  }

  function Repeat(n: nat): seq<Event> {
    if n == 0 then [] else Repeat(n - 1) + [Request(0)]
  }

  lemma {:induction false} RepeatShape(n: nat)
    ensures |Repeat(n)| == n && forall i | 0 <= i < n :: Repeat(n)[i] == Request(0)
  {
    if n > 0 {
      RepeatShape(n - 1);
    }
  }

  /** After `n` accepts at time zero. */
  ghost predicate Filled(r: Run, n: nat) {
    && |r.accepts| == n && (forall i | 0 <= i < |r.accepts| :: r.accepts[i] == 0)
    && r.entry == if n == 0 then None else Some(r.accepts)
  }

  lemma FillStep(r: Run, n: nat, maxRequests: int, duration: int, lifetime: int)
    requires n < Effective(maxRequests) && Filled(r, n)
    ensures Filled(Next(r, Request(0), maxRequests, duration, lifetime), n + 1)
  {
    if n == 0 {
      assert r.accepts + [0] == [0];
    }
  }

  lemma {:induction false} RepeatFills(n: nat, maxRequests: int, duration: int, lifetime: int)
    requires n <= Effective(maxRequests)
    ensures Filled(Exec(Repeat(n), maxRequests, duration, lifetime), n)
  {
    if n > 0 {
      RepeatFills(n - 1, maxRequests, duration, lifetime);
      RepeatShape(n - 1);
      assert Repeat(n)[..n - 1] == Repeat(n - 1) && Repeat(n)[n - 1] == Request(0);
      FillStep(Exec(Repeat(n - 1), maxRequests, duration, lifetime), n - 1, maxRequests, duration, lifetime);
    }
  }

  /** With a longer window, filling the queue, one eviction pass and one more request let one accept
      too many through. */
  lemma LongWindowMiscounts(maxRequests: int, duration: int, lifetime: int) returns (es: seq<Event>, now: int)
    requires maxRequests >= 0 && !Fits(duration, lifetime)
    ensures ClockOk(es + [Request(now)])
    ensures var r := Exec(es, maxRequests, duration, lifetime);
      && Decide(r.entry, maxRequests, duration, now).accepted
      && CountRecent(r.accepts, duration, now) == Effective(maxRequests)
  {
    var fill := Repeat(Effective(maxRequests));
    RepeatShape(Effective(maxRequests));
    RepeatFills(Effective(maxRequests), maxRequests, duration, lifetime);
    FillThenEvict(fill, maxRequests, duration, lifetime);
    now := Seconds(lifetime) + 1;
    es := fill + [EvictionPass(now)];
    FillClock(fill, now);
  }

  lemma FillClock(fill: seq<Event>, now: int)
    requires now >= 0 && forall i | 0 <= i < |fill| :: fill[i] == Request(0)
    ensures ClockOk(fill + [EvictionPass(now)] + [Request(now)])
  {
  }

  lemma FillThenEvict(fill: seq<Event>, maxRequests: int, duration: int, lifetime: int)
    requires !Fits(duration, lifetime)
    requires Filled(Exec(fill, maxRequests, duration, lifetime), Effective(maxRequests))
    ensures var later := Seconds(lifetime) + 1;
      var r := Exec(fill + [EvictionPass(later)], maxRequests, duration, lifetime);
      r.entry == None && CountRecent(r.accepts, duration, later) == Effective(maxRequests)
  {
    var later := Seconds(lifetime) + 1;
    var es := fill + [EvictionPass(later)];
    assert es[..|es| - 1] == fill;
    var full := Exec(fill, maxRequests, duration, lifetime);
    CountRecentNew(full.accepts, duration, later);
  }

  /** A negative limit never gets an entry. */
  lemma {:induction false} NegativeNeverAccepts(es: seq<Event>, maxRequests: int, duration: int, lifetime: int)
    requires maxRequests < 0
    ensures var r := Exec(es, maxRequests, duration, lifetime); r.entry == None && r.accepts == []
  {
    if es != [] {
      NegativeNeverAccepts(es[..|es| - 1], maxRequests, duration, lifetime);
    }
  }

  /** The exact condition: the window is at most one second longer than the lifetime of idle keys, or
      no eviction pass is ever made, or the limit is negative and nothing is ever accepted. */
  lemma CountsTheWindowIff(maxRequests: int, duration: int, lifetime: int)
    ensures var limit := if maxRequests < 0 then 0 else if maxRequests == 0 then 1 else maxRequests;
      CountsTheWindow(limit, maxRequests, duration, lifetime) <==>
        lifetime <= 0 || duration <= lifetime / 1_000_000_000 + 1 || maxRequests < 0
  {
    if maxRequests < 0 {
      forall es: seq<Event>, now: int | ClockOk(es + [Request(now)])
        ensures !Decide(Exec(es, maxRequests, duration, lifetime).entry, maxRequests, duration, now).accepted
      {
        NegativeNeverAccepts(es, maxRequests, duration, lifetime);
      }
    } else if Fits(duration, lifetime) {
      forall es: seq<Event>, now: int | ClockOk(es + [Request(now)])
        ensures var r := Exec(es, maxRequests, duration, lifetime);
          Decide(r.entry, maxRequests, duration, now).accepted <==>
            CountRecent(r.accepts, duration, now) < Effective(maxRequests)
      {
        var all := es + [Request(now)];
        assert forall i | 0 <= i < |es| :: all[i] == es[i];
        assert all[|es|] == Request(now);
        assert ClockOk(es);
        ExecAgrees(es, maxRequests, duration, lifetime, now);
        DecideCounts(Exec(es, maxRequests, duration, lifetime), maxRequests, duration, now);
      }
    } else {
      var es, now := LongWindowMiscounts(maxRequests, duration, lifetime);
    }
  }

  /** Counting fewer than M in the window leaves the M-th accept from the end outside it. */
  lemma CountForcesGap(accepts: seq<int>, m: int, duration: int, now: int)
    requires m >= 1 && Sorted(accepts) && CountRecent(accepts, duration, now) < m <= |accepts|
    ensures now - accepts[|accepts| - m] >= duration
  {
    var tail := accepts[|accepts| - m..];
    if now - tail[0] < duration {
      forall i | 0 <= i < |tail| ensures now - tail[i] < duration {
        assert tail[i] == accepts[|accepts| - m + i] && tail[0] == accepts[|accepts| - m];
      }
      CountRecentNew(tail, duration, now);
      assert accepts == accepts[..|accepts| - m] + tail;
      CountRecentConcat(accepts[..|accepts| - m], tail, duration, now);
    }
  }

  /** No window of length `duration` holds more accepts than the limit: two accepts less than
      `duration` apart have fewer than the limit between them. */
  lemma {:induction false} NoWindowOverflows(es: seq<Event>, maxRequests: int, duration: int, lifetime: int,
                                             i: int, j: int)
    requires ClockOk(es) && Fits(duration, lifetime)
    requires var a := Exec(es, maxRequests, duration, lifetime).accepts;
      0 <= i <= j < |a| && a[j] - a[i] < duration
    ensures j - i < Effective(maxRequests)
  {
    var prior, e := es[..|es| - 1], es[|es| - 1];
    var r := Exec(prior, maxRequests, duration, lifetime);
    var a := Exec(es, maxRequests, duration, lifetime).accepts;
    if j < |r.accepts| {
      NoWindowOverflows(prior, maxRequests, duration, lifetime, i, j);
    } else {
      assert e.Request? && a == r.accepts + [e.now];
      ExecAgrees(prior, maxRequests, duration, lifetime, e.now);
      if i < j {
        NewAcceptFits(r, maxRequests, duration, e.now, i);
      } else {
        DecideCounts(r, maxRequests, duration, e.now);
      }
    }
  }

  lemma NewAcceptFits(r: Run, maxRequests: int, duration: int, now: int, i: nat)
    requires Agrees(r, maxRequests, duration, now) && Decide(r.entry, maxRequests, duration, now).accepted
    requires i < |r.accepts| && now - r.accepts[i] < duration
    ensures |r.accepts| - i < Effective(maxRequests)
  {
    var m := Effective(maxRequests);
    DecideCounts(r, maxRequests, duration, now);
    if |r.accepts| - i >= m {
      assert m >= 1;
      CountForcesGap(r.accepts, m, duration, now);
    }
  }

  /** Where the window fits, the configured number itself is the limit exactly unless it is zero: then one
      request per window is still accepted. */
  lemma ConfiguredLimitIff(maxRequests: int, duration: int, lifetime: int)
    requires Fits(duration, lifetime)
    ensures CountsTheWindow(maxRequests, maxRequests, duration, lifetime) <==> maxRequests != 0
  {
    CountsTheWindowIff(maxRequests, duration, lifetime);
    if maxRequests == 0 {
      var es: seq<Event> := [];
      assert ClockOk(es + [Request(0)]);
      assert Exec(es, maxRequests, duration, lifetime) == Run(None, [], []);
    } else if maxRequests < 0 {
      forall es: seq<Event>, now: int | ClockOk(es + [Request(now)])
        ensures !Decide(Exec(es, maxRequests, duration, lifetime).entry, maxRequests, duration, now).accepted
      {
        NegativeNeverAccepts(es, maxRequests, duration, lifetime);
      }
    }
  }

  // ---------------------------------------------------------------- the shared limiter

  class InMemoryRateLimiter {
    var store: map<string, seq<int>>
    const lifetime: int
    const evicting: bool

    ghost predicate Valid()
      reads this
    {
      evicting == Evicting(lifetime) && forall k | k in store :: store[k] != []
    }

    function Entry(key: string): (e: Option<seq<int>>)
      reads this
    {
      if key in store then Some(store[key]) else None
    }

    /** Init, which starts the eviction passes only for a positive lifetime. */
    constructor (lifetime: int)
      ensures Valid() && store == map[] && this.lifetime == lifetime && evicting == Evicting(lifetime)
    {
      store := map[];
      this.lifetime := lifetime;
      evicting := lifetime > 0;
    }

    /** Answers by the queue of the key and touches no other key; a negative limit panics on a new key. */
    method Request(key: string, maxRequests: int, duration: int, now: int) returns (accepted: bool, panicked: bool)
      requires Valid()
      modifies this
      ensures Valid()
      ensures panicked <==> Panics(old(Entry(key)), maxRequests)
      ensures accepted == Decide(old(Entry(key)), maxRequests, duration, now).accepted
      ensures Entry(key) == Decide(old(Entry(key)), maxRequests, duration, now).entry
      ensures forall k | k != key :: Entry(k) == old(Entry(k))
    {
      panicked := false;
      if key in store {
        var queue := store[key];
        if |queue| < maxRequests {
          store := store[key := queue + [now]];
          accepted := true;
        } else if now - queue[0] >= duration {
          store := store[key := queue[1..] + [now]];
          accepted := true;
        } else {
          accepted := false;
        }
        return;
      }
      if maxRequests < 0 {
        return false, true;
      }
      store := store[key := [now]];
      accepted := true;
    }

    /** One pass of clearExpiredItems: every key is evicted or kept on its own. */
    method ClearExpiredItems(now: int)
      requires Valid() && evicting
      modifies this
      ensures Valid()
      ensures forall k :: Entry(k) == Evict(old(Entry(k)), Seconds(lifetime), now)
    {
      var expiration := Seconds(lifetime);
      var todo := store.Keys;
      while todo != {}
        invariant todo <= old(store.Keys) && store.Keys <= old(store.Keys)
        invariant forall k | k in todo :: k in store
        invariant forall k | k in store :: store[k] == old(store)[k]
        invariant forall k | k in old(store) && k !in todo ::
          k in store <==> !Expired(old(store)[k], expiration, now)
        decreases |todo|
      {
        var key :| key in todo;
        if Expired(store[key], expiration, now) {
          store := store - {key};
        }
        todo := todo - {key};
      }
    }
  }
}
