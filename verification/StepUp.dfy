/** Step-up verification in one session: passkey finish, conversion into a verification, and the gates. */
module StepUp {
  import opened Basics

  const VERIFICATION_TIMEOUT := 300
  const READY_TIMEOUT := 60

  datatype Method = TwoFactor | Passkey

  /** The saved session values: the ready marker, the time and the method of the verification. */
  datatype Session = Session(readyAt: Option<int>, verifiedAt: Option<int>, how: Option<Method>)

  /** The clock is read once per event, except that a passkey verification reads it when it consumes
      the marker and again when it records the verification.  A save may fail, which ends the request
      and leaves the stored session as it was. */
  datatype Event =
    | Finish(now: int, saved: bool)
    | VerifyPasskey(enrolled: bool, now: int, recordedAt: int, consumeSaved: bool, recordSaved: bool)
    | VerifyTwoFactor(codeOk: bool, now: int, saved: bool)
    | Gate(means: Method, now: int, saved: bool)
    | AnyGate(now: int, saved: bool)
    | Clear(now: int, saved: bool)

  function Cleared(s: Session): Session { s.(verifiedAt := None, how := None) }

  function Recorded(means: Method, now: int): Session { Session(None, Some(now), Some(means)) }

  predicate Expired(s: Session, now: int) {
    s.verifiedAt.None? || now - s.verifiedAt.value >= VERIFICATION_TIMEOUT
  }

  /** The passkey branch gets as far as recording the verification. */
  predicate Consumes(s: Session, e: Event) {
    e.VerifyPasskey? && e.enrolled && s.readyAt.Some? && e.consumeSaved && e.now - s.readyAt.value < READY_TIMEOUT
  }

  function Next(s: Session, e: Event): Session {
    match e
    case Finish(now, saved) => if saved then Session(Some(now), None, None) else s
    case VerifyPasskey(enrolled, now, recordedAt, consumeSaved, recordSaved) =>
      if Consumes(s, e) && recordSaved then Recorded(Passkey, recordedAt)
      else if enrolled && s.readyAt.Some? && consumeSaved then s.(readyAt := None)
      else s
    case VerifyTwoFactor(codeOk, now, saved) => if codeOk && saved then Recorded(TwoFactor, now) else s
    case Gate(means, now, saved) => if Expired(s, now) && saved then Cleared(s) else s
    case AnyGate(now, saved) => if s.verifiedAt.Some? && Expired(s, now) && saved then Cleared(s) else s
    case Clear(now, saved) => if saved then Cleared(s) else s
  }

  /** The event is a gate that lets the request through, or a verification that succeeds. */
  predicate Passes(s: Session, e: Event) {
    match e
    case Finish(now, saved) => saved
    case VerifyPasskey(enrolled, now, recordedAt, consumeSaved, recordSaved) => Consumes(s, e) && recordSaved
    case VerifyTwoFactor(codeOk, now, saved) => codeOk && saved
    case Gate(means, now, saved) => !Expired(s, now) && s.how == Some(means)
    case AnyGate(now, saved) => !Expired(s, now)
    case Clear(now, saved) => saved
  }

  // ---------------------------------------------------------------- the handlers

  class SessionStore {
    var stored: Session

    method Save(session: Session, ok: bool)
      modifies this
      ensures stored == if ok then session else old(stored)
    {
      if ok {
        stored := session;
      }
    }

    method PasskeyVerifyFinish(now: int, saved: bool) returns (ok: bool)
      modifies this
      ensures stored == Next(old(stored), Finish(now, saved)) && ok == Passes(old(stored), Finish(now, saved))
    {
      var session := stored;
      session := session.(readyAt := Some(now));
      session := session.(verifiedAt := None);
      session := session.(how := None);
      Save(session, saved);
      ok := saved;
    }

    method ConsumePasskeyReady(now: int, saved: bool) returns (ok: bool)
      modifies this
      ensures ok <==> old(stored).readyAt.Some? && saved && now - old(stored).readyAt.value < READY_TIMEOUT
      ensures stored == if old(stored).readyAt.Some? && saved then old(stored).(readyAt := None) else old(stored)
    {
      var readyAt := stored.readyAt;
      if readyAt.None? {
        return false;
      }
      Save(stored.(readyAt := None), saved);
      if !saved {
        return false;
      }
      ok := !(now - readyAt.value >= READY_TIMEOUT);
    }

    method SetSecureVerification(means: Method, now: int, saved: bool)
      modifies this
      ensures stored == if saved then Recorded(means, now) else old(stored)
    {
      var session := stored.(readyAt := None);
      session := session.(verifiedAt := Some(now));
      session := session.(how := Some(means));
      Save(session, saved);
    }

    /** Both branches of the verification endpoint, each as one event. */
    method UniversalVerify(e: Event) returns (ok: bool)
      requires e.VerifyPasskey? || e.VerifyTwoFactor?
      modifies this
      ensures stored == Next(old(stored), e) && ok == Passes(old(stored), e)
    {
      match e {
        case VerifyTwoFactor(codeOk, now, saved) => {
          if !codeOk {
            return false;
          }
          SetSecureVerification(TwoFactor, now, saved);
          ok := saved;
        }
        case VerifyPasskey(enrolled, now, recordedAt, consumeSaved, recordSaved) => {
          if !enrolled {
            return false;
          }
          var verified := ConsumePasskeyReady(now, consumeSaved);
          if !verified {
            return false;
          }
          SetSecureVerification(Passkey, recordedAt, recordSaved);
          ok := recordSaved;
        }
      }
    }

    method RequireSecureVerificationMethod(means: Method, now: int, saved: bool) returns (ok: bool)
      modifies this
      ensures stored == Next(old(stored), Gate(means, now, saved)) && ok == Passes(old(stored), Gate(means, now, saved))
    {
      if stored.verifiedAt.None? || now - stored.verifiedAt.value >= VERIFICATION_TIMEOUT {
        Save(stored.(verifiedAt := None, how := None), saved);
        return false;
      }
      ok := stored.how == Some(means);
    }

    /** The gate of the middleware, which takes any method. */
    method SecureVerificationRequired(now: int, saved: bool) returns (ok: bool)
      modifies this
      ensures stored == Next(old(stored), AnyGate(now, saved)) && ok == Passes(old(stored), AnyGate(now, saved))
    {
      if stored.verifiedAt.None? {
        return false;
      }
      var elapsed := now - stored.verifiedAt.value;
      if elapsed >= VERIFICATION_TIMEOUT {
        ClearSecureVerification(now, saved);
        return false;
      }
      ok := true;
    }

    method ClearSecureVerification(now: int, saved: bool)
      modifies this
      ensures stored == Next(old(stored), Clear(now, saved))
    {
      Save(stored.(verifiedAt := None, how := None), saved);
    }
  }

  // ---------------------------------------------------------------- traces of one session

  const START := Session(None, None, None)

  function Run(es: seq<Event>): Session {
    if es == [] then START else Next(Run(es[..|es| - 1]), es[|es| - 1])
  }

  function EndTime(e: Event): int {
    if e.VerifyPasskey? then e.recordedAt else e.now
  }

  /** The clock does not run backwards. */
  ghost predicate Timed(es: seq<Event>) {
    && (forall i | 0 <= i < |es| :: es[i].now <= EndTime(es[i]))
    && (forall i, j | 0 <= i < j < |es| :: EndTime(es[i]) <= es[j].now)
  }

  /** Event `i` is a finish that was saved. */
  predicate FinishAt(es: seq<Event>, i: int) {
    0 <= i < |es| && es[i].Finish? && es[i].saved
  }

  /** Event `j` is a passkey verification that succeeded. */
  predicate VerifiedAt(es: seq<Event>, j: int) {
    0 <= j < |es| && es[j].VerifyPasskey? && Passes(Run(es[..j]), es[j])
  }

  /** The ready marker of finish `i` is there at the end of the trace, and no later finish was saved. */
  ghost predicate ReadyFrom(es: seq<Event>, i: int) {
    && FinishAt(es, i)
    && (forall k | i < k <= |es| :: Run(es[..k]).readyAt == Some(es[i].now))
    && (forall k | i < k < |es| :: !FinishAt(es, k))
  }

  lemma {:induction false} ReadyHasFinish(es: seq<Event>) returns (i: int)
    requires Run(es).readyAt.Some?
    ensures ReadyFrom(es, i)
  {
    var n := |es| - 1;
    assert es[..|es|] == es;
    if FinishAt(es, n) {
      i := n;
    } else {
      var rest := es[..n];
      i := ReadyHasFinish(rest);
      assert forall k | 0 <= k <= n :: es[..k] == rest[..k];
      assert rest[..n] == rest;
      assert Run(rest).readyAt == Some(es[i].now);
      forall k | i < k < |es| ensures !FinishAt(es, k) {
        assert k < n ==> !FinishAt(rest, k);
      }
    }
  }

  predicate WithinMinute(finished: int, now: int) {
    finished <= now < finished + READY_TIMEOUT
  }

  /** Verification `j` consumes finish `i`: it is the last one before it, and less than a minute old. */
  ghost predicate Uses(es: seq<Event>, i: int, j: int) {
    && VerifiedAt(es, j) && FinishAt(es, i) && i < j && ReadyFrom(es[..j], i)
    && WithinMinute(es[i].now, es[j].now)
  }

  lemma VerificationUsesFinish(es: seq<Event>, j: int) returns (i: int)
    requires Timed(es) && VerifiedAt(es, j)
    ensures Uses(es, i, j)
  {
    i := ReadyHasFinish(es[..j]);
    assert es[..j][..j] == es[..j];
    assert es[..j][i] == es[i];
    assert Run(es[..j]).readyAt == Some(es[i].now);
    assert EndTime(es[i]) <= es[j].now;
  }

  /** The verification that the session shows at the end is the passkey verification `j`, and no
      finish was saved since. */
  ghost predicate ShowsVerification(es: seq<Event>, j: int) {
    && VerifiedAt(es, j) && Run(es).verifiedAt == Some(es[j].recordedAt)
    && (forall k | j < k < |es| :: !FinishAt(es, k) && !VerifiedAt(es, k))
  }

  lemma {:induction false} PasskeyHasVerification(es: seq<Event>) returns (j: int)
    requires Run(es).how == Some(Passkey) && Run(es).verifiedAt.Some?
    ensures ShowsVerification(es, j)
  {
    var n := |es| - 1;
    if VerifiedAt(es, n) {
      j := n;
    } else {
      var rest := es[..n];
      assert Run(es) == Next(Run(rest), es[n]);
      j := PasskeyHasVerification(rest);
      assert forall k | 0 <= k < n :: es[..k] == rest[..k] && es[k] == rest[k];
      forall k | j < k < |es| ensures !FinishAt(es, k) && !VerifiedAt(es, k) {
        if k < n {
          assert !FinishAt(rest, k) && !VerifiedAt(rest, k);
        }
      }
    }
  }

  /** Every passkey gate that passes at time `t` stands on a verification recorded less than 300
      seconds ago, which consumed a finish less than 60 seconds old, with no finish saved since. */
  lemma GateIsBacked(es: seq<Event>, k: int) returns (i: int, j: int)
    requires Timed(es) && 0 <= k < |es| && es[k].Gate? && es[k].means == Passkey && Passes(Run(es[..k]), es[k])
    ensures i < j < k && Uses(es, i, j)
    ensures es[j].now <= es[j].recordedAt <= es[k].now < es[j].recordedAt + VERIFICATION_TIMEOUT
    ensures forall l | i < l < k :: !FinishAt(es, l)
  {
    var rest := es[..k];
    j := PasskeyHasVerification(rest);
    assert rest[..j] == es[..j];
    i := VerificationUsesFinish(es, j);
    assert EndTime(es[j]) <= es[k].now;
    forall l | i < l < k ensures !FinishAt(es, l) {
      assert l < j ==> !FinishAt(es[..j], l);
      assert l > j ==> !FinishAt(rest, l);
    }
  }

  /** Two verifications never consume the same finish: the second needs one after the first. */
  lemma DistinctFinishes(es: seq<Event>, i: int, j: int, i': int, j': int)
    requires Uses(es, i, j) && Uses(es, i', j') && j < j'
    ensures i < j < i' < j'
  {
    var rest := es[..j'];
    assert rest[..j + 1] == es[..j + 1];
    assert es[..j + 1][..j] == es[..j];
    assert Run(es[..j + 1]) == Next(Run(es[..j]), es[j]);
    assert Run(es[..j + 1]).readyAt.None?;
  }

  /** The recorded time itself can be 60 seconds or more after the finish: it is within the minute for
      every finish the check accepts exactly when the clock did not tick between the two readings. */
  lemma RecordedWithinMinuteIff(now: int, recordedAt: int)
    requires now <= recordedAt
    ensures (forall f | WithinMinute(f, now) :: WithinMinute(f, recordedAt)) <==> now == recordedAt
  {
    if now < recordedAt {
      var f := now - READY_TIMEOUT + 1;
      assert WithinMinute(f, now) && !WithinMinute(f, recordedAt);
    }
  }

  /** Such a trace. */
  lemma ClockTickTrace() returns (es: seq<Event>)
    ensures Timed(es) && Uses(es, 0, 1) && es[1].recordedAt == es[0].now + READY_TIMEOUT
  {
    var finish, verify := Finish(0, true), VerifyPasskey(true, 59, 60, true, true);
    es := [finish, verify];
    assert es[..1] == [finish] && [finish][..0] == [];
    assert Run([]) == START;
    assert Run([finish]) == Session(Some(0), None, None);
    var i := VerificationUsesFinish(es, 1);
  }

  // ---------------------------------------------------------------- exactly when a gate passes

  /** The event takes a ready marker away: a new finish, a passkey attempt that is saved, or a verification by
      code. */
  predicate TakesMarker(e: Event) {
    match e
    case Finish(_, saved) => saved
    case VerifyPasskey(enrolled, _, _, consumeSaved, _) => enrolled && consumeSaved
    case VerifyTwoFactor(codeOk, _, saved) => codeOk && saved
    case Gate(_, _, _) => false
    case AnyGate(_, _) => false
    case Clear(_, _) => false
  }

  /** Finish `i` is saved, and nothing takes its marker away before event `j`. */
  ghost predicate ReadyUntil(es: seq<Event>, i: int, j: int) {
    FinishAt(es, i) && i < j <= |es| && forall l | i < l < j :: !TakesMarker(es[l])
  }

  lemma {:induction false} ReadySince(es: seq<Event>, i: int)
    requires ReadyUntil(es, i, |es|)
    ensures Run(es).readyAt == Some(es[i].now)
  {
    var n := |es| - 1;
    if i < n {
      var rest := es[..n];
      assert FinishAt(rest, i) && forall l | i < l < n :: rest[l] == es[l];
      ReadySince(rest, i);
      assert !TakesMarker(es[n]);
    }
  }

  lemma {:induction false} ReadyFromFinish(es: seq<Event>) returns (i: int)
    requires Run(es).readyAt.Some?
    ensures ReadyUntil(es, i, |es|) && Run(es).readyAt == Some(es[i].now)
  {
    var n := |es| - 1;
    if FinishAt(es, n) {
      i := n;
    } else {
      var rest := es[..n];
      i := ReadyFromFinish(rest);
      assert es[i] == rest[i];
      forall l | i < l < |es| ensures !TakesMarker(es[l]) {
        if l < n { assert !TakesMarker(rest[l]); }
      }
    }
  }

  /** Event `j` is a verification by the given means that succeeds: a correct code, or a passkey attempt on a
      marker that is less than 60 seconds old and was not taken away, and everything is saved. */
  ghost predicate Verifies(es: seq<Event>, j: int, means: Method) {
    && 0 <= j < |es|
    && match means
       case TwoFactor => es[j].VerifyTwoFactor? && es[j].codeOk && es[j].saved
       case Passkey =>
         && es[j].VerifyPasskey? && es[j].enrolled && es[j].consumeSaved && es[j].recordSaved
         && exists i :: ReadyUntil(es, i, j) && es[j].now < es[i].now + 60
  }

  lemma ReadyInPrefix(es: seq<Event>, i: int, j: int)
    requires 0 <= j <= |es|
    ensures ReadyUntil(es, i, j) <==> ReadyUntil(es[..j], i, j)
  {
    assert forall l | 0 <= l < j :: es[..j][l] == es[l];
  }

  lemma VerifiesIff(es: seq<Event>, j: int)
    requires 0 <= j < |es|
    ensures es[j].VerifyPasskey? ==> (Passes(Run(es[..j]), es[j]) <==> Verifies(es, j, Passkey))
    ensures es[j].VerifyTwoFactor? ==> (Passes(Run(es[..j]), es[j]) <==> Verifies(es, j, TwoFactor))
  {
    if es[j].VerifyPasskey? {
      if Run(es[..j]).readyAt.Some? {
        var i := ReadyFromFinish(es[..j]);
        ReadyInPrefix(es, i, j);
        assert es[..j][i] == es[i];
        if Verifies(es, j, Passkey) {
          var i' :| ReadyUntil(es, i', j) && es[j].now < es[i'].now + 60;
          ReadyInPrefix(es, i', j);
          ReadySince(es[..j], i');
        }
      } else if Verifies(es, j, Passkey) {
        var i :| ReadyUntil(es, i, j) && es[j].now < es[i].now + 60;
        ReadyInPrefix(es, i, j);
        ReadySince(es[..j], i);
      }
    }
  }

  /** The event withdraws a verification: a new finish, or clearing. */
  predicate Withdraws(e: Event) {
    (e.Finish? || e.Clear?) && e.saved
  }

  /** Verification `j` stands until event `k`: nothing withdraws it and no other one replaces it. */
  ghost predicate StandsUntil(es: seq<Event>, j: int, k: int, means: Method) {
    && Verifies(es, j, means) && j < k <= |es|
    && forall l | j < l < k :: !Withdraws(es[l]) && !Verifies(es, l, TwoFactor) && !Verifies(es, l, Passkey)
  }

  lemma VerifiesInPrefix(es: seq<Event>, j: int, n: int, means: Method)
    requires 0 <= j < n <= |es|
    ensures Verifies(es, j, means) <==> Verifies(es[..n], j, means)
  {
    assert es[..n][j] == es[j];
    if means == Passkey {
      if i :| ReadyUntil(es, i, j) && es[j].now < es[i].now + 60 {
        ReadyBefore(es, i, j, n);
        assert es[..n][i] == es[i];
      }
      if i :| ReadyUntil(es[..n], i, j) && es[..n][j].now < es[..n][i].now + 60 {
        ReadyBefore(es, i, j, n);
        assert es[..n][i] == es[i];
      }
    }
  }

  lemma ReadyBefore(es: seq<Event>, i: int, j: int, n: int)
    requires 0 <= j <= n <= |es|
    ensures ReadyUntil(es, i, j) <==> ReadyUntil(es[..n], i, j)
  {
    assert forall l | 0 <= l < n :: es[..n][l] == es[l];
  }

  lemma StandsInPrefix(es: seq<Event>, j: int, k: int, means: Method)
    requires 0 <= k <= |es|
    ensures StandsUntil(es, j, k, means) <==> StandsUntil(es[..k], j, k, means)
  {
    if 0 <= j < k {
      VerifiesInPrefix(es, j, k, means);
      forall l | j < l < k
        ensures es[..k][l] == es[l]
        ensures Verifies(es, l, TwoFactor) <==> Verifies(es[..k], l, TwoFactor)
        ensures Verifies(es, l, Passkey) <==> Verifies(es[..k], l, Passkey)
      {
        VerifiesInPrefix(es, l, k, TwoFactor);
        VerifiesInPrefix(es, l, k, Passkey);
      }
    }
  }

  /** The session shows the verification. */
  predicate Shows(s: Session, means: Method, at: int) {
    s.how == Some(means) && s.verifiedAt == Some(at)
  }

  lemma LastEvent(es: seq<Event>)
    requires es != []
    ensures var n := |es| - 1;
      && Run(es) == Next(Run(es[..n]), es[n])
      && (Verifies(es, n, TwoFactor) <==> es[n].VerifyTwoFactor? && Passes(Run(es[..n]), es[n]))
      && (Verifies(es, n, Passkey) <==> es[n].VerifyPasskey? && Passes(Run(es[..n]), es[n]))
  {
    VerifiesIff(es, |es| - 1);
  }

  lemma {:induction false} ShownStands(es: seq<Event>, means: Method, at: int) returns (j: int)
    requires Shows(Run(es), means, at)
    ensures StandsUntil(es, j, |es|, means) && EndTime(es[j]) == at
  {
    var n := |es| - 1;
    LastEvent(es);
    if Verifies(es, n, means) {
      j := n;
    } else {
      j := ShownStands(es[..n], means, at);
      StandsInPrefix(es, j, n, means);
    }
  }

  /** No gate of the trace finds the verification expired. */
  ghost predicate InTime(es: seq<Event>, at: int) {
    forall l | 0 <= l < |es| :: es[l].now < at + 300
  }

  lemma {:induction false} StandingShows(es: seq<Event>, j: int, means: Method)
    requires StandsUntil(es, j, |es|, means) && InTime(es, EndTime(es[j]))
    ensures Shows(Run(es), means, EndTime(es[j]))
  {
    var n := |es| - 1;
    LastEvent(es);
    if j < n {
      StandsInPrefix(es, j, n, means);
      assert StandsUntil(es, j, n, means);
      assert es[..n][j] == es[j] && forall l | 0 <= l < n :: es[..n][l] == es[l];
      StandingShows(es[..n], j, means);
    }
  }

  /** Gate `k` is backed by verification `j`: it stands and is less than 300 seconds old. */
  ghost predicate Backs(es: seq<Event>, j: int, k: int, means: Method) {
    k < |es| && StandsUntil(es, j, k, means) && es[k].now < EndTime(es[j]) + 300
  }

  lemma ShowsIff(es: seq<Event>, k: int, means: Method)
    requires Timed(es) && 0 <= k < |es|
    ensures (exists at :: Shows(Run(es[..k]), means, at) && es[k].now < at + 300) <==>
      exists j :: Backs(es, j, k, means)
  {
    if at :| Shows(Run(es[..k]), means, at) && es[k].now < at + 300 {
      var j := ShownStands(es[..k], means, at);
      StandsInPrefix(es, j, k, means);
      assert Backs(es, j, k, means);
    }
    if j :| Backs(es, j, k, means) {
      StandsInPrefix(es, j, k, means);
      forall l | 0 <= l < k ensures es[..k][l].now < EndTime(es[j]) + 300 {
        assert es[l].now <= EndTime(es[l]) <= es[k].now;
      }
      StandingShows(es[..k], j, means);
      assert Shows(Run(es[..k]), means, EndTime(es[j]));
    }
  }

  lemma {:induction false} TimeAndMethodTogether(es: seq<Event>)
    ensures Run(es).how.Some? <==> Run(es).verifiedAt.Some?
  {
    if es != [] { TimeAndMethodTogether(es[..|es| - 1]); }
  }

  /** A gate for one means passes exactly when a verification by that means backs it. */
  lemma GatePassesIff(es: seq<Event>, k: int)
    requires Timed(es) && 0 <= k < |es| && es[k].Gate?
    ensures Passes(Run(es[..k]), es[k]) <==> exists j :: Backs(es, j, k, es[k].means)
  {
    var s := Run(es[..k]);
    ShowsIff(es, k, es[k].means);
    if s.verifiedAt.Some? {
      assert Shows(s, es[k].means, s.verifiedAt.value) <==> s.how == Some(es[k].means);
    }
  }

  /** The gate of the middleware passes exactly when a verification by either means backs it. */
  lemma AnyGatePassesIff(es: seq<Event>, k: int)
    requires Timed(es) && 0 <= k < |es| && es[k].AnyGate?
    ensures Passes(Run(es[..k]), es[k]) <==>
      (exists j :: Backs(es, j, k, TwoFactor)) || (exists j :: Backs(es, j, k, Passkey))
  {
    var s := Run(es[..k]);
    ShowsIff(es, k, TwoFactor);
    ShowsIff(es, k, Passkey);
    TimeAndMethodTogether(es[..k]);
    if s.verifiedAt.Some? {
      var how := s.how.value;
      assert how == TwoFactor || how == Passkey;
      assert Shows(s, how, s.verifiedAt.value);
    }
  }

  /** A gate withdraws what it finds expired: once it has saved the session, no verification shows that was 300
      seconds old, whatever the clock does later. */
  lemma GateLeavesOnlyFresh(es: seq<Event>)
    requires es != [] && (es[|es| - 1].Gate? || es[|es| - 1].AnyGate?) && es[|es| - 1].saved
    ensures Run(es).verifiedAt.Some? ==> es[|es| - 1].now < Run(es).verifiedAt.value + 300
    ensures Run(es).readyAt == Run(es[..|es| - 1]).readyAt
  {
  }
}
