/**
 Login throttling (middleware/auth_throttle.py): a counter that every attempt increments and
 every successful login decrements again, with a read and a decrement that are not atomic,
 and a key that expires under the logins that are still running.

 The machine follows one key. A login touches its email key and its IP key by the same
 steps; what the other key says appears here as the `otherOk` of the verdict. A login that
 needs a second factor is not taken back by itself, but by the verification that completes it
 (routers/auth.py:419-426, 458-462). That one takes back from the key of the e-mail address in
 its request, which need not be the key on which the login was counted.
 */
module Throttle {
  /** A Redis counter. A key without TTL never expires. */
  datatype Counter = Missing | Count(value: int, hasTtl: bool)

  function ValueOf(c: Counter): int {
    if c.Missing? then 0 else c.value
  }

  /** INCR and DECR start a missing key at zero, without TTL. */
  function Add(c: Counter, delta: int): Counter {
    if c.Missing? then Count(delta, false) else c.(value := c.value + delta)
  }

  /** EXPIRE of a missing key does nothing. */
  function WithTtl(c: Counter): Counter {
    if c.Missing? then c else c.(hasTtl := true)
  }

  datatype Phase =
    | Counted          // incremented; the expire comes next if the result was 1
    | Checked          // about to be judged
    | Denied
    | Admitted         // the password is being verified
    | Failed           // wrong password, or the attempt broke off
    | Challenged       // the password was right, and a second factor is asked for
    | Succeeding       // about to read the counter
    | Reading          // read a positive value, about to decrement
    | Compensated      // decremented
    | Skipped          // read no positive value, did not decrement

  type LoginId = nat

  /**
   A login counted on this key, where `attempt` is what INCR returned; or the verification of a
   second factor that names this key, which counts nothing here. `lifetime` is the life of the
   key in which it came.
   */
  datatype Login =
    | Password(phase: Phase, attempt: int, lifetime: nat)
    | Verification(phase: Phase, lifetime: nat)

  /**
   `lifetime` counts the expiries so far. The rest is bookkeeping: the logins and verifications
   that could still decrement when the key last expired, how many of them have done so since,
   and how many verifications of this life have.
   */
  datatype Throttle = Throttle(
    counter: Counter,
    logins: map<LoginId, Login>,
    lifetime: nat,
    inFlightAtExpiry: nat,
    staleDecrements: nat,
    foreignDecrements: nat)

  const START := Throttle(Missing, map[], 0, 0, 0, 0)

  datatype Event =
    | Increment(id: LoginId)
    | SetExpiry(id: LoginId)
    | BreakOff(id: LoginId)
    | Judge(id: LoginId, otherOk: bool)
    | WrongPassword(id: LoginId)
    | RightPassword(id: LoginId)
    | NeedsSecondFactor(id: LoginId)
    | SecondFactorVerified(id: LoginId)
    | ReadCounter(id: LoginId)
    | Decrement(id: LoginId)
    | KeyExpires

  /** What may still decrement the counter by itself. */
  predicate InFlightLogin(l: Login, limit: int) {
    || ((l.phase.Counted? || l.phase.Checked?) && l.Password? && l.attempt <= limit)
    || l.phase.Admitted? || l.phase.Succeeding? || l.phase.Reading?
  }

  function InFlight(s: Throttle, limit: int): set<LoginId> {
    set id | id in s.logins && InFlightLogin(s.logins[id], limit)
  }

  function To(s: Throttle, id: LoginId, phase: Phase): Throttle
    requires id in s.logins
  {
    s.(logins := s.logins[id := s.logins[id].(phase := phase)])
  }

  predicate In(s: Throttle, id: LoginId, phase: Phase) {
    id in s.logins && s.logins[id].phase == phase
  }

  function Step(s: Throttle, e: Event, limit: int): Throttle {
    match e
    case Increment(id) =>
      if id in s.logins then s
      else
        var c := Add(s.counter, 1);
        s.(counter := c, logins := s.logins[id := Password(Counted, c.value, s.lifetime)])
    case SetExpiry(id) =>
      if !In(s, id, Counted) then s
      else To(if s.logins[id].Password? && s.logins[id].attempt == 1 then s.(counter := WithTtl(s.counter)) else s, id, Checked)
    case BreakOff(id) =>
      if In(s, id, Counted) || In(s, id, Checked) || In(s, id, Succeeding) || In(s, id, Reading)
      then To(s, id, Failed) else s
    case Judge(id, otherOk) =>
      if !In(s, id, Checked) then s
      else To(s, id, if s.logins[id].Verification? || s.logins[id].attempt > limit || !otherOk then Denied else Admitted)
    case WrongPassword(id) => if In(s, id, Admitted) then To(s, id, Failed) else s
    case RightPassword(id) => if In(s, id, Admitted) then To(s, id, Succeeding) else s
    case NeedsSecondFactor(id) => if In(s, id, Admitted) then To(s, id, Challenged) else s
    case SecondFactorVerified(id) =>
      if id in s.logins then s else s.(logins := s.logins[id := Verification(Succeeding, s.lifetime)])
    case ReadCounter(id) =>
      if !In(s, id, Succeeding) then s
      else To(s, id, if ValueOf(s.counter) > 0 then Reading else Skipped)
    case Decrement(id) =>
      if !In(s, id, Reading) then s
      else To(s, id, Compensated).(
        counter := Add(s.counter, -1),
        staleDecrements := s.staleDecrements + if IsStale(s, id) then 1 else 0,
        foreignDecrements := s.foreignDecrements + if IsForeign(s, id) then 1 else 0)
    case KeyExpires =>
      if s.counter.Missing? || !s.counter.hasTtl then s
      else s.(counter := Missing, lifetime := s.lifetime + 1,
              inFlightAtExpiry := |InFlight(s, limit)|, staleDecrements := 0, foreignDecrements := 0)
  }

  predicate IsStale(s: Throttle, id: LoginId)
    requires id in s.logins
  {
    s.logins[id].lifetime < s.lifetime
  }

  predicate IsForeign(s: Throttle, id: LoginId)
    requires id in s.logins
  {
    s.logins[id].lifetime >= s.lifetime && s.logins[id].Verification?
  }

  function Run(events: seq<Event>, limit: int): Throttle {
    if events == [] then START else Step(Run(events[..|events| - 1], limit), events[|events| - 1], limit)
  }

  /** Counted in this life of the key and not taken back. */
  function Outstanding(s: Throttle): set<LoginId> {
    set id | id in s.logins && s.logins[id].Password? && s.logins[id].lifetime == s.lifetime &&
             !s.logins[id].phase.Compensated?
  }

  /** Outstanding, and within the limit when counted: whoever was or may be admitted. */
  function WithinLimit(s: Throttle, limit: int): set<LoginId> {
    set id | id in Outstanding(s) && s.logins[id].attempt <= limit
  }

  /** In flight since before the key last expired. */
  function Stale(s: Throttle, limit: int): set<LoginId> {
    set id | id in InFlight(s, limit) && s.logins[id].lifetime < s.lifetime
  }

  /** Decrements in this life of the key that took back no login counted in it. */
  function Unmatched(s: Throttle): nat {
    s.staleDecrements + s.foreignDecrements
  }

  /** A verification is never checked and never judged. */
  predicate Fits(l: Login) {
    l.Verification? ==>
      l.phase.Succeeding? || l.phase.Reading? || l.phase.Compensated? || l.phase.Skipped? || l.phase.Failed?
  }

  predicate Inv(s: Throttle, limit: int) {
    && (forall id :: id in s.logins ==> s.logins[id].lifetime <= s.lifetime)
    && (forall id :: id in s.logins ==> Fits(s.logins[id]))
    && ValueOf(s.counter) == |Outstanding(s)| - Unmatched(s)
    && s.staleDecrements + |Stale(s, limit)| <= s.inFlightAtExpiry
    && |WithinLimit(s, limit)| <= (if limit < 0 then 0 else limit) + Unmatched(s)
  }

  lemma SubsetSize<T>(a: set<T>, b: set<T>)
    requires a <= b
    ensures |a| <= |b|
  {
    assert b == a + (b - a);
  }

  /** Moving a login to another phase, in place. */
  lemma MoveKeeps(s: Throttle, id: LoginId, phase: Phase, limit: int)
    requires Inv(s, limit) && id in s.logins
    requires !phase.Compensated? && !s.logins[id].phase.Compensated?
    requires InFlightLogin(s.logins[id].(phase := phase), limit) ==> InFlightLogin(s.logins[id], limit)
    requires Fits(s.logins[id].(phase := phase))
    ensures Inv(To(s, id, phase), limit)
  {
    var r := To(s, id, phase);
    assert Outstanding(r) == Outstanding(s);
    assert WithinLimit(r, limit) == WithinLimit(s, limit);
    SubsetSize(Stale(r, limit), Stale(s, limit));
  }

  lemma IncrementMoves(s: Throttle, id: LoginId, limit: int)
    requires id !in s.logins && forall x :: x in s.logins ==> s.logins[x].lifetime <= s.lifetime
    ensures var r := Step(s, Increment(id), limit);
            Outstanding(r) == Outstanding(s) + {id} && id !in Outstanding(s) && Stale(r, limit) == Stale(s, limit) &&
            WithinLimit(r, limit) <= Outstanding(r) &&
            (r.logins[id].attempt > limit ==> WithinLimit(r, limit) == WithinLimit(s, limit))
  {
    var r := Step(s, Increment(id), limit);
    assert r.logins == s.logins[id := r.logins[id]] && r.logins[id].phase == Counted && r.logins[id].lifetime == r.lifetime;
    hide Step, Add;
  }

  lemma IncrementKeeps(s: Throttle, id: LoginId, limit: int)
    requires Inv(s, limit) && id !in s.logins
    ensures Inv(Step(s, Increment(id), limit), limit)
  {
    IncrementMoves(s, id, limit);
    hide Outstanding, Stale, WithinLimit;
    var r := Step(s, Increment(id), limit);
    SubsetSize(WithinLimit(r, limit), Outstanding(r));
  }

  lemma VerificationKeeps(s: Throttle, id: LoginId, limit: int)
    requires Inv(s, limit) && id !in s.logins
    ensures Inv(Step(s, SecondFactorVerified(id), limit), limit)
  {
    var r := Step(s, SecondFactorVerified(id), limit);
    assert Outstanding(r) == Outstanding(s) && Stale(r, limit) == Stale(s, limit);
    assert WithinLimit(r, limit) == WithinLimit(s, limit);
  }

  lemma DecrementMoves(s: Throttle, id: LoginId, limit: int)
    requires In(s, id, Reading) && s.logins[id].lifetime <= s.lifetime
    ensures var r := Step(s, Decrement(id), limit);
            WithinLimit(r, limit) <= WithinLimit(s, limit) &&
            if IsForeign(s, id) then Outstanding(r) == Outstanding(s) && Stale(r, limit) == Stale(s, limit)
            else if !IsStale(s, id) then
              id in Outstanding(s) && Outstanding(r) == Outstanding(s) - {id} && Stale(r, limit) == Stale(s, limit)
            else
              id in Stale(s, limit) && Outstanding(r) == Outstanding(s) && Stale(r, limit) == Stale(s, limit) - {id}
  {
    var r := Step(s, Decrement(id), limit);
    assert r.logins == s.logins[id := s.logins[id].(phase := Compensated)] && r.lifetime == s.lifetime;
    hide Step, Add;
  }

  lemma DecrementKeeps(s: Throttle, id: LoginId, limit: int)
    requires Inv(s, limit) && In(s, id, Reading)
    ensures Inv(Step(s, Decrement(id), limit), limit)
  {
    DecrementMoves(s, id, limit);
    hide Outstanding, Stale, WithinLimit;
    var r := Step(s, Decrement(id), limit);
    assert r.logins == s.logins[id := s.logins[id].(phase := Compensated)] && r.lifetime == s.lifetime;
    assert ValueOf(r.counter) == ValueOf(s.counter) - 1 && r.inFlightAtExpiry == s.inFlightAtExpiry;
    assert Fits(r.logins[id]);
    assert Unmatched(r) == Unmatched(s) + if IsForeign(s, id) || IsStale(s, id) then 1 else 0;
    hide Step, Fits, Unmatched;
    SubsetSize(WithinLimit(r, limit), WithinLimit(s, limit));
  }

  lemma ExpiryKeeps(s: Throttle, limit: int)
    requires Inv(s, limit) && s.counter.Count? && s.counter.hasTtl
    ensures Inv(Step(s, KeyExpires, limit), limit)
  {
    var r := Step(s, KeyExpires, limit);
    assert Outstanding(r) == {} && WithinLimit(r, limit) == {};
    assert Stale(r, limit) == InFlight(s, limit);
  }

  lemma StepKeepsInv(s: Throttle, e: Event, limit: int)
    requires Inv(s, limit)
    ensures Inv(Step(s, e, limit), limit)
  {
    assert forall id :: id in s.logins ==> Fits(s.logins[id]);
    hide Inv;
    match e
    case Increment(id) => if id !in s.logins { IncrementKeeps(s, id, limit); }
    case SetExpiry(id) =>
      if In(s, id, Counted) {
        TtlKeeps(s, limit);
        MoveKeeps(s.(counter := WithTtl(s.counter)), id, Checked, limit);
        MoveKeeps(s, id, Checked, limit);
      }
    case BreakOff(id) => if Step(s, e, limit) != s { MoveKeeps(s, id, Failed, limit); }
    case Judge(id, otherOk) => if In(s, id, Checked) { MoveKeeps(s, id, Step(s, e, limit).logins[id].phase, limit); }
    case WrongPassword(id) => if In(s, id, Admitted) { MoveKeeps(s, id, Failed, limit); }
    case RightPassword(id) => if In(s, id, Admitted) { MoveKeeps(s, id, Succeeding, limit); }
    case NeedsSecondFactor(id) => if In(s, id, Admitted) { MoveKeeps(s, id, Challenged, limit); }
    case SecondFactorVerified(id) => if id !in s.logins { VerificationKeeps(s, id, limit); }
    case ReadCounter(id) => if In(s, id, Succeeding) { MoveKeeps(s, id, Step(s, e, limit).logins[id].phase, limit); }
    case Decrement(id) => if In(s, id, Reading) { DecrementKeeps(s, id, limit); }
    case KeyExpires => if s.counter.Count? && s.counter.hasTtl { ExpiryKeeps(s, limit); }
  }

  lemma TtlKeeps(s: Throttle, limit: int)
    requires Inv(s, limit)
    ensures Inv(s.(counter := WithTtl(s.counter)), limit)
  {
    var r := s.(counter := WithTtl(s.counter));
    assert Outstanding(r) == Outstanding(s) && Stale(r, limit) == Stale(s, limit);
    assert WithinLimit(r, limit) == WithinLimit(s, limit);
  }

  lemma StartIsInv(s: Throttle, limit: int)
    requires s.logins == map[] && s.counter.Missing? && s.staleDecrements == 0 && s.foreignDecrements == 0
    ensures Inv(s, limit)
  {
    NobodyThere(s, limit);
    hide Outstanding, WithinLimit, Stale, Fits;
  }

  lemma NobodyThere(s: Throttle, limit: int)
    requires s.logins == map[]
    ensures |Outstanding(s)| == 0 && |WithinLimit(s, limit)| == 0 && |Stale(s, limit)| == 0
  {
    hide InFlightLogin;
    assert Outstanding(s) == {} && WithinLimit(s, limit) == {} && Stale(s, limit) == {};
  }

  lemma {:induction false} RunKeepsInv(events: seq<Event>, limit: int)
    ensures Inv(Run(events, limit), limit)
  {
    if events == [] {
      StartIsInv(START, limit);
      hide Inv;
    } else {
      hide Inv, Step;
      RunKeepsInv(events[..|events| - 1], limit);
      StepKeepsInv(Run(events[..|events| - 1], limit), events[|events| - 1], limit);
    }
  }

  /** Logins counted in this life of the key that may still decrement it. */
  function PendingOwn(s: Throttle, limit: int): set<LoginId> {
    set id | id in InFlight(s, limit) && s.logins[id].Password? && s.logins[id].lifetime == s.lifetime
  }

  /** Logins counted in this life of the key that a second factor has still to complete, or never will. */
  function ChallengedOwn(s: Throttle): set<LoginId> {
    set id | id in Outstanding(s) && s.logins[id].phase.Challenged?
  }

  /** Admitted in this life of the key, and ended without success. */
  function AdmittedButFailed(s: Throttle, limit: int): set<LoginId> {
    set id | id in Outstanding(s) && s.logins[id].attempt <= limit && s.logins[id].phase.Failed?
  }

  /**
   The account of the counter, for every interleaving: what was counted in this life and not taken back, less the
   decrements that took back something else. Those by logins from before the last expiry are no more than were in
   flight at it.
   */
  lemma {:induction false} Balance(events: seq<Event>, limit: int)
    ensures var s := Run(events, limit);
            ValueOf(s.counter) == |Outstanding(s)| - s.staleDecrements - s.foreignDecrements &&
            s.staleDecrements <= s.inFlightAtExpiry
  {
    RunKeepsInv(events, limit);
  }

  /**
   So the counter covers its pending successes, but for the unmatched decrements; and while there are none, every
   success of a login of this life finds a positive counter and takes itself back.
   */
  lemma NeverBelowPending(events: seq<Event>, limit: int, id: LoginId)
    ensures var s := Run(events, limit);
            && ValueOf(s.counter) >= |PendingOwn(s, limit)| - s.staleDecrements - s.foreignDecrements
            && (Unmatched(s) == 0 && In(s, id, Succeeding) && s.logins[id].Password? && !IsStale(s, id) ==>
                  In(Step(s, ReadCounter(id), limit), id, Reading))
  {
    Balance(events, limit);
    RunKeepsInv(events, limit);
    hide Run;
    var s := Run(events, limit);
    PendingIsOutstanding(s, limit);
    if Unmatched(s) == 0 && In(s, id, Succeeding) && s.logins[id].Password? && !IsStale(s, id) {
      IsPending(s, id, limit);
      hide Inv, PendingOwn;
      assert PendingOwn(s, limit) != {};
    }
  }

  lemma PendingIsOutstanding(s: Throttle, limit: int)
    ensures |PendingOwn(s, limit)| <= |Outstanding(s)|
  {
    SubsetSize(PendingOwn(s, limit), Outstanding(s));
  }

  lemma IsPending(s: Throttle, id: LoginId, limit: int)
    requires Inv(s, limit) && In(s, id, Succeeding) && s.logins[id].Password? && !IsStale(s, id)
    ensures id in PendingOwn(s, limit)
  {
    hide Outstanding, WithinLimit, Stale;
  }

  /** The counter undershoots by at most the logins in flight at the last expiry and the verifications since. */
  lemma Undershoot(events: seq<Event>, limit: int)
    ensures var s := Run(events, limit);
            && ValueOf(s.counter) >= |PendingOwn(s, limit)| - s.inFlightAtExpiry - s.foreignDecrements
            && ValueOf(s.counter) + s.inFlightAtExpiry + s.foreignDecrements >= 0
  {
    Balance(events, limit);
    NeverBelowPending(events, limit, 0);
  }

  lemma FailedAreWithinLimit(s: Throttle, limit: int)
    requires Judged(s, limit)
    ensures AdmittedButFailed(s, limit) + PendingOwn(s, limit) + ChallengedOwn(s) <= WithinLimit(s, limit)
  {
  }

  /**
   One life of the key lets at most `limit` logins fail, be challenged, or be admitted and open, and one more for each
   unmatched decrement.
   */
  lemma {:induction false} FailuresPerLifetime(events: seq<Event>, limit: nat)
    ensures var s := Run(events, limit);
            |AdmittedButFailed(s, limit) + PendingOwn(s, limit) + ChallengedOwn(s)|
              <= limit + s.staleDecrements + s.foreignDecrements &&
            s.staleDecrements <= s.inFlightAtExpiry
  {
    RunKeepsInv(events, limit);
    AttemptsBound(events, limit);
    hide Run;
    var s := Run(events, limit);
    FailedAreWithinLimit(s, limit);
    SubsetSize(AdmittedButFailed(s, limit) + PendingOwn(s, limit) + ChallengedOwn(s), WithinLimit(s, limit));
    hide AdmittedButFailed, PendingOwn, WithinLimit, Outstanding;
  }

  /**
   What the compensation is for: as long as verifications complete logins that were counted on this key in this life,
   no more than were challenged, they cost nothing. Counter and failures are bounded as if there were none.
   */
  lemma MatchedVerificationsCostNothing(events: seq<Event>, limit: nat)
    requires var s := Run(events, limit); s.foreignDecrements <= |ChallengedOwn(s)|
    ensures var s := Run(events, limit);
            && ValueOf(s.counter) >= |PendingOwn(s, limit)| - s.staleDecrements
            && |AdmittedButFailed(s, limit) + PendingOwn(s, limit)| <= limit + s.staleDecrements
  {
    var s := Run(events, limit);
    RunKeepsInv(events, limit);
    FailuresPerLifetime(events, limit);
    hide Run;
    var pending, challenged := PendingOwn(s, limit), ChallengedOwn(s);
    var open := AdmittedButFailed(s, limit) + pending;
    ChallengedAreApart(s, limit);
    hide Outstanding, WithinLimit, Stale, PendingOwn, ChallengedOwn, AdmittedButFailed, Fits;
    SubsetSize(pending + challenged, Outstanding(s));
    assert |open + challenged| == |open| + |challenged| && |pending + challenged| == |pending| + |challenged|;
  }

  lemma ChallengedAreApart(s: Throttle, limit: int)
    ensures PendingOwn(s, limit) !! ChallengedOwn(s) && AdmittedButFailed(s, limit) !! ChallengedOwn(s)
    ensures PendingOwn(s, limit) + ChallengedOwn(s) <= Outstanding(s)
  {
  }

  /** Past the verdict, an attempt was within the limit. */
  predicate Judged(s: Throttle, limit: int) {
    forall id :: id in s.logins && s.logins[id].Password? ==>
      var login := s.logins[id];
      login.phase.Admitted? || login.phase.Challenged? || login.phase.Succeeding? || login.phase.Reading? ==>
        login.attempt <= limit
  }

  lemma StepKeepsJudged(s: Throttle, e: Event, limit: int)
    requires Judged(s, limit)
    ensures Judged(Step(s, e, limit), limit)
  {
    hide Add, WithTtl, InFlight;
  }

  lemma {:induction false} AttemptsBound(events: seq<Event>, limit: int)
    ensures Judged(Run(events, limit), limit)
  {
    if events != [] {
      hide Step, Judged;
      AttemptsBound(events[..|events| - 1], limit);
      StepKeepsJudged(Run(events[..|events| - 1], limit), events[|events| - 1], limit);
    }
  }

  function RunFrom(s: Throttle, events: seq<Event>, limit: int): Throttle
    decreases |events|
  {
    if events == [] then s else RunFrom(Step(s, events[0], limit), events[1..], limit)
  }

  predicate SameLife(events: seq<Event>) {
    forall e :: e in events ==> !e.KeyExpires?
  }

  predicate NoVerification(events: seq<Event>) {
    forall e :: e in events ==> !e.SecondFactorVerified?
  }

  /** The life of the key that starts now can see a negative counter without any verification that begins in it. */
  ghost predicate CanGoNegative(s: Throttle, limit: int) {
    exists events ::
      SameLife(events) && NoVerification(events) && ValueOf(RunFrom(s, events, limit).counter) < 0
  }

  /** No verification has begun in this life of the key. */
  predicate NoneForeign(s: Throttle) {
    s.foreignDecrements == 0 &&
    forall id :: id in s.logins && s.logins[id].Verification? ==> s.logins[id].lifetime < s.lifetime
  }

  lemma {:induction false} RunFromKeeps(s: Throttle, events: seq<Event>, limit: int)
    requires Inv(s, limit) && NoneForeign(s) && SameLife(events) && NoVerification(events)
    ensures var r := RunFrom(s, events, limit);
            Inv(r, limit) && NoneForeign(r) && r.inFlightAtExpiry == s.inFlightAtExpiry
    decreases |events|
  {
    if events != [] {
      StepKeepsInv(s, events[0], limit);
      assert events[0] in events;
      StepKeepsNoneForeign(s, events[0], limit);
      hide Step, Inv, NoneForeign;
      RunFromKeeps(Step(s, events[0], limit), events[1..], limit);
    }
  }

  lemma StepKeepsNoneForeign(s: Throttle, e: Event, limit: int)
    requires NoneForeign(s) && !e.KeyExpires? && !e.SecondFactorVerified?
    ensures NoneForeign(Step(s, e, limit)) && Step(s, e, limit).inFlightAtExpiry == s.inFlightAtExpiry
  {
    hide Add, WithTtl, InFlight;
  }

  lemma RunFromTwo(s: Throttle, a: seq<Event>, b: seq<Event>, limit: int)
    ensures RunFrom(s, a + b, limit) == RunFrom(RunFrom(s, a, limit), b, limit)
    decreases |a|
  {
    if a == [] {
      assert a + b == b;
    } else {
      assert (a + b)[0] == a[0] && (a + b)[1..] == a[1..] + b;
      RunFromTwo(Step(s, a[0], limit), a[1..], b, limit);
    }
  }

  /** A login in flight with nothing but its own steps reaches the point before its read. */
  lemma ReachRead(s: Throttle, id: LoginId, limit: int) returns (events: seq<Event>)
    requires id in s.logins && InFlightLogin(s.logins[id], limit) && !s.logins[id].phase.Reading?
    requires s.counter.Missing?
    ensures SameLife(events) && NoVerification(events)
    ensures var r := RunFrom(s, events, limit);
            In(r, id, Succeeding) && r.counter.Missing? && r.logins.Keys == s.logins.Keys
  {
    var e := if s.logins[id].phase.Counted? then SetExpiry(id)
             else if s.logins[id].phase.Checked? then Judge(id, true)
             else RightPassword(id);
    if s.logins[id].phase.Succeeding? {
      events := [];
    } else {
      var rest := ReachRead2(Step(s, e, limit), id, limit);
      events := [e] + rest;
    }
  }

  lemma ReachRead2(s: Throttle, id: LoginId, limit: int) returns (events: seq<Event>)
    requires id in s.logins && InFlightLogin(s.logins[id], limit) && s.counter.Missing?
    requires s.logins[id].phase.Checked? || s.logins[id].phase.Admitted? || s.logins[id].phase.Succeeding?
    ensures SameLife(events) && NoVerification(events)
    ensures var r := RunFrom(s, events, limit);
            In(r, id, Succeeding) && r.counter.Missing? && r.logins.Keys == s.logins.Keys
  {
    if s.logins[id].phase.Checked? {
      var s1 := Step(s, Judge(id, true), limit);
      assert RunFrom(Step(s1, RightPassword(id), limit), [], limit) == Step(s1, RightPassword(id), limit);
      assert RunFrom(s1, [RightPassword(id)], limit) == Step(s1, RightPassword(id), limit);
      events := [Judge(id, true), RightPassword(id)];
      assert events[1..] == [RightPassword(id)];
    } else if s.logins[id].phase.Admitted? {
      events := [RightPassword(id)];
      assert RunFrom(Step(s, RightPassword(id), limit), [], limit) == Step(s, RightPassword(id), limit);
    } else {
      events := [];
    }
  }

  lemma {:induction false} FreshId(used: set<LoginId>) returns (id: LoginId)
    ensures forall u :: u in used ==> u < id
  {
    if used == {} {
      id := 0;
    } else {
      var u :| u in used;
      var smaller := FreshId(used - {u});
      id := if u < smaller then smaller else u + 1;
      assert forall v :: v in used ==> v == u || v in used - {u};
    }
  }

  /** Two logins, where the counter stands, and how far each has come. */
  predicate Picture(s: Throttle, value: int, late: LoginId, latePhase: Phase, newer: LoginId, newerPhase: Phase) {
    ValueOf(s.counter) == value && In(s, late, latePhase) && In(s, newer, newerPhase)
  }

  lemma NewerEnters(s: Throttle, late: LoginId, newer: LoginId, limit: int)
    requires In(s, late, Succeeding) && s.counter.Missing? && newer !in s.logins && limit >= 1
    ensures var r := RunFrom(s, [Increment(newer), SetExpiry(newer), Judge(newer, true), RightPassword(newer)], limit);
            Picture(r, 1, late, Succeeding, newer, Succeeding)
  {
    var s1 := Step(s, Increment(newer), limit);
    assert Picture(s1, 1, late, Succeeding, newer, Counted);
    var s2 := Step(s1, SetExpiry(newer), limit);
    assert Picture(s2, 1, late, Succeeding, newer, Checked);
    var s3 := Step(s2, Judge(newer, true), limit);
    assert Picture(s3, 1, late, Succeeding, newer, Admitted);
    FourSteps(s, [Increment(newer), SetExpiry(newer), Judge(newer, true), RightPassword(newer)], limit);
  }

  lemma BothDecrement(s: Throttle, late: LoginId, newer: LoginId, limit: int)
    requires Picture(s, 1, late, Succeeding, newer, Succeeding) && late != newer
    ensures var r := RunFrom(s, [ReadCounter(newer), ReadCounter(late), Decrement(newer), Decrement(late)], limit);
            ValueOf(r.counter) == -1
  {
    var s1 := Step(s, ReadCounter(newer), limit);
    assert Picture(s1, 1, late, Succeeding, newer, Reading);
    var s2 := Step(s1, ReadCounter(late), limit);
    assert Picture(s2, 1, late, Reading, newer, Reading);
    var s3 := Step(s2, Decrement(newer), limit);
    assert Picture(s3, 0, late, Reading, newer, Compensated);
    FourSteps(s, [ReadCounter(newer), ReadCounter(late), Decrement(newer), Decrement(late)], limit);
  }

  /** A stale login and a newer one both read 1, and both decrement. */
  lemma Overtake(s: Throttle, late: LoginId, newer: LoginId, limit: int) returns (events: seq<Event>)
    requires In(s, late, Succeeding) && s.counter.Missing? && newer !in s.logins && limit >= 1
    ensures SameLife(events) && NoVerification(events) && ValueOf(RunFrom(s, events, limit).counter) < 0
  {
    var enter := [Increment(newer), SetExpiry(newer), Judge(newer, true), RightPassword(newer)];
    var race := [ReadCounter(newer), ReadCounter(late), Decrement(newer), Decrement(late)];
    hide RunFrom;
    NewerEnters(s, late, newer, limit);
    BothDecrement(RunFrom(s, enter, limit), late, newer, limit);
    RunFromTwo(s, enter, race, limit);
    events := enter + race;
  }

  lemma FourSteps(s: Throttle, e: seq<Event>, limit: int)
    requires |e| == 4
    ensures RunFrom(s, e, limit) == Step(Step(Step(Step(s, e[0], limit), e[1], limit), e[2], limit), e[3], limit)
  {
    hide Step;
    var s1 := Step(s, e[0], limit);
    var s2 := Step(s1, e[1], limit);
    var s3 := Step(s2, e[2], limit);
    assert e[1..][1..] == e[2..] && e[2..][1..] == e[3..] && e[3..][1..] == [];
    assert RunFrom(s3, e[3..], limit) == Step(s3, e[3], limit);
    assert RunFrom(s2, e[2..], limit) == RunFrom(s3, e[3..], limit);
    assert RunFrom(s1, e[1..], limit) == RunFrom(s2, e[2..], limit);
  }

  /**
   When the promise that counters are never decremented below zero holds: in the life that follows an expiry, and
   without a verification that begins in it, the counter can go negative if and only if a login or a verification was
   in flight at the expiry.
   */
  lemma NegativeIffInFlightAtExpiry(events: seq<Event>, limit: int)
    requires limit >= 1
    requires var s := Run(events, limit); s.counter.Count? && s.counter.hasTtl
    ensures var s := Run(events, limit);
            CanGoNegative(Step(s, KeyExpires, limit), limit) <==> InFlight(s, limit) != {}
  {
    var s := Run(events, limit);
    var r := Step(s, KeyExpires, limit);
    RunKeepsInv(events, limit);
    StepKeepsInv(s, KeyExpires, limit);
    assert NoneForeign(r) by { assert forall id :: id in s.logins ==> s.logins[id].lifetime <= s.lifetime; }
    hide Run, Step, InFlight;
    if CanGoNegative(r, limit) {
      var more :| SameLife(more) && NoVerification(more) && ValueOf(RunFrom(r, more, limit).counter) < 0;
      RunFromKeeps(r, more, limit);
    }
    if InFlight(s, limit) != {} {
      var late :| late in InFlight(s, limit);
      ExpiryOf(s, late, limit);
      var more := GoNegative(r, late, limit);
    }
  }

  lemma ExpiryOf(s: Throttle, late: LoginId, limit: int)
    requires s.counter.Count? && s.counter.hasTtl && late in InFlight(s, limit)
    ensures var r := Step(s, KeyExpires, limit);
            r.counter.Missing? && late in r.logins && InFlightLogin(r.logins[late], limit)
  {
  }

  lemma GoNegative(r: Throttle, late: LoginId, limit: int) returns (events: seq<Event>)
    requires limit >= 1 && r.counter.Missing? && late in r.logins && InFlightLogin(r.logins[late], limit)
    ensures SameLife(events) && NoVerification(events) && ValueOf(RunFrom(r, events, limit).counter) < 0
  {
    if r.logins[late].phase.Reading? {
      events := [Decrement(late)];
      assert RunFrom(Step(r, events[0], limit), [], limit) == Step(r, events[0], limit);
    } else {
      var first := ReachRead(r, late, limit);
      var newer := FreshId(r.logins.Keys);
      var second := Overtake(RunFrom(r, first, limit), late, newer, limit);
      RunFromTwo(r, first, second, limit);
      events := first + second;
    }
  }

  /**
   With a verification that begins in it, every life can: from any state in which the key is missing, whatever is in
   flight, one verification and one login that both read 1 drive the counter below zero.
   */
  lemma OneVerificationGoesNegative(s: Throttle, limit: int) returns (verified: Event, events: seq<Event>)
    requires limit >= 1 && s.counter.Missing?
    ensures verified.SecondFactorVerified? && SameLife(events) && NoVerification(events)
    ensures ValueOf(RunFrom(s, [verified] + events, limit).counter) < 0
  {
    var late := FreshId(s.logins.Keys);
    verified := SecondFactorVerified(late);
    var r := Step(s, verified, limit);
    var newer := FreshId(r.logins.Keys);
    events := Overtake(r, late, newer, limit);
    RunFromTwo(s, [verified], events, limit);
    assert RunFrom(s, [verified], limit) == RunFrom(r, [], limit) by { assert [verified][1..] == []; }
  }

  // -- The bound on failures is attained -----------------------------------------------------------------------------

  /** The first life of the key, with this count, this many verifications and this many failures. */
  predicate Tally(s: Throttle, value: int, foreign: nat, failed: nat, limit: int) {
    ValueOf(s.counter) == value && s.lifetime == 0 && s.staleDecrements == 0 && s.inFlightAtExpiry == 0 &&
    s.foreignDecrements == foreign && |AdmittedButFailed(s, limit)| == failed
  }

  lemma FailsOnce(s: Throttle, id: LoginId, value: int, foreign: nat, failed: nat, limit: int)
    requires Tally(s, value, foreign, failed, limit) && value < limit && id !in s.logins
    ensures var r := RunFrom(s, [Increment(id), SetExpiry(id), Judge(id, true), WrongPassword(id)], limit);
            Tally(r, value + 1, foreign, failed + 1, limit)
  {
    FourSteps(s, [Increment(id), SetExpiry(id), Judge(id, true), WrongPassword(id)], limit);
    var r := RunFrom(s, [Increment(id), SetExpiry(id), Judge(id, true), WrongPassword(id)], limit);
    hide RunFrom;
    FailedStep(s, id, limit);
    assert AdmittedButFailed(r, limit) == AdmittedButFailed(s, limit) + {id};
  }

  lemma FailedStep(s: Throttle, id: LoginId, limit: int)
    requires s.lifetime == 0 && ValueOf(s.counter) < limit && id !in s.logins
    ensures var r := Step(Step(Step(Step(s, Increment(id), limit), SetExpiry(id), limit), Judge(id, true), limit),
                          WrongPassword(id), limit);
            ValueOf(r.counter) == ValueOf(s.counter) + 1 &&
            r == s.(counter := r.counter, logins := s.logins[id := Password(Failed, ValueOf(s.counter) + 1, 0)])
  {
    var s1 := Step(s, Increment(id), limit);
    var s2 := Step(s1, SetExpiry(id), limit);
    assert s2.logins == s.logins[id := Password(Checked, ValueOf(s.counter) + 1, 0)];
    var s3 := Step(s2, Judge(id, true), limit);
    assert s3.logins == s.logins[id := Password(Admitted, ValueOf(s.counter) + 1, 0)];
    var s4 := Step(s3, WrongPassword(id), limit);
    assert s4.logins == s.logins[id := Password(Failed, ValueOf(s.counter) + 1, 0)];
  }

  lemma TakesBackOnce(s: Throttle, id: LoginId, value: int, foreign: nat, failed: nat, limit: int)
    requires Tally(s, value, foreign, failed, limit) && value > 0 && id !in s.logins
    ensures var r := RunFrom(s, [SecondFactorVerified(id), ReadCounter(id), Decrement(id), BreakOff(id)], limit);
            Tally(r, value - 1, foreign + 1, failed, limit)
  {
    FourSteps(s, [SecondFactorVerified(id), ReadCounter(id), Decrement(id), BreakOff(id)], limit);
    var r := RunFrom(s, [SecondFactorVerified(id), ReadCounter(id), Decrement(id), BreakOff(id)], limit);
    hide RunFrom;
    TakenBackStep(s, id, limit);
    assert AdmittedButFailed(r, limit) == AdmittedButFailed(s, limit);
  }

  lemma TakenBackStep(s: Throttle, id: LoginId, limit: int)
    requires s.lifetime == 0 && ValueOf(s.counter) > 0 && id !in s.logins
    ensures var r := Step(Step(Step(Step(s, SecondFactorVerified(id), limit), ReadCounter(id), limit),
                               Decrement(id), limit), BreakOff(id), limit);
            ValueOf(r.counter) == ValueOf(s.counter) - 1 &&
            r == s.(counter := r.counter, foreignDecrements := s.foreignDecrements + 1,
                    logins := s.logins[id := Verification(Compensated, 0)])
  {
    var s1 := Step(s, SecondFactorVerified(id), limit);
    var s2 := Step(s1, ReadCounter(id), limit);
    assert s2 == s.(logins := s.logins[id := Verification(Reading, 0)]);
    var s3 := Step(s2, Decrement(id), limit);
    assert s3.logins == s.logins[id := Verification(Compensated, 0)];
  }

  lemma {:induction false} FailUpTo(value: nat, limit: int) returns (events: seq<Event>)
    requires value <= limit
    ensures SameLife(events) && Tally(RunFrom(START, events, limit), value, 0, value, limit)
  {
    events := [];
    if value == 0 {
      assert AdmittedButFailed(START, limit) == {};
    } else {
      var before := FailUpTo(value - 1, limit);
      hide RunFrom, Tally;
      var s := RunFrom(START, before, limit);
      var id := FreshId(s.logins.Keys);
      FailsOnce(s, id, value - 1, 0, value - 1, limit);
      var more := [Increment(id), SetExpiry(id), Judge(id, true), WrongPassword(id)];
      RunFromTwo(START, before, more, limit);
      events := before + more;
    }
  }

  lemma {:induction false} FailBeyond(n: nat, limit: nat) returns (events: seq<Event>)
    requires limit >= 1
    ensures SameLife(events) && Tally(RunFrom(START, events, limit), limit, n, limit + n, limit)
  {
    hide RunFrom, Tally;
    if n == 0 {
      events := FailUpTo(limit, limit);
    } else {
      var before := FailBeyond(n - 1, limit);
      var s := RunFrom(START, before, limit);
      var first := FreshId(s.logins.Keys);
      TakesBackOnce(s, first, limit, n - 1, limit + n - 1, limit);
      var back := [SecondFactorVerified(first), ReadCounter(first), Decrement(first), BreakOff(first)];
      RunFromTwo(START, before, back, limit);
      var r := RunFrom(START, before + back, limit);
      var second := FreshId(r.logins.Keys);
      FailsOnce(r, second, limit - 1, n, limit + n - 1, limit);
      var more := [Increment(second), SetExpiry(second), Judge(second, true), WrongPassword(second)];
      RunFromTwo(START, before + back, more, limit);
      events := before + back + more;
    }
  }

  lemma {:induction false} RunIsRunFrom(events: seq<Event>, limit: int)
    ensures Run(events, limit) == RunFrom(START, events, limit)
  {
    if events != [] {
      var front, last := events[..|events| - 1], events[|events| - 1];
      RunIsRunFrom(front, limit);
      RunFromTwo(START, front, [last], limit);
      assert front + [last] == events && [last][1..] == [];
      var s := RunFrom(START, front, limit);
      assert RunFrom(s, [last], limit) == RunFrom(Step(s, last, limit), [], limit);
    }
  }

  /**
   Verifications that complete nothing counted here do cost what `FailuresPerLifetime` allows: for every `n`, a run
   without any expiry in which `n` of them let `limit + n` admitted logins fail.
   */
  lemma FailuresBoundIsAttained(n: nat, limit: nat) returns (events: seq<Event>)
    requires limit >= 1
    ensures SameLife(events)
    ensures var s := Run(events, limit);
            s.foreignDecrements == n && s.staleDecrements == 0 && |AdmittedButFailed(s, limit)| == limit + n
  {
    events := FailBeyond(n, limit);
    RunIsRunFrom(events, limit);
  }

  // -- Who is admitted, and who takes back ---------------------------------------------------------------------------

  /** What a login's phase says of the past. */
  predicate Deserved(events: seq<Event>, id: LoginId, l: Login, limit: int) {
    (l.Password? && (l.phase.Admitted? || l.phase.Challenged? || l.phase.Succeeding? || l.phase.Reading? ||
                     l.phase.Compensated? || l.phase.Skipped?) ==>
       l.attempt <= limit && Judge(id, true) in events) &&
    (l.phase.Succeeding? || l.phase.Reading? || l.phase.Compensated? || l.phase.Skipped? ==>
       if l.Password? then RightPassword(id) in events else SecondFactorVerified(id) in events)
  }

  /**
   In every run: a login is admitted only within the limit of this key and with the consent of the other, and takes
   itself back only after the right password; a verification does so only after it has succeeded.
   */
  lemma {:induction false} OnlySuccessTakesBack(events: seq<Event>, limit: int, id: LoginId)
    requires id in Run(events, limit).logins
    ensures Deserved(events, id, Run(events, limit).logins[id], limit)
  {
    var front, last := events[..|events| - 1], events[|events| - 1];
    if id in Run(front, limit).logins {
      OnlySuccessTakesBack(front, limit, id);
    }
    RunLast(events, limit);
    hide Run, Deserved, Fits, Step;
    LoginsFit(front, limit);
    StepDeserved(front, Run(front, limit), last, id, limit);
    assert front + [last] == events;
  }

  lemma LoginsFit(events: seq<Event>, limit: int)
    ensures forall x :: x in Run(events, limit).logins ==> Fits(Run(events, limit).logins[x])
  {
    RunKeepsInv(events, limit);
    hide Run, Fits, Outstanding, WithinLimit, Stale;
  }

  lemma StepDeserved(events: seq<Event>, s: Throttle, e: Event, id: LoginId, limit: int)
    requires id in Step(s, e, limit).logins
    requires id in s.logins ==> Fits(s.logins[id]) && Deserved(events, id, s.logins[id], limit)
    ensures Deserved(events + [e], id, Step(s, e, limit).logins[id], limit)
  {
    hide Add, WithTtl, InFlight;
    assert e in events + [e] && forall x :: x in events ==> x in events + [e];
  }

  lemma RunLast(events: seq<Event>, limit: int)
    requires events != []
    ensures Run(events, limit) == Step(Run(events[..|events| - 1], limit), events[|events| - 1], limit)
  {
  }

  /** The first login of a life gives the key its time to live, unless it broke off before. */
  predicate Expires(s: Throttle, l: Login) {
    l.Password? && l.attempt == 1 && l.lifetime == s.lifetime && !l.phase.Counted? && !l.phase.Failed? ==>
      s.counter.Count? && s.counter.hasTtl
  }

  /** A key that has been counted in this life is there. */
  predicate Present(s: Throttle, l: Login) {
    l.Password? && l.lifetime == s.lifetime ==> s.counter.Count?
  }

  lemma {:induction false} FirstLoginSetsExpiry(events: seq<Event>, limit: int, id: LoginId)
    requires id in Run(events, limit).logins
    ensures Expires(Run(events, limit), Run(events, limit).logins[id])
    ensures Present(Run(events, limit), Run(events, limit).logins[id])
  {
    var front, last := events[..|events| - 1], events[|events| - 1];
    if id in Run(front, limit).logins {
      FirstLoginSetsExpiry(front, limit, id);
    }
    RunKeepsInv(front, limit);
    assert forall x :: x in Run(front, limit).logins ==> Run(front, limit).logins[x].lifetime <= Run(front, limit).lifetime;
    RunLast(events, limit);
    hide Run, Inv, Step, Expires, Present;
    StepExpires(Run(front, limit), last, id, limit);
  }

  lemma StepExpires(s: Throttle, e: Event, id: LoginId, limit: int)
    requires id in Step(s, e, limit).logins
    requires id in s.logins ==> s.logins[id].lifetime <= s.lifetime && Expires(s, s.logins[id]) && Present(s, s.logins[id])
    ensures var r := Step(s, e, limit); Expires(r, r.logins[id]) && Present(r, r.logins[id])
  {
    hide InFlight;
  }

  /** A time to live comes only from a login that counted to 1, in this life or an earlier one, and sent its expire. */
  ghost predicate ExpiryHasCause(events: seq<Event>, s: Throttle) {
    s.counter.Count? && s.counter.hasTtl ==>
      exists id :: id in s.logins && s.logins[id].Password? && s.logins[id].attempt == 1 && SetExpiry(id) in events
  }

  /** So a key never expires if every login that counted it to 1 broke off between its two calls. */
  lemma {:induction false} NoExpiryWithoutFirstLogin(events: seq<Event>, limit: int)
    ensures ExpiryHasCause(events, Run(events, limit))
  {
    if events != [] {
      var front, last := events[..|events| - 1], events[|events| - 1];
      NoExpiryWithoutFirstLogin(front, limit);
      RunLast(events, limit);
      hide Run, Step, ExpiryHasCause;
      StepHasCause(front, Run(front, limit), last, limit);
      assert front + [last] == events;
    }
  }

  lemma StepHasCause(events: seq<Event>, s: Throttle, e: Event, limit: int)
    requires ExpiryHasCause(events, s)
    ensures ExpiryHasCause(events + [e], Step(s, e, limit))
  {
    var r := Step(s, e, limit);
    assert e in events + [e] && forall x :: x in events ==> x in events + [e];
    if r.counter.Count? && r.counter.hasTtl {
      if s.counter.Count? && s.counter.hasTtl {
        var id :| id in s.logins && s.logins[id].Password? && s.logins[id].attempt == 1 && SetExpiry(id) in events;
        KeepsIdentity(s, e, id, limit);
        assert SetExpiry(id) in events + [e];
      } else {
        TtlComesFromSetExpiry(s, e, limit);
        KeepsIdentity(s, e, e.id, limit);
        assert SetExpiry(e.id) in events + [e];
      }
    }
  }

  lemma TtlComesFromSetExpiry(s: Throttle, e: Event, limit: int)
    requires !(s.counter.Count? && s.counter.hasTtl)
    requires Step(s, e, limit).counter.Count? && Step(s, e, limit).counter.hasTtl
    ensures e.SetExpiry? && e.id in s.logins && s.logins[e.id].Password? && s.logins[e.id].attempt == 1
    ensures s.counter.Count?
  {
    hide InFlight;
  }

  lemma KeepsIdentity(s: Throttle, e: Event, id: LoginId, limit: int)
    requires id in s.logins && s.logins[id].Password?
    ensures var r := Step(s, e, limit);
            id in r.logins && r.logins[id].Password? && r.logins[id].attempt == s.logins[id].attempt &&
            r.logins[id].lifetime == s.logins[id].lifetime
    ensures !(e.KeyExpires? && s.counter.Count? && s.counter.hasTtl) ==> Step(s, e, limit).lifetime == s.lifetime
  {
    hide InFlight, Add;
  }

  /** Whoever decrements has read a positive value: event `n` is that read. */
  ghost predicate ReadPositive(events: seq<Event>, n: nat, id: LoginId, limit: int) {
    n < |events| && events[n] == ReadCounter(id) && ValueOf(Run(events[..n], limit).counter) > 0
  }

  lemma {:induction false} TakesBackOnlyFromPositive(events: seq<Event>, limit: int, id: LoginId)
    requires id in Run(events, limit).logins
    requires var l := Run(events, limit).logins[id]; l.phase.Reading? || l.phase.Compensated?
    ensures exists n: nat :: ReadPositive(events, n, id, limit)
  {
    var front, last := events[..|events| - 1], events[|events| - 1];
    var s := Run(front, limit);
    RunLast(events, limit);
    hide Run;
    ReadingComesFrom(s, last, id, limit);
    if last == ReadCounter(id) && ValueOf(s.counter) > 0 {
      assert events[..|front|] == front;
      assert ReadPositive(events, |front|, id, limit);
    } else {
      TakesBackOnlyFromPositive(front, limit, id);
      var n: nat :| ReadPositive(front, n, id, limit);
      assert front[..n] == events[..n];
      assert ReadPositive(events, n, id, limit);
    }
  }

  lemma ReadingComesFrom(s: Throttle, e: Event, id: LoginId, limit: int)
    requires var r := Step(s, e, limit);
             id in r.logins && (r.logins[id].phase.Reading? || r.logins[id].phase.Compensated?)
    ensures (e == ReadCounter(id) && ValueOf(s.counter) > 0) ||
            (id in s.logins && (s.logins[id].phase.Reading? || s.logins[id].phase.Compensated?))
  {
    hide InFlight, Add;
  }

  /** What the second factor is for: one login that asks for it and one verification leave the counter at zero. */
  lemma SecondFactorCompensates(limit: int) returns (events: seq<Event>)
    requires limit >= 1
    ensures var s := Run(events, limit);
            ValueOf(s.counter) == 0 && s.foreignDecrements == 1 && |ChallengedOwn(s)| == 1
  {
    var ask := [Increment(0), SetExpiry(0), Judge(0, true), NeedsSecondFactor(0)];
    var back := [SecondFactorVerified(1), ReadCounter(1), Decrement(1), BreakOff(1)];
    FourSteps(START, ask, limit);
    var asked := RunFrom(START, ask, limit);
    assert asked == START.(counter := Count(1, true), logins := map[0 := Password(Challenged, 1, 0)]);
    FourSteps(asked, back, limit);
    hide RunFrom;
    TakenBackStep(asked, 1, limit);
    events := ask + back;
    RunFromTwo(START, ask, back, limit);
    RunIsRunFrom(events, limit);
    assert ChallengedOwn(Run(events, limit)) == {0};
  }
}
