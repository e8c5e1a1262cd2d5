/**
 `AuthThrottle` as the object it is (middleware/auth_throttle.py): its login checks and their
 compensation on the counters in Redis, one call at a time.
 */
module AuthThrottle {
  import opened Wrappers
  import opened Throttle

  /** The normalized email and IP keys of one login. */
  datatype Key = EmailKey(email: string) | IpKey(ip: string)

  datatype RateLimitError = TooManyForAccount | TooManyFromIp

  type Counters = map<Key, Counter>

  function At(m: Counters, k: Key): Counter {
    if k in m then m[k] else Missing
  }

  /** INCR, then EXPIRE if the result is 1. */
  function CountedUp(m: Counters, k: Key): Counters {
    var c := Add(At(m, k), 1);
    m[k := if c.value == 1 then WithTtl(c) else c]
  }

  /** DECR if the counter is above zero. */
  function TakenBack(m: Counters, k: Key): Counters {
    if ValueOf(At(m, k)) > 0 then m[k := Add(At(m, k), -1)] else m
  }

  function Attempted(m: Counters, email: string, ip: string): Counters {
    CountedUp(CountedUp(m, EmailKey(email)), IpKey(ip))
  }

  function Succeeded(m: Counters, email: string, ip: string): Counters {
    TakenBack(TakenBack(m, EmailKey(email)), IpKey(ip))
  }

  /**
   A successful login leaves a counter as it found it exactly if the counter was not negative;
   a negative one it brings up by one. Other keys keep their counters.
   */
  lemma SuccessCompensatesAttempt(m: Counters, email: string, ip: string, k: Key)
    ensures var r := Succeeded(Attempted(m, email, ip), email, ip);
            && (k == EmailKey(email) || k == IpKey(ip) ==>
                  && (ValueOf(At(r, k)) == ValueOf(At(m, k)) <==> ValueOf(At(m, k)) >= 0)
                  && (ValueOf(At(m, k)) < 0 ==> ValueOf(At(r, k)) == ValueOf(At(m, k)) + 1))
            && (k != EmailKey(email) && k != IpKey(ip) ==> At(r, k) == At(m, k))
  {
    var a := Attempted(m, email, ip);
    assert At(a, EmailKey(email)).value == ValueOf(At(m, EmailKey(email))) + 1;
    assert At(a, IpKey(ip)).value == ValueOf(At(m, IpKey(ip))) + 1;
  }

  lemma AttemptCounts(m: Counters, email: string, ip: string)
    ensures forall k :: k == EmailKey(email) || k == IpKey(ip) ==>
              ValueOf(At(Attempted(m, email, ip), k)) == ValueOf(At(m, k)) + 1 &&
              (ValueOf(At(m, k)) == 0 ==> At(Attempted(m, email, ip), k) == Count(1, true))
    ensures forall k :: k != EmailKey(email) && k != IpKey(ip) ==> At(Attempted(m, email, ip), k) == At(m, k)
  {
  }

  /** A call of the throttle, from its start to its end. */
  datatype Call = CheckAttempt(email: string, ip: string) | RecordSuccess(email: string, ip: string)

  /** The counters after calls that do not overlap, and without expiry. */
  function After(calls: seq<Call>): Counters {
    if calls == [] then map[]
    else
      var m, last := After(calls[..|calls| - 1]), calls[|calls| - 1];
      if last.CheckAttempt? then Attempted(m, last.email, last.ip) else Succeeded(m, last.email, last.ip)
  }

  /**
   The floor at zero, as far as it goes: calls that do not overlap never leave a counter negative, not even successes
   without a check before them.
   */
  lemma {:induction false} UninterruptedCallsAreFloored(calls: seq<Call>, k: Key)
    ensures ValueOf(At(After(calls), k)) >= 0
  {
    if calls != [] {
      var front, last := calls[..|calls| - 1], calls[|calls| - 1];
      UninterruptedCallsAreFloored(front, k);
      UninterruptedCallsAreFloored(front, EmailKey(last.email));
      UninterruptedCallsAreFloored(front, IpKey(last.ip));
    }
  }

  /** Nobody is locked out for good: after calls that do not overlap every counter has a time to live. */
  lemma {:induction false} CountersExpire(calls: seq<Call>, k: Key)
    ensures At(After(calls), k).Count? ==> At(After(calls), k).hasTtl
  {
    if calls != [] {
      var front, last := calls[..|calls| - 1], calls[|calls| - 1];
      CountersExpire(front, k);
      UninterruptedCallsAreFloored(front, k);
      CountersExpire(front, EmailKey(last.email));
      CountersExpire(front, IpKey(last.ip));
    }
  }

  class LoginThrottle {
    const maxPerEmail: int
    const maxPerIp: int
    var counters: Counters

    constructor (maxPerEmail: int := 5, maxPerIp: int := 20)
      ensures this.maxPerEmail == maxPerEmail && this.maxPerIp == maxPerIp && counters == map[]
    {
      this.maxPerEmail, this.maxPerIp, counters := maxPerEmail, maxPerIp, map[];
    }

    method Incr(k: Key) returns (n: int)
      modifies this`counters
      ensures counters == old(counters)[k := Add(At(old(counters), k), 1)]
      ensures At(old(counters), k).Missing? ==> counters[k] == Count(1, false)
      ensures n == ValueOf(At(old(counters), k)) + 1
    {
      counters := counters[k := Add(At(counters, k), 1)];
      n := counters[k].value;
    }

    method Expire(k: Key)
      requires k in counters
      modifies this`counters
      ensures counters == old(counters)[k := WithTtl(old(counters)[k])]
    {
      counters := counters[k := WithTtl(counters[k])];
    }

    /** Both counters move before either is judged, so a denied attempt counts for both; a first one sets the expiry. */
    method CheckLoginAttempt(email: string, ip: string) returns (r: Result<(), RateLimitError>)
      modifies this`counters
      ensures counters == Attempted(old(counters), email, ip)
      ensures forall k :: k == EmailKey(email) || k == IpKey(ip) ==>
                ValueOf(At(counters, k)) == ValueOf(At(old(counters), k)) + 1 &&
                (ValueOf(At(old(counters), k)) == 0 ==> At(counters, k) == Count(1, true))
      ensures forall k :: k != EmailKey(email) && k != IpKey(ip) ==> At(counters, k) == At(old(counters), k)
      ensures r == if ValueOf(At(old(counters), EmailKey(email))) >= maxPerEmail then Failure(TooManyForAccount)
                   else if ValueOf(At(old(counters), IpKey(ip))) >= maxPerIp then Failure(TooManyFromIp)
                   else Success(())
    {
      var emailAttempts := Incr(EmailKey(email));
      if emailAttempts == 1 {
        Expire(EmailKey(email));
      }
      assert counters == CountedUp(old(counters), EmailKey(email));
      ghost var between := counters;
      var ipAttempts := Incr(IpKey(ip));
      if ipAttempts == 1 {
        Expire(IpKey(ip));
      }
      assert counters == CountedUp(between, IpKey(ip));
      AttemptCounts(old(counters), email, ip);
      hide Attempted, CountedUp;
      if emailAttempts > maxPerEmail {
        return Failure(TooManyForAccount);
      }
      if ipAttempts > maxPerIp {
        return Failure(TooManyFromIp);
      }
      r := Success(());
    }

    method DecrementIfPositive(k: Key)
      modifies this`counters
      ensures counters == TakenBack(old(counters), k)
    {
      var current := At(counters, k);
      if current.Count? && current.value > 0 {
        counters := counters[k := Add(current, -1)];
      }
    }

    method RecordLoginSuccess(email: string, ip: string)
      modifies this`counters
      ensures counters == Succeeded(old(counters), email, ip)
      ensures forall k :: k == EmailKey(email) || k == IpKey(ip) ==>
                ValueOf(At(counters, k)) == ValueOf(At(old(counters), k)) -
                  if ValueOf(At(old(counters), k)) > 0 then 1 else 0
      ensures forall k :: k != EmailKey(email) && k != IpKey(ip) ==> At(counters, k) == At(old(counters), k)
    {
      DecrementIfPositive(EmailKey(email));
      DecrementIfPositive(IpKey(ip));
    }
  }
}
