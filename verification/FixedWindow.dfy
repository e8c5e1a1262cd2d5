/**
 Counters that are incremented, given a TTL by whoever got 1, and never decremented: signups
 per IP (middleware/auth_throttle.py:138-155) and API-key misses per IP
 (middleware/auth.py:368-395). Between the increment and its expire other attempts may run.
 */
module FixedWindow {
  import opened Wrappers

  /** A key and when it expires, if its expire has landed. */
  datatype Key = Missing | Count(n: nat, expiresAt: Option<int>)

  /** An admitted attempt: when, and in which life of the key. */
  datatype Admission = Admission(time: int, life: nat)

  /** `lifeStart` is when the current life's first attempt came; `pending` that its expire is still due. */
  datatype Window = Window(key: Key, pending: bool, now: int, life: nat, lifeStart: int, admitted: seq<Admission>)

  datatype Event = Attempt(time: int) | ExpireLands(time: int)

  function Live(key: Key, time: int): Key {
    if key.Count? && key.expiresAt.Some? && key.expiresAt.value <= time then Missing else key
  }

  function StartAt(time: int): Window {
    Window(Missing, false, time, 0, time, [])
  }

  /** Events come in time order; a late one does nothing. */
  function Step(s: Window, e: Event, limit: nat, seconds: nat): Window {
    if e.time < s.now then s
    else
      match e
      case Attempt(t) =>
        var key := Live(s.key, t);
        var first := key.Missing?;
        var n := if first then 1 else key.n + 1;
        var life := if first then s.life + 1 else s.life;
        Window(if first then Count(1, None) else key.(n := n),
               first || s.pending, t, life, if first then t else s.lifeStart,
               if n <= limit then s.admitted + [Admission(t, life)] else s.admitted)
      case ExpireLands(t) =>
        if s.pending && s.key.Count? then s.(key := s.key.(expiresAt := Some(t + seconds)), pending := false, now := t)
        else s.(now := t)
  }

  function Run(start: int, events: seq<Event>, limit: nat, seconds: nat): Window {
    if events == [] then StartAt(start)
    else Step(Run(start, events[..|events| - 1], limit, seconds), events[|events| - 1], limit, seconds)
  }

  /** Admissions in `[a, a + seconds)`, and those of one life. */
  function Within(admitted: seq<Admission>, a: int, seconds: nat): nat {
    if admitted == [] then 0
    else
      var last := admitted[|admitted| - 1];
      Within(admitted[..|admitted| - 1], a, seconds) + if a <= last.time < a + seconds then 1 else 0
  }

  function InLife(admitted: seq<Admission>, life: nat): nat {
    if admitted == [] then 0
    else InLife(admitted[..|admitted| - 1], life) + if admitted[|admitted| - 1].life == life then 1 else 0
  }

  function Min(a: nat, b: nat): nat {
    if a < b then a else b
  }

  /** The key's own books: its count covers its life, and it lives at least `seconds`. */
  ghost predicate Books(s: Window, limit: nat, seconds: nat) {
    && (s.key.Missing? ==> s.life == 0 && s.admitted == [] && !s.pending)
    && (s.key.Count? ==>
          && s.key.n >= 1 && s.lifeStart <= s.now
          && InLife(s.admitted, s.life) == Min(s.key.n, limit)
          && (s.key.expiresAt.Some? ==> !s.pending && s.key.expiresAt.value >= s.lifeStart + seconds))
    && (forall l :: l > s.life ==> InLife(s.admitted, l) == 0)
    && (forall l :: InLife(s.admitted, l) <= limit)
    && (forall i :: 0 <= i < |s.admitted| ==> s.admitted[i].time <= s.now && s.admitted[i].life <= s.life)
  }

  lemma AppendCounts(admitted: seq<Admission>, x: Admission, a: int, seconds: nat)
    ensures Within(admitted + [x], a, seconds) == Within(admitted, a, seconds) + if a <= x.time < a + seconds then 1 else 0
    ensures forall l :: InLife(admitted + [x], l) == InLife(admitted, l) + if x.life == l then 1 else 0
  {
    assert (admitted + [x])[..|admitted + [x]| - 1] == admitted;
  }

  lemma AttemptKeepsBooks(s: Window, t: int, limit: nat, seconds: nat)
    requires Books(s, limit, seconds) && s.now <= t
    ensures Books(Step(s, Attempt(t), limit, seconds), limit, seconds)
  {
    hide InLife, Within;
    var life := if Live(s.key, t).Missing? then s.life + 1 else s.life;
    AppendCounts(s.admitted, Admission(t, life), 0, 0);
  }

  lemma ExpireKeepsBooks(s: Window, t: int, limit: nat, seconds: nat)
    requires Books(s, limit, seconds) && s.now <= t
    ensures Books(Step(s, ExpireLands(t), limit, seconds), limit, seconds)
  {
    hide InLife;
  }

  lemma StepKeepsBooks(s: Window, e: Event, limit: nat, seconds: nat)
    requires Books(s, limit, seconds)
    ensures Books(Step(s, e, limit, seconds), limit, seconds)
  {
    hide Books;
    if s.now <= e.time {
      match e
      case Attempt(t) => AttemptKeepsBooks(s, t, limit, seconds);
      case ExpireLands(t) => ExpireKeepsBooks(s, t, limit, seconds);
    }
  }

  lemma {:induction false} RunKeepsBooks(start: int, events: seq<Event>, limit: nat, seconds: nat)
    ensures Books(Run(start, events, limit, seconds), limit, seconds)
  {
    if events != [] {
      RunKeepsBooks(start, events[..|events| - 1], limit, seconds);
      StepKeepsBooks(Run(start, events[..|events| - 1], limit, seconds), events[|events| - 1], limit, seconds);
    }
  }

  /** One life of the key admits at most the limit, whether or not its expire ever lands. */
  lemma OneLifeAdmitsTheLimit(start: int, events: seq<Event>, limit: nat, seconds: nat, life: nat)
    ensures InLife(Run(start, events, limit, seconds).admitted, life) <= limit
  {
    RunKeepsBooks(start, events, limit, seconds);
  }

  /** Admissions of the current life in the interval, and of earlier ones. */
  function Current(s: Window, a: int, seconds: nat): nat {
    CurrentOf(s.admitted, s.life, a, seconds)
  }

  function CurrentOf(admitted: seq<Admission>, life: nat, a: int, seconds: nat): nat {
    if admitted == [] then 0
    else
      var last := admitted[|admitted| - 1];
      CurrentOf(admitted[..|admitted| - 1], life, a, seconds)
        + if last.life == life && a <= last.time < a + seconds then 1 else 0
  }

  lemma {:induction false} CurrentBounds(admitted: seq<Admission>, life: nat, a: int, seconds: nat)
    ensures CurrentOf(admitted, life, a, seconds) <= Within(admitted, a, seconds)
    ensures CurrentOf(admitted, life, a, seconds) <= InLife(admitted, life)
    ensures (forall i :: 0 <= i < |admitted| ==> admitted[i].life < life) ==> CurrentOf(admitted, life, a, seconds) == 0
  {
    if admitted != [] {
      CurrentBounds(admitted[..|admitted| - 1], life, a, seconds);
    }
  }

  lemma AppendCurrent(admitted: seq<Admission>, x: Admission, life: nat, a: int, seconds: nat)
    ensures CurrentOf(admitted + [x], life, a, seconds)
         == CurrentOf(admitted, life, a, seconds) + if x.life == life && a <= x.time < a + seconds then 1 else 0
  {
    assert (admitted + [x])[..|admitted + [x]| - 1] == admitted;
  }

  lemma {:induction false} WithinIsPast(admitted: seq<Admission>, a: int, seconds: nat, now: int)
    requires forall i :: 0 <= i < |admitted| ==> admitted[i].time <= now
    ensures Within(admitted, a, seconds) > 0 ==> a <= now
  {
    if admitted != [] {
      WithinIsPast(admitted[..|admitted| - 1], a, seconds, now);
    }
  }

  /**
   What holds while the interval lasts: admissions of at least two lives are in it only if the
   current one started inside it; and a life that started before it has lost its first one to it.
   */
  predicate Spread(s: Window, a: int, limit: nat, seconds: nat) {
    var current := Current(s, a, seconds);
    var total := Within(s.admitted, a, seconds);
    && total <= 2 * limit - 1
    && (s.now < a + seconds ==>
          && (total > current ==> s.key.Count? && s.lifeStart >= a && total - current <= limit - 1)
          && (s.key.Count? && s.lifeStart < a ==> current <= Min(s.key.n, limit) - 1))
  }

  lemma StepKeepsSpread(s: Window, e: Event, a: int, limit: nat, seconds: nat)
    requires limit >= 1 && Books(s, limit, seconds) && Spread(s, a, limit, seconds)
    ensures Spread(Step(s, e, limit, seconds), a, limit, seconds)
  {
    var r := Step(s, e, limit, seconds);
    StepKeepsBooks(s, e, limit, seconds);
    CurrentBounds(s.admitted, s.life, a, seconds);
    CurrentBounds(r.admitted, r.life, a, seconds);
    if e.Attempt? && s.now <= e.time {
      AppendCounts(s.admitted, Admission(e.time, r.life), a, seconds);
      AppendCurrent(s.admitted, Admission(e.time, r.life), r.life, a, seconds);
      CurrentBounds(s.admitted, r.life, a, seconds);
      WithinIsPast(s.admitted, a, seconds, s.now);
    }
  }

  lemma {:induction false} RunKeepsSpread(start: int, events: seq<Event>, a: int, limit: nat, seconds: nat)
    requires limit >= 1
    ensures Spread(Run(start, events, limit, seconds), a, limit, seconds)
  {
    if events != [] {
      RunKeepsSpread(start, events[..|events| - 1], a, limit, seconds);
      RunKeepsBooks(start, events[..|events| - 1], limit, seconds);
      StepKeepsSpread(Run(start, events[..|events| - 1], limit, seconds), events[|events| - 1], a, limit, seconds);
    }
  }

  /** Any half-open interval as long as the window admits at most `2 * limit - 1`, wherever it lies. */
  lemma AnyWindowAdmitsLessThanTwice(start: int, events: seq<Event>, a: int, limit: nat, seconds: nat)
    requires limit >= 1
    ensures Within(Run(start, events, limit, seconds).admitted, a, seconds) <= 2 * limit - 1
  {
    RunKeepsSpread(start, events, a, limit, seconds);
  }

  lemma Extend(start: int, events: seq<Event>, e: Event, limit: nat, seconds: nat)
    ensures Run(start, events + [e], limit, seconds) == Step(Run(start, events, limit, seconds), e, limit, seconds)
  {
    assert (events + [e])[..|events + [e]| - 1] == events;
  }

  /** `k` more attempts at one moment of a life that can still admit them. */
  lemma {:induction false} AdmitMore(events: seq<Event>, time: int, k: nat, a: int, limit: nat, seconds: nat)
      returns (longer: seq<Event>)
    requires var s := Run(0, events, limit, seconds);
             && s.now <= time && a <= time < a + seconds && Live(s.key, time).Count? && s.key.n + k <= limit
    ensures var s := Run(0, events, limit, seconds);
            var r := Run(0, longer, limit, seconds);
            && r.key == s.key.(n := s.key.n + k) && r.lifeStart == s.lifeStart && r.now <= time
            && Within(r.admitted, a, seconds) == Within(s.admitted, a, seconds) + k
    decreases k
  {
    if k == 0 {
      longer := events;
    } else {
      var shorter := AdmitMore(events, time, k - 1, a, limit, seconds);
      var s := Run(0, shorter, limit, seconds);
      Extend(0, shorter, Attempt(time), limit, seconds);
      AppendCounts(s.admitted, Admission(time, s.life), a, seconds);
      longer := shorter + [Attempt(time)];
    }
  }

  /** The bound is attained: one attempt, a full rest of the limit just before the expiry, and a full limit at it. */
  lemma TwiceIsAttained(limit: nat, seconds: nat) returns (events: seq<Event>)
    requires limit >= 1 && seconds >= 2
    ensures Within(Run(0, events, limit, seconds).admitted, 1, seconds) == 2 * limit - 1
  {
    Extend(0, [], Attempt(0), limit, seconds);
    Extend(0, [] + [Attempt(0)], ExpireLands(0), limit, seconds);
    events := [] + [Attempt(0)] + [ExpireLands(0)];
    assert Run(0, events, limit, seconds).admitted == [] + [Admission(0, 1)];
    AppendCounts([], Admission(0, 1), 1, seconds);
    events := AdmitMore(events, seconds - 1, limit - 1, 1, limit, seconds);
    var s := Run(0, events, limit, seconds);
    Extend(0, events, Attempt(seconds), limit, seconds);
    AppendCounts(s.admitted, Admission(seconds, s.life + 1), 1, seconds);
    events := events + [Attempt(seconds)];
    events := AdmitMore(events, seconds, limit - 1, 1, limit, seconds);
  }

  /**
   Nobody is refused for longer than that: an attempt that comes a full window after the expire has landed begins a new
   life and is admitted.
   */
  lemma AdmittedAfterTheWindow(start: int, events: seq<Event>, more: seq<Event>, landed: int, time: int, limit: nat,
                               seconds: nat)
    requires limit >= 1 && time >= landed + seconds
    requires var s := Run(start, events, limit, seconds); s.pending && s.key.Count? && s.now <= landed
    requires forall e :: e in more ==> e.Attempt? && e.time < landed + seconds
    ensures var s := Run(start, events + [ExpireLands(landed)] + more, limit, seconds);
            var r := Run(start, events + [ExpireLands(landed)] + more + [Attempt(time)], limit, seconds);
            r.admitted == s.admitted + [Admission(time, s.life + 1)]
  {
    Extend(start, events, ExpireLands(landed), limit, seconds);
    MoreAttempts(start, events + [ExpireLands(landed)], more, landed + seconds, limit, seconds);
    Extend(start, events + [ExpireLands(landed)] + more, Attempt(time), limit, seconds);
  }

  lemma {:induction false} MoreAttempts(start: int, events: seq<Event>, more: seq<Event>, expiresAt: int, limit: nat,
                                        seconds: nat)
    requires var s := Run(start, events, limit, seconds);
             s.key.Count? && s.key.expiresAt == Some(expiresAt) && s.now <= expiresAt
    requires forall e :: e in more ==> e.Attempt? && e.time < expiresAt
    ensures var s := Run(start, events + more, limit, seconds);
            s.key.Count? && s.key.expiresAt == Some(expiresAt) && s.now <= expiresAt
    decreases |more|
  {
    if more == [] {
      assert events + more == events;
    } else {
      var front, last := more[..|more| - 1], more[|more| - 1];
      assert last in more && forall e :: e in front ==> e in more;
      MoreAttempts(start, events, front, expiresAt, limit, seconds);
      assert events + more == events + front + [last];
      Extend(start, events + front, last, limit, seconds);
    }
  }

  /** The counter as `check_signup_attempt` and `_check_auth_miss_rate_limit` use it. */
  class ExpiringCounter {
    const limit: nat
    const seconds: nat
    var count: nat
    var expiresAt: Option<int>
    ghost var window: Window

    ghost predicate Valid()
      reads this
    {
      window.key == if count == 0 then Missing else Count(count, expiresAt)
    }

    constructor (limit: nat, seconds: nat, start: int)
      ensures Valid() && this.limit == limit && this.seconds == seconds && window == StartAt(start)
    {
      this.limit, this.seconds, count, expiresAt, window := limit, seconds, 0, None, StartAt(start);
    }

    /** INCR; the caller sends the expire if the result is 1, and is refused beyond the limit. */
    method Check(time: int) returns (first: bool, allowed: bool)
      requires Valid() && window.now <= time
      modifies this
      ensures Valid() && window == Step(old(window), Attempt(time), limit, seconds)
      ensures first == Live(old(window).key, time).Missing?
      ensures first == (old(count) == 0 || (old(expiresAt).Some? && old(expiresAt).value <= time))
      ensures count == (if first then 1 else old(count) + 1) && allowed == (count <= limit)
      ensures allowed == (|window.admitted| == |old(window).admitted| + 1)
      ensures !allowed ==> window.admitted == old(window).admitted
    {
      if count > 0 && expiresAt.Some? && expiresAt.value <= time {
        count, expiresAt := 0, None;
      }
      if count == 0 {
        expiresAt := None;
      }
      count := count + 1;
      first, allowed := count == 1, count <= limit;
      window := Step(window, Attempt(time), limit, seconds);
    }

    method Expire(time: int)
      requires Valid() && window.now <= time && window.pending && window.key.Count?
      modifies this
      ensures Valid() && window == Step(old(window), ExpireLands(time), limit, seconds)
      ensures expiresAt == Some(time + seconds) && count == old(count)
    {
      expiresAt := Some(time + seconds);
      window := Step(window, ExpireLands(time), limit, seconds);
    }
  }
}
