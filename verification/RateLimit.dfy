/**
 Sliding-window rate limiting over a Redis sorted set (middleware/rate_limit.py).

 Each request carries the timestamp it took before its pipeline ran and the Redis time at
 which the pipeline ran. The key is pruned by timestamp and expires by Redis time.
 */
module RateLimit {
  const MS_PER_SECOND := 1000
  const TTL_SLACK_SECONDS := 5

  /** A sorted-set member is unique per request; its score is the timestamp. */
  datatype Member = Member(timestampMs: nat, uuid: nat)

  datatype Key = Absent | Present(members: set<Member>, expiresAt: int)

  datatype Request = Request(member: Member, serverMs: nat)

  /** What the key still holds at a Redis time. */
  function Live(key: Key, serverMs: nat): set<Member> {
    if key.Present? && serverMs < key.expiresAt then key.members else {}
  }

  function Prune(members: set<Member>, cutoffMs: int): set<Member> {
    set m | m in members && !(0 <= m.timestampMs <= cutoffMs)
  }

  function WindowMs(window: nat): nat {
    window * MS_PER_SECOND
  }

  function TtlMs(window: nat): nat {
    (window + TTL_SLACK_SECONDS) * MS_PER_SECOND
  }

  /** The members counted for a request: expired and pruned, before it adds itself. */
  function Counted(key: Key, r: Request, window: nat): set<Member> {
    Prune(Live(key, r.serverMs), r.member.timestampMs - WindowMs(window))
  }

  function Pipeline(key: Key, r: Request, window: nat): Key {
    Present(Counted(key, r, window) + {r.member}, r.serverMs + TtlMs(window))
  }

  /** The key after these requests, in the order in which Redis ran them. Denied ones count too. */
  function KeyAfter(reqs: seq<Request>, window: nat): Key {
    if reqs == [] then Absent
    else Pipeline(KeyAfter(reqs[..|reqs| - 1], window), reqs[|reqs| - 1], window)
  }

  function CountedAt(reqs: seq<Request>, i: nat, window: nat): set<Member>
    requires i < |reqs|
  {
    Counted(KeyAfter(reqs[..i], window), reqs[i], window)
  }

  lemma PipelineNext(reqs: seq<Request>, r: Request, window: nat)
    ensures KeyAfter(reqs + [r], window) == Pipeline(KeyAfter(reqs, window), r, window)
  {
    assert (reqs + [r])[..|reqs|] == reqs;
  }

  predicate Allowed(reqs: seq<Request>, i: nat, window: nat, max: int)
    requires i < |reqs|
  {
    |CountedAt(reqs, i, window)| < max
  }

  function Remaining(reqs: seq<Request>, i: nat, window: nat, max: int): nat
    requires i < |reqs|
  {
    var left := max - |CountedAt(reqs, i, window)| - 1;
    if left < 0 then 0 else left
  }

  /** The source's numbers: the window in milliseconds, and the key's time to live, five seconds longer. */
  lemma InMilliseconds(window: nat)
    ensures WindowMs(window) == 1000 * window && TtlMs(window) == 1000 * (window + 5)
  {
  }

  predicate Distinct(reqs: seq<Request>) {
    forall i, j :: 0 <= i < j < |reqs| ==> reqs[i].member != reqs[j].member
  }

  /** Redis runs pipelines one after the other. */
  predicate ServerOrdered(reqs: seq<Request>) {
    forall i, j :: 0 <= i < j < |reqs| ==> reqs[i].serverMs <= reqs[j].serverMs
  }

  /** Timestamps are out of order against execution order by at most `d`. */
  predicate Disorder(reqs: seq<Request>, d: nat) {
    forall i, j :: 0 <= i < j < |reqs| ==> reqs[i].member.timestampMs <= reqs[j].member.timestampMs + d
  }

  /**
   From request `i` to request `j` no pipeline comes so long after the one before it that the key has expired in
   between. The code does not see to that: a pipeline can be delayed.
   */
  predicate KeptAlive(reqs: seq<Request>, i: nat, j: nat, window: nat) {
    j < |reqs| && forall k :: i < k <= j ==> reqs[k].serverMs < reqs[k - 1].serverMs + TtlMs(window)
  }

  /** The key never expires between two requests that are less than a window apart. */
  predicate AliveWithin(reqs: seq<Request>, window: nat) {
    forall i, j :: 0 <= i < j < |reqs| && reqs[j].member.timestampMs < reqs[i].member.timestampMs + WindowMs(window) ==>
      KeptAlive(reqs, i, j, window)
  }

  /** Each request reaches Redis within `d` of a fixed offset from its timestamp. */
  predicate BoundedLatency(reqs: seq<Request>, offset: int, d: nat) {
    forall i :: 0 <= i < |reqs| ==> offset <= reqs[i].serverMs - reqs[i].member.timestampMs <= offset + d
  }

  /** With bounded latency, timestamps are out of order by at most the bound, and the key is alive as long as needed. */
  lemma BoundedLatencySuffices(reqs: seq<Request>, offset: int, d: nat, window: nat)
    requires ServerOrdered(reqs) && BoundedLatency(reqs, offset, d) && d <= TTL_SLACK_SECONDS * MS_PER_SECOND
    ensures Disorder(reqs, d) && AliveWithin(reqs, window)
  {
    forall i, j | 0 <= i < j < |reqs|
      ensures reqs[i].member.timestampMs <= reqs[j].member.timestampMs + d
      ensures reqs[j].serverMs - reqs[i].serverMs <= reqs[j].member.timestampMs - reqs[i].member.timestampMs + d
    {
      assert offset <= reqs[i].serverMs - reqs[i].member.timestampMs <= offset + d;
      assert offset <= reqs[j].serverMs - reqs[j].member.timestampMs <= offset + d;
    }
    forall i, j | 0 <= i < j < |reqs| && reqs[j].member.timestampMs < reqs[i].member.timestampMs + WindowMs(window)
      ensures KeptAlive(reqs, i, j, window)
    {
      forall k | i < k <= j ensures reqs[k].serverMs < reqs[k - 1].serverMs + TtlMs(window) {
        assert reqs[j].serverMs - reqs[i].serverMs < TtlMs(window);
        assert reqs[k].serverMs <= reqs[j].serverMs && reqs[i].serverMs <= reqs[k - 1].serverMs;
      }
    }
  }

  /** Nothing is counted but earlier requests inside the window. */
  lemma {:induction false} OnlyRecentHeld(reqs: seq<Request>, window: nat, m: Member)
    requires KeyAfter(reqs, window).Present? && m in KeyAfter(reqs, window).members
    ensures exists i :: 0 <= i < |reqs| && reqs[i].member == m
  {
    var n := |reqs| - 1;
    if m != reqs[n].member {
      OnlyRecentHeld(reqs[..n], window, m);
      var i :| 0 <= i < n && reqs[..n][i].member == m;
      assert reqs[i].member == m;
    }
  }

  /** A request that stays inside the window of every later one is still held, while the key is kept alive. */
  lemma {:induction false} Survives(reqs: seq<Request>, i: nat, j: nat, window: nat)
    requires i < j <= |reqs| && KeptAlive(reqs, i, j - 1, window)
    requires forall k :: i < k < j ==> reqs[k].member.timestampMs < reqs[i].member.timestampMs + WindowMs(window)
    ensures var key := KeyAfter(reqs[..j], window);
            key.Present? && reqs[i].member in key.members && key.expiresAt == reqs[j - 1].serverMs + TtlMs(window)
    decreases j
  {
    assert reqs[..j][..j - 1] == reqs[..j - 1];
    if i < j - 1 {
      Survives(reqs, i, j - 1, window);
      StillCounted(reqs, i, j - 1, window);
    }
  }

  lemma StillCounted(reqs: seq<Request>, i: nat, k: nat, window: nat)
    requires i < k < |reqs| && KeptAlive(reqs, i, k, window)
    requires var key := KeyAfter(reqs[..k], window);
             key.Present? && reqs[i].member in key.members && key.expiresAt == reqs[k - 1].serverMs + TtlMs(window)
    requires reqs[k].member.timestampMs < reqs[i].member.timestampMs + WindowMs(window)
    ensures reqs[i].member in CountedAt(reqs, k, window)
  {
  }

  /** Once the key has expired under a request, the request is never counted again. */
  lemma {:induction false} GoneForGood(reqs: seq<Request>, i: nat, j: nat, k: nat, window: nat)
    requires Distinct(reqs) && i < k <= j < |reqs|
    requires reqs[k].serverMs >= reqs[k - 1].serverMs + TtlMs(window)
    ensures reqs[i].member !in CountedAt(reqs, j, window)
    decreases j
  {
    KeyAfterNext(reqs, j - 1, window);
    if k < j {
      GoneForGood(reqs, i, j - 1, k, window);
      assert reqs[i].member != reqs[j - 1].member;
    }
  }

  lemma KeyAfterNext(reqs: seq<Request>, k: nat, window: nat)
    requires k < |reqs|
    ensures KeyAfter(reqs[..k + 1], window)
         == Present(CountedAt(reqs, k, window) + {reqs[k].member}, reqs[k].serverMs + TtlMs(window))
  {
    assert reqs[..k + 1][..k] == reqs[..k];
  }

  /** All requests before `j` whose timestamp is after `sinceMs`. */
  function Since(reqs: seq<Request>, j: nat, sinceMs: int): set<Member>
    requires j <= |reqs|
  {
    set i | 0 <= i < j && reqs[i].member.timestampMs > sinceMs :: reqs[i].member
  }

  /** The key is alive for request `j` since every request after `sinceMs`. */
  predicate AliveSince(reqs: seq<Request>, j: nat, sinceMs: int, window: nat)
    requires j < |reqs|
  {
    forall i :: 0 <= i < j && reqs[i].member.timestampMs > sinceMs ==> KeptAlive(reqs, i, j, window)
  }

  /** The pruned, expiring set holds nothing outside the window. */
  lemma NothingOldCounted(reqs: seq<Request>, j: nat, window: nat)
    requires j < |reqs|
    ensures CountedAt(reqs, j, window) <= Since(reqs, j, reqs[j].member.timestampMs - WindowMs(window))
  {
    forall m | m in CountedAt(reqs, j, window)
      ensures m in Since(reqs, j, reqs[j].member.timestampMs - WindowMs(window))
    {
      OnlyRecentHeld(reqs[..j], window, m);
      var i :| 0 <= i < j && reqs[..j][i].member == m;
      assert reqs[i].member == m;
    }
  }

  /**
   The pruned, expiring set against the full history: it holds nothing outside the window, and while the key is kept
   alive it misses at most what disorder can have pruned early.
   */
  lemma CountedBetween(reqs: seq<Request>, j: nat, window: nat, d: nat)
    requires Disorder(reqs, d) && j < |reqs|
    requires AliveSince(reqs, j, reqs[j].member.timestampMs - WindowMs(window) + d, window)
    ensures var start := reqs[j].member.timestampMs - WindowMs(window);
            Since(reqs, j, start + d) <= CountedAt(reqs, j, window) <= Since(reqs, j, start)
  {
    NothingOldCounted(reqs, j, window);
    var start := reqs[j].member.timestampMs - WindowMs(window);
    forall m | m in Since(reqs, j, start + d) ensures m in CountedAt(reqs, j, window) {
      var i :| 0 <= i < j && reqs[i].member.timestampMs > start + d && reqs[i].member == m;
      Survives(reqs, i, j, window);
      StillCounted(reqs, i, j, window);
    }
  }

  /**
   With in-order timestamps the count is that of the whole unpruned history, denied requests included, if and only if
   the key has not expired since the oldest request that is still in the window.
   */
  lemma SameAsFullHistoryIff(reqs: seq<Request>, j: nat, window: nat)
    requires Distinct(reqs) && Disorder(reqs, 0) && j < |reqs|
    ensures var start := reqs[j].member.timestampMs - WindowMs(window);
            CountedAt(reqs, j, window) == Since(reqs, j, start) <==> AliveSince(reqs, j, start, window)
  {
    hide CountedAt, WindowMs, Since, AliveSince, Disorder;
    var start := reqs[j].member.timestampMs - WindowMs(window);
    if AliveSince(reqs, j, start, window) {
      CountedBetween(reqs, j, window, 0);
    } else {
      ExpiredLoses(reqs, j, start, window);
    }
  }

  lemma ExpiredLoses(reqs: seq<Request>, j: nat, start: int, window: nat)
    requires Distinct(reqs) && j < |reqs| && !AliveSince(reqs, j, start, window)
    ensures CountedAt(reqs, j, window) != Since(reqs, j, start)
  {
    hide CountedAt, WindowMs, TtlMs, Distinct;
    var i, k := GapOf(reqs, j, start, window);
    GoneForGood(reqs, i, j, k, window);
    hide AliveSince;
    assert reqs[i].member in Since(reqs, j, start);
  }

  lemma GapOf(reqs: seq<Request>, j: nat, start: int, window: nat) returns (i: nat, k: nat)
    requires j < |reqs| && !AliveSince(reqs, j, start, window)
    ensures i < k <= j && reqs[i].member.timestampMs > start && reqs[k].serverMs >= reqs[k - 1].serverMs + TtlMs(window)
  {
    hide TtlMs;
    i :| 0 <= i < j && reqs[i].member.timestampMs > start && !KeptAlive(reqs, i, j, window);
    k :| i < k <= j && reqs[k].serverMs >= reqs[k - 1].serverMs + TtlMs(window);
  }

  /** And then, and only then, every limit gives the verdict of the full history. */
  lemma VerdictsOfFullHistoryIff(reqs: seq<Request>, j: nat, window: nat)
    requires Distinct(reqs) && Disorder(reqs, 0) && j < |reqs|
    ensures var start := reqs[j].member.timestampMs - WindowMs(window);
            (forall max: int :: Allowed(reqs, j, window, max) <==> |Since(reqs, j, start)| < max) <==>
              AliveSince(reqs, j, start, window)
  {
    hide CountedAt, Since, AliveSince;
    var counted := CountedAt(reqs, j, window);
    var full := Since(reqs, j, reqs[j].member.timestampMs - WindowMs(window));
    SameAsFullHistoryIff(reqs, j, window);
    NothingOldCounted(reqs, j, window);
    if counted != full {
      assert full == counted + (full - counted) && full - counted != {};
      assert |counted| < |full|;
      assert Allowed(reqs, j, window, |full|) && !(|full| < |full|);
    }
  }

  predicate Inside(reqs: seq<Request>, i: nat, from: int, length: int)
    requires i < |reqs|
  {
    from <= reqs[i].member.timestampMs < from + length
  }

  predicate AdmittedAt(reqs: seq<Request>, i: nat, window: nat, max: int, from: int, length: int)
    requires i < |reqs|
  {
    Allowed(reqs, i, window, max) && Inside(reqs, i, from, length)
  }

  /** The requests admitted with a timestamp in `[from, from + length)`. */
  function Admitted(reqs: seq<Request>, window: nat, max: int, from: int, length: int): set<nat> {
    set i: nat | i < |reqs| && AdmittedAt(reqs, i, window, max, from, length)
  }

  lemma {:induction false} Largest(s: set<nat>) returns (r: nat)
    requires s != {}
    ensures r in s && forall i :: i in s ==> i <= r
  {
    var x :| x in s;
    r := x;
    if s - {x} != {} {
      var q := Largest(s - {x});
      r := if q < x then x else q;
      assert forall i :: i in s ==> i == x || i in s - {x};
    } else {
      assert s == {x};
    }
  }

  /** Distinct requests are as many as their members. */
  lemma {:induction false} AsManyMembers(reqs: seq<Request>, s: set<nat>, members: set<Member>)
    requires Distinct(reqs) && forall i :: i in s ==> i < |reqs| && reqs[i].member in members
    ensures |s| <= |members|
    decreases |s|
  {
    if s != {} {
      var i :| i in s;
      AsManyMembers(reqs, s - {i}, members - {reqs[i].member});
    }
  }

  /** The key does not expire between two requests of the interval, from request `lo` on. */
  predicate AliveInsideFrom(reqs: seq<Request>, lo: nat, window: nat, from: int, length: int) {
    forall i, j :: lo <= i < j < |reqs| && Inside(reqs, i, from, length) && Inside(reqs, j, from, length) ==>
      KeptAlive(reqs, i, j, window)
  }

  predicate AliveInside(reqs: seq<Request>, window: nat, from: int, length: int) {
    AliveInsideFrom(reqs, 0, window, from, length)
  }

  /** Whoever was admitted in the interval before request `r` is counted for it. */
  lemma EarlierAreCounted(reqs: seq<Request>, lo: nat, window: nat, max: int, d: nat, from: int, i: nat, r: nat)
    requires Disorder(reqs, d) && AliveInsideFrom(reqs, lo, window, from, WindowMs(window) - d) && lo <= i < r < |reqs|
    requires AdmittedAt(reqs, i, window, max, from, WindowMs(window) - d)
    requires AdmittedAt(reqs, r, window, max, from, WindowMs(window) - d)
    ensures reqs[i].member in CountedAt(reqs, r, window)
  {
    hide Allowed, WindowMs, CountedAt;
    assert Inside(reqs, i, from, WindowMs(window) - d) && Inside(reqs, r, from, WindowMs(window) - d);
    assert KeptAlive(reqs, i, r, window);
    Survives(reqs, i, r, window);
    StillCounted(reqs, i, r, window);
  }

  function AdmittedFrom(reqs: seq<Request>, lo: nat, window: nat, max: int, from: int, length: int): set<nat> {
    set i | i in Admitted(reqs, window, max, from, length) && lo <= i
  }

  /** From one expiry on until the next, no more than `max` are admitted. */
  lemma SegmentBound(reqs: seq<Request>, lo: nat, window: nat, max: int, d: nat, from: int)
    requires Distinct(reqs) && Disorder(reqs, d) && max >= 0
    requires AliveInsideFrom(reqs, lo, window, from, WindowMs(window) - d)
    ensures |AdmittedFrom(reqs, lo, window, max, from, WindowMs(window) - d)| <= max
  {
    hide CountedAt, WindowMs;
    var admitted := AdmittedFrom(reqs, lo, window, max, from, WindowMs(window) - d);
    if admitted != {} {
      var r := Largest(admitted);
      forall i | i in admitted - {r} ensures i < |reqs| && reqs[i].member in CountedAt(reqs, r, window) {
        EarlierAreCounted(reqs, lo, window, max, d, from, i, r);
      }
      AsManyMembers(reqs, admitted - {r}, CountedAt(reqs, r, window));
    }
  }

  /**
   With timestamps out of order by at most `d`, no half-open interval of length `window - d` in which the key does
   not expire admits more than `max` requests. With `d == 0` this is the exact sliding-window bound.
   */
  lemma WindowBound(reqs: seq<Request>, window: nat, max: int, d: nat, from: int)
    requires Distinct(reqs) && Disorder(reqs, d) && max >= 0
    requires AliveInside(reqs, window, from, WindowMs(window) - d)
    ensures |Admitted(reqs, window, max, from, WindowMs(window) - d)| <= max
  {
    hide CountedAt, WindowMs, KeptAlive;
    SegmentBound(reqs, 0, window, max, d, from);
    assert AdmittedFrom(reqs, 0, window, max, from, WindowMs(window) - d)
        == Admitted(reqs, window, max, from, WindowMs(window) - d);
  }

  /** The key has expired just before request `k`, between two requests of the interval. */
  predicate ExpiresInside(reqs: seq<Request>, k: nat, window: nat, from: int, length: int) {
    0 < k < |reqs| && reqs[k].serverMs >= reqs[k - 1].serverMs + TtlMs(window) &&
    (exists i :: 0 <= i < k && Inside(reqs, i, from, length)) &&
    (exists j :: k <= j < |reqs| && Inside(reqs, j, from, length))
  }

  function Expiries(reqs: seq<Request>, window: nat, from: int, length: int): set<nat> {
    set k: nat | k < |reqs| && ExpiresInside(reqs, k, window, from, length)
  }

  lemma NoLaterExpiry(reqs: seq<Request>, lo: nat, window: nat, from: int, length: int)
    requires forall k :: k in Expiries(reqs, window, from, length) ==> k <= lo
    ensures AliveInsideFrom(reqs, lo, window, from, length)
  {
    hide TtlMs;
    forall i, j | lo <= i < j < |reqs| && Inside(reqs, i, from, length) && Inside(reqs, j, from, length)
      ensures KeptAlive(reqs, i, j, window)
    {
      forall k | i < k <= j ensures reqs[k].serverMs < reqs[k - 1].serverMs + TtlMs(window) {
        assert k !in Expiries(reqs, window, from, length);
        assert k < |reqs| && !ExpiresInside(reqs, k, window, from, length);
      }
    }
  }

  lemma PrefixOf(reqs: seq<Request>, k: nat, window: nat, max: int, from: int, length: int)
    requires k < |reqs| && ExpiresInside(reqs, k, window, from, length)
    ensures Admitted(reqs, window, max, from, length) ==
              Admitted(reqs[..k], window, max, from, length) + AdmittedFrom(reqs, k, window, max, from, length)
    ensures Expiries(reqs[..k], window, from, length) <= Expiries(reqs, window, from, length) - {k}
  {
    hide CountedAt, TtlMs;
    forall i: nat | i < k
      ensures AdmittedAt(reqs, i, window, max, from, length) == AdmittedAt(reqs[..k], i, window, max, from, length)
    {
      SameCount(reqs, k, i, window);
    }
    PrefixExpiries(reqs, k, window, from, length);
  }

  lemma SameCount(reqs: seq<Request>, k: nat, i: nat, window: nat)
    requires i < k <= |reqs|
    ensures CountedAt(reqs[..k], i, window) == CountedAt(reqs, i, window)
  {
    assert reqs[..k][..i] == reqs[..i];
  }

  lemma PrefixExpiries(reqs: seq<Request>, k: nat, window: nat, from: int, length: int)
    requires k < |reqs|
    ensures Expiries(reqs[..k], window, from, length) <= Expiries(reqs, window, from, length) - {k}
  {
    hide TtlMs;
    forall m | m in Expiries(reqs[..k], window, from, length)
      ensures m in Expiries(reqs, window, from, length) && m < k
    {
      var i :| 0 <= i < m && Inside(reqs[..k], i, from, length);
      var j :| m <= j < k && Inside(reqs[..k], j, from, length);
      assert Inside(reqs, i, from, length) && Inside(reqs, j, from, length);
    }
  }

  /** In general: each expiry of the key inside the interval can admit another `max`, and no more. */
  lemma {:induction false} WindowBoundWithExpiries(reqs: seq<Request>, window: nat, max: int, d: nat, from: int)
    requires Distinct(reqs) && Disorder(reqs, d) && max >= 0
    ensures var length := WindowMs(window) - d;
            |Admitted(reqs, window, max, from, length)| <= max * (1 + |Expiries(reqs, window, from, length)|)
    decreases |reqs|
  {
    hide WindowMs, Admitted, AdmittedFrom, ExpiresInside, AliveInsideFrom;
    var length := WindowMs(window) - d;
    var expiries := Expiries(reqs, window, from, length);
    if expiries == {} {
      NoLaterExpiry(reqs, 0, window, from, length);
      SegmentBound(reqs, 0, window, max, d, from);
      AdmittedFromZero(reqs, window, max, from, length);
    } else {
      var k := Largest(expiries);
      NoLaterExpiry(reqs, k, window, from, length);
      SegmentBound(reqs, k, window, max, d, from);
      PrefixOf(reqs, k, window, max, from, length);
      WindowBoundWithExpiries(reqs[..k], window, max, d, from);
      var before := Expiries(reqs[..k], window, from, length);
      SubsetSize(before, expiries - {k});
      OneMore(max, |before|, |expiries|);
    }
  }

  lemma AdmittedFromZero(reqs: seq<Request>, window: nat, max: int, from: int, length: int)
    ensures AdmittedFrom(reqs, 0, window, max, from, length) == Admitted(reqs, window, max, from, length)
  {
    hide AdmittedAt;
  }

  lemma OneMore(max: int, fewer: nat, more: nat)
    requires fewer + 1 <= more && max >= 0
    ensures max * (1 + fewer) + max <= max * (1 + more)
  {
    assert max * (1 + fewer) + max == max * (2 + fewer);
  }

  /** With bounded latency the bound holds for every interval. */
  lemma WindowBoundWithBoundedLatency(reqs: seq<Request>, window: nat, max: int, d: nat, offset: int, from: int)
    requires Distinct(reqs) && ServerOrdered(reqs) && BoundedLatency(reqs, offset, d) && max >= 0
    requires d <= TTL_SLACK_SECONDS * MS_PER_SECOND
    ensures |Admitted(reqs, window, max, from, WindowMs(window) - d)| <= max
  {
    hide Admitted, KeptAlive;
    BoundedLatencySuffices(reqs, offset, d, window);
    WindowBound(reqs, window, max, d, from);
  }

  /**
   Without that premise the bound fails: of two requests a millisecond apart, in order, the second reaches Redis just
   as the key expires, and a limit of one admits both.
   */
  lemma DelayedPipelineBreaksBound(window: nat) returns (reqs: seq<Request>)
    requires window > 0
    ensures Distinct(reqs) && ServerOrdered(reqs) && Disorder(reqs, 0)
    ensures |Admitted(reqs, window, 1, 0, WindowMs(window))| == 2
  {
    reqs := [Request(Member(0, 0), 0), Request(Member(1, 1), TtlMs(window))];
    KeyAfterNext(reqs, 0, window);
    assert CountedAt(reqs, 0, window) == {} by { assert reqs[..0] == []; }
    assert CountedAt(reqs, 1, window) == {};
    hide CountedAt;
    assert Admitted(reqs, window, 1, 0, WindowMs(window)) == {0, 1};
  }

  /** Requests a millisecond apart, each of which reaches Redis just as the key expires. */
  function Delayed(n: nat, window: nat): (reqs: seq<Request>)
    ensures |reqs| == n
  {
    seq(n, k requires 0 <= k < n => Request(Member(k, k), k * TtlMs(window)))
  }

  /** That bound is attained: for every window and every `n` that it holds, `n - 1` expiries and `n` admissions. */
  lemma ExpiriesBoundIsAttained(n: nat, window: nat) returns (reqs: seq<Request>)
    requires 0 < n <= WindowMs(window)
    ensures Distinct(reqs) && ServerOrdered(reqs) && Disorder(reqs, 0)
    ensures |Expiries(reqs, window, 0, WindowMs(window))| == n - 1
    ensures |Admitted(reqs, window, 1, 0, WindowMs(window))| == n
  {
    reqs := Delayed(n, window);
    DelayedIsInOrder(n, window);
    hide Delayed, WindowMs, TtlMs, Distinct, ServerOrdered, Disorder, AdmittedAt, ExpiresInside;
    forall k | k in Naturals(n)
      ensures AdmittedAt(reqs, k, window, 1, 0, WindowMs(window))
      ensures k > 0 ==> ExpiresInside(reqs, k, window, 0, WindowMs(window))
    {
      DelayedIsAdmitted(n, window, k);
    }
    InAll(reqs, n, window, WindowMs(window));
    ExpiriesInAll(reqs, n, window, WindowMs(window));
  }

  lemma DelayedIsInOrder(n: nat, window: nat)
    ensures var reqs := Delayed(n, window); Distinct(reqs) && ServerOrdered(reqs) && Disorder(reqs, 0)
  {
    hide TtlMs;
    var reqs := Delayed(n, window);
    forall i, j | 0 <= i < j < n ensures reqs[i].serverMs <= reqs[j].serverMs {
      Later(i, j, TtlMs(window));
    }
  }

  lemma Later(i: nat, j: nat, t: nat)
    requires i < j
    ensures i * t <= j * t && (i + 1) * t == i * t + t
  {
    assert j * t == i * t + (j - i) * t;
  }

  lemma InAll(reqs: seq<Request>, n: nat, window: nat, length: int)
    requires |reqs| == n && forall k :: k in Naturals(n) ==> AdmittedAt(reqs, k, window, 1, 0, length)
    ensures Admitted(reqs, window, 1, 0, length) == Naturals(n)
  {
    hide AdmittedAt;
  }

  lemma ExpiriesInAll(reqs: seq<Request>, n: nat, window: nat, length: int)
    requires |reqs| == n
    requires forall k :: k in Naturals(n) && k > 0 ==> ExpiresInside(reqs, k, window, 0, length)
    ensures Expiries(reqs, window, 0, length) == Naturals(n) - {0}
  {
    assert !ExpiresInside(reqs, 0, window, 0, length);
    hide ExpiresInside;
  }

  lemma DelayedIsAdmitted(n: nat, window: nat, k: nat)
    requires k < n <= WindowMs(window)
    ensures AdmittedAt(Delayed(n, window), k, window, 1, 0, WindowMs(window))
    ensures k > 0 ==> ExpiresInside(Delayed(n, window), k, window, 0, WindowMs(window))
  {
    var reqs := Delayed(n, window);
    hide WindowMs, TtlMs;
    if k > 0 {
      Later(k - 1, k, TtlMs(window));
      KeyAfterNext(reqs, k - 1, window);
      assert Inside(reqs, k - 1, 0, WindowMs(window)) && Inside(reqs, k, 0, WindowMs(window));
    } else {
      assert reqs[..0] == [];
    }
    assert CountedAt(reqs, k, window) == {};
  }

  lemma NotYetCounted(reqs: seq<Request>, k: nat, window: nat)
    requires Distinct(reqs) && k < |reqs|
    ensures reqs[k].member !in CountedAt(reqs, k, window)
  {
    NothingOldCounted(reqs, k, window);
  }

  /** At one instant each further request counts one more, while the key is alive. */
  lemma {:induction false} InstantCounts(reqs: seq<Request>, i: nat, j: nat, window: nat)
    requires Distinct(reqs) && i <= j < |reqs| && window > 0 && KeptAlive(reqs, i, j, window)
    requires forall k :: i <= k <= j ==> reqs[k].member.timestampMs == reqs[i].member.timestampMs
    ensures |CountedAt(reqs, j, window)| == |CountedAt(reqs, i, window)| + j - i
    decreases j
  {
    hide CountedAt, Distinct, TtlMs;
    if i < j {
      InstantCounts(reqs, i, j - 1, window);
      NotYetCounted(reqs, j - 1, window);
      InstantNext(reqs, j - 1, window);
    }
  }

  lemma InstantNext(reqs: seq<Request>, k: nat, window: nat)
    requires k + 1 < |reqs| && window > 0 && reqs[k + 1].serverMs < reqs[k].serverMs + TtlMs(window)
    requires reqs[k + 1].member.timestampMs == reqs[k].member.timestampMs
    ensures CountedAt(reqs, k + 1, window) == CountedAt(reqs, k, window) + {reqs[k].member}
  {
    KeyAfterNext(reqs, k, window);
  }

  /** `remaining` is exactly how many more requests at the same instant will be admitted, while the key is alive. */
  lemma RemainingIsExact(reqs: seq<Request>, i: nat, j: nat, window: nat, max: int)
    requires Distinct(reqs) && i < j < |reqs| && window > 0 && KeptAlive(reqs, i, j, window)
    requires forall k :: i <= k <= j ==> reqs[k].member.timestampMs == reqs[i].member.timestampMs
    ensures Allowed(reqs, j, window, max) <==> j - i <= Remaining(reqs, i, window, max)
  {
    hide CountedAt;
    InstantCounts(reqs, i, j, window);
  }

  /** `n` requests at time 0. */
  function Burst(n: nat): (b: seq<Request>)
    ensures |b| == n
  {
    seq(n, k requires 0 <= k < n => Request(Member(0, k), 0))
  }

  lemma BurstIsCounted(reqs: seq<Request>, n: nat, window: nat)
    requires window > 0 && n < |reqs| && Burst(n) == reqs[..n] && reqs[n].serverMs == 0
    ensures reqs[n].member.timestampMs == 0 ==> |CountedAt(reqs, n, window)| == n
    ensures reqs[n].member.timestampMs == WindowMs(window) ==> CountedAt(reqs, n, window) == {}
  {
    BurstKey(n, window);
    hide KeyAfter;
    var held := Live(KeyAfter(Burst(n), window), 0);
    assert n == 0 ==> reqs[..n] == [];
    BurstHeld(n, window);
    assert Prune(held, 0 - WindowMs(window)) == held;
    assert Prune(held, 0) == {};
  }

  lemma BurstHeld(n: nat, window: nat)
    requires window > 0
    ensures var held := Live(KeyAfter(Burst(n), window), 0);
            |held| == n && forall m :: m in held ==> m.timestampMs == 0
  {
    BurstKey(n, window);
  }

  lemma {:induction false} BurstKey(n: nat, window: nat)
    requires window > 0
    ensures n > 0 ==> KeyAfter(Burst(n), window).Present? && KeyAfter(Burst(n), window).expiresAt == TtlMs(window) &&
                      |KeyAfter(Burst(n), window).members| == n &&
                      forall m :: m in KeyAfter(Burst(n), window).members ==> m.timestampMs == 0 && m.uuid < n
  {
    if n > 0 {
      BurstKey(n - 1, window);
      assert Burst(n)[..n - 1] == Burst(n - 1) && Burst(n)[n - 1] == Request(Member(0, n - 1), 0);
      var before := Live(KeyAfter(Burst(n - 1), window), 0);
      assert Prune(before, 0 - WindowMs(window)) == before;
    }
  }

  /**
   The bound cannot be had for longer intervals: for every window, every disorder up to it and every limit (of at
   least two, if there is disorder), a run that admits more than the limit in an interval one millisecond longer.
   */
  lemma BoundIsTight(window: nat, d: nat, max: nat) returns (reqs: seq<Request>)
    requires window > 0 && d <= WindowMs(window) && max >= if d == 0 then 1 else 2
    ensures Distinct(reqs) && ServerOrdered(reqs) && Disorder(reqs, d) && AliveWithin(reqs, window)
    ensures |Admitted(reqs, window, max, 0, WindowMs(window) - d + 1)| > max
  {
    reqs := BurstAndTwo(max, WindowMs(window), WindowMs(window) - d);
    TightAdmits(reqs, window, d, max);
    hide Admitted;
  }

  function BurstAndTwo(n: nat, late: nat, early: nat): seq<Request> {
    Burst(n) + [Request(Member(late, n), 0), Request(Member(early, n + 1), 0)]
  }

  lemma TightAdmits(reqs: seq<Request>, window: nat, d: nat, max: nat)
    requires window > 0 && d <= WindowMs(window) && max >= if d == 0 then 1 else 2
    requires reqs == BurstAndTwo(max, WindowMs(window), WindowMs(window) - d)
    ensures |Admitted(reqs, window, max, 0, WindowMs(window) - d + 1)| > max
  {
    hide Admitted, AdmittedAt, Burst;
    assert reqs[..max] == Burst(max);
    var length, last := WindowMs(window) - d + 1, if d == 0 then max else max + 1;
    hide WindowMs;
    forall i | i in Naturals(max) ensures i in Admitted(reqs, window, max, 0, length) {
      BurstAdmits(reqs, window, max, i, length);
      IsAdmitted(reqs, window, max, i, length);
    }
    LastAdmits(reqs, window, d, max);
    IsAdmitted(reqs, window, max, last, length);
    var all := Naturals(max) + {last};
    assert all <= Admitted(reqs, window, max, 0, length);
    SubsetSize(all, Admitted(reqs, window, max, 0, length));
  }

  lemma IsAdmitted(reqs: seq<Request>, window: nat, max: nat, i: nat, length: int)
    requires i < |reqs| && AdmittedAt(reqs, i, window, max, 0, length)
    ensures i in Admitted(reqs, window, max, 0, length)
  {
  }

  lemma BurstAdmits(reqs: seq<Request>, window: nat, max: nat, i: nat, length: int)
    requires window > 0 && length > 0 && i < max <= |reqs| && reqs[..max] == Burst(max)
    ensures AdmittedAt(reqs, i, window, max, 0, length)
  {
    hide CountedAt;
    BurstPrefix(reqs, i, max);
    hide Burst;
    BurstIsCounted(reqs, i, window);
  }

  lemma LastAdmits(reqs: seq<Request>, window: nat, d: nat, max: nat)
    requires window > 0 && d <= WindowMs(window) && max >= if d == 0 then 1 else 2
    requires reqs == BurstAndTwo(max, WindowMs(window), WindowMs(window) - d)
    ensures AdmittedAt(reqs, if d == 0 then max else max + 1, window, max, 0, WindowMs(window) - d + 1)
  {
    hide CountedAt;
    assert reqs[..max] == Burst(max) && reqs[max].serverMs == 0;
    hide Burst;
    BurstIsCounted(reqs, max, window);
    LastIsAllowed(reqs, max, window, d);
  }

  lemma BurstPrefix(reqs: seq<Request>, i: nat, n: nat)
    requires i <= n <= |reqs| && reqs[..n] == Burst(n)
    ensures reqs[..i] == Burst(i) && (i < n ==> reqs[i] == Request(Member(0, i), 0))
  {
    assert reqs[..i] == reqs[..n][..i];
    assert i < n ==> reqs[i] == reqs[..n][i];
  }

  lemma LastIsAllowed(reqs: seq<Request>, max: nat, window: nat, d: nat)
    requires window > 0 && d <= WindowMs(window) && |reqs| == max + 2 && CountedAt(reqs, max, window) == {}
    requires reqs[max] == Request(Member(WindowMs(window), max), 0)
    requires reqs[max + 1] == Request(Member(WindowMs(window) - d, max + 1), 0)
    ensures |CountedAt(reqs, max + 1, window)| <= 1
  {
    KeyAfterNext(reqs, max, window);
    assert CountedAt(reqs, max + 1, window) <= {reqs[max].member};
    SubsetSize(CountedAt(reqs, max + 1, window), {reqs[max].member});
  }

  function Naturals(n: nat): (r: set<nat>)
    ensures |r| == n && forall i: nat :: i in r <==> i < n
  {
    if n == 0 then {} else Naturals(n - 1) + {n - 1}
  }

  lemma SubsetSize<T>(a: set<T>, b: set<T>)
    requires a <= b
    ensures |a| <= |b|
  {
    assert b == a + (b - a);
  }

  /** The key in Redis, and the pipeline that `_check_rate_limit` sends to it. */
  class SlidingWindow {
    const window: nat
    var members: set<Member>
    var expiresAt: int
    var present: bool
    ghost var history: seq<Request>

    ghost function AsKey(): Key
      reads this
    {
      if present then Present(members, expiresAt) else Absent
    }

    ghost predicate Valid()
      reads this
    {
      AsKey() == KeyAfter(history, window)
    }

    constructor (window: nat)
      ensures Valid() && history == [] && this.window == window
    {
      this.window := window;
      members, expiresAt, present, history := {}, 0, false, [];
    }

    method ExpireIfDue(serverMs: nat)
      modifies this`members, this`present
      ensures present == (old(present) && serverMs < expiresAt)
      ensures present ==> members == old(members)
      ensures !present ==> members == {}
    {
      if !present || expiresAt <= serverMs {
        present, members := false, {};
      }
    }

    /** The verdict for this request, with every earlier one in the history. */
    method CheckRateLimit(r: Request, maxRequests: int, nowSeconds: int)
        returns (allowed: bool, remaining: nat, resetTime: int)
      requires Valid()
      modifies this
      ensures Valid() && history == old(history) + [r]
      ensures allowed == Allowed(history, |old(history)|, window, maxRequests)
      ensures remaining == Remaining(history, |old(history)|, window, maxRequests)
      ensures resetTime == nowSeconds + window
      ensures var alive := old(present) && r.serverMs < old(expiresAt);
              var kept := if !alive then {}
                          else set m | m in old(members) && !(0 <= m.timestampMs <= r.member.timestampMs - 1000 * window);
              allowed == (|kept| < maxRequests) && members == kept + {r.member} && present &&
              remaining == (if |kept| + 1 < maxRequests then maxRequests - |kept| - 1 else 0) &&
              expiresAt == r.serverMs + 1000 * (window + 5)
    {
      hide KeyAfter;
      ghost var before := AsKey();
      PipelineNext(history, r, window);
      assert (history + [r])[..|history|] == history;
      var cutoff := r.member.timestampMs - WindowMs(window);
      ExpireIfDue(r.serverMs);
      members := set m | m in members && !(0 <= m.timestampMs <= cutoff);
      assert members == Counted(before, r, window);
      ghost var kept := members;
      assert old(present) && r.serverMs < old(expiresAt) ==>
          kept == set m | m in old(members) && !(0 <= m.timestampMs <= r.member.timestampMs - 1000 * window);
      assert !(old(present) && r.serverMs < old(expiresAt)) ==> kept == {};
      var currentCount := |members|;
      members, present := members + {r.member}, true;
      expiresAt := r.serverMs + TtlMs(window);
      allowed := currentCount < maxRequests;
      remaining := if maxRequests - currentCount - 1 < 0 then 0 else maxRequests - currentCount - 1;
      resetTime := nowSeconds + window;
      history := history + [r];
    }
  }
}
