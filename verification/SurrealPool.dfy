/**
 The per-organization connection pool (core/surreal_pool.py), as asyncio runs it: each
 step is what one task does between two awaits.
 */
module SurrealPool {
  import opened Sequences
  import opened Wrappers

  type Org = nat
  type TaskId = nat
  type ConnId = nat

  const SURREAL_IDLE_TTL_S := 1800
  const SURREAL_MAX_CACHED := 32

  datatype Entry = Entry(conn: ConnId, lastUsed: int)

  /**
   Where a call of `get_or_create` waits: for the close of an idle entry, for the lock of its
   organization, for the close of the entry it evicted, or for its own connection.
   */
  datatype Call =
    | ClosingIdle(org: Org, hasUrl: bool)
    | WaitingForLock(org: Org)
    | Evicting(org: Org)
    | Connecting(org: Org)
    | Returned(conn: ConnId)
    | Unavailable

  /** `closes` lists every connection whose close was attempted; `nextConn` numbers connections. */
  datatype Pool = Pool(
    pool: map<Org, Entry>,
    locks: map<Org, Option<TaskId>>,
    calls: map<TaskId, Call>,
    closes: seq<ConnId>,
    nextConn: ConnId,
    now: int)

  const EMPTY := Pool(map[], map[], map[], [], 0, 0)

  datatype Event =
    | GetOrCreate(task: TaskId, org: Org, hasUrl: bool)
    | CloseDone(task: TaskId)
    | LockGranted(task: TaskId, lru: Org)
    | ConnectDone(task: TaskId, ok: bool)
    | Cancelled(task: TaskId)
    | Tick(seconds: nat)

  predicate IsLru(pool: map<Org, Entry>, lru: Org) {
    lru in pool && forall k :: k in pool ==> pool[lru].lastUsed <= pool[k].lastUsed
  }

  /** `_close_entry`: the entry goes at once; its close is attempted and awaited. */
  function EntryClosed(s: Pool, org: Org): Pool
    requires org in s.pool
  {
    s.(pool := s.pool - {org}, closes := s.closes + [s.pool[org].conn])
  }

  /** After the fast path: no URL is an error, otherwise the call queues for its lock. */
  function Queue(s: Pool, t: TaskId, org: Org, hasUrl: bool): Pool {
    if !hasUrl then s.(calls := s.calls[t := Unavailable])
    else s.(locks := if org in s.locks then s.locks else s.locks[org := None],
            calls := s.calls[t := WaitingForLock(org)])
  }

  function Release(s: Pool, t: TaskId, org: Org, result: Call): Pool {
    s.(locks := s.locks[org := None], calls := s.calls[t := result])
  }

  function FastPath(s: Pool, t: TaskId, org: Org, hasUrl: bool): Pool {
    if org !in s.pool then Queue(s, t, org, hasUrl)
    else if s.now - s.pool[org].lastUsed > SURREAL_IDLE_TTL_S then
      EntryClosed(s, org).(calls := s.calls[t := ClosingIdle(org, hasUrl)])
    else
      s.(pool := s.pool[org := s.pool[org].(lastUsed := s.now)],
         calls := s.calls[t := Returned(s.pool[org].conn)])
  }

  /** Under the lock: look again, make room if the pool is full, connect. */
  function Locked(s: Pool, t: TaskId, org: Org, lru: Org): Pool {
    if org in s.pool then s.(calls := s.calls[t := Returned(s.pool[org].conn)])
    else if |s.pool| < SURREAL_MAX_CACHED then
      s.(locks := s.locks[org := Some(t)], calls := s.calls[t := Connecting(org)])
    else if IsLru(s.pool, lru) then
      EntryClosed(s, lru).(locks := s.locks[org := Some(t)], calls := s.calls[t := Evicting(org)])
    else s
  }

  function Connected(s: Pool, t: TaskId, org: Org): Pool {
    Release(s, t, org, Returned(s.nextConn)).(
      pool := s.pool[org := Entry(s.nextConn, s.now)], nextConn := s.nextConn + 1)
  }

  /** An event that cannot happen changes nothing. */
  function Step(s: Pool, e: Event): Pool {
    match e
    case GetOrCreate(t, org, hasUrl) => if t in s.calls then s else FastPath(s, t, org, hasUrl)
    case CloseDone(t) =>
      if t !in s.calls then s
      else (match s.calls[t]
            case ClosingIdle(org, hasUrl) => Queue(s, t, org, hasUrl)
            case Evicting(org) => s.(calls := s.calls[t := Connecting(org)])
            case _ => s)
    case LockGranted(t, lru) =>
      if t in s.calls && s.calls[t].WaitingForLock? && s.calls[t].org in s.locks
         && s.locks[s.calls[t].org].None?
      then Locked(s, t, s.calls[t].org, lru) else s
    case ConnectDone(t, ok) =>
      if t !in s.calls || !s.calls[t].Connecting? then s
      else if ok then Connected(s, t, s.calls[t].org)
      else Release(s, t, s.calls[t].org, Unavailable)
    case Cancelled(t) =>
      if t !in s.calls then s
      else (match s.calls[t]
            case ClosingIdle(_, _) => s.(calls := s.calls[t := Unavailable])
            case WaitingForLock(_) => s.(calls := s.calls[t := Unavailable])
            case Evicting(org) => Release(s, t, org, Unavailable)
            case Connecting(org) => Release(s, t, org, Unavailable)
            case _ => s)
    case Tick(d) => s.(now := s.now + d)
  }

  function Run(events: seq<Event>): Pool {
    if events == [] then EMPTY else Step(Run(events[..|events| - 1]), events[|events| - 1])
  }

  /** Past the double check, creating a connection for this organization. */
  predicate Creating(s: Pool, t: TaskId) {
    t in s.calls && (s.calls[t].Evicting? || s.calls[t].Connecting?)
  }

  function Creators(s: Pool): set<TaskId> {
    set t | t in s.calls && Creating(s, t)
  }

  /** Creators hold their lock, and their organization has no entry. */
  ghost predicate LocksHold(s: Pool) {
    && (forall t :: Creating(s, t) ==>
          s.calls[t].org in s.locks && s.locks[s.calls[t].org] == Some(t) && s.calls[t].org !in s.pool)
    && (forall org :: org in s.locks && s.locks[org].Some? ==>
          Creating(s, s.locks[org].value) && s.calls[s.locks[org].value].org == org)
  }

  /** Every connection ever cached is either cached, once, or was closed, once. */
  ghost predicate ClosesAccount(s: Pool) {
    && (forall o, p :: o in s.pool && p in s.pool && o != p ==> s.pool[o].conn != s.pool[p].conn)
    && Distinct(s.closes)
    && (forall o :: o in s.pool ==> s.pool[o].conn < s.nextConn && s.pool[o].conn !in s.closes)
    && (forall c :: c in s.closes ==> c < s.nextConn)
  }

  ghost predicate Cached(s: Pool, c: ConnId) {
    exists o :: o in s.pool && s.pool[o].conn == c
  }

  ghost predicate AllAccounted(s: Pool) {
    forall c :: 0 <= c < s.nextConn ==> Cached(s, c) || c in s.closes
  }

  lemma FastPathKeepsLocks(s: Pool, t: TaskId, org: Org, hasUrl: bool)
    requires LocksHold(s) && t !in s.calls
    ensures LocksHold(FastPath(s, t, org, hasUrl))
  {
  }

  lemma CloseDoneKeepsLocks(s: Pool, t: TaskId)
    requires LocksHold(s)
    ensures LocksHold(Step(s, CloseDone(t)))
  {
  }

  lemma LockedKeepsLocks(s: Pool, t: TaskId, org: Org, lru: Org)
    requires LocksHold(s) && t in s.calls && s.calls[t] == WaitingForLock(org) && org in s.locks && s.locks[org].None?
    ensures LocksHold(Locked(s, t, org, lru))
  {
    hide IsLru;
  }

  lemma ReleaseKeepsLocks(s: Pool, t: TaskId, result: Call)
    requires LocksHold(s) && Creating(s, t) && !result.Evicting? && !result.Connecting?
    ensures LocksHold(Release(s, t, s.calls[t].org, result))
    ensures s.calls[t].Connecting? ==> LocksHold(Connected(s, t, s.calls[t].org))
  {
  }

  lemma CancelKeepsLocks(s: Pool, t: TaskId)
    requires LocksHold(s)
    ensures LocksHold(Step(s, Cancelled(t)))
  {
    if Creating(s, t) {
      ReleaseKeepsLocks(s, t, Unavailable);
    }
  }

  lemma StepKeepsLocks(s: Pool, e: Event)
    requires LocksHold(s)
    ensures LocksHold(Step(s, e))
  {
    match e
    case GetOrCreate(t, org, hasUrl) => if t !in s.calls { FastPathKeepsLocks(s, t, org, hasUrl); }
    case CloseDone(t) => CloseDoneKeepsLocks(s, t);
    case LockGranted(t, lru) =>
      if Step(s, e) != s { LockedKeepsLocks(s, t, s.calls[t].org, lru); }
    case ConnectDone(t, ok) =>
      if t in s.calls && s.calls[t].Connecting? {
        assert Creating(s, t);
        ReleaseKeepsLocks(s, t, Unavailable);
      }
    case Cancelled(t) => CancelKeepsLocks(s, t);
    case Tick(_) =>
  }

  /** What a step can do to the cached entries. */
  datatype Change = Same | Touched(org: Org) | Closed(org: Org) | Inserted(org: Org)

  predicate Changes(s: Pool, r: Pool, c: Change) {
    match c
    case Same => r.pool == s.pool && r.closes == s.closes && r.nextConn == s.nextConn
    case Touched(o) =>
      && o in s.pool && r.pool == s.pool[o := s.pool[o].(lastUsed := s.now)]
      && r.closes == s.closes && r.nextConn == s.nextConn
    case Closed(o) =>
      && o in s.pool && r.pool == s.pool - {o}
      && r.closes == s.closes + [s.pool[o].conn] && r.nextConn == s.nextConn
    case Inserted(o) =>
      && o !in s.pool && r.pool == s.pool[o := Entry(s.nextConn, s.now)]
      && r.closes == s.closes && r.nextConn == s.nextConn + 1
  }

  lemma CallStartChange(s: Pool, t: TaskId, org: Org, hasUrl: bool) returns (c: Change)
    ensures Changes(s, FastPath(s, t, org, hasUrl), c)
  {
    c := if org !in s.pool then Same
         else if s.now - s.pool[org].lastUsed > SURREAL_IDLE_TTL_S then Closed(org)
         else Touched(org);
  }

  lemma LockedChange(s: Pool, t: TaskId, org: Org, lru: Org) returns (c: Change)
    ensures Changes(s, Locked(s, t, org, lru), c)
  {
    c := if org !in s.pool && |s.pool| >= SURREAL_MAX_CACHED && IsLru(s.pool, lru) then Closed(lru) else Same;
  }

  lemma ChangeOf(s: Pool, e: Event) returns (c: Change)
    requires LocksHold(s)
    ensures Changes(s, Step(s, e), c)
  {
    c := Same;
    match e
    case GetOrCreate(t, org, hasUrl) => if t !in s.calls { c := CallStartChange(s, t, org, hasUrl); }
    case LockGranted(t, lru) =>
      if t in s.calls && s.calls[t].WaitingForLock? && s.calls[t].org in s.locks && s.locks[s.calls[t].org].None? {
        c := LockedChange(s, t, s.calls[t].org, lru);
      }
    case ConnectDone(t, ok) =>
      if t in s.calls && s.calls[t].Connecting? && ok {
        assert Creating(s, t);
        c := Inserted(s.calls[t].org);
      }
    case _ =>
  }

  lemma StepKeepsCloses(s: Pool, e: Event)
    requires ClosesAccount(s) && LocksHold(s)
    ensures ClosesAccount(Step(s, e))
  {
    var c := ChangeOf(s, e);
    hide Step, LocksHold;
  }

  lemma StepKeepsAccounted(s: Pool, e: Event)
    requires AllAccounted(s) && LocksHold(s)
    ensures AllAccounted(Step(s, e))
  {
    var change := ChangeOf(s, e);
    hide Step, LocksHold;
    var r := Step(s, e);
    forall c | 0 <= c < r.nextConn ensures Cached(r, c) || c in r.closes {
      if c < s.nextConn && c !in s.closes {
        var o :| o in s.pool && s.pool[o].conn == c;
        assert (o in r.pool && r.pool[o].conn == c) || c in r.closes;
      } else if c == s.nextConn {
        assert r.pool[change.org].conn == c;
      }
    }
  }

  lemma {:induction false} RunKeepsInvariants(events: seq<Event>)
    ensures LocksHold(Run(events)) && ClosesAccount(Run(events)) && AllAccounted(Run(events))
  {
    if events != [] {
      var s, e := Run(events[..|events| - 1]), events[|events| - 1];
      RunKeepsInvariants(events[..|events| - 1]);
      StepKeepsLocks(s, e);
      StepKeepsCloses(s, e);
      StepKeepsAccounted(s, e);
    }
  }

  /** At any moment at most one call is creating a connection for an organization. */
  lemma {:induction false} OneCreationPerOrg(events: seq<Event>, t: TaskId, u: TaskId)
    requires var s := Run(events); Creating(s, t) && Creating(s, u) && s.calls[t].org == s.calls[u].org
    ensures t == u
  {
    RunKeepsInvariants(events);
  }

  /** A finished creation never overwrites a cached entry. */
  lemma {:induction false} InsertNeverOverwrites(events: seq<Event>, t: TaskId)
    requires var s := Run(events); t in s.calls && s.calls[t].Connecting?
    ensures var s := Run(events);
            var r := Step(s, ConnectDone(t, true));
            && r.pool == s.pool[s.calls[t].org := Entry(s.nextConn, s.now)]
            && |r.pool| == |s.pool| + 1
  {
    RunKeepsInvariants(events);
    var s := Run(events);
    assert Creating(s, t) && s.calls[t].org !in s.pool;
  }

  /**
   Every connection the pool ever cached is either still cached under exactly one organization
   or its close has been attempted exactly once.
   */
  lemma {:induction false} ClosedExactlyOnce(events: seq<Event>, c: ConnId)
    requires c < Run(events).nextConn
    ensures var s := Run(events);
            && (Cached(s, c) <==> c !in s.closes)
            && multiset(s.closes)[c] == (if Cached(s, c) then 0 else 1)
  {
    RunKeepsInvariants(events);
    var s := Run(events);
    hide Run;
    DistinctCount(s.closes, c);
  }

  /** An entry leaves only when idle too long, or as a least recently used one of a full pool. */
  lemma WhyEntriesLeave(s: Pool, e: Event, org: Org)
    requires LocksHold(s) && org in s.pool && org !in Step(s, e).pool
    ensures || (e.GetOrCreate? && e.org == org && s.now - s.pool[org].lastUsed > 1800)
            || (e.LockGranted? && |s.pool| >= 32 &&
                forall k :: k in s.pool ==> s.pool[org].lastUsed <= s.pool[k].lastUsed)
    ensures Step(s, e).pool == s.pool - {org} && Step(s, e).closes == s.closes + [s.pool[org].conn]
  {
  }

  // -- What `lastUsed` is --------------------------------------------------------------------------------------------

  /** Event `n` is a use of connection `c`: its creation, or the fast path handing it out. */
  predicate Uses(events: seq<Event>, n: nat, c: ConnId) {
    n < |events| && (events[n].GetOrCreate? || events[n].ConnectDone?) &&
    var was, became := Run(events[..n]).calls, Run(events[..n + 1]).calls;
    events[n].task in became && became[events[n].task] == Returned(c) &&
    !(events[n].task in was && was[events[n].task].Returned?)
  }

  /** Event `n` is the latest use of connection `c`, and came at time `at`. */
  ghost predicate LatestUse(events: seq<Event>, n: nat, c: ConnId, at: int) {
    Uses(events, n, c) && Run(events[..n]).now == at && forall m: nat :: n < m ==> !Uses(events, m, c)
  }

  lemma UsesGrow(events: seq<Event>, e: Event, n: nat, c: ConnId)
    requires n < |events|
    ensures Uses(events + [e], n, c) == Uses(events, n, c) && Run((events + [e])[..n]) == Run(events[..n])
  {
    assert (events + [e])[..n] == events[..n] && (events + [e])[..n + 1] == events[..n + 1];
  }

  /** What the last event of a run means for the uses: whose connection it hands out, if anyone's. */
  lemma UsesLast(events: seq<Event>, e: Event, c: ConnId)
    requires LocksHold(Run(events))
    ensures var s, r := Run(events), Step(Run(events), e);
            Uses(events + [e], |events|, c) <==>
              (e.GetOrCreate? && e.task !in s.calls && e.org in s.pool &&
               s.now - s.pool[e.org].lastUsed <= 1800 && s.pool[e.org].conn == c) ||
              (e.ConnectDone? && e.ok && e.task in s.calls && s.calls[e.task].Connecting? && s.nextConn == c)
  {
    var n := |events|;
    assert (events + [e])[..n] == events && (events + [e])[..n + 1] == events + [e];
    assert Run(events + [e]) == Step(Run(events), e);
    hide Run, LocksHold;
  }

  ghost predicate UsesOk(events: seq<Event>) {
    forall org :: org in Run(events).pool ==>
      exists n: nat :: LatestUse(events, n, Run(events).pool[org].conn, Run(events).pool[org].lastUsed)
  }

  lemma LatestStays(events: seq<Event>, e: Event, n: nat, c: ConnId, at: int)
    requires LatestUse(events, n, c, at) && !Uses(events + [e], |events|, c)
    ensures LatestUse(events + [e], n, c, at)
  {
    UsesGrow(events, e, n, c);
    forall m: nat | n < m ensures !Uses(events + [e], m, c) {
      if m < |events| {
        UsesGrow(events, e, m, c);
      }
    }
  }

  lemma LatestNow(events: seq<Event>, e: Event, c: ConnId)
    requires Uses(events + [e], |events|, c)
    ensures LatestUse(events + [e], |events|, c, Run(events).now)
  {
    assert (events + [e])[..|events|] == events;
  }

  lemma StepUses(events: seq<Event>, e: Event)
    requires UsesOk(events) && LocksHold(Run(events)) && ClosesAccount(Run(events))
    ensures UsesOk(events + [e])
  {
    var s, r := Run(events), Run(events + [e]);
    assert (events + [e])[..|events|] == events && r == Step(s, e);
    forall org | org in r.pool
      ensures exists n: nat :: LatestUse(events + [e], n, r.pool[org].conn, r.pool[org].lastUsed)
    {
      var c := r.pool[org].conn;
      EntryOfStep(s, e, org);
      UsesLast(events, e, c);
      hide Run, Uses, LatestUse, Step, LocksHold;
      if Uses(events + [e], |events|, c) {
        LatestNow(events, e, c);
      } else {
        var n: nat :| LatestUse(events, n, s.pool[org].conn, s.pool[org].lastUsed);
        LatestStays(events, e, n, c, s.pool[org].lastUsed);
      }
    }
  }

  /** An entry is what it was, or this event used its connection, now. */
  lemma EntryOfStep(s: Pool, e: Event, org: Org)
    requires LocksHold(s) && ClosesAccount(s) && org in Step(s, e).pool
    ensures var entry := Step(s, e).pool[org];
            if (e.GetOrCreate? && e.task !in s.calls && e.org in s.pool &&
                s.now - s.pool[e.org].lastUsed <= 1800 && s.pool[e.org].conn == entry.conn) ||
               (e.ConnectDone? && e.ok && e.task in s.calls && s.calls[e.task].Connecting? && s.nextConn == entry.conn)
            then entry.lastUsed == s.now
            else org in s.pool && entry == s.pool[org]
  {
  }

  lemma {:induction false} RunUses(events: seq<Event>)
    ensures UsesOk(events)
  {
    if events != [] {
      var front, last := events[..|events| - 1], events[|events| - 1];
      RunUses(front);
      RunKeepsInvariants(front);
      StepUses(front, last);
      assert front + [last] == events;
    }
  }

  /** In every run an entry's `lastUsed` is the time of the latest event that created or handed out its connection. */
  lemma LastUsedIsLatestUse(events: seq<Event>, org: Org)
    requires org in Run(events).pool
    ensures exists n: nat :: LatestUse(events, n, Run(events).pool[org].conn, Run(events).pool[org].lastUsed)
  {
    RunUses(events);
  }

  lemma {:induction false} TimeGoesOn(events: seq<Event>, n: nat)
    requires n <= |events|
    ensures Run(events[..n]).now <= Run(events).now
    decreases |events|
  {
    if n < |events| {
      var front := events[..|events| - 1];
      TimeGoesOn(front, n);
      assert front[..n] == events[..n];
      StepTime(Run(front), events[|events| - 1]);
    } else {
      assert events[..n] == events;
    }
  }

  lemma StepTime(s: Pool, e: Event)
    ensures s.now <= Step(s, e).now
  {
  }

  /** A connection asked for at most 1800 s after a use is handed out, and nothing is closed. */
  lemma RecentlyUsedIsHandedOut(events: seq<Event>, n: nat, t: TaskId, org: Org, hasUrl: bool)
    requires org in Run(events).pool && t !in Run(events).calls && Uses(events, n, Run(events).pool[org].conn)
    requires Run(events).now - Run(events[..n]).now <= 1800
    ensures var s, r := Run(events), Run(events + [GetOrCreate(t, org, hasUrl)]);
            t in r.calls && r.calls[t] == Returned(s.pool[org].conn) && r.closes == s.closes && r.pool.Keys == s.pool.Keys
  {
    var s := Run(events);
    LastUsedIsLatestUse(events, org);
    var latest: nat :| LatestUse(events, latest, s.pool[org].conn, s.pool[org].lastUsed);
    assert n <= latest;
    TimeGoesOn(events[..latest], n);
    assert events[..latest][..n] == events[..n];
    assert (events + [GetOrCreate(t, org, hasUrl)])[..|events|] == events;
  }

  /** A full pool gives up a connection whose latest use is oldest: no cached one was last used before it. */
  lemma EvictedIsOldestUse(events: seq<Event>, e: Event, victim: Org, org: Org, n: nat, m: nat)
    requires victim in Run(events).pool && e.LockGranted? && victim !in Run(events + [e]).pool
    requires org in Run(events).pool
    requires LatestUse(events, n, Run(events).pool[victim].conn, Run(events).pool[victim].lastUsed)
    requires LatestUse(events, m, Run(events).pool[org].conn, Run(events).pool[org].lastUsed)
    ensures |Run(events).pool| >= 32 && Run(events[..n]).now <= Run(events[..m]).now
  {
    assert (events + [e])[..|events|] == events;
    RunKeepsInvariants(events);
    WhyEntriesLeave(Run(events), e, victim);
  }

  /** At every moment of the run at most `n` calls are creating a connection. */
  ghost predicate AtMostCreators(events: seq<Event>, n: nat) {
    && |Creators(Run(events))| <= n
    && (events != [] ==> AtMostCreators(events[..|events| - 1], n))
  }

  predicate MovesOnly(s: Pool, r: Pool, t: TaskId) {
    r.calls == s.calls || (t in r.calls && r.calls == s.calls[t := r.calls[t]])
  }

  lemma CallStartMoves(s: Pool, t: TaskId, org: Org, hasUrl: bool)
    ensures MovesOnly(s, FastPath(s, t, org, hasUrl), t)
  {
  }

  lemma LockedMoves(s: Pool, t: TaskId, org: Org, lru: Org)
    ensures MovesOnly(s, Locked(s, t, org, lru), t)
  {
    hide IsLru;
  }

  lemma ConnectMoves(s: Pool, t: TaskId, org: Org)
    ensures MovesOnly(s, Connected(s, t, org), t) && MovesOnly(s, Release(s, t, org, Unavailable), t)
  {
  }

  lemma WaitMoves(s: Pool, t: TaskId)
    ensures MovesOnly(s, Step(s, CloseDone(t)), t) && MovesOnly(s, Step(s, Cancelled(t)), t)
  {
  }

  /** A step moves at most one call, so it changes the creators by at most that one. */
  lemma OneCallMoves(s: Pool, e: Event)
    ensures var r := Step(s, e);
            r.calls == s.calls || (!e.Tick? && e.task in r.calls && r.calls == s.calls[e.task := r.calls[e.task]])
  {
    hide FastPath, Locked, Connected, Release;
    match e
    case GetOrCreate(t, org, hasUrl) => CallStartMoves(s, t, org, hasUrl);
    case LockGranted(t, lru) =>
      if t in s.calls && s.calls[t].WaitingForLock? { LockedMoves(s, t, s.calls[t].org, lru); }
    case ConnectDone(t, _) => if t in s.calls && s.calls[t].Connecting? { ConnectMoves(s, t, s.calls[t].org); }
    case CloseDone(t) => WaitMoves(s, t);
    case Cancelled(t) => WaitMoves(s, t);
    case Tick(_) =>
  }

  lemma CreatorsMoved(s: Pool, r: Pool, t: TaskId)
    requires r.calls == s.calls || (t in r.calls && r.calls == s.calls[t := r.calls[t]])
    ensures |Creators(r)| == |Creators(s)| + (if Creating(r, t) then 1 else 0) - (if Creating(s, t) then 1 else 0)
    ensures Creating(r, t) == Creating(s, t) ==> Creators(r) == Creators(s)
  {
    var others := Creators(s) - {t};
    assert Creators(s) == if Creating(s, t) then others + {t} else others;
    assert Creators(r) == if Creating(r, t) then others + {t} else others;
  }

  lemma OnlyLockStarts(s: Pool, e: Event)
    requires !e.Tick? && !Creating(s, e.task) && Creating(Step(s, e), e.task)
    ensures e.LockGranted? && e.task in s.calls && s.calls[e.task].WaitingForLock?
    ensures Step(s, e) == Locked(s, e.task, s.calls[e.task].org, e.lru)
  {
    hide Locked, EntryClosed;
  }

  /** Starting a creation means there was room, or one entry was evicted to make it. */
  lemma StartMakesRoom(s: Pool, e: Event)
    requires !e.Tick? && !Creating(s, e.task) && Creating(Step(s, e), e.task)
    ensures Step(s, e).nextConn == s.nextConn
    ensures |Step(s, e).pool| <= |s.pool|
    ensures |s.pool| < SURREAL_MAX_CACHED || |Step(s, e).pool| == |s.pool| - 1
  {
    hide Step;
    OnlyLockStarts(s, e);
    if |s.pool| >= SURREAL_MAX_CACHED {
      assert Step(s, e).pool == s.pool - {e.lru};
      Removed(s.pool, e.lru);
    }
  }

  lemma Removed(m: map<Org, Entry>, k: Org)
    requires k in m
    ensures |m - {k}| == |m| - 1
  {
    assert (m - {k}).Keys == m.Keys - {k};
  }

  lemma CreatorsChange(s: Pool, e: Event)
    requires LocksHold(s)
    ensures var r := Step(s, e);
            || (Creators(r) == Creators(s) && r.nextConn == s.nextConn)
            || (|Creators(r)| == |Creators(s)| - 1 && r.nextConn <= s.nextConn + 1)
            || (|Creators(r)| == |Creators(s)| + 1 && r.nextConn == s.nextConn && |r.pool| <= |s.pool|
                && (|s.pool| < SURREAL_MAX_CACHED || |r.pool| == |s.pool| - 1))
  {
    var r := Step(s, e);
    OneCallMoves(s, e);
    InsertEndsCreation(s, e);
    if e.Tick? {
      CreatorsMoved(s, r, 0);
    } else {
      CreatorsMoved(s, r, e.task);
      if !Creating(s, e.task) && Creating(r, e.task) { StartMakesRoom(s, e); }
    }
    hide Step, LocksHold, Creators;
  }

  lemma InsertEndsCreation(s: Pool, e: Event)
    ensures s.nextConn <= Step(s, e).nextConn <= s.nextConn + 1
    ensures Step(s, e).nextConn != s.nextConn ==> !e.Tick? && Creating(s, e.task) && !Creating(Step(s, e), e.task)
  {
  }

  lemma Added(m: map<Org, Entry>, k: Org, x: Entry)
    ensures |m[k := x]| == if k in m then |m| else |m| + 1
  {
    assert m[k := x].Keys == m.Keys + {k};
  }

  /** Without an insert the pool does not grow. */
  lemma SizeChange(s: Pool, e: Event)
    requires LocksHold(s)
    ensures |Step(s, e).pool| <= |s.pool| + (Step(s, e).nextConn - s.nextConn)
  {
    var c := ChangeOf(s, e);
    hide Step, LocksHold;
    match c
    case Same =>
    case Touched(o) => Added(s.pool, o, s.pool[o].(lastUsed := s.now));
    case Closed(o) => Removed(s.pool, o);
    case Inserted(o) => Added(s.pool, o, Entry(s.nextConn, s.now));
  }

  /**
   The true bound: with at most `n` creations in progress at a time, cached connections and
   creations together never exceed the cap by more than `n - 1`.
   */
  lemma {:induction false} PoolBound(events: seq<Event>, n: nat)
    requires n >= 1 && AtMostCreators(events, n)
    ensures |Run(events).pool| + |Creators(Run(events))| <= 32 + n - 1
  {
    if events != [] {
      PoolBound(events[..|events| - 1], n);
      RunKeepsInvariants(events[..|events| - 1]);
      CreatorsChange(Run(events[..|events| - 1]), events[|events| - 1]);
      SizeChange(Run(events[..|events| - 1]), events[|events| - 1]);
    } else {
      assert Creators(EMPTY) == {};
    }
  }

  /** One creation at a time keeps the cap exactly. */
  lemma SequentialUseKeepsCap(events: seq<Event>)
    requires AtMostCreators(events, 1)
    ensures |Run(events).pool| <= 32
  {
    PoolBound(events, 1);
  }

  /** Organizations below `cached` are cached; those up to `started` are connecting. */
  ghost predicate Stage(s: Pool, cached: nat, started: nat) {
    && cached <= started
    && (forall o: nat :: o in s.pool <==> o < cached)
    && (forall t: nat :: t in s.calls <==> t < started)
    && (forall o: nat :: o in s.locks <==> o < started)
    && (forall t :: t in s.calls && t < cached ==> s.calls[t].Returned?)
    && (forall t :: t in s.calls && cached <= t ==> s.calls[t] == Connecting(t))
  }

  function Range(start: nat, end: nat): (r: set<nat>)
    requires start <= end
    ensures |r| == end - start
    ensures forall t :: t in r <==> start <= t < end
    decreases end
  {
    if start == end then {} else Range(start, end - 1) + {end - 1}
  }

  lemma StageCounts(s: Pool, cached: nat, started: nat)
    requires Stage(s, cached, started)
    ensures |s.pool| == cached && |Creators(s)| == started - cached
  {
    hide Range;
    assert s.pool.Keys == Range(0, cached);
    assert Creators(s) == Range(cached, started);
  }

  lemma AtMostExtends(events: seq<Event>, e: Event, n: nat)
    requires AtMostCreators(events, n) && |Creators(Step(Run(events), e))| <= n
    ensures AtMostCreators(events + [e], n) && Run(events + [e]) == Step(Run(events), e)
  {
    assert (events + [e])[..|events + [e]| - 1] == events;
  }

  lemma StartStage(s: Pool, cached: nat, started: nat)
    requires Stage(s, cached, started) && cached < SURREAL_MAX_CACHED
    ensures var s1 := Step(s, GetOrCreate(started, started, true));
            Creators(s1) == Creators(s) && Stage(Step(s1, LockGranted(started, 0)), cached, started + 1)
  {
    hide IsLru;
    StageCounts(s, cached, started);
    var e := GetOrCreate(started, started, true);
    var s1 := Step(s, e);
    assert s1 == s.(locks := s.locks[started := None], calls := s.calls[started := WaitingForLock(started)]);
    CreatorsMoved(s, s1, started);
    assert Step(s1, LockGranted(started, 0)) == Locked(s1, started, started, 0);
  }

  lemma StartOne(events: seq<Event>, cached: nat, started: nat, n: nat) returns (longer: seq<Event>)
    requires Stage(Run(events), cached, started) && AtMostCreators(events, n)
    requires cached < SURREAL_MAX_CACHED && started - cached < n
    ensures Stage(Run(longer), cached, started + 1) && AtMostCreators(longer, n)
  {
    hide Run, Stage, Step;
    var call, grant := GetOrCreate(started, started, true), LockGranted(started, 0);
    StageCounts(Run(events), cached, started);
    StartStage(Run(events), cached, started);
    AtMostExtends(events, call, n);
    StageCounts(Step(Run(events + [call]), grant), cached, started + 1);
    AtMostExtends(events + [call], grant, n);
    longer := events + [call] + [grant];
  }

  lemma FinishStage(s: Pool, cached: nat, started: nat)
    requires Stage(s, cached, started) && cached < started
    ensures Stage(Step(s, ConnectDone(cached, true)), cached + 1, started)
  {
    assert Step(s, ConnectDone(cached, true)) == Connected(s, cached, cached);
  }

  lemma FinishOne(events: seq<Event>, cached: nat, started: nat, n: nat) returns (longer: seq<Event>)
    requires Stage(Run(events), cached, started) && AtMostCreators(events, n)
    requires cached < started
    ensures Stage(Run(longer), cached + 1, started) && AtMostCreators(longer, n)
  {
    hide Run, Stage, Step;
    var e := ConnectDone(cached, true);
    FinishStage(Run(events), cached, started);
    StageCounts(Run(events), cached, started);
    StageCounts(Step(Run(events), e), cached + 1, started);
    AtMostExtends(events, e, n);
    longer := events + [e];
  }

  lemma {:induction false} StartMany(events: seq<Event>, cached: nat, k: nat, n: nat) returns (longer: seq<Event>)
    requires Stage(Run(events), cached, cached) && AtMostCreators(events, n)
    requires cached < SURREAL_MAX_CACHED && k <= n
    ensures Stage(Run(longer), cached, cached + k) && AtMostCreators(longer, n)
    decreases k
  {
    if k == 0 {
      longer := events;
    } else {
      var shorter := StartMany(events, cached, k - 1, n);
      longer := StartOne(shorter, cached, cached + k - 1, n);
    }
  }

  lemma {:induction false} FinishMany(events: seq<Event>, cached: nat, started: nat, n: nat)
      returns (longer: seq<Event>)
    requires Stage(Run(events), cached, started) && AtMostCreators(events, n)
    ensures Stage(Run(longer), started, started) && AtMostCreators(longer, n)
    decreases started - cached
  {
    if cached == started {
      longer := events;
    } else {
      var one := FinishOne(events, cached, started, n);
      longer := FinishMany(one, cached + 1, started, n);
    }
  }

  lemma {:induction false} Fill(k: nat, n: nat) returns (events: seq<Event>)
    requires k < SURREAL_MAX_CACHED && n >= 1
    ensures Stage(Run(events), k, k) && AtMostCreators(events, n)
  {
    if k == 0 {
      events := [];
      StageCounts(EMPTY, 0, 0);
    } else {
      var shorter := Fill(k - 1, n);
      var started := StartOne(shorter, k - 1, k - 1, n);
      events := FinishOne(started, k - 1, k, n);
    }
  }

  /** The bound is attained: `n` concurrent creations really leave the cap plus `n - 1` cached. */
  lemma BoundIsAttained(n: nat) returns (events: seq<Event>)
    requires n >= 1
    ensures AtMostCreators(events, n)
    ensures |Run(events).pool| == 32 + n - 1
  {
    var full := Fill(SURREAL_MAX_CACHED - 1, n);
    var started := StartMany(full, SURREAL_MAX_CACHED - 1, n, n);
    events := FinishMany(started, SURREAL_MAX_CACHED - 1, SURREAL_MAX_CACHED - 1 + n, n);
    StageCounts(Run(events), SURREAL_MAX_CACHED - 1 + n, SURREAL_MAX_CACHED - 1 + n);
  }

  /** The pool as the object it is; each method is what a call does up to its next await. */
  class SurrealConnectionPool {
    var pool: map<Org, Entry>
    var locks: map<Org, Option<TaskId>>
    var closes: seq<ConnId>
    var nextConn: ConnId
    var now: int
    ghost var calls: map<TaskId, Call>

    ghost function AsPool(): Pool
      reads this
    {
      Pool(pool, locks, calls, closes, nextConn, now)
    }

    constructor ()
      ensures AsPool() == EMPTY
    {
      pool, locks, calls, closes, nextConn, now := map[], map[], map[], [], 0, 0;
    }

    method LeastRecentlyUsed() returns (lru: Org)
      requires pool != map[]
      ensures IsLru(pool, lru)
    {
      var rest := pool.Keys;
      lru :| lru in rest;
      rest := rest - {lru};
      while rest != {}
        invariant rest <= pool.Keys && lru in pool && lru !in rest
        invariant forall k :: k in pool && k !in rest ==> pool[lru].lastUsed <= pool[k].lastUsed
        decreases |rest|
      {
        var k :| k in rest;
        rest := rest - {k};
        if pool[k].lastUsed < pool[lru].lastUsed {
          lru := k;
        }
      }
    }

    method CloseEntry(org: Org)
      requires org in pool
      modifies this`pool, this`closes
      ensures AsPool() == EntryClosed(old(AsPool()), org)
    {
      closes := closes + [pool[org].conn];
      pool := pool - {org};
    }

    method QueueForLock(task: TaskId, org: Org, hasUrl: bool) returns (failed: bool)
      modifies this`locks, this`calls
      ensures AsPool() == Queue(old(AsPool()), task, org, hasUrl)
      ensures failed == !hasUrl
    {
      if !hasUrl {
        calls := calls[task := Unavailable];
        return true;
      }
      if org !in locks {
        locks := locks[org := None];
      }
      calls := calls[task := WaitingForLock(org)];
      failed := false;
    }

    /** The fast path: a fresh entry is handed out, a dead-idle one is closed and dropped. */
    method Begin(task: TaskId, org: Org, hasUrl: bool) returns (conn: Option<ConnId>)
      requires task !in calls
      modifies this
      ensures AsPool() == Step(old(AsPool()), GetOrCreate(task, org, hasUrl))
      ensures conn.Some? <==> org in old(pool) && now - old(pool)[org].lastUsed <= 1800
      ensures conn.Some? ==>
                conn.value == old(pool)[org].conn && closes == old(closes) &&
                pool == old(pool)[org := Entry(conn.value, now)]
      ensures conn.None? ==>
                if org in old(pool) then pool == old(pool) - {org} && closes == old(closes) + [old(pool)[org].conn]
                else pool == old(pool) && closes == old(closes) &&
                     calls == old(calls)[task := if hasUrl then WaitingForLock(org) else Unavailable]
    {
      conn := None;
      if org in pool {
        var entry := pool[org];
        if now - entry.lastUsed > SURREAL_IDLE_TTL_S {
          CloseEntry(org);
          calls := calls[task := ClosingIdle(org, hasUrl)];
        } else {
          pool := pool[org := entry.(lastUsed := now)];
          calls := calls[task := Returned(entry.conn)];
          conn := Some(entry.conn);
        }
      } else {
        var _ := QueueForLock(task, org, hasUrl);
      }
    }

    /** With the lock granted: double-check, evict the least recently used entry of a full pool. */
    method EnterLock(task: TaskId, org: Org) returns (conn: Option<ConnId>, ghost victim: Org)
      requires task in calls && calls[task] == WaitingForLock(org) && org in locks && locks[org].None?
      modifies this
      ensures AsPool() == Step(old(AsPool()), LockGranted(task, victim))
      ensures conn.Some? <==> org in old(pool)
      ensures conn.Some? ==> conn.value == old(pool)[org].conn && pool == old(pool) && closes == old(closes)
      ensures conn.None? ==> Creating(AsPool(), task) && locks == old(locks)[org := Some(task)]
      ensures conn.None? && |old(pool)| < 32 ==> pool == old(pool) && closes == old(closes)
      ensures conn.None? && |old(pool)| >= 32 ==>
                victim in old(pool) && pool == old(pool) - {victim} && closes == old(closes) + [old(pool)[victim].conn] &&
                forall k :: k in old(pool) ==> old(pool)[victim].lastUsed <= old(pool)[k].lastUsed
    {
      conn, victim := None, org;
      if org in pool {
        conn := Some(pool[org].conn);
        calls := calls[task := Returned(pool[org].conn)];
      } else {
        if |pool| >= SURREAL_MAX_CACHED {
          var lru := LeastRecentlyUsed();
          victim := lru;
          CloseEntry(lru);
          calls := calls[task := Evicting(org)];
        } else {
          calls := calls[task := Connecting(org)];
        }
        locks := locks[org := Some(task)];
      }
    }

    /** The connection attempt ended; either way the lock is released. */
    method Finish(task: TaskId, org: Org, ok: bool) returns (r: Result<ConnId, ()>)
      requires task in calls && calls[task] == Connecting(org)
      modifies this
      ensures AsPool() == Step(old(AsPool()), ConnectDone(task, ok))
      ensures r == if ok then Success(old(nextConn)) else Failure(())
      ensures pool == (if ok then old(pool)[org := Entry(old(nextConn), now)] else old(pool)) && closes == old(closes)
      ensures locks == old(locks)[org := None]
    {
      if ok {
        pool := pool[org := Entry(nextConn, now)];
        r := Success(nextConn);
        calls := calls[task := Returned(nextConn)];
        nextConn := nextConn + 1;
      } else {
        calls := calls[task := Unavailable];
        r := Failure(());
      }
      locks := locks[org := None];
    }
  }
}
