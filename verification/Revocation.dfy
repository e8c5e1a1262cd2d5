/**
 Revoking an API key (services/api_key_service.py:146-210, repositories/api_key_repository.py:187-190). The service
 flushes the revoked row, deletes the key's cache entries, and the request commits when its handler has returned
 (dependencies/db.py:113-115). Requests with the key go on in between.
 */
module Revocation {
  import opened ApiKeyAuth
  import opened Wrappers

  /** A row that the database path refuses for good. */
  predicate Dead(row: Option<Row>) {
    row.None? || row.value.revoked
  }

  predicate NoCommit(events: seq<Event>) {
    forall e :: e in events ==> !e.Commit?
  }

  /** Some request that begins at `w` or later is accepted. */
  ghost predicate AcceptsLater(w: World, events: seq<Event>) {
    exists a :: a in RunFrom(w, events).answers && a.request >= w.begun && a.verdict.Accepted?
  }

  /** After the commit of the flushed row some later request can still be accepted, without any further commit. */
  ghost predicate Survives(before: World) {
    exists events :: NoCommit(events) && AcceptsLater(Step(before, Commit(true)), events)
  }

  // -- What the commit leaves ----------------------------------------------------------------------------------------

  lemma {:induction false} VersionsStand(w: World, events: seq<Event>)
    requires NoCommit(events)
    ensures var end := RunFrom(w, events);
            end.versions == w.versions && (w.pending.Some? ==> end.pending == w.pending)
  {
    if events != [] {
      assert events[|events| - 1] in events;
      VersionsStand(w, events[..|events| - 1]);
      StepStands(RunFrom(w, events[..|events| - 1]), events[|events| - 1]);
      hide Step;
    }
  }

  lemma StepStands(w: World, e: Event)
    requires !e.Commit?
    ensures Step(w, e).versions == w.versions && (w.pending.Some? ==> Step(w, e).pending == w.pending)
  {
  }

  /** An old row that is usable is accepted by some later request, without a commit. */
  lemma UsableAccepts(w: World, version: nat) returns (events: seq<Event>)
    requires OldIsUsable(w, version)
    ensures NoCommit(events) && AcceptsLater(w, events)
  {
    hide RunFrom, Step;
    if LiveEntry(w).Some? && LiveEntry(w).value.read.version < version &&
       !Expired(LiveEntry(w).value.payload.expires, w.now)
    {
      CachedOldAccepts(w, version);
      events := [Begin, ReadCache(w.begun, true)];
    } else {
      var i :| i in w.requests && Carries(w.requests[i].pc, w.now, version);
      if w.requests[i].pc.Fill? {
        FilledOldAccepts(w, i, version);
        events := [WriteCache(i, true)] + [Begin, ReadCache(w.begun, true)];
      } else {
        CheckedOldAccepts(w, i, version);
        events := [CheckRow(i)] + ([WriteCache(i, true)] + [Begin, ReadCache(w.begun, true)]);
      }
    }
  }

  lemma NothingAccepts(w: World, events: seq<Event>, late: nat)
    requires Inv(w, late) && w.versions != [] && Dead(w.versions[|w.versions| - 1].row) && NoCommit(events)
    requires !OldIsUsable(w, |w.versions| - 1)
    ensures !AcceptsLater(w, events)
  {
    hide RunFrom, Step, NoneOld;
    var after, version := RunFrom(w, events), |w.versions| - 1;
    NothingUsable(w, version, late);
    RunStaysNew(w, events, w.begun, version);
    StillNone(after, w.begun, version);
    VersionsStand(w, events);
    var later := RunKeepsSome(w, events, late);
    forall a | a in after.answers && a.request >= w.begun ensures !a.verdict.Accepted? {
      AnswerOfRun(after, a, later);
      AcceptedRowIsGood(after, a, later);
    }
  }

  lemma AnswerOfRun(w: World, a: Answer, late: nat)
    requires Inv(w, late) && a in w.answers
    ensures AnswerOk(w, a, late)
  {
  }

  /** An accepted answer rests on a version of the row that is there and not revoked. */
  lemma AcceptedRowIsGood(w: World, a: Answer, late: nat)
    requires AnswerOk(w, a, late)
    ensures a.verdict.Accepted? ==>
              (a.source.FromCache? || a.source.FromRow?) && a.source.read.version < |w.versions| &&
              w.versions[a.source.read.version].row.Some? && !w.versions[a.source.read.version].row.value.revoked
  {
  }

  /**
   The commit of a revocation ends acceptance if and only if, at the commit, the cache accepts no row of the key and
   no request in progress holds one that the database path accepted or would accept: the deletion before it counts
   only through what is there by then.
   */
  lemma CommitEndsAcceptanceIff(before: World, late: nat)
    requires Inv(before, late) && before.pending.Some? && Dead(before.pending.value)
    ensures Survives(before) <==> OldIsUsable(before, |before.versions|)
  {
    var after := Step(before, Commit(true));
    OutsideKeeps(before, Commit(true), late);
    assert OldIsUsable(after, |before.versions|) == OldIsUsable(before, |before.versions|);
    hide Step, OldIsUsable;
    if OldIsUsable(after, |before.versions|) {
      var events := UsableAccepts(after, |before.versions|);
    } else {
      forall events | NoCommit(events) ensures !AcceptsLater(after, events) {
        NothingAccepts(after, events, late);
      }
    }
  }

  // -- Flush, delete, commit -----------------------------------------------------------------------------------------

  /** A request reads a row that the database path would still accept at time `deadline`. */
  predicate ReadsUsable(w: World, e: Event, deadline: nat) {
    e.Query? && e.ok && e.i in w.requests && w.requests[e.i].pc.AskDatabase? &&
    w.versions != [] && Judgement(w.versions[|w.versions| - 1].row, deadline).Accepted?
  }

  ghost predicate ReadDuring(w: World, events: seq<Event>, deadline: nat) {
    exists n :: 0 <= n < |events| && ReadsUsable(RunFrom(w, events[..n]), events[n], deadline)
  }

  ghost predicate InProgress(w: World, deadline: nat) {
    exists i :: i in w.requests && Carries(w.requests[i].pc, deadline, |w.versions|)
  }

  /** The cache or a request in progress holds a row that the database path would still accept at time `deadline`. */
  ghost predicate UsableBy(w: World, deadline: nat) {
    (w.cache.Some? && w.cache.value.read.version < |w.versions| && !Expired(w.cache.value.payload.expires, deadline)) ||
    InProgress(w, deadline)
  }

  function Elapsed(events: seq<Event>): nat {
    if events == [] then 0
    else
      var last := events[|events| - 1];
      Elapsed(events[..|events| - 1]) + if last.Tick? then last.seconds else 0
  }

  predicate Calm(e: Event) {
    (e.WriteCache? ==> e.applied) && (e.EvictCache? ==> !e.applied) && (e.Invalidate? ==> !e.applied)
  }

  /** Redis works, nobody else removes the entry, and it all takes less than one time to live. */
  predicate Undisturbed(events: seq<Event>) {
    (forall e :: e in events ==> Calm(e)) && Elapsed(events) < AUTH_CACHE_TTL
  }

  /** A key's expiry is set once: no version of the row has another. */
  ghost predicate SameExpiry(w: World, expires: Option<int>) {
    forall k :: 0 <= k < |w.versions| && w.versions[k].row.Some? ==> w.versions[k].row.value.expires == expires
  }

  /** Nor has anything that was read from a version. */
  ghost predicate OneExpiry(w: World, expires: Option<int>) {
    SameExpiry(w, expires) &&
    (w.cache.Some? ==> w.cache.value.payload.expires == expires) &&
    forall i :: i in w.requests ==> PcExpiry(w.requests[i].pc, expires)
  }

  predicate PcExpiry(pc: Pc, expires: Option<int>) {
    pc.Check? || pc.Fill? ==> pc.row.expires == expires
  }

  lemma OneExpiryOfVersions(w: World, expires: Option<int>, late: nat)
    requires Inv(w, late)
    requires SameExpiry(w, expires)
    ensures OneExpiry(w, expires)
  {
    hide AnswerOk;
    forall i | i in w.requests ensures PcExpiry(w.requests[i].pc, expires) {
      assert RequestOk(w, w.requests[i]);
    }
  }

  lemma StepKeepsExpiry(w: World, e: Event, expires: Option<int>)
    requires OneExpiry(w, expires) && !e.Commit?
    ensures OneExpiry(Step(w, e), expires)
  {
    hide Judgement, Expired;
  }

  /** Requests are numbered as they begin, and none holds a version that is not there. */
  ghost predicate Numbered(w: World) {
    (w.cache.Some? ==> w.cache.value.read.version < |w.versions|) &&
    forall i :: i in w.requests ==> i < w.begun && PcNumbered(w.requests[i].pc, |w.versions|)
  }

  predicate PcNumbered(pc: Pc, n: nat) {
    pc.Check? || pc.Fill? ==> pc.read.version < n
  }

  lemma InvNumbers(w: World, late: nat)
    requires Inv(w, late)
    ensures Numbered(w)
  {
    hide AnswerOk;
    forall i | i in w.requests ensures i < w.begun && PcNumbered(w.requests[i].pc, |w.versions|) {
      assert RequestOk(w, w.requests[i]);
    }
  }

  lemma StepKeepsNumbers(w: World, e: Event)
    requires Numbered(w) && !e.Commit?
    ensures Numbered(Step(w, e))
  {
    hide Judgement, Expired;
  }

  lemma StepUsable(w: World, e: Event, deadline: nat)
    requires Numbered(w) && !e.Commit? && Step(w, e).now <= deadline
    ensures UsableBy(Step(w, e), deadline) ==> UsableBy(w, deadline) || ReadsUsable(w, e, deadline)
  {
  }

  lemma HolderStays(w: World, e: Event, i: nat, deadline: nat)
    requires Numbered(w) && !e.Commit? && Calm(e) && Step(w, e).now <= deadline
    requires i in w.requests && Carries(w.requests[i].pc, deadline, |w.versions|)
    ensures UsableBy(Step(w, e), deadline)
  {
    var after := Step(w, e);
    if e == CheckRow(i) {
      assert after.requests[i].pc.Fill?;
      assert Carries(after.requests[i].pc, deadline, |after.versions|);
    } else if e.WriteCache? && e.i == i && w.requests[i].pc.Fill? {
      assert after.cache.value.payload == PayloadOf(w.requests[i].pc.row);
    } else {
      StepLeavesOthers(w, e, i);
      assert Carries(after.requests[i].pc, deadline, |after.versions|);
    }
  }

  lemma StepLeavesOthers(w: World, e: Event, i: nat)
    requires Numbered(w) && i in w.requests && (w.requests[i].pc.Check? || w.requests[i].pc.Fill?) && !e.Commit?
    requires !(e == CheckRow(i) && w.requests[i].pc.Check?) && !(e.WriteCache? && e.i == i && w.requests[i].pc.Fill?)
    ensures i in Step(w, e).requests && Step(w, e).requests[i] == w.requests[i]
  {
    hide Judgement, Expired;
  }

  lemma CacheStays(w: World, e: Event, deadline: nat, expires: Option<int>)
    requires Numbered(w) && OneExpiry(w, expires) && !e.Commit? && Calm(e)
    requires w.cache.Some? && !Expired(w.cache.value.payload.expires, deadline)
    ensures UsableBy(Step(w, e), deadline)
  {
    hide Judgement, Expired;
  }

  lemma StepStaysUsable(w: World, e: Event, deadline: nat, expires: Option<int>)
    requires Numbered(w) && OneExpiry(w, expires) && !e.Commit? && Calm(e) && Step(w, e).now <= deadline
    requires UsableBy(w, deadline) || ReadsUsable(w, e, deadline)
    ensures UsableBy(Step(w, e), deadline)
  {
    if InProgress(w, deadline) {
      var i :| i in w.requests && Carries(w.requests[i].pc, deadline, |w.versions|);
      HolderStays(w, e, i, deadline);
    } else if ReadsUsable(w, e, deadline) {
      var after := Step(w, e);
      assert Carries(after.requests[e.i].pc, deadline, |after.versions|);
    } else {
      CacheStays(w, e, deadline, expires);
    }
  }

  lemma ReadDuringFront(w: World, events: seq<Event>, deadline: nat)
    requires events != []
    ensures var front, last := events[..|events| - 1], events[|events| - 1];
            ReadDuring(w, events, deadline) <==>
              ReadDuring(w, front, deadline) || ReadsUsable(RunFrom(w, front), last, deadline)
  {
    hide ReadsUsable, RunFrom;
    var front := events[..|events| - 1];
    assert forall n :: 0 <= n < |front| ==> front[..n] == events[..n] && front[n] == events[n];
  }

  /** What can be accepted at the end was there at the start or was read in between. */
  lemma {:induction false} RunUsable(w: World, events: seq<Event>, deadline: nat)
    requires Numbered(w) && NoCommit(events) && RunFrom(w, events).now <= deadline
    ensures Numbered(RunFrom(w, events))
    ensures UsableBy(RunFrom(w, events), deadline) ==> UsableBy(w, deadline) || ReadDuring(w, events, deadline)
  {
    if events != [] {
      hide Step, Numbered, UsableBy, ReadsUsable;
      var front, last := events[..|events| - 1], events[|events| - 1];
      assert last in events && forall e :: e in front ==> e in events;
      TimeGoesOn(RunFrom(w, front), last);
      RunUsable(w, front, deadline);
      StepUsable(RunFrom(w, front), last, deadline);
      StepKeepsNumbers(RunFrom(w, front), last);
      ReadDuringFront(w, events, deadline);
    }
  }

  lemma {:induction false} RunStaysUsable(w: World, events: seq<Event>, deadline: nat, expires: Option<int>)
    requires Numbered(w) && OneExpiry(w, expires) && NoCommit(events) && RunFrom(w, events).now <= deadline
    requires forall e :: e in events ==> Calm(e)
    requires UsableBy(w, deadline) || ReadDuring(w, events, deadline)
    ensures UsableBy(RunFrom(w, events), deadline)
  {
    if events != [] {
      hide Step, Numbered, UsableBy, ReadsUsable, OneExpiry, Calm;
      var front, last := events[..|events| - 1], events[|events| - 1];
      assert last in events && forall e :: e in front ==> e in events;
      TimeGoesOn(RunFrom(w, front), last);
      RunKeepsExpiry(w, front, expires);
      RunUsable(w, front, deadline);
      ReadDuringFront(w, events, deadline);
      if UsableBy(w, deadline) || ReadDuring(w, front, deadline) {
        RunStaysUsable(w, front, deadline, expires);
      }
      StepStaysUsable(RunFrom(w, front), last, deadline, expires);
    }
  }

  lemma {:induction false} RunKeepsExpiry(w: World, events: seq<Event>, expires: Option<int>)
    requires OneExpiry(w, expires) && NoCommit(events)
    ensures OneExpiry(RunFrom(w, events), expires)
  {
    if events != [] {
      hide Step, OneExpiry;
      var front, last := events[..|events| - 1], events[|events| - 1];
      assert last in events && forall e :: e in front ==> e in events;
      RunKeepsExpiry(w, front, expires);
      StepKeepsExpiry(RunFrom(w, front), last, expires);
    }
  }

  /** Entries written since the deletion live for a whole time to live from then on. */
  lemma StepFresh(w: World, e: Event, since: nat)
    requires since <= w.now && (w.cache.Some? ==> w.cache.value.until >= since + AUTH_CACHE_TTL)
    ensures var after := Step(w, e);
            after.now == w.now + (if e.Tick? then e.seconds else 0) &&
            (after.cache.Some? ==> after.cache.value.until >= since + AUTH_CACHE_TTL)
  {
    hide Judgement, Expired;
  }

  lemma {:induction false} FreshEntriesLive(w: World, events: seq<Event>)
    requires w.cache.None?
    ensures var end := RunFrom(w, events);
            end.now == w.now + Elapsed(events) &&
            (end.cache.Some? ==> end.cache.value.until >= w.now + AUTH_CACHE_TTL)
  {
    if events != [] {
      hide Step;
      FreshEntriesLive(w, events[..|events| - 1]);
      StepFresh(RunFrom(w, events[..|events| - 1]), events[|events| - 1], w.now);
    }
  }

  /**
   The order of the source. `w` is the moment of the deletion, `between` what happens until the commit. Acceptance
   survives the commit only if a request in progress at the deletion held a row, or a request read one in between,
   that the database path accepts up to the commit. If so, it does survive, when Redis works and the commit comes
   within one time to live. No code changes a key's `expires_at`.
   */
  lemma DeleteThenCommit(w: World, between: seq<Event>, late: nat, expires: Option<int>)
    requires Inv(w, late) && w.pending.Some? && Dead(w.pending.value) && NoCommit(between)
    ensures var cleared := Step(w, Invalidate(true));
            var before := RunFrom(cleared, between);
            var exposed := InProgress(w, before.now) || ReadDuring(cleared, between, before.now);
            (Survives(before) ==> exposed) &&
            (Undisturbed(between) && SameExpiry(w, expires) ==> (Survives(before) <==> exposed))
  {
    hide RunFrom, Survives, ReadDuring, OldIsUsable;
    var cleared := Step(w, Invalidate(true));
    var before := RunFrom(cleared, between);
    OutsideKeeps(w, Invalidate(true), late);
    var later := RunKeepsSome(cleared, between, late);
    VersionsStand(cleared, between);
    CommitEndsAcceptanceIff(before, later);
    InvNumbers(cleared, late);
    RunUsable(cleared, between, before.now);
    assert UsableBy(cleared, before.now) == InProgress(w, before.now);
    FreshEntriesLive(cleared, between);
    var exposed := InProgress(w, before.now) || ReadDuring(cleared, between, before.now);
    if Undisturbed(between) && SameExpiry(w, expires) && exposed {
      OneExpiryOfVersions(cleared, expires, late);
      RunStaysUsable(cleared, between, before.now, expires);
    }
    UsableIsUsable(before);
    hide Step, UsableBy, InProgress;
  }

  lemma UsableIsUsable(w: World)
    ensures OldIsUsable(w, |w.versions|) ==> UsableBy(w, w.now)
    ensures UsableBy(w, w.now) && (w.cache.Some? ==> w.now < w.cache.value.until) ==> OldIsUsable(w, |w.versions|)
  {
  }

  /**
   Deleting after the commit instead would end acceptance, provided that no request still holds the row from before:
   as long as every later row is revoked or gone, no later request is accepted.
   */
  lemma {:induction false} CommitThenDelete(w: World, events: seq<Event>, late: nat)
    requires Inv(w, late)
    requires forall i :: i in w.requests ==> !Carries(w.requests[i].pc, w.now, |w.versions| - 1)
    requires var after := RunFrom(Step(w, Invalidate(true)), events);
             forall k :: |w.versions| - 1 <= k < |after.versions| ==> Dead(after.versions[k].row)
    ensures forall a :: a in RunFrom(Step(w, Invalidate(true)), events).answers && a.request >= w.begun ==>
              !a.verdict.Accepted?
  {
    var cleared, version := Step(w, Invalidate(true)), |w.versions| - 1;
    OutsideKeeps(w, Invalidate(true), late);
    assert !OldIsUsable(cleared, version);
    NothingUsable(cleared, version, late);
    hide NoneOld, RunFrom, Step;
    RunStaysNew(cleared, events, w.begun, version);
    var later := RunKeepsSome(cleared, events, late);
    var after := RunFrom(cleared, events);
    StillNone(after, w.begun, version);
    forall a | a in after.answers && a.request >= w.begun ensures !a.verdict.Accepted? {
      AnswerOfRun(after, a, later);
      AcceptedRowIsGood(after, a, later);
    }
  }

  // -- It does happen ------------------------------------------------------------------------------------------------

  /** The flush and the deletion, and a request that begins after them and finds the cache empty. */
  function Opening(row: Row): seq<Event> {
    [Flush(Some(row.(revoked := true))), Invalidate(true), Begin, ReadCache(0, true)]
  }

  function Reading(): seq<Event> {
    [ReadNegative(0, true), Throttle(0, true, true), Query(0, true), CheckRow(0)]
  }

  function Closing(): seq<Event> {
    [Commit(true), WriteCache(0, true), Begin, ReadCache(1, true)]
  }

  lemma OpeningRun(row: Row)
    ensures RunFrom(Initially(Some(row)), Opening(row)) ==
              Initially(Some(row)).(pending := Some(Some(row.(revoked := true))), begun := 1,
                                    requests := map[0 := Request(0, AskNegative)])
  {
    var w, flush := Initially(Some(row)), Flush(Some(row.(revoked := true)));
    RunFour(w, flush, Invalidate(true), Begin, ReadCache(0, true));
    hide RunFrom;
  }

  lemma ReadingRun(w: World, row: Row)
    requires w.requests == map[0 := Request(0, AskNegative)] && w.negative.None?
    requires w.versions == [Version(Some(row), 0, None)] && Judgement(Some(row), w.now).Accepted?
    ensures RunFrom(w, Reading()) == w.(requests := map[0 := Request(0, Fill(row, Read(0, w.now), w.now))])
  {
    RunFour(w, ReadNegative(0, true), Throttle(0, true, true), Query(0, true), CheckRow(0));
    hide RunFrom;
    var asked := w.(requests := map[0 := Request(0, AskDatabase)]);
    assert Step(Step(w, ReadNegative(0, true)), Throttle(0, true, true)) == asked;
    var queried := w.(requests := map[0 := Request(0, Check(row, Read(0, w.now)))]);
    assert Step(asked, Query(0, true)) == queried;
  }

  lemma ClosingRun(w: World, row: Row)
    requires w.requests == map[0 := Request(0, Fill(row, Read(0, w.now), w.now))] && w.begun == 1 && w.answers == []
    requires w.versions == [Version(Some(row), 0, None)] && w.pending == Some(Some(row.(revoked := true)))
    requires !Expired(row.expires, w.now)
    ensures var end := RunFrom(w, Closing());
            |end.answers| == 2 &&
            end.answers[1] == Answer(1, Accepted(row.grant), w.now, FromCache(Read(0, w.now), w.now)) &&
            |end.versions| == 2 && end.versions[1] == Version(Some(row.(revoked := true)), w.now, None)
  {
    RunFour(w, Commit(true), WriteCache(0, true), Begin, ReadCache(1, true));
    hide RunFrom;
    var committed, revoked := Step(w, Commit(true)), row.(revoked := true);
    assert committed.versions == [Version(Some(row), 0, Some(w.now)), Version(Some(revoked), w.now, None)];
    var filled := Step(committed, WriteCache(0, true));
    assert |filled.answers| == 1 && filled.versions == committed.versions;
    assert filled.cache == Some(Entry(PayloadOf(row), w.now + AUTH_CACHE_TTL, Read(0, w.now), w.now));
  }

  /**
   For every acceptable key: a revocation with no request in progress at its deletion, one request that reads the row
   before its commit, and one that begins after the commit and is accepted. The first fills the cache after the
   commit. That is so whether or not its update of `last_used_at` has to wait for the row that is being revoked.
   */
  lemma RevokedKeyAccepted(row: Row) returns (events: seq<Event>)
    requires Judgement(Some(row), 0).Accepted?
    ensures var w := RunFrom(Initially(Some(row)), events);
            |w.answers| == 2 && w.answers[1].verdict == Accepted(row.grant) && w.answers[1].request == 1 &&
            |w.versions| == 2 && w.versions[1].row == Some(row.(revoked := true)) &&
            w.versions[1].since <= w.answers[1].at
  {
    hide RunFrom, Opening, Reading, Closing;
    OpeningRun(row);
    var started := RunFrom(Initially(Some(row)), Opening(row));
    ReadingRun(started, row);
    var held := RunFrom(started, Reading());
    ClosingRun(held, row);
    RunThen(Initially(Some(row)), Opening(row), Reading());
    RunThen(Initially(Some(row)), Opening(row) + Reading(), Closing());
    events := Opening(row) + Reading() + Closing();
  }
}
