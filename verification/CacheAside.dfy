/**
 One cached answer about one user (core/rbac.py): lookups that read Redis, then the database, then fill Redis,
 interleaved step by step with changes of the row, invalidations, failures and the passing of time.

 A change of the row is a transaction: it is flushed, which no other session sees, and committed later. The callers
 invalidate between the two (services/user_service.py:397-407, dependencies/db.py:113-115).
 */
module CacheAside {
  import opened Wrappers

  /** What is cached: how it is written to Redis and read back, its time to live, and the answer that denies. */
  datatype Kind<!V(!new), !C> = Kind(fallback: V, ttl: nat, encode: V -> C, decode: C -> Option<V>) {
    ghost predicate Faithful() {
      ttl > 0 && forall v :: decode(encode(v)) == Some(v)
    }
  }

  /** A state of the row: `None` for a user who is unknown, inactive or deleted. */
  datatype Version<V> = Version(value: Option<V>, since: nat, replaced: Option<nat>)

  datatype Stored<C> = Stored(content: C, expires: nat)

  /** A cache entry; which version it was read from, and when, is recorded for the statements below only. */
  datatype Entry<C> = Entry(stored: Stored<C>, version: nat, readAt: nat)

  datatype Pc<V> = Asking | Querying | Writing(value: V, version: nat, readAt: nat)

  datatype Lookup<V> = Lookup(start: nat, pc: Pc<V>)

  datatype Answer<V> = Answer(lookup: nat, value: V, at: nat, version: Option<nat>, readAt: nat)

  /** `pending` is the value that a transaction has flushed and not yet committed; it holds the row's lock. */
  datatype World<V, C> = World(now: nat, versions: seq<Version<V>>, pending: Option<Option<V>>, cache: Option<Entry<C>>,
                               lookups: map<nat, Lookup<V>>, begun: nat, answers: seq<Answer<V>>)

  /** `ok` is whether a read or a commit succeeded; `applied` whether a write to Redis took effect. */
  datatype Event<V> =
    | Tick(seconds: nat)
    | Flush(value: Option<V>)
    | Commit(ok: bool)
    | Invalidate(applied: bool)
    | Begin
    | Get(i: nat, ok: bool)
    | Query(i: nat, ok: bool)
    | Set(i: nat, applied: bool)

  function Reply<V(!new), C>(w: World<V, C>, i: nat, value: V, version: Option<nat>, readAt: nat): World<V, C> {
    w.(lookups := w.lookups - {i}, answers := w.answers + [Answer(i, value, w.now, version, readAt)])
  }

  function Goto<V(!new), C>(w: World<V, C>, i: nat, pc: Pc<V>): World<V, C> {
    if i in w.lookups then w.(lookups := w.lookups[i := w.lookups[i].(pc := pc)]) else w
  }

  /** What Redis still holds: the entry, until its time to live has passed. */
  function Live<V(!new), C>(w: World<V, C>): Option<Entry<C>> {
    if w.cache.Some? && w.now < w.cache.value.stored.expires then w.cache else None
  }

  /** A read of Redis that fails, or whose content cannot be decoded, falls through to the database. */
  function DoGet<V(!new), C>(kind: Kind<V, C>, w: World<V, C>, i: nat, ok: bool): World<V, C> {
    if ok && Live(w).Some? then
      var entry := Live(w).value;
      match kind.decode(entry.stored.content)
      case Some(value) => Reply(w, i, value, Some(entry.version), entry.readAt)
      case None => Goto(w, i, Querying)
    else Goto(w, i, Querying)
  }

  function DoQuery<V(!new), C>(kind: Kind<V, C>, w: World<V, C>, i: nat, ok: bool): World<V, C> {
    var last := |w.versions| - 1;
    if !ok || last < 0 || w.versions[last].value.None? then Reply(w, i, kind.fallback, None, w.now)
    else Goto(w, i, Writing(w.versions[last].value.value, last, w.now))
  }

  function DoSet<V(!new), C>(kind: Kind<V, C>, w: World<V, C>, i: nat, pc: Pc<V>, applied: bool): World<V, C>
    requires pc.Writing?
  {
    var entry := Entry(Stored(kind.encode(pc.value), w.now + kind.ttl), pc.version, pc.readAt);
    Reply(if applied then w.(cache := Some(entry)) else w, i, pc.value, Some(pc.version), pc.readAt)
  }

  /** A commit makes the flushed value visible; a failed one rolls it back. */
  function DoCommit<V(!new), C>(w: World<V, C>, ok: bool): World<V, C> {
    var last := |w.versions| - 1;
    if w.pending.None? || !ok || last < 0 then w.(pending := None)
    else
      w.(versions := w.versions[last := w.versions[last].(replaced := Some(w.now))]
                     + [Version(w.pending.value, w.now, None)],
         pending := None)
  }

  function Step<V(!new), C>(kind: Kind<V, C>, w: World<V, C>, e: Event<V>): World<V, C> {
    match e
    case Tick(seconds) => w.(now := w.now + seconds)
    case Flush(value) => if w.pending.None? then w.(pending := Some(value)) else w
    case Commit(ok) => DoCommit(w, ok)
    case Invalidate(applied) => if applied then w.(cache := None) else w
    case Begin => w.(lookups := w.lookups[w.begun := Lookup(w.now, Asking)], begun := w.begun + 1)
    case Get(i, ok) => if i in w.lookups && w.lookups[i].pc.Asking? then DoGet(kind, w, i, ok) else w
    case Query(i, ok) => if i in w.lookups && w.lookups[i].pc.Querying? then DoQuery(kind, w, i, ok) else w
    case Set(i, applied) =>
      if i in w.lookups && w.lookups[i].pc.Writing? then DoSet(kind, w, i, w.lookups[i].pc, applied) else w
  }

  function RunFrom<V(!new), C>(kind: Kind<V, C>, w: World<V, C>, events: seq<Event<V>>): World<V, C> {
    if events == [] then w else Step(kind, RunFrom(kind, w, events[..|events| - 1]), events[|events| - 1])
  }

  function Initially<V(!new), C>(value: Option<V>): World<V, C> {
    World(0, [Version(value, 0, None)], None, None, map[], 0, [])
  }

  // -- Every answer is recent --------------------------------------------------------------------------------------

  /** The row was in this version at `readAt`, with this value. */
  ghost predicate Held<V(!new)>(versions: seq<Version<V>>, version: nat, value: V, readAt: nat) {
    version < |versions| && versions[version].value == Some(value) && versions[version].since <= readAt &&
    (versions[version].replaced.Some? ==> readAt <= versions[version].replaced.value)
  }

  ghost predicate EntryOk<V(!new), C>(kind: Kind<V, C>, w: World<V, C>, late: nat) {
    w.cache.Some? ==>
      var entry := w.cache.value;
      entry.version < |w.versions| && w.versions[entry.version].value.Some? &&
      entry.stored.content == kind.encode(w.versions[entry.version].value.value) &&
      Held(w.versions, entry.version, w.versions[entry.version].value.value, entry.readAt) &&
      entry.readAt <= w.now && entry.stored.expires <= entry.readAt + late + kind.ttl
  }

  ghost predicate LookupOk<V(!new), C>(w: World<V, C>, l: Lookup<V>) {
    l.start <= w.now &&
    (l.pc.Writing? ==> Held(w.versions, l.pc.version, l.pc.value, l.pc.readAt) && l.start <= l.pc.readAt <= w.now)
  }

  ghost predicate AnswerOk<V(!new), C>(kind: Kind<V, C>, w: World<V, C>, a: Answer<V>, late: nat) {
    a.at <= w.now && a.lookup < w.begun &&
    if a.version.None? then a.value == kind.fallback
    else Held(w.versions, a.version.value, a.value, a.readAt) && a.readAt <= a.at <= a.readAt + kind.ttl + late
  }

  ghost predicate Inv<V(!new), C>(kind: Kind<V, C>, w: World<V, C>, late: nat) {
    |w.versions| >= 1 && w.versions[|w.versions| - 1].since <= w.now &&
    w.versions[|w.versions| - 1].replaced.None? &&
    EntryOk(kind, w, late) &&
    (forall i :: i in w.lookups ==> i < w.begun && LookupOk(w, w.lookups[i])) &&
    (forall a :: a in w.answers ==> AnswerOk(kind, w, a, late))
  }

  /** No lookup in progress has taken longer than `late`. */
  ghost predicate Prompt<V(!new), C>(w: World<V, C>, late: nat) {
    forall i :: i in w.lookups ==> w.now <= w.lookups[i].start + late
  }

  lemma ReplyKeeps<V(!new), C>(kind: Kind<V, C>, w: World<V, C>, i: nat, a: Answer<V>, late: nat)
    requires Inv(kind, w, late) && a.at == w.now && a.lookup == i && AnswerOk(kind, w, a, late)
    ensures Inv(kind, Reply(w, i, a.value, a.version, a.readAt), late)
  {
  }

  lemma GotoKeeps<V(!new), C>(kind: Kind<V, C>, w: World<V, C>, i: nat, pc: Pc<V>, late: nat)
    requires Inv(kind, w, late) && i in w.lookups && LookupOk(w, w.lookups[i].(pc := pc))
    ensures Inv(kind, Goto(w, i, pc), late)
  {
  }

  lemma CommitKeeps<V(!new), C>(kind: Kind<V, C>, w: World<V, C>, ok: bool, late: nat)
    requires Inv(kind, w, late)
    ensures Inv(kind, DoCommit(w, ok), late)
  {
  }

  lemma GetKeeps<V(!new), C>(kind: Kind<V, C>, w: World<V, C>, i: nat, ok: bool, late: nat)
    requires kind.Faithful() && Inv(kind, w, late) && i in w.lookups
    ensures Inv(kind, DoGet(kind, w, i, ok), late)
  {
    hide Held;
    GotoKeeps(kind, w, i, Querying, late);
    if ok && Live(w).Some? {
      var entry := Live(w).value;
      var value := w.versions[entry.version].value.value;
      ReplyKeeps(kind, w, i, Answer(i, value, w.now, Some(entry.version), entry.readAt), late);
    }
  }

  lemma QueryKeeps<V(!new), C>(kind: Kind<V, C>, w: World<V, C>, i: nat, ok: bool, late: nat)
    requires Inv(kind, w, late) && i in w.lookups
    ensures Inv(kind, DoQuery(kind, w, i, ok), late)
  {
    var last := |w.versions| - 1;
    if !ok || w.versions[last].value.None? {
      ReplyKeeps(kind, w, i, Answer(i, kind.fallback, w.now, None, w.now), late);
    } else {
      GotoKeeps(kind, w, i, Writing(w.versions[last].value.value, last, w.now), late);
    }
  }

  lemma SetKeeps<V(!new), C>(kind: Kind<V, C>, w: World<V, C>, i: nat, applied: bool, late: nat)
    requires Inv(kind, w, late) && Prompt(w, late) && i in w.lookups && w.lookups[i].pc.Writing?
    ensures Inv(kind, DoSet(kind, w, i, w.lookups[i].pc, applied), late)
  {
    var pc := w.lookups[i].pc;
    var entry := Entry(Stored(kind.encode(pc.value), w.now + kind.ttl), pc.version, pc.readAt);
    var filled := if applied then w.(cache := Some(entry)) else w;
    assert Inv(kind, filled, late) by {
      assert w.now <= pc.readAt + late;
      forall a | a in w.answers ensures AnswerOk(kind, filled, a, late) {
        assert AnswerOk(kind, w, a, late);
      }
      forall j | j in w.lookups ensures j < w.begun && LookupOk(filled, w.lookups[j]) {
        assert LookupOk(w, w.lookups[j]);
      }
    }
    ReplyKeeps(kind, filled, i, Answer(i, pc.value, w.now, Some(pc.version), pc.readAt), late);
  }

  lemma StepKeeps<V(!new), C>(kind: Kind<V, C>, w: World<V, C>, e: Event<V>, late: nat)
    requires kind.Faithful() && Inv(kind, w, late) && Prompt(w, late)
    ensures Inv(kind, Step(kind, w, e), late)
  {
    hide DoGet, DoQuery, DoSet, DoCommit;
    match e
    case Commit(ok) => CommitKeeps(kind, w, ok, late);
    case Get(i, ok) => if i in w.lookups { GetKeeps(kind, w, i, ok, late); }
    case Query(i, ok) => if i in w.lookups { QueryKeeps(kind, w, i, ok, late); }
    case Set(i, applied) => if i in w.lookups && w.lookups[i].pc.Writing? { SetKeeps(kind, w, i, applied, late); }
    case _ =>
  }

  ghost predicate PromptRun<V(!new), C>(kind: Kind<V, C>, value: Option<V>, events: seq<Event<V>>, late: nat) {
    forall n :: 0 <= n <= |events| ==> Prompt(RunFrom(kind, Initially<V, C>(value), events[..n]), late)
  }

  lemma {:induction false} RunKeeps<V(!new), C>(kind: Kind<V, C>, value: Option<V>, events: seq<Event<V>>, late: nat)
    requires kind.Faithful() && PromptRun(kind, value, events, late)
    ensures Inv(kind, RunFrom(kind, Initially<V, C>(value), events), late)
  {
    if events != [] {
      hide Step, Inv;
      var front := events[..|events| - 1];
      assert forall n :: 0 <= n <= |front| ==> front[..n] == events[..n];
      assert front[..|front|] == front;
      RunKeeps(kind, value, front, late);
      StepKeeps(kind, RunFrom(kind, Initially<V, C>(value), front), events[|events| - 1], late);
    }
  }

  /** Some moment of the last `window` seconds at which the row had this value. */
  ghost predicate HeldWithin<V(!new)>(versions: seq<Version<V>>, value: V, at: nat, window: nat) {
    exists version, t: nat :: t <= at <= t + window && Held(versions, version, value, t)
  }

  /**
   Whatever interleaves and fails, an answer is the denying fallback, or the row held it at most one time to live
   plus one lookup's duration ago.
   */
  lemma AnswersAreRecent<V(!new), C>(kind: Kind<V, C>, value: Option<V>, events: seq<Event<V>>, late: nat, a: Answer<V>)
    requires kind.Faithful() && PromptRun(kind, value, events, late)
    requires a in RunFrom(kind, Initially<V, C>(value), events).answers
    ensures var versions := RunFrom(kind, Initially<V, C>(value), events).versions;
            a.value == kind.fallback || HeldWithin(versions, a.value, a.at, kind.ttl + late)
  {
    hide RunFrom;
    RunKeeps(kind, value, events, late);
    var w := RunFrom(kind, Initially<V, C>(value), events);
    assert AnswerOk(kind, w, a, late);
    if a.version.Some? {
      assert a.readAt <= a.at <= a.readAt + (kind.ttl + late);
      assert Held(w.versions, a.version.value, a.value, a.readAt);
    }
  }

  // -- When an old version can come back ---------------------------------------------------------------------------

  /** Neither Redis nor a lookup about to fill it holds a version older than `version`. */
  ghost predicate OldIsGone<V(!new), C>(w: World<V, C>, version: nat) {
    (Live(w).Some? ==> Live(w).value.version >= version) &&
    forall i :: i in w.lookups && w.lookups[i].pc.Writing? ==> w.lookups[i].pc.version >= version
  }

  ghost predicate Newer<V(!new), C>(w: World<V, C>, from: nat, version: nat) {
    forall n :: from <= n < |w.answers| && w.answers[n].version.Some? ==> w.answers[n].version.value >= version
  }

  lemma StepStaysNew<V(!new), C>(kind: Kind<V, C>, w: World<V, C>, e: Event<V>, from: nat, version: nat)
    requires OldIsGone(w, version) && Newer(w, from, version) && version < |w.versions|
    ensures var after := Step(kind, w, e);
            OldIsGone(after, version) && Newer(after, from, version) && version < |after.versions|
  {
  }

  lemma {:induction false} RunStaysNew<V(!new), C>(kind: Kind<V, C>, w: World<V, C>, events: seq<Event<V>>, from: nat,
                                                   version: nat)
    requires OldIsGone(w, version) && Newer(w, from, version) && version < |w.versions|
    ensures var after := RunFrom(kind, w, events);
            OldIsGone(after, version) && Newer(after, from, version) && version < |after.versions|
  {
    if events != [] {
      hide Step, OldIsGone, Newer;
      RunStaysNew(kind, w, events[..|events| - 1], from, version);
      StepStaysNew(kind, RunFrom(kind, w, events[..|events| - 1]), events[|events| - 1], from, version);
    }
  }

  lemma RunOne<V(!new), C>(kind: Kind<V, C>, w: World<V, C>, e: Event<V>)
    ensures RunFrom(kind, w, [e]) == Step(kind, w, e)
  {
    assert [e][..0] == [];
  }

  lemma {:induction false} RunThen<V(!new), C>(kind: Kind<V, C>, w: World<V, C>, events: seq<Event<V>>,
                                               more: seq<Event<V>>)
    ensures RunFrom(kind, w, events + more) == RunFrom(kind, RunFrom(kind, w, events), more)
    decreases |more|
  {
    if more == [] {
      assert events + more == events;
    } else {
      RunThen(kind, w, events, more[..|more| - 1]);
      assert (events + more)[..|events + more| - 1] == events + more[..|more| - 1];
    }
  }

  /** A lookup that begins after `w` and is answered with a version older than `version`. */
  ghost predicate AnswersOld<V(!new), C>(kind: Kind<V, C>, w: World<V, C>, events: seq<Event<V>>, version: nat) {
    exists a :: a in RunFrom(kind, w, events).answers && a.lookup >= w.begun && a.version.Some? && a.version.value < version
  }

  lemma CachedOldIsServed<V(!new), C>(kind: Kind<V, C>, w: World<V, C>, version: nat, late: nat)
    requires kind.Faithful() && EntryOk(kind, w, late)
    requires Live(w).Some? && Live(w).value.version < version
    ensures AnswersOld(kind, w, [Begin, Get(w.begun, true)], version)
  {
    var begin: Event<V>, get: Event<V> := Begin, Get(w.begun, true);
    var started := Step(kind, w, begin);
    RunOne(kind, w, begin);
    RunOne(kind, started, get);
    RunThen(kind, w, [begin], [get]);
    assert [begin] + [get] == [begin, get];
    var done := Step(kind, started, get);
    var a := done.answers[|w.answers|];
    assert a in done.answers && a.lookup == w.begun && a.version == Some(Live(w).value.version);
  }

  lemma HeldOldIsServed<V(!new), C>(kind: Kind<V, C>, w: World<V, C>, i: nat, version: nat)
    requires kind.Faithful() && i in w.lookups && w.lookups[i].pc.Writing? && w.lookups[i].pc.version < version
    requires Held(w.versions, w.lookups[i].pc.version, w.lookups[i].pc.value, w.lookups[i].pc.readAt)
    requires w.lookups[i].pc.readAt <= w.now
    ensures AnswersOld(kind, w, [Set(i, true)] + [Begin, Get(w.begun, true)], version)
  {
    var fill: Event<V> := Set(i, true);
    var filled := Step(kind, w, fill);
    assert EntryOk(kind, filled, w.now - w.lookups[i].pc.readAt);
    CachedOldIsServed(kind, filled, version, w.now - w.lookups[i].pc.readAt);
    RunOne(kind, w, fill);
    RunThen(kind, w, [fill], [Begin, Get(w.begun, true)]);
  }

  /**
   The race, exactly: a lookup that begins from now on can be answered with a version older than `version` if and
   only if an older version is still cached, or is held by a lookup that has read it and not yet filled the cache.
   */
  lemma OldAnswerIffHeld<V(!new), C>(kind: Kind<V, C>, w: World<V, C>, version: nat, late: nat)
    requires kind.Faithful() && Inv(kind, w, late) && version < |w.versions|
    ensures (exists events :: AnswersOld(kind, w, events, version)) <==> !OldIsGone(w, version)
  {
    if OldIsGone(w, version) {
      forall events ensures !AnswersOld(kind, w, events, version) {
        NothingOldLater(kind, w, events, version, late);
      }
    } else {
      hide AnswersOld;
      if Live(w).Some? && Live(w).value.version < version {
        CachedOldIsServed(kind, w, version, late);
      } else {
        var i :| i in w.lookups && w.lookups[i].pc.Writing? && w.lookups[i].pc.version < version;
        assert LookupOk(w, w.lookups[i]);
        HeldOldIsServed(kind, w, i, version);
      }
    }
  }

  lemma {:induction false} AnswersOnlyGrow<V(!new), C>(kind: Kind<V, C>, w: World<V, C>, events: seq<Event<V>>)
    ensures w.answers <= RunFrom(kind, w, events).answers
  {
    if events != [] {
      AnswersOnlyGrow(kind, w, events[..|events| - 1]);
      StepOnlyAdds(kind, RunFrom(kind, w, events[..|events| - 1]), events[|events| - 1]);
    }
  }

  lemma StepOnlyAdds<V(!new), C>(kind: Kind<V, C>, w: World<V, C>, e: Event<V>)
    ensures w.answers <= Step(kind, w, e).answers
  {
  }

  lemma NothingOldLater<V(!new), C>(kind: Kind<V, C>, w: World<V, C>, events: seq<Event<V>>, version: nat, late: nat)
    requires Inv(kind, w, late) && version < |w.versions| && OldIsGone(w, version)
    ensures !AnswersOld(kind, w, events, version)
  {
    hide RunFrom, OldIsGone;
    RunStaysNew(kind, w, events, |w.answers|, version);
    AnswersOnlyGrow(kind, w, events);
    var after := RunFrom(kind, w, events);
    assert forall b :: b in w.answers ==> AnswerOk(kind, w, b, late);
    assert forall n :: 0 <= n < |w.answers| ==> after.answers[n] == w.answers[n] && w.answers[n] in w.answers;
    forall a | a in after.answers && a.lookup >= w.begun && a.version.Some? ensures a.version.value >= version {
      var n :| 0 <= n < |after.answers| && after.answers[n] == a;
    }
  }

  // -- Flush, delete, commit -----------------------------------------------------------------------------------------

  ghost predicate Writes<V(!new), C>(w: World<V, C>) {
    exists i :: i in w.lookups && w.lookups[i].pc.Writing?
  }

  /** A later lookup can still be answered with what the row was before the commit. */
  ghost predicate OldSurvives<V(!new), C>(kind: Kind<V, C>, before: World<V, C>) {
    exists events :: AnswersOld(kind, Step(kind, before, Commit(true)), events, |before.versions|)
  }

  /**
   A commit ends the old value if and only if, at the commit, Redis holds nothing and no lookup is about to fill it:
   whatever was deleted before the commit, all that counts is what is there by then.
   */
  lemma CommitLeavesOldIff<V(!new), C>(kind: Kind<V, C>, before: World<V, C>, late: nat)
    requires kind.Faithful() && Inv(kind, before, late) && before.pending.Some?
    ensures OldSurvives(kind, before) <==> Live(before).Some? || Writes(before)
  {
    var after := Step(kind, before, Commit(true));
    CommitKeeps(kind, before, true, late);
    OldAnswerIffHeld(kind, after, |before.versions|, late);
    assert forall i :: i in before.lookups ==> LookupOk(before, before.lookups[i]);
  }

  /** A lookup reads the row, and will fill Redis with what it read. */
  predicate ReadsRow<V(!new), C>(w: World<V, C>, e: Event<V>) {
    e.Query? && e.ok && e.i in w.lookups && w.lookups[e.i].pc.Querying? &&
    w.versions != [] && w.versions[|w.versions| - 1].value.Some?
  }

  ghost predicate ReadDuring<V(!new), C>(kind: Kind<V, C>, w: World<V, C>, events: seq<Event<V>>) {
    exists n :: 0 <= n < |events| && ReadsRow(RunFrom(kind, w, events[..n]), events[n])
  }

  ghost predicate NoCommit<V(!new)>(events: seq<Event<V>>) {
    forall e :: e in events ==> !e.Commit?
  }

  function Elapsed<V(!new)>(events: seq<Event<V>>): nat {
    if events == [] then 0
    else
      var last := events[|events| - 1];
      Elapsed(events[..|events| - 1]) + if last.Tick? then last.seconds else 0
  }

  /** Redis works, nobody else invalidates, and it all takes less than one time to live. */
  ghost predicate Undisturbed<V(!new)>(events: seq<Event<V>>, ttl: nat) {
    (forall e :: e in events ==> (e.Set? ==> e.applied) && (e.Invalidate? ==> !e.applied)) && Elapsed(events) < ttl
  }

  ghost predicate Carries<V(!new), C>(w: World<V, C>) {
    w.cache.Some? || Writes(w)
  }

  /** Lookups are numbered in the order in which they begin. */
  ghost predicate Numbered<V(!new), C>(w: World<V, C>) {
    forall i :: i in w.lookups ==> i < w.begun
  }

  lemma StepCarries<V(!new), C>(kind: Kind<V, C>, w: World<V, C>, e: Event<V>)
    requires Numbered(w)
    ensures Numbered(Step(kind, w, e))
    ensures Carries(Step(kind, w, e)) ==> Carries(w) || ReadsRow(w, e)
    ensures (e.Set? ==> e.applied) && (e.Invalidate? ==> !e.applied) && (Carries(w) || ReadsRow(w, e)) ==>
              Carries(Step(kind, w, e))
  {
    var after := Step(kind, w, e);
    if Writes(w) {
      var i :| i in w.lookups && w.lookups[i].pc.Writing?;
      assert after.cache.Some? || (i in after.lookups && after.lookups[i] == w.lookups[i]) || e.Set? || e.Invalidate?;
    }
    if ReadsRow(w, e) {
      assert after.lookups[e.i].pc.Writing?;
    }
  }

  /** What Redis or a lookup holds at the end was held at the start or read in between. */
  lemma {:induction false} RunCarries<V(!new), C>(kind: Kind<V, C>, w: World<V, C>, events: seq<Event<V>>, ttl: nat)
    requires Numbered(w)
    ensures Numbered(RunFrom(kind, w, events))
    ensures Carries(RunFrom(kind, w, events)) ==> Carries(w) || ReadDuring(kind, w, events)
    ensures Undisturbed(events, ttl) && (Carries(w) || ReadDuring(kind, w, events)) ==>
              Carries(RunFrom(kind, w, events))
  {
    if events != [] {
      var front, last := events[..|events| - 1], events[|events| - 1];
      RunCarries(kind, w, front, ttl);
      StepCarries(kind, RunFrom(kind, w, front), last);
      ReadDuringFront(kind, w, events);
      assert last in events && forall e :: e in front ==> e in events;
      hide Step, Carries, ReadDuring, Numbered;
    }
  }

  lemma ReadDuringFront<V(!new), C>(kind: Kind<V, C>, w: World<V, C>, events: seq<Event<V>>)
    requires events != []
    ensures var front, last := events[..|events| - 1], events[|events| - 1];
            ReadDuring(kind, w, events) <==> ReadDuring(kind, w, front) || ReadsRow(RunFrom(kind, w, front), last)
  {
    hide ReadsRow, RunFrom;
    var front := events[..|events| - 1];
    assert forall n :: 0 <= n < |front| ==> front[..n] == events[..n] && front[n] == events[n];
  }

  /** Entries written since `start` live for a whole time to live from then on. */
  lemma {:induction false} FreshEntriesLive<V(!new), C>(kind: Kind<V, C>, w: World<V, C>, events: seq<Event<V>>)
    requires w.cache.None?
    ensures var end := RunFrom(kind, w, events);
            end.now == w.now + Elapsed(events) &&
            (end.cache.Some? ==> end.cache.value.stored.expires >= w.now + kind.ttl)
  {
    if events != [] {
      FreshEntriesLive(kind, w, events[..|events| - 1]);
    }
  }

  lemma {:induction false} VersionsStand<V(!new), C>(kind: Kind<V, C>, w: World<V, C>, events: seq<Event<V>>)
    requires NoCommit(events)
    ensures var end := RunFrom(kind, w, events);
            end.versions == w.versions && (w.pending.Some? ==> end.pending == w.pending)
  {
    if events != [] {
      assert events[|events| - 1] in events;
      VersionsStand(kind, w, events[..|events| - 1]);
    }
  }

  lemma InvGrows<V(!new), C>(kind: Kind<V, C>, w: World<V, C>, late: nat, later: nat)
    requires late <= later && Inv(kind, w, late)
    ensures Inv(kind, w, later)
  {
  }

  /** Every finite run is prompt for some bound. */
  lemma {:induction false} RunKeepsSome<V(!new), C>(kind: Kind<V, C>, w: World<V, C>, events: seq<Event<V>>, late: nat)
    returns (later: nat)
    requires kind.Faithful() && Inv(kind, w, late)
    ensures Inv(kind, RunFrom(kind, w, events), later)
  {
    later := late;
    if events != [] {
      hide Inv, Step;
      later := RunKeepsSome(kind, w, events[..|events| - 1], late);
      var before := RunFrom(kind, w, events[..|events| - 1]);
      InvGrows(kind, before, later, later + before.now);
      later := later + before.now;
      StepKeeps(kind, before, events[|events| - 1], later);
    }
  }

  /**
   The order of the callers. After the deletion and until the commit, a lookup that reads the row, or one that had
   read it, is all that can keep the old value: without one the commit ends it. With one it survives the commit, if
   Redis works and the commit comes within one time to live.
   */
  lemma DeleteThenCommit<V(!new), C>(kind: Kind<V, C>, w: World<V, C>, between: seq<Event<V>>, late: nat)
    requires kind.Faithful() && Inv(kind, w, late) && w.pending.Some? && NoCommit(between)
    ensures var cleared := Step(kind, w, Invalidate(true));
            var exposed := Writes(w) || ReadDuring(kind, cleared, between);
            (OldSurvives(kind, RunFrom(kind, cleared, between)) ==> exposed) &&
            (Undisturbed(between, kind.ttl) ==> (OldSurvives(kind, RunFrom(kind, cleared, between)) <==> exposed))
  {
    var cleared := Step(kind, w, Invalidate(true));
    var before := RunFrom(kind, cleared, between);
    VersionsStand(kind, cleared, between);
    RunCarries(kind, cleared, between, kind.ttl);
    FreshEntriesLive(kind, cleared, between);
    var later := RunKeepsSome(kind, cleared, between, late);
    CommitLeavesOldIff(kind, before, later);
    hide RunFrom, OldSurvives, ReadDuring;
  }

  /** The deletion, flushed change included, and one whole lookup: Redis holds the old value again. */
  function Refill<V(!new)>(becomes: V): seq<Event<V>> {
    [Flush(Some(becomes)), Invalidate(true), Begin] + [Get(0, true), Query(0, true), Set(0, true)]
  }

  function Refilled<V(!new), C>(kind: Kind<V, C>, was: V, becomes: V): World<V, C> {
    World(0, [Version(Some(was), 0, None)], Some(Some(becomes)), Some(Entry(Stored(kind.encode(was), kind.ttl), 0, 0)),
          map[], 1, [Answer(0, was, 0, Some(0), 0)])
  }

  lemma RefillIs<V(!new), C>(kind: Kind<V, C>, was: V, becomes: V)
    ensures RunFrom(kind, Initially<V, C>(Some(was)), Refill(becomes)) == Refilled(kind, was, becomes)
  {
    var s := Initially<V, C>(Some(was));
    var asking := s.(pending := Some(Some(becomes)), begun := 1, lookups := map[0 := Lookup(0, Asking)]);
    RunThree(kind, s, Flush(Some(becomes)), Invalidate(true), Begin);
    assert RunFrom(kind, s, [Flush(Some(becomes)), Invalidate(true), Begin]) == asking;
    RunThree(kind, asking, Get(0, true), Query(0, true), Set(0, true));
    LookupRefills(kind, asking, was);
    hide RunFrom;
    RunThen(kind, s, [Flush(Some(becomes)), Invalidate(true), Begin], [Get(0, true), Query(0, true), Set(0, true)]);
  }

  lemma LookupRefills<V(!new), C>(kind: Kind<V, C>, w: World<V, C>, was: V)
    requires w.cache.None? && w.versions == [Version(Some(was), 0, None)] && w.lookups == map[0 := Lookup(0, Asking)]
    ensures Step(kind, Step(kind, Step(kind, w, Get(0, true)), Query(0, true)), Set(0, true)) ==
              w.(lookups := map[], answers := w.answers + [Answer(0, was, w.now, Some(0), w.now)],
                 cache := Some(Entry(Stored(kind.encode(was), w.now + kind.ttl), 0, w.now)))
  {
    var queried := Step(kind, Step(kind, w, Get(0, true)), Query(0, true));
    assert queried == w.(lookups := map[0 := Lookup(0, Writing(was, 0, w.now))]);
    assert queried.lookups - {0} == map[];
  }

  /** For every kind and every change: a lookup that begins after the commit is answered with the old value. */
  lemma OldAnswerAfterCommit<V(!new), C>(kind: Kind<V, C>, was: V, becomes: V)
    requires kind.Faithful()
    ensures var w := RunFrom(kind, Initially<V, C>(Some(was)), Refill(becomes) + [Commit(true), Begin, Get(1, true)]);
            |w.answers| == 2 && w.answers[1].value == was && w.answers[1].lookup == 1 &&
            |w.versions| == 2 && w.versions[1].value == Some(becomes) && w.versions[1].since <= w.answers[1].at
  {
    RefillIs(kind, was, becomes);
    RunThen(kind, Initially<V, C>(Some(was)), Refill(becomes), [Commit(true), Begin, Get(1, true)]);
    RunThree(kind, Refilled(kind, was, becomes), Commit(true), Begin, Get(1, true));
    hide RunFrom, Refill;
  }

  lemma RunTwo<V(!new), C>(kind: Kind<V, C>, w: World<V, C>, d: Event<V>, e: Event<V>)
    ensures RunFrom(kind, w, [d, e]) == Step(kind, Step(kind, w, d), e)
  {
    RunOne(kind, w, d);
    assert [d, e][..1] == [d];
  }

  lemma RunThree<V(!new), C>(kind: Kind<V, C>, w: World<V, C>, d: Event<V>, e: Event<V>, f: Event<V>)
    ensures RunFrom(kind, w, [d, e, f]) == Step(kind, Step(kind, Step(kind, w, d), e), f)
  {
    RunTwo(kind, w, d, e);
    assert [d, e, f][..2] == [d, e];
  }

  /**
   Deleting after the commit instead would end the old value, as long as no lookup holds what it read before the
   commit.
   */
  lemma CommitThenDelete<V(!new), C>(kind: Kind<V, C>, w: World<V, C>, events: seq<Event<V>>)
    requires w.versions != []
    requires forall i :: i in w.lookups && w.lookups[i].pc.Writing? ==> w.lookups[i].pc.version == |w.versions| - 1
    ensures var after := RunFrom(kind, Step(kind, w, Invalidate(true)), events);
            forall n :: |w.answers| <= n < |after.answers| && after.answers[n].version.Some? ==>
              after.answers[n].version.value >= |w.versions| - 1
  {
    RunStaysNew(kind, Step(kind, w, Invalidate(true)), events, |w.answers|, |w.versions| - 1);
  }
}
