/**
 The API-key flow of the authentication middleware (middleware/auth.py) for one key: positive cache, negative cache,
 miss throttle and database, by concurrent requests, while the key's row changes and Redis may fail at every call.
 */
module ApiKeyAuth {
  import opened Wrappers

  const AUTH_CACHE_TTL: nat := 300
  const AUTH_NEG_CACHE_TTL: nat := 60

  datatype Grant = Grant(organization: nat, permissions: seq<string>, project: Option<nat>, creator: Option<nat>,
                         keyId: nat)

  /** The row of the key; `verifies` is whether the presented key matches the salted hash. */
  datatype Row = Row(grant: Grant, verifies: bool, revoked: bool, expires: Option<int>)

  datatype Payload = Payload(grant: Grant, expires: Option<int>)

  /** An expiry has passed if it is strictly before now: the database path and the cache path compare alike. */
  predicate Expired(expires: Option<int>, now: int) {
    expires.Some? && expires.value < now
  }

  function PayloadOf(row: Row): Payload {
    Payload(row.grant, row.expires)
  }

  datatype Verdict = Accepted(grant: Grant) | InvalidKey | Revoked | KeyExpired | TooMany | Unavailable | ServerError

  /** What the look-up finds: it passes over a revoked row (repositories/api_key_repository.py:212-217). */
  function Found(row: Option<Row>): Option<Row> {
    if row.Some? && row.value.revoked then None else row
  }

  /** What the middleware says of the row that it was given. */
  function Judgement(row: Option<Row>, now: int): Verdict {
    if row.None? || !row.value.verifies then InvalidKey
    else if row.value.revoked then Revoked
    else if Expired(row.value.expires, now) then KeyExpired
    else Accepted(row.value.grant)
  }

  /** What the database path says of the key: no look-up, no verdict `Revoked`. */
  function DatabaseVerdict(row: Option<Row>, now: int): Verdict {
    Judgement(Found(row), now)
  }

  /** What the cache path says of a cached payload. */
  function CachedJudgement(payload: Payload, now: int): Verdict {
    if Expired(payload.expires, now) then KeyExpired else Accepted(payload.grant)
  }

  datatype Version = Version(row: Option<Row>, since: nat, replaced: Option<nat>)

  /** A read of the row: which version, and when. */
  datatype Read = Read(version: nat, at: nat)

  /** A cache entry; from which read, and when the database path accepted it, is recorded for the statements below. */
  datatype Entry = Entry(payload: Payload, until: nat, read: Read, acceptedAt: nat)

  datatype NegativeEntry = NegativeEntry(until: nat, read: Read)

  datatype Pc =
    | AskCache
    | Evict
    | AskNegative
    | AskThrottle
    | AskDatabase
    | MarkNegative(read: Read)
    | Check(row: Row, read: Read)
    | Fill(row: Row, read: Read, acceptedAt: nat)

  datatype Request = Request(start: nat, pc: Pc)

  datatype Source = FromCache(read: Read, acceptedAt: nat) | FromNegative(read: Read) | FromRow(read: Read) | FromFault

  datatype Answer = Answer(request: nat, verdict: Verdict, at: nat, source: Source)

  /** `pending` is the row that a transaction has flushed and not yet committed; it holds the row's lock. */
  datatype World = World(now: nat, versions: seq<Version>, pending: Option<Option<Row>>, cache: Option<Entry>,
                         negative: Option<NegativeEntry>, requests: map<nat, Request>, begun: nat, answers: seq<Answer>)

  /** How a call to Redis ends: `ok` if it replied, and, of a write, whether it took effect. */
  datatype Event =
    | Tick(seconds: nat)
    | Flush(row: Option<Row>)
    | Commit(ok: bool)
    | Invalidate(applied: bool)
    | Begin
    | ReadCache(i: nat, ok: bool)
    | EvictCache(i: nat, ok: bool, applied: bool)
    | ReadNegative(i: nat, ok: bool)
    | Throttle(i: nat, ok: bool, under: bool)
    | Query(i: nat, ok: bool)
    | WriteNegative(i: nat, applied: bool)
    | CheckRow(i: nat)
    | WriteCache(i: nat, applied: bool)

  function Initially(row: Option<Row>): World {
    World(0, [Version(row, 0, None)], None, None, None, map[], 0, [])
  }

  function Reply(w: World, i: nat, verdict: Verdict, source: Source): World {
    w.(requests := w.requests - {i}, answers := w.answers + [Answer(i, verdict, w.now, source)])
  }

  function Goto(w: World, i: nat, pc: Pc): World {
    if i in w.requests then w.(requests := w.requests[i := w.requests[i].(pc := pc)]) else w
  }

  function LiveEntry(w: World): Option<Entry> {
    if w.cache.Some? && w.now < w.cache.value.until then w.cache else None
  }

  function LiveNegative(w: World): Option<NegativeEntry> {
    if w.negative.Some? && w.now < w.negative.value.until then w.negative else None
  }

  function DoReadCache(w: World, i: nat, ok: bool): World {
    if !ok then Reply(w, i, Unavailable, FromFault)
    else
      match LiveEntry(w)
      case None => Goto(w, i, AskNegative)
      case Some(entry) =>
        if Expired(entry.payload.expires, w.now) then Goto(w, i, Evict)
        else Reply(w, i, Accepted(entry.payload.grant), FromCache(entry.read, entry.acceptedAt))
  }

  /** The expired entry is removed, so that the next request asks the database. */
  function DoEvict(w: World, i: nat, ok: bool, applied: bool): World {
    var evicted := if applied then w.(cache := None) else w;
    if ok then Reply(evicted, i, KeyExpired, FromFault) else Reply(evicted, i, Unavailable, FromFault)
  }

  function DoReadNegative(w: World, i: nat, ok: bool): World {
    if !ok then Reply(w, i, Unavailable, FromFault)
    else
      match LiveNegative(w)
      case None => Goto(w, i, AskThrottle)
      case Some(entry) => Reply(w, i, InvalidKey, FromNegative(entry.read))
  }

  function DoThrottle(w: World, i: nat, ok: bool, under: bool): World {
    if !ok then Reply(w, i, Unavailable, FromFault)
    else if !under then Reply(w, i, TooMany, FromFault)
    else Goto(w, i, AskDatabase)
  }

  function DoQuery(w: World, i: nat, ok: bool): World {
    var last := |w.versions| - 1;
    if !ok || last < 0 then Reply(w, i, ServerError, FromFault)
    else
      match Found(w.versions[last].row)
      case None => Goto(w, i, MarkNegative(Read(last, w.now)))
      case Some(row) => Goto(w, i, Check(row, Read(last, w.now)))
  }

  /** A failed write of the negative cache is logged only. */
  function DoWriteNegative(w: World, i: nat, read: Read, applied: bool): World {
    Reply(if applied then w.(negative := Some(NegativeEntry(w.now + AUTH_NEG_CACHE_TTL, read))) else w,
          i, InvalidKey, FromRow(read))
  }

  function DoCheck(w: World, i: nat, row: Row, read: Read): World {
    match Judgement(Some(row), w.now)
    case Accepted(_) => Goto(w, i, Fill(row, read, w.now))
    case verdict => Reply(w, i, verdict, FromRow(read))
  }

  /** A failed write of the cache is logged only: the request was accepted by the database path. */
  function DoWriteCache(w: World, i: nat, row: Row, read: Read, acceptedAt: nat, applied: bool): World {
    Reply(if applied then w.(cache := Some(Entry(PayloadOf(row), w.now + AUTH_CACHE_TTL, read, acceptedAt))) else w,
          i, Accepted(row.grant), FromRow(read))
  }

  /** A commit makes the flushed row visible; a failed one rolls it back. */
  function DoCommit(w: World, ok: bool): World {
    var last := |w.versions| - 1;
    if w.pending.None? || !ok || last < 0 then w.(pending := None)
    else
      w.(versions := w.versions[last := w.versions[last].(replaced := Some(w.now))]
                     + [Version(w.pending.value, w.now, None)],
         pending := None)
  }

  /** Time, the database's writers and the revocation, as opposed to the requests. */
  predicate Outside(e: Event) {
    e.Tick? || e.Flush? || e.Commit? || e.Invalidate? || e.Begin?
  }

  function Advance(w: World, pc: Pc, e: Event): World
    requires !Outside(e)
  {
    match e
    case ReadCache(i, ok) => if pc.AskCache? then DoReadCache(w, i, ok) else w
    case EvictCache(i, ok, applied) => if pc.Evict? then DoEvict(w, i, ok, applied) else w
    case ReadNegative(i, ok) => if pc.AskNegative? then DoReadNegative(w, i, ok) else w
    case Throttle(i, ok, under) => if pc.AskThrottle? then DoThrottle(w, i, ok, under) else w
    case Query(i, ok) => if pc.AskDatabase? then DoQuery(w, i, ok) else w
    case WriteNegative(i, applied) => if pc.MarkNegative? then DoWriteNegative(w, i, pc.read, applied) else w
    case CheckRow(i) => if pc.Check? then DoCheck(w, i, pc.row, pc.read) else w
    case WriteCache(i, applied) =>
      if pc.Fill? then DoWriteCache(w, i, pc.row, pc.read, pc.acceptedAt, applied) else w
  }

  function Step(w: World, e: Event): World {
    match e
    case Tick(seconds) => w.(now := w.now + seconds)
    case Flush(row) => if w.pending.None? then w.(pending := Some(row)) else w
    case Commit(ok) => DoCommit(w, ok)
    case Invalidate(applied) => if applied then w.(cache := None, negative := None) else w
    case Begin => w.(requests := w.requests[w.begun := Request(w.now, AskCache)], begun := w.begun + 1)
    case _ => if e.i in w.requests then Advance(w, w.requests[e.i].pc, e) else w
  }

  function RunFrom(w: World, events: seq<Event>): World {
    if events == [] then w else Step(RunFrom(w, events[..|events| - 1]), events[|events| - 1])
  }

  // -- What every step keeps ---------------------------------------------------------------------------------------

  /** The row was in this state when it was read; `None` if there was none, or a revoked one. */
  ghost predicate WasRead(versions: seq<Version>, read: Read, row: Option<Row>) {
    read.version < |versions| && Found(versions[read.version].row) == row && versions[read.version].since <= read.at &&
    (versions[read.version].replaced.Some? ==> read.at <= versions[read.version].replaced.value)
  }

  /** The database path read this row, and accepted it at `acceptedAt`. */
  ghost predicate WasAccepted(versions: seq<Version>, read: Read, acceptedAt: nat, payload: Payload) {
    read.version < |versions| && versions[read.version].row.Some? &&
    var row := versions[read.version].row.value;
    WasRead(versions, read, Some(row)) && payload == PayloadOf(row) && read.at <= acceptedAt &&
    Judgement(Some(row), acceptedAt) == Accepted(row.grant)
  }

  ghost predicate CachesOk(w: World, late: nat) {
    (w.cache.Some? ==>
       var c := w.cache.value;
       WasAccepted(w.versions, c.read, c.acceptedAt, c.payload) && c.read.at <= c.acceptedAt <= w.now &&
       c.until <= c.read.at + late + AUTH_CACHE_TTL) &&
    (w.negative.Some? ==>
       var n := w.negative.value;
       WasRead(w.versions, n.read, None) && n.read.at <= w.now && n.until <= n.read.at + late + AUTH_NEG_CACHE_TTL)
  }

  ghost predicate RequestOk(w: World, r: Request) {
    r.start <= w.now &&
    match r.pc
    case MarkNegative(read) => WasRead(w.versions, read, None) && r.start <= read.at <= w.now
    case Check(row, read) => WasRead(w.versions, read, Some(row)) && r.start <= read.at <= w.now
    case Fill(row, read, acceptedAt) =>
      WasRead(w.versions, read, Some(row)) && r.start <= read.at <= acceptedAt <= w.now &&
      WasAccepted(w.versions, read, acceptedAt, PayloadOf(row))
    case _ => true
  }

  ghost predicate AnswerOk(w: World, a: Answer, late: nat) {
    a.at <= w.now && a.request < w.begun &&
    match a.source
    case FromCache(read, acceptedAt) =>
      exists payload ::
        WasAccepted(w.versions, read, acceptedAt, payload) && a.verdict == Accepted(payload.grant) &&
        !Expired(payload.expires, a.at) && acceptedAt <= a.at < read.at + late + AUTH_CACHE_TTL
    case FromNegative(read) =>
      a.verdict == InvalidKey && WasRead(w.versions, read, None) && read.at <= a.at < read.at + late + AUTH_NEG_CACHE_TTL
    case FromRow(read) =>
      read.version < |w.versions| && WasRead(w.versions, read, Found(w.versions[read.version].row)) &&
      read.at <= a.at <= read.at + late &&
      exists judgedAt: nat ::
        read.at <= judgedAt <= a.at && a.verdict == DatabaseVerdict(w.versions[read.version].row, judgedAt)
    case FromFault => !a.verdict.Accepted? && a.verdict != Revoked
  }

  ghost predicate VersionsOk(w: World) {
    |w.versions| >= 1 && w.versions[|w.versions| - 1].since <= w.now && w.versions[|w.versions| - 1].replaced.None?
  }

  ghost predicate Inv(w: World, late: nat) {
    VersionsOk(w) && CachesOk(w, late) &&
    (forall i :: i in w.requests ==> i < w.begun && RequestOk(w, w.requests[i])) &&
    (forall a :: a in w.answers ==> AnswerOk(w, a, late))
  }

  /** No request in progress has taken longer than `late`. */
  ghost predicate Prompt(w: World, late: nat) {
    forall i :: i in w.requests ==> w.now <= w.requests[i].start + late
  }

  /** Facts about reads outlive changes of the row and the passing of time. */
  ghost predicate Remembers(v: World, w: World) {
    v.now <= w.now && v.begun <= w.begun &&
    (forall read: Read, row: Option<Row> ::
       read.at <= v.now && WasRead(v.versions, read, row) ==> WasRead(w.versions, read, row)) &&
    |v.versions| <= |w.versions| &&
    forall k :: 0 <= k < |v.versions| ==> v.versions[k].row == w.versions[k].row
  }

  lemma StepRemembers(w: World, e: Event)
    requires VersionsOk(w)
    ensures Remembers(w, Step(w, e)) && VersionsOk(Step(w, e))
  {
  }

  lemma AnswerStaysOk(v: World, w: World, a: Answer, late: nat)
    requires Remembers(v, w) && AnswerOk(v, a, late)
    ensures AnswerOk(w, a, late)
  {
    match a.source
    case FromCache(read, acceptedAt) =>
      var payload :| WasAccepted(v.versions, read, acceptedAt, payload) && a.verdict == Accepted(payload.grant) &&
        !Expired(payload.expires, a.at) && acceptedAt <= a.at < read.at + late + AUTH_CACHE_TTL;
      assert WasAccepted(w.versions, read, acceptedAt, payload);
    case _ =>
  }

  lemma RequestStaysOk(v: World, w: World, r: Request)
    requires Remembers(v, w) && RequestOk(v, r)
    ensures RequestOk(w, r)
  {
  }

  lemma CachesStayOk(v: World, w: World, late: nat)
    requires Remembers(v, w) && CachesOk(v, late) && v.cache == w.cache && v.negative == w.negative
    ensures CachesOk(w, late)
  {
  }

  /** A step keeps the invariant if its own new caches, request state and answer are in order. */
  lemma MoveKeeps(v: World, w: World, late: nat)
    requires Inv(v, late) && Remembers(v, w) && VersionsOk(w) && CachesOk(w, late)
    requires forall i :: i in w.requests ==>
      i < w.begun && ((i in v.requests && w.requests[i] == v.requests[i]) || RequestOk(w, w.requests[i]))
    requires forall a :: a in w.answers ==> a in v.answers || AnswerOk(w, a, late)
    ensures Inv(w, late)
  {
    hide RequestOk, AnswerOk, Remembers, CachesOk, VersionsOk;
    forall i | i in w.requests ensures i < w.begun && RequestOk(w, w.requests[i]) {
      if i in v.requests && w.requests[i] == v.requests[i] {
        RequestStaysOk(v, w, w.requests[i]);
      }
    }
    forall a | a in w.answers ensures AnswerOk(w, a, late) {
      if a in v.answers {
        AnswerStaysOk(v, w, a, late);
      }
    }
  }

  lemma GotoKeeps(w: World, i: nat, pc: Pc, late: nat)
    requires Inv(w, late) && i in w.requests && RequestOk(w, w.requests[i].(pc := pc))
    ensures Inv(Goto(w, i, pc), late)
  {
    var after := Goto(w, i, pc);
    assert CachesOk(after, late);
    assert RequestOk(after, after.requests[i]);
    hide RequestOk, AnswerOk, CachesOk;
    MoveKeeps(w, after, late);
  }

  /** A reply, with whatever write to the caches it made. */
  lemma ReplyKeeps(v: World, w: World, i: nat, verdict: Verdict, source: Source, late: nat)
    requires Inv(v, late) && w == v.(cache := w.cache, negative := w.negative) && CachesOk(w, late) && i in v.requests
    requires AnswerOk(w, Answer(i, verdict, w.now, source), late)
    ensures Inv(Reply(w, i, verdict, source), late)
  {
    var after := Reply(w, i, verdict, source);
    assert CachesOk(after, late);
    assert AnswerOk(after, Answer(i, verdict, w.now, source), late) by {
      assert Remembers(w, after);
      AnswerStaysOk(w, after, Answer(i, verdict, w.now, source), late);
    }
    hide RequestOk, AnswerOk, CachesOk;
    MoveKeeps(v, after, late);
  }

  lemma FaultKeeps(v: World, w: World, i: nat, verdict: Verdict, late: nat)
    requires Inv(v, late) && w == v.(cache := w.cache, negative := w.negative) && CachesOk(w, late) && i in v.requests
    requires !verdict.Accepted? && verdict != Revoked
    ensures Inv(Reply(w, i, verdict, FromFault), late)
  {
    ReplyKeeps(v, w, i, verdict, FromFault, late);
  }

  lemma ReadCacheKeeps(w: World, i: nat, ok: bool, late: nat)
    requires Inv(w, late) && i in w.requests
    ensures Inv(DoReadCache(w, i, ok), late)
  {
    hide AnswerOk, Judgement, WasRead;
    FaultKeeps(w, w, i, Unavailable, late);
    GotoKeeps(w, i, AskNegative, late);
    GotoKeeps(w, i, Evict, late);
    if LiveEntry(w).Some? && !Expired(LiveEntry(w).value.payload.expires, w.now) {
      CachedAnswerOk(w, i, late);
      var entry := LiveEntry(w).value;
      ReplyKeeps(w, w, i, Accepted(entry.payload.grant), FromCache(entry.read, entry.acceptedAt), late);
    }
  }

  lemma CachedAnswerOk(w: World, i: nat, late: nat)
    requires Inv(w, late) && i in w.requests
    requires LiveEntry(w).Some? && !Expired(LiveEntry(w).value.payload.expires, w.now)
    ensures var entry := LiveEntry(w).value;
            AnswerOk(w, Answer(i, Accepted(entry.payload.grant), w.now, FromCache(entry.read, entry.acceptedAt)), late)
  {
    hide WasAccepted;
  }

  lemma EvictKeeps(w: World, i: nat, ok: bool, applied: bool, late: nat)
    requires Inv(w, late) && i in w.requests
    ensures Inv(DoEvict(w, i, ok, applied), late)
  {
    hide AnswerOk, RequestOk;
    var evicted := if applied then w.(cache := None) else w;
    FaultKeeps(w, evicted, i, KeyExpired, late);
    FaultKeeps(w, evicted, i, Unavailable, late);
  }

  lemma ReadNegativeKeeps(w: World, i: nat, ok: bool, late: nat)
    requires Inv(w, late) && i in w.requests
    ensures Inv(DoReadNegative(w, i, ok), late)
  {
    FaultKeeps(w, w, i, Unavailable, late);
    GotoKeeps(w, i, AskThrottle, late);
    if LiveNegative(w).Some? {
      ReplyKeeps(w, w, i, InvalidKey, FromNegative(LiveNegative(w).value.read), late);
    }
  }

  lemma ThrottleKeeps(w: World, i: nat, ok: bool, under: bool, late: nat)
    requires Inv(w, late) && i in w.requests
    ensures Inv(DoThrottle(w, i, ok, under), late)
  {
    FaultKeeps(w, w, i, Unavailable, late);
    FaultKeeps(w, w, i, TooMany, late);
    GotoKeeps(w, i, AskDatabase, late);
  }

  lemma QueryKeeps(w: World, i: nat, ok: bool, late: nat)
    requires Inv(w, late) && i in w.requests
    ensures Inv(DoQuery(w, i, ok), late)
  {
    hide AnswerOk, CachesOk;
    FaultKeeps(w, w, i, ServerError, late);
    var last := |w.versions| - 1;
    match Found(w.versions[last].row)
    case None => GotoKeeps(w, i, MarkNegative(Read(last, w.now)), late);
    case Some(row) => GotoKeeps(w, i, Check(row, Read(last, w.now)), late);
  }

  lemma WriteNegativeKeeps(w: World, i: nat, applied: bool, late: nat)
    requires Inv(w, late) && Prompt(w, late) && i in w.requests && w.requests[i].pc.MarkNegative?
    ensures Inv(DoWriteNegative(w, i, w.requests[i].pc.read, applied), late)
  {
    var read := w.requests[i].pc.read;
    assert RequestOk(w, w.requests[i]);
    var marked := if applied then w.(negative := Some(NegativeEntry(w.now + AUTH_NEG_CACHE_TTL, read))) else w;
    assert DatabaseVerdict(w.versions[read.version].row, w.now) == InvalidKey;
    ReplyKeeps(w, marked, i, InvalidKey, FromRow(read), late);
  }

  lemma CheckKeeps(w: World, i: nat, late: nat)
    requires Inv(w, late) && Prompt(w, late) && i in w.requests && w.requests[i].pc.Check?
    ensures Inv(DoCheck(w, i, w.requests[i].pc.row, w.requests[i].pc.read), late)
  {
    var row, read := w.requests[i].pc.row, w.requests[i].pc.read;
    assert RequestOk(w, w.requests[i]);
    var verdict := Judgement(Some(row), w.now);
    if verdict.Accepted? {
      GotoKeeps(w, i, Fill(row, read, w.now), late);
    } else {
      assert AnswerOk(w, Answer(i, verdict, w.now, FromRow(read)), late) by {
        assert read.at <= w.now <= w.now && verdict == DatabaseVerdict(w.versions[read.version].row, w.now);
      }
      ReplyKeeps(w, w, i, verdict, FromRow(read), late);
    }
  }

  lemma WriteCacheKeeps(w: World, i: nat, applied: bool, late: nat)
    requires Inv(w, late) && Prompt(w, late) && i in w.requests && w.requests[i].pc.Fill?
    ensures var pc := w.requests[i].pc;
            Inv(DoWriteCache(w, i, pc.row, pc.read, pc.acceptedAt, applied), late)
  {
    var pc := w.requests[i].pc;
    assert RequestOk(w, w.requests[i]);
    var filled :=
      if applied then w.(cache := Some(Entry(PayloadOf(pc.row), w.now + AUTH_CACHE_TTL, pc.read, pc.acceptedAt))) else w;
    assert AnswerOk(filled, Answer(i, Accepted(pc.row.grant), w.now, FromRow(pc.read)), late) by {
      assert pc.read.at <= pc.acceptedAt <= w.now;
      assert Accepted(pc.row.grant) == DatabaseVerdict(w.versions[pc.read.version].row, pc.acceptedAt);
    }
    ReplyKeeps(w, filled, i, Accepted(pc.row.grant), FromRow(pc.read), late);
  }

  lemma OutsideKeeps(w: World, e: Event, late: nat)
    requires Inv(w, late) && Outside(e)
    ensures Inv(Step(w, e), late)
  {
    StepRemembers(w, e);
    var after := Step(w, e);
    if e.Invalidate? {
      assert CachesOk(after, late);
    } else {
      CachesStayOk(w, after, late);
    }
    if e.Begin? {
      assert RequestOk(after, after.requests[w.begun]);
    }
    hide RequestOk, AnswerOk, CachesOk, Remembers, VersionsOk;
    MoveKeeps(w, after, late);
  }

  lemma StepKeeps(w: World, e: Event, late: nat)
    requires Inv(w, late) && Prompt(w, late)
    ensures Inv(Step(w, e), late)
  {
    if Outside(e) {
      OutsideKeeps(w, e, late);
    } else if e.i in w.requests {
      hide Inv, Prompt, DoReadCache, DoEvict, DoReadNegative, DoThrottle, DoQuery, DoWriteNegative, DoCheck, DoWriteCache;
      match e
      case ReadCache(i, ok) => ReadCacheKeeps(w, i, ok, late);
      case EvictCache(i, ok, applied) => EvictKeeps(w, i, ok, applied, late);
      case ReadNegative(i, ok) => ReadNegativeKeeps(w, i, ok, late);
      case Throttle(i, ok, under) => ThrottleKeeps(w, i, ok, under, late);
      case Query(i, ok) => QueryKeeps(w, i, ok, late);
      case WriteNegative(i, applied) =>
        if w.requests[i].pc.MarkNegative? { WriteNegativeKeeps(w, i, applied, late); }
      case CheckRow(i) => if w.requests[i].pc.Check? { CheckKeeps(w, i, late); }
      case WriteCache(i, applied) => if w.requests[i].pc.Fill? { WriteCacheKeeps(w, i, applied, late); }
    }
  }

  ghost predicate PromptFrom(w: World, events: seq<Event>, late: nat) {
    forall n :: 0 <= n <= |events| ==> Prompt(RunFrom(w, events[..n]), late)
  }

  lemma {:induction false} RunKeepsFrom(w: World, events: seq<Event>, late: nat)
    requires Inv(w, late) && PromptFrom(w, events, late)
    ensures Inv(RunFrom(w, events), late)
  {
    if events != [] {
      hide Step, Inv;
      var front := events[..|events| - 1];
      assert forall n :: 0 <= n <= |front| ==> front[..n] == events[..n];
      assert front[..|front|] == front;
      RunKeepsFrom(w, front, late);
      StepKeeps(RunFrom(w, front), events[|events| - 1], late);
    }
  }

  ghost predicate PromptRun(row: Option<Row>, events: seq<Event>, late: nat) {
    PromptFrom(Initially(row), events, late)
  }

  lemma RunKeeps(row: Option<Row>, events: seq<Event>, late: nat)
    requires PromptRun(row, events, late)
    ensures Inv(RunFrom(Initially(row), events), late)
  {
    RunKeepsFrom(Initially(row), events, late);
  }

  // -- Every finite run is prompt for some bound ---------------------------------------------------------------------

  lemma AnswerStaysOkLater(w: World, a: Answer, late: nat, later: nat)
    requires late <= later && AnswerOk(w, a, late)
    ensures AnswerOk(w, a, later)
  {
  }

  lemma InvGrows(w: World, late: nat, later: nat)
    requires late <= later && Inv(w, late)
    ensures Inv(w, later)
  {
    hide AnswerOk, RequestOk, WasRead, WasAccepted;
    forall a | a in w.answers ensures AnswerOk(w, a, later) {
      AnswerStaysOkLater(w, a, late, later);
    }
  }

  lemma TimeGoesOn(w: World, e: Event)
    ensures w.now <= Step(w, e).now
  {
  }

  lemma {:induction false} RunKeepsSome(w: World, events: seq<Event>, late: nat) returns (later: nat)
    requires Inv(w, late)
    ensures late <= later && Inv(RunFrom(w, events), later)
  {
    later := late;
    if events != [] {
      hide Inv, Step;
      var front := events[..|events| - 1];
      later := RunKeepsSome(w, front, late);
      var before := RunFrom(w, front);
      InvGrows(before, later, later + before.now);
      later := later + before.now;
      StepKeeps(before, events[|events| - 1], later);
    }
  }

  // -- Main results ------------------------------------------------------------------------------------------------

  /** At some moment of the last `window` seconds the database path accepted this row of the key. */
  ghost predicate AcceptedWithin(versions: seq<Version>, row: Row, at: nat, window: nat) {
    exists read: Read, acceptedAt: nat ::
      acceptedAt <= at <= acceptedAt + window && read.at <= acceptedAt && WasRead(versions, read, Some(row)) &&
      Judgement(Some(row), acceptedAt) == Accepted(row.grant)
  }

  /**
   A request is accepted only with the grant of a row that the database path accepted at most one cache lifetime
   and one request earlier; if the cache accepted it, the key is unexpired at that moment too.
   */
  lemma AcceptanceIsBacked(row: Option<Row>, events: seq<Event>, late: nat, a: Answer)
    requires PromptRun(row, events, late)
    requires a in RunFrom(Initially(row), events).answers && a.verdict.Accepted?
    ensures exists r: Row ::
              a.verdict == Accepted(r.grant) && (a.source.FromCache? ==> !Expired(r.expires, a.at)) &&
              AcceptedWithin(RunFrom(Initially(row), events).versions, r, a.at, AUTH_CACHE_TTL + late)
  {
    hide RunFrom;
    RunKeeps(row, events, late);
    var w := RunFrom(Initially(row), events);
    assert AnswerOk(w, a, late);
    match a.source
    case FromCache(read, acceptedAt) =>
      var payload :| WasAccepted(w.versions, read, acceptedAt, payload) && a.verdict == Accepted(payload.grant) &&
        !Expired(payload.expires, a.at) && acceptedAt <= a.at < read.at + late + AUTH_CACHE_TTL;
      var r := w.versions[read.version].row.value;
      assert acceptedAt <= a.at <= acceptedAt + (AUTH_CACHE_TTL + late);
      assert AcceptedWithin(w.versions, r, a.at, AUTH_CACHE_TTL + late);
    case FromRow(read) =>
      var judgedAt: nat :|
        read.at <= judgedAt <= a.at && a.verdict == DatabaseVerdict(w.versions[read.version].row, judgedAt);
      var r := w.versions[read.version].row.value;
      assert judgedAt <= a.at <= judgedAt + (AUTH_CACHE_TTL + late);
      assert AcceptedWithin(w.versions, r, a.at, AUTH_CACHE_TTL + late);
    case _ =>
  }

  /** Version `v` of the row, read at `readAt` and judged at `judgedAt`, is a good ground for this acceptance. */
  predicate GoodGround(versions: seq<Version>, a: Answer, late: nat, v: nat, readAt: nat, judgedAt: nat) {
    v < |versions| && versions[v].row.Some? &&
    versions[v].since <= readAt && (versions[v].replaced.Some? ==> readAt <= versions[v].replaced.value) &&
    readAt <= judgedAt <= a.at <= readAt + 300 + late &&
    var r := versions[v].row.value;
    a.verdict == Accepted(r.grant) && r.verifies && !r.revoked &&
    (r.expires.None? || judgedAt <= r.expires.value) &&
    (a.source.FromCache? ==> r.expires.None? || a.at <= r.expires.value)
  }

  /**
   The same on the row's own fields, in every run: whoever is accepted presented a key whose row, read at most 300 s
   and one request earlier, matched its hash, was not revoked and had not expired when it was judged; from the cache,
   it has not expired at the moment of acceptance either.
   */
  lemma {:induction false} AcceptedKeyIsGood(row: Option<Row>, events: seq<Event>, late: nat, a: Answer)
    requires PromptRun(row, events, late)
    requires a in RunFrom(Initially(row), events).answers && a.verdict.Accepted?
    ensures exists v, readAt, judgedAt ::
              GoodGround(RunFrom(Initially(row), events).versions, a, late, v, readAt, judgedAt)
  {
    hide RunFrom;
    RunKeeps(row, events, late);
    var w := RunFrom(Initially(row), events);
    assert AnswerOk(w, a, late);
    match a.source
    case FromCache(read, acceptedAt) =>
      assert GoodGround(w.versions, a, late, read.version, read.at, acceptedAt);
    case FromRow(read) =>
      var judgedAt: nat :|
        read.at <= judgedAt <= a.at && a.verdict == DatabaseVerdict(w.versions[read.version].row, judgedAt);
      assert GoodGround(w.versions, a, late, read.version, read.at, judgedAt);
    case _ =>
  }

  /**
   A request is turned away by the negative cache only if the key had no row, or a revoked one, at most 60 s and one
   request ago.
   */
  lemma {:induction false} NegativeIsBacked(row: Option<Row>, events: seq<Event>, late: nat, a: Answer)
    requires PromptRun(row, events, late)
    requires a in RunFrom(Initially(row), events).answers && a.source.FromNegative?
    ensures a.verdict == InvalidKey
    ensures var versions := RunFrom(Initially(row), events).versions;
            exists read: Read ::
              read.version < |versions| && read.at <= a.at <= read.at + 60 + late &&
              versions[read.version].since <= read.at &&
              (versions[read.version].replaced.Some? ==> read.at <= versions[read.version].replaced.value) &&
              (versions[read.version].row.None? || versions[read.version].row.value.revoked)
  {
    hide RunFrom;
    RunKeeps(row, events, late);
    var versions, read := RunFrom(Initially(row), events).versions, a.source.read;
    assert AnswerOk(RunFrom(Initially(row), events), a, late);
    assert versions[read.version].row.None? || versions[read.version].row.value.revoked;
  }

  /**
   While the row is what it was when the entry was read, the cache path and the database path give one verdict, at
   every later moment: the same grant until the key expires, and "expired" from then on.
   */
  lemma {:induction false} CacheAgreesWithDatabase(row: Option<Row>, events: seq<Event>, late: nat, now: nat)
    requires PromptRun(row, events, late)
    requires var w := RunFrom(Initially(row), events);
             w.cache.Some? && now >= w.now && w.versions != [] && w.cache.value.read.version == |w.versions| - 1
    ensures var w := RunFrom(Initially(row), events);
            CachedJudgement(w.cache.value.payload, now) == DatabaseVerdict(w.versions[|w.versions| - 1].row, now)
  {
    hide RunFrom;
    RunKeeps(row, events, late);
  }

  /**
   The answer "revoked" is never given: a revoked key is unknown to the look-up, so that it is answered as an invalid
   one, and goes into the negative cache.
   */
  lemma {:induction false} NobodyIsToldRevoked(row: Option<Row>, events: seq<Event>, a: Answer)
    requires a in RunFrom(Initially(row), events).answers
    ensures a.verdict != Revoked
  {
    hide RunFrom;
    var late := RunKeepsSome(Initially(row), events, 0);
    assert AnswerOk(RunFrom(Initially(row), events), a, late);
  }

  /** A request that asks both caches and finds nothing, and asks the database. */
  function Ask(): seq<Event> {
    [Begin, ReadCache(0, true), ReadNegative(0, true), Throttle(0, true, true)]
  }

  /** It learns that there is no such key, and a second request finds nothing in the positive cache. */
  function Learn(): seq<Event> {
    [Query(0, true), WriteNegative(0, true), Begin, ReadCache(1, true)]
  }

  lemma AskRun(row: Option<Row>)
    ensures RunFrom(Initially(row), Ask()) == Initially(row).(requests := map[0 := Request(0, AskDatabase)], begun := 1)
  {
    RunFour(Initially(row), Begin, ReadCache(0, true), ReadNegative(0, true), Throttle(0, true, true));
    hide RunFrom;
  }

  lemma LearnRun(w: World)
    requires w.versions != [] && Found(w.versions[0].row).None?
    requires w == Initially(w.versions[0].row).(requests := map[0 := Request(0, AskDatabase)], begun := 1)
    ensures RunFrom(w, Learn()) ==
              w.(requests := map[1 := Request(0, AskNegative)], begun := 2,
                 negative := Some(NegativeEntry(AUTH_NEG_CACHE_TTL, Read(0, 0))),
                 answers := [Answer(0, InvalidKey, 0, FromRow(Read(0, 0)))])
  {
    RunFour(w, Query(0, true), WriteNegative(0, true), Begin, ReadCache(1, true));
    hide RunFrom;
    var queried := Step(w, Query(0, true));
    assert queried == w.(requests := map[0 := Request(0, MarkNegative(Read(0, 0)))]);
    var marked := Step(queried, WriteNegative(0, true));
    assert marked == w.(requests := map[], negative := Some(NegativeEntry(AUTH_NEG_CACHE_TTL, Read(0, 0))),
                        answers := [Answer(0, InvalidKey, 0, FromRow(Read(0, 0)))]);
  }

  /** For every revoked key: its second request is refused by the negative cache, although the row is there. */
  lemma RevokedKeyIsCachedAsUnknown(row: Row) returns (events: seq<Event>)
    requires row.revoked
    ensures var w := RunFrom(Initially(Some(row)), events);
            w.versions == [Version(Some(row), 0, None)] && |w.answers| == 2 &&
            w.answers[1] == Answer(1, InvalidKey, 0, FromNegative(Read(0, 0)))
  {
    AskRun(Some(row));
    var asked := RunFrom(Initially(Some(row)), Ask());
    LearnRun(asked);
    var learnt := RunFrom(asked, Learn());
    RunOne(learnt, ReadNegative(1, true));
    hide RunFrom, Ask, Learn;
    RunThen(Initially(Some(row)), Ask(), Learn());
    RunThen(Initially(Some(row)), Ask() + Learn(), [ReadNegative(1, true)]);
    events := Ask() + Learn() + [ReadNegative(1, true)];
  }

  lemma RunFour(w: World, d: Event, e: Event, f: Event, g: Event)
    ensures RunFrom(w, [d, e, f, g]) == Step(Step(Step(Step(w, d), e), f), g)
  {
    RunOne(w, d);
    assert [d, e][..1] == [d] && [d, e, f][..2] == [d, e] && [d, e, f, g][..3] == [d, e, f];
    assert RunFrom(w, [d, e]) == Step(Step(w, d), e);
    assert RunFrom(w, [d, e, f]) == Step(Step(Step(w, d), e), f);
    hide Step;
  }

  // -- When a replaced row can still be accepted ---------------------------------------------------------------------

  /** An older row that the cache would still accept, or that a request in progress is about to put there. */
  ghost predicate OldIsUsable(w: World, version: nat) {
    (LiveEntry(w).Some? && LiveEntry(w).value.read.version < version &&
     !Expired(LiveEntry(w).value.payload.expires, w.now)) ||
    exists i :: i in w.requests && Carries(w.requests[i].pc, w.now, version)
  }

  predicate Carries(pc: Pc, now: nat, version: nat) {
    (pc.Check? && pc.read.version < version && Judgement(Some(pc.row), now).Accepted?) ||
    (pc.Fill? && pc.read.version < version && !Expired(pc.row.expires, now))
  }

  /** The answer accepts a request that began at or after number `from`, on a row older than `version`. */
  predicate AcceptsOld(a: Answer, from: nat, version: nat) {
    a.request >= from && a.verdict.Accepted? &&
    match a.source
    case FromCache(read, _) => read.version < version
    case FromRow(read) => read.version < version
    case _ => false
  }

  ghost predicate RequestsNew(w: World, from: nat, version: nat) {
    forall i :: i in w.requests ==> NewPc(i, w.requests[i].pc, w.now, from, version)
  }

  predicate NewPc(i: nat, pc: Pc, now: nat, from: nat, version: nat) {
    !Carries(pc, now, version) && (i >= from && (pc.Check? || pc.Fill?) ==> pc.read.version >= version)
  }

  predicate CacheNew(w: World, version: nat) {
    LiveEntry(w).Some? && LiveEntry(w).value.read.version < version ==>
      Expired(LiveEntry(w).value.payload.expires, w.now)
  }

  ghost predicate AnswersNew(w: World, from: nat, version: nat) {
    forall a :: a in w.answers ==> !AcceptsOld(a, from, version)
  }

  /** No older row can be accepted any more, and no request from number `from` on has been accepted on one. */
  ghost predicate NoneOld(w: World, from: nat, version: nat) {
    version < |w.versions| && CacheNew(w, version) && RequestsNew(w, from, version) && AnswersNew(w, from, version)
  }

  lemma ReplyStaysNew(w: World, i: nat, verdict: Verdict, source: Source, from: nat, version: nat)
    requires NoneOld(w, from, version) && !AcceptsOld(Answer(i, verdict, w.now, source), from, version)
    ensures NoneOld(Reply(w, i, verdict, source), from, version)
  {
    hide AcceptsOld, NewPc;
  }

  lemma GotoStaysNew(w: World, i: nat, pc: Pc, from: nat, version: nat)
    requires NoneOld(w, from, version) && NewPc(i, pc, w.now, from, version)
    ensures NoneOld(Goto(w, i, pc), from, version)
  {
    hide AcceptsOld, NewPc;
  }

  lemma ReadCacheStaysNew(w: World, i: nat, ok: bool, from: nat, version: nat)
    requires NoneOld(w, from, version)
    ensures NoneOld(DoReadCache(w, i, ok), from, version)
  {
    assert CacheNew(w, version);
    hide NoneOld;
    ReplyStaysNew(w, i, Unavailable, FromFault, from, version);
    GotoStaysNew(w, i, AskNegative, from, version);
    GotoStaysNew(w, i, Evict, from, version);
    if LiveEntry(w).Some? && !Expired(LiveEntry(w).value.payload.expires, w.now) {
      var entry := LiveEntry(w).value;
      ReplyStaysNew(w, i, Accepted(entry.payload.grant), FromCache(entry.read, entry.acceptedAt), from, version);
    }
  }

  lemma EvictStaysNew(w: World, i: nat, ok: bool, applied: bool, from: nat, version: nat)
    requires NoneOld(w, from, version)
    ensures NoneOld(DoEvict(w, i, ok, applied), from, version)
  {
    hide Carries;
    var evicted := if applied then w.(cache := None) else w;
    assert NoneOld(evicted, from, version);
    hide NoneOld;
    ReplyStaysNew(evicted, i, KeyExpired, FromFault, from, version);
    ReplyStaysNew(evicted, i, Unavailable, FromFault, from, version);
  }

  lemma AskingStaysNew(w: World, i: nat, e: Event, from: nat, version: nat)
    requires NoneOld(w, from, version) && (e.ReadNegative? || e.Throttle? || e.Query?) && e.i == i
    ensures NoneOld(if e.ReadNegative? then DoReadNegative(w, i, e.ok)
                    else if e.Throttle? then DoThrottle(w, i, e.ok, e.under)
                    else DoQuery(w, i, e.ok), from, version)
  {
    assert version <= |w.versions| - 1;
    hide NoneOld;
    ReplyStaysNew(w, i, Unavailable, FromFault, from, version);
    ReplyStaysNew(w, i, TooMany, FromFault, from, version);
    ReplyStaysNew(w, i, ServerError, FromFault, from, version);
    GotoStaysNew(w, i, AskThrottle, from, version);
    GotoStaysNew(w, i, AskDatabase, from, version);
    if LiveNegative(w).Some? {
      ReplyStaysNew(w, i, InvalidKey, FromNegative(LiveNegative(w).value.read), from, version);
    }
    var read := Read(|w.versions| - 1, w.now);
    match Found(w.versions[|w.versions| - 1].row)
    case None => GotoStaysNew(w, i, MarkNegative(read), from, version);
    case Some(row) => GotoStaysNew(w, i, Check(row, read), from, version);
  }

  lemma WriteNegativeStaysNew(w: World, i: nat, read: Read, applied: bool, from: nat, version: nat)
    requires NoneOld(w, from, version)
    ensures NoneOld(DoWriteNegative(w, i, read, applied), from, version)
  {
    hide Carries;
    var marked := if applied then w.(negative := Some(NegativeEntry(w.now + AUTH_NEG_CACHE_TTL, read))) else w;
    assert NoneOld(marked, from, version);
    hide NoneOld;
    ReplyStaysNew(marked, i, InvalidKey, FromRow(read), from, version);
  }

  lemma CheckStaysNew(w: World, i: nat, from: nat, version: nat)
    requires NoneOld(w, from, version) && i in w.requests && w.requests[i].pc.Check?
    ensures NoneOld(DoCheck(w, i, w.requests[i].pc.row, w.requests[i].pc.read), from, version)
  {
    var row, read := w.requests[i].pc.row, w.requests[i].pc.read;
    assert NewPc(i, w.requests[i].pc, w.now, from, version);
    hide NoneOld;
    var verdict := Judgement(Some(row), w.now);
    if verdict.Accepted? {
      GotoStaysNew(w, i, Fill(row, read, w.now), from, version);
    } else {
      ReplyStaysNew(w, i, verdict, FromRow(read), from, version);
    }
  }

  lemma WriteCacheStaysNew(w: World, i: nat, applied: bool, from: nat, version: nat)
    requires NoneOld(w, from, version) && i in w.requests && w.requests[i].pc.Fill?
    ensures var pc := w.requests[i].pc;
            NoneOld(DoWriteCache(w, i, pc.row, pc.read, pc.acceptedAt, applied), from, version)
  {
    var pc := w.requests[i].pc;
    assert NewPc(i, pc, w.now, from, version);
    var filled :=
      if applied then w.(cache := Some(Entry(PayloadOf(pc.row), w.now + AUTH_CACHE_TTL, pc.read, pc.acceptedAt))) else w;
    assert CacheNew(filled, version);
    assert RequestsNew(filled, from, version) by { hide NewPc; }
    assert AnswersNew(filled, from, version) by { hide AcceptsOld; }
    assert NoneOld(filled, from, version);
    hide NoneOld;
    ReplyStaysNew(filled, i, Accepted(pc.row.grant), FromRow(pc.read), from, version);
  }

  /** A row once refused is refused later as well. */
  lemma CarriesLess(i: nat, pc: Pc, now: nat, later: nat, from: nat, version: nat)
    requires now <= later && NewPc(i, pc, now, from, version)
    ensures NewPc(i, pc, later, from, version)
  {
  }

  lemma OutsideStaysNew(w: World, e: Event, from: nat, version: nat)
    requires NoneOld(w, from, version) && Outside(e)
    ensures NoneOld(Step(w, e), from, version)
  {
    var after := Step(w, e);
    assert CacheNew(after, version);
    assert AnswersNew(after, from, version) by { hide AcceptsOld; }
    assert RequestsNew(after, from, version) by {
      hide NewPc;
      forall i | i in after.requests ensures NewPc(i, after.requests[i].pc, after.now, from, version) {
        if i in w.requests && after.requests[i] == w.requests[i] {
          CarriesLess(i, w.requests[i].pc, w.now, after.now, from, version);
        } else {
          AskingIsNew(i, after.now, from, version);
        }
      }
    }
  }

  lemma AskingIsNew(i: nat, now: nat, from: nat, version: nat)
    ensures NewPc(i, AskCache, now, from, version)
  {
  }

  lemma StepStaysNew(w: World, e: Event, from: nat, version: nat)
    requires NoneOld(w, from, version)
    ensures NoneOld(Step(w, e), from, version)
  {
    if Outside(e) {
      OutsideStaysNew(w, e, from, version);
    } else if e.i in w.requests {
      hide NoneOld, DoReadCache, DoEvict, DoReadNegative, DoThrottle, DoQuery, DoWriteNegative, DoCheck, DoWriteCache;
      var pc := w.requests[e.i].pc;
      match e
      case ReadCache(i, ok) => ReadCacheStaysNew(w, i, ok, from, version);
      case EvictCache(i, ok, applied) => EvictStaysNew(w, i, ok, applied, from, version);
      case WriteNegative(i, applied) =>
        if pc.MarkNegative? { WriteNegativeStaysNew(w, i, pc.read, applied, from, version); }
      case CheckRow(i) => if pc.Check? { CheckStaysNew(w, i, from, version); }
      case WriteCache(i, applied) => if pc.Fill? { WriteCacheStaysNew(w, i, applied, from, version); }
      case ReadNegative(i, _) => AskingStaysNew(w, i, e, from, version);
      case Throttle(i, _, _) => AskingStaysNew(w, i, e, from, version);
      case Query(i, _) => AskingStaysNew(w, i, e, from, version);
      case _ =>
    }
  }

  lemma {:induction false} RunStaysNew(w: World, events: seq<Event>, from: nat, version: nat)
    requires NoneOld(w, from, version)
    ensures NoneOld(RunFrom(w, events), from, version)
  {
    if events != [] {
      hide Step, NoneOld;
      RunStaysNew(w, events[..|events| - 1], from, version);
      StepStaysNew(RunFrom(w, events[..|events| - 1]), events[|events| - 1], from, version);
    }
  }

  /** A request that begins from now on is accepted on a row older than `version`. */
  ghost predicate AcceptsOldLater(w: World, events: seq<Event>, version: nat) {
    exists a :: a in RunFrom(w, events).answers && AcceptsOld(a, w.begun, version)
  }

  lemma RunOne(w: World, e: Event)
    ensures RunFrom(w, [e]) == Step(w, e)
  {
    assert [e][..0] == [];
  }

  lemma {:induction false} RunThen(w: World, events: seq<Event>, more: seq<Event>)
    ensures RunFrom(w, events + more) == RunFrom(RunFrom(w, events), more)
    decreases |more|
  {
    if more == [] {
      assert events + more == events;
    } else {
      RunThen(w, events, more[..|more| - 1]);
      assert (events + more)[..|events + more| - 1] == events + more[..|more| - 1];
    }
  }

  lemma CachedOldAccepts(w: World, version: nat)
    requires LiveEntry(w).Some? && LiveEntry(w).value.read.version < version
    requires !Expired(LiveEntry(w).value.payload.expires, w.now)
    ensures AcceptsOldLater(w, [Begin, ReadCache(w.begun, true)], version)
  {
    var started := Step(w, Begin);
    RunOne(w, Begin);
    RunOne(started, ReadCache(w.begun, true));
    RunThen(w, [Begin], [ReadCache(w.begun, true)]);
    assert [Begin] + [ReadCache(w.begun, true)] == [Begin, ReadCache(w.begun, true)];
    var done := Step(started, ReadCache(w.begun, true));
    var a := done.answers[|w.answers|];
    assert a in done.answers && AcceptsOld(a, w.begun, version);
  }

  lemma FilledOldAccepts(w: World, i: nat, version: nat)
    requires i in w.requests && w.requests[i].pc.Fill? && Carries(w.requests[i].pc, w.now, version)
    ensures AcceptsOldLater(w, [WriteCache(i, true)] + [Begin, ReadCache(w.begun, true)], version)
  {
    var filled := Step(w, WriteCache(i, true));
    CachedOldAccepts(filled, version);
    RunOne(w, WriteCache(i, true));
    RunThen(w, [WriteCache(i, true)], [Begin, ReadCache(w.begun, true)]);
  }

  lemma CheckedOldAccepts(w: World, i: nat, version: nat)
    requires i in w.requests && w.requests[i].pc.Check? && Carries(w.requests[i].pc, w.now, version)
    ensures AcceptsOldLater(w, [CheckRow(i)] + ([WriteCache(i, true)] + [Begin, ReadCache(w.begun, true)]), version)
  {
    var checked := Step(w, CheckRow(i));
    FilledOldAccepts(checked, i, version);
    RunOne(w, CheckRow(i));
    RunThen(w, [CheckRow(i)], [WriteCache(i, true)] + [Begin, ReadCache(w.begun, true)]);
  }

  /**
   The race, exactly: a request that begins from now on can be accepted on a row older than `version` if and only if
   the cache still accepts such a row, or a request in progress holds one that the database path accepts now.
   */
  lemma OldAcceptedIffUsable(w: World, version: nat, late: nat)
    requires Inv(w, late) && version < |w.versions|
    ensures (exists events :: AcceptsOldLater(w, events, version)) <==> OldIsUsable(w, version)
  {
    if OldIsUsable(w, version) {
      hide AcceptsOldLater;
      if LiveEntry(w).Some? && LiveEntry(w).value.read.version < version &&
         !Expired(LiveEntry(w).value.payload.expires, w.now)
      {
        CachedOldAccepts(w, version);
      } else {
        var i :| i in w.requests && Carries(w.requests[i].pc, w.now, version);
        if w.requests[i].pc.Fill? {
          FilledOldAccepts(w, i, version);
        } else {
          CheckedOldAccepts(w, i, version);
        }
      }
    } else {
      NothingUsable(w, version, late);
      hide NoneOld, RunFrom;
      forall events ensures !AcceptsOldLater(w, events, version) {
        RunStaysNew(w, events, w.begun, version);
        StillNone(RunFrom(w, events), w.begun, version);
      }
    }
  }

  lemma NothingUsable(w: World, version: nat, late: nat)
    requires Inv(w, late) && version < |w.versions| && !OldIsUsable(w, version)
    ensures NoneOld(w, w.begun, version)
  {
    hide RequestOk, Carries;
    assert forall a :: a in w.answers ==> AnswerOk(w, a, late);
    assert forall a :: a in w.answers ==> a.request < w.begun;
  }

  lemma StillNone(w: World, from: nat, version: nat)
    requires NoneOld(w, from, version)
    ensures forall a :: a in w.answers ==> !AcceptsOld(a, from, version)
  {
  }

  // -- The flow as one request runs it -------------------------------------------------------------------------------

  /** How each call of one request ends: whether Redis or the database replied, and which writes took effect. */
  datatype Calls = Calls(cache: bool, evict: bool, evicted: bool, negative: bool, throttle: bool, under: bool,
                         database: bool, marked: bool, filled: bool)

  function Arriving(now: nat, cached: Option<(Payload, nat)>, negative: Option<nat>, row: Option<Row>): World {
    var none := Read(0, 0);
    World(now, [Version(row, now, None)], None,
          if cached.None? then None else Some(Entry(cached.value.0, cached.value.1, none, 0)),
          if negative.None? then None else Some(NegativeEntry(negative.value, none)),
          map[0 := Request(now, AskCache)], 1, [])
  }

  /** The protocol run by one request alone, from the cache entries it finds. */
  function Alone(now: nat, cached: Option<(Payload, nat)>, negative: Option<nat>, row: Option<Row>, c: Calls): World {
    RowStage(MissStage(CacheStage(Arriving(now, cached, negative, row), c), c), c)
  }

  function CacheStage(w: World, c: Calls): World {
    Step(Step(w, ReadCache(0, c.cache)), EvictCache(0, c.evict, c.evicted))
  }

  function MissStage(w: World, c: Calls): World {
    Step(Step(w, ReadNegative(0, c.negative)), Throttle(0, c.throttle, c.under))
  }

  function RowStage(w: World, c: Calls): World {
    Step(Step(Step(Step(w, Query(0, c.database)), WriteNegative(0, c.marked)), CheckRow(0)), WriteCache(0, c.filled))
  }

  lemma AnsweredStays(w: World, c: Calls)
    requires 0 !in w.requests
    ensures MissStage(w, c) == w && RowStage(w, c) == w
  {
  }

  lemma CacheStageIs(w: World, c: Calls, start: nat)
    requires w.requests == map[0 := Request(start, AskCache)]
    ensures CacheStage(w, c) ==
              if !c.cache then Reply(w, 0, Unavailable, FromFault)
              else if LiveEntry(w).None? then w.(requests := map[0 := Request(start, AskNegative)])
              else if !Expired(LiveEntry(w).value.payload.expires, w.now) then
                Reply(w, 0, Accepted(LiveEntry(w).value.payload.grant),
                      FromCache(LiveEntry(w).value.read, LiveEntry(w).value.acceptedAt))
              else
                Reply(if c.evicted then w.(cache := None) else w, 0, if c.evict then KeyExpired else Unavailable, FromFault)
  {
  }

  lemma MissStageIs(w: World, c: Calls, start: nat)
    requires w.requests == map[0 := Request(start, AskNegative)]
    ensures MissStage(w, c) ==
              if !c.negative then Reply(w, 0, Unavailable, FromFault)
              else if LiveNegative(w).Some? then Reply(w, 0, InvalidKey, FromNegative(LiveNegative(w).value.read))
              else if !c.throttle then Reply(w, 0, Unavailable, FromFault)
              else if !c.under then Reply(w, 0, TooMany, FromFault)
              else w.(requests := map[0 := Request(start, AskDatabase)])
  {
  }

  lemma RowStageIs(w: World, c: Calls, start: nat)
    requires w.requests == map[0 := Request(start, AskDatabase)] && |w.versions| == 1
    ensures var done, row := RowStage(w, c), w.versions[0].row;
            |done.answers| == |w.answers| + 1 &&
            done.answers[|w.answers|].verdict == (if c.database then DatabaseVerdict(row, w.now) else ServerError) &&
            done.negative == (if c.database && Found(row).None? && c.marked
                              then Some(NegativeEntry(w.now + AUTH_NEG_CACHE_TTL, Read(0, w.now))) else w.negative) &&
            done.cache == if c.database && DatabaseVerdict(row, w.now).Accepted? && c.filled
                          then Some(Entry(PayloadOf(row.value), w.now + AUTH_CACHE_TTL, Read(0, w.now), w.now))
                          else w.cache
  {
  }

  /** What one request alone replies, and what it leaves in the two caches. */
  function Outcome(now: nat, cached: Option<(Payload, nat)>, negative: Option<nat>, row: Option<Row>, c: Calls):
    (Verdict, Option<(Payload, nat)>, Option<nat>)
  {
    if !c.cache then (Unavailable, cached, negative)
    else if cached.Some? && now < cached.value.1 then
      if !Expired(cached.value.0.expires, now) then (Accepted(cached.value.0.grant), cached, negative)
      else (if c.evict then KeyExpired else Unavailable, if c.evicted then None else cached, negative)
    else if !c.negative then (Unavailable, cached, negative)
    else if negative.Some? && now < negative.value then (InvalidKey, cached, negative)
    else if !c.throttle then (Unavailable, cached, negative)
    else if !c.under then (TooMany, cached, negative)
    else if !c.database then (ServerError, cached, negative)
    else
      (DatabaseVerdict(row, now),
       if DatabaseVerdict(row, now).Accepted? && c.filled then Some((PayloadOf(row.value), now + AUTH_CACHE_TTL)) else cached,
       if Found(row).None? && c.marked then Some(now + AUTH_NEG_CACHE_TTL) else negative)
  }

  function CachedOf(w: World): Option<(Payload, nat)> {
    if w.cache.None? then None else Some((w.cache.value.payload, w.cache.value.until))
  }

  function NegativeOf(w: World): Option<nat> {
    if w.negative.None? then None else Some(w.negative.value.until)
  }

  predicate Cached(now: nat, cached: Option<(Payload, nat)>) {
    cached.Some? && now < cached.value.1
  }

  lemma AloneWithCache(now: nat, cached: Option<(Payload, nat)>, negative: Option<nat>, row: Option<Row>, c: Calls)
    requires !c.cache || Cached(now, cached)
    ensures var w := Alone(now, cached, negative, row, c);
            |w.answers| == 1 &&
            (w.answers[0].verdict, CachedOf(w), NegativeOf(w)) == Outcome(now, cached, negative, row, c)
  {
    hide CacheStage, MissStage, RowStage, DatabaseVerdict, Found, Expired;
    var start := Arriving(now, cached, negative, row);
    CacheStageIs(start, c, now);
    AnsweredStays(CacheStage(start, c), c);
  }

  lemma AloneWithoutCache(now: nat, cached: Option<(Payload, nat)>, negative: Option<nat>, row: Option<Row>, c: Calls)
    requires c.cache && !Cached(now, cached)
    ensures var w := Alone(now, cached, negative, row, c);
            |w.answers| == 1 &&
            (w.answers[0].verdict, CachedOf(w), NegativeOf(w)) == Outcome(now, cached, negative, row, c)
  {
    hide CacheStage, MissStage, RowStage, DatabaseVerdict, Found, Expired;
    var start := Arriving(now, cached, negative, row);
    CacheStageIs(start, c, now);
    var asked := start.(requests := map[0 := Request(now, AskNegative)]);
    assert CacheStage(start, c) == asked;
    MissStageIs(asked, c, now);
    var missed := MissStage(asked, c);
    if 0 !in missed.requests {
      AnsweredStays(missed, c);
    } else {
      RowStageIs(missed, c, now);
    }
  }

  /** The machine's steps, run by one request with nothing in between, come to exactly this outcome. */
  lemma AloneIs(now: nat, cached: Option<(Payload, nat)>, negative: Option<nat>, row: Option<Row>, c: Calls)
    ensures var w := Alone(now, cached, negative, row, c);
            |w.answers| == 1 &&
            (w.answers[0].verdict, CachedOf(w), NegativeOf(w)) == Outcome(now, cached, negative, row, c)
  {
    hide Alone, Outcome;
    if !c.cache || Cached(now, cached) {
      AloneWithCache(now, cached, negative, row, c);
    } else {
      AloneWithoutCache(now, cached, negative, row, c);
    }
  }

  /**
   What one request alone is told, on the row's own fields. With Redis and the database working and both caches cold it
   is accepted if and only if there is a row, the key matches its hash, it is not revoked and has not expired; then
   alone the key is cached, for 300 s; and a key without an unrevoked row is cached as unknown for 60 s.
   */
  lemma ColdRequest(now: nat, cached: Option<(Payload, nat)>, negative: Option<nat>, row: Option<Row>, c: Calls)
    requires c.cache && c.negative && c.throttle && c.under && c.database
    requires (cached.None? || cached.value.1 <= now) && (negative.None? || negative.value <= now)
    ensures var w := Alone(now, cached, negative, row, c);
            var there := row.Some? && !row.value.revoked;
            var matches := there && row.value.verifies;
            var good := matches && (row.value.expires.None? || now <= row.value.expires.value);
            |w.answers| == 1 &&
            w.answers[0].verdict ==
              (if good then Accepted(row.value.grant) else if matches then KeyExpired else InvalidKey) &&
            CachedOf(w) == (if good && c.filled then Some((Payload(row.value.grant, row.value.expires), now + 300))
                            else cached) &&
            NegativeOf(w) == (if !there && c.marked then Some(now + 60) else negative)
  {
    AloneIs(now, cached, negative, row, c);
    hide Alone;
  }

  /**
   The other ways to end, in the order in which they are tried. A call to Redis that fails refuses the request, as does
   the throttle; an entry of the positive cache accepts exactly until the key's expiry, and is then removed; one of the
   negative cache refuses; and a database that fails refuses.
   */
  lemma WarmOrFailedRequest(now: nat, cached: Option<(Payload, nat)>, negative: Option<nat>, row: Option<Row>, c: Calls)
    ensures var w := Alone(now, cached, negative, row, c);
            |w.answers| == 1 &&
            var verdict := w.answers[0].verdict;
            if !c.cache then verdict == Unavailable && CachedOf(w) == cached
            else if cached.Some? && now < cached.value.1 then
              var unexpired := cached.value.0.expires.None? || now <= cached.value.0.expires.value;
              if unexpired then verdict == Accepted(cached.value.0.grant) && CachedOf(w) == cached
              else verdict == (if c.evict then KeyExpired else Unavailable) && (c.evicted ==> CachedOf(w) == None)
            else if !c.negative then verdict == Unavailable
            else if negative.Some? && now < negative.value then verdict == InvalidKey
            else if !c.throttle then verdict == Unavailable
            else if !c.under then verdict == TooMany
            else c.database || verdict == ServerError
  {
    AloneIs(now, cached, negative, row, c);
    hide Alone;
  }

  class KeyAuthenticator {
    var cached: Option<(Payload, nat)>
    var negative: Option<nat>

    constructor ()
      ensures cached == None && negative == None
    {
      cached, negative := None, None;
    }

    method Authenticate(now: nat, row: Option<Row>, c: Calls) returns (verdict: Verdict)
      modifies this
      ensures var w := Alone(now, old(cached), old(negative), row, c);
              |w.answers| == 1 && (verdict, cached, negative) == (w.answers[0].verdict, CachedOf(w), NegativeOf(w))
      ensures var hit := old(cached).Some? && now < old(cached).value.1;
              verdict.Accepted? <==>
                c.cache &&
                (if hit then old(cached).value.0.expires.None? || now <= old(cached).value.0.expires.value
                 else c.negative && !(old(negative).Some? && now < old(negative).value) && c.throttle && c.under &&
                      c.database && row.Some? && row.value.verifies && !row.value.revoked &&
                      (row.value.expires.None? || now <= row.value.expires.value))
    {
      AloneIs(now, cached, negative, row, c);
      hide Alone;
      if !c.cache { return Unavailable; }
      if cached.Some? && now < cached.value.1 {
        var payload := cached.value.0;
        if !Expired(payload.expires, now) { return Accepted(payload.grant); }
        if c.evicted { cached := None; }
        return if c.evict then KeyExpired else Unavailable;
      }
      if !c.negative { return Unavailable; }
      if negative.Some? && now < negative.value { return InvalidKey; }
      if !c.throttle { return Unavailable; }
      if !c.under { return TooMany; }
      if !c.database { return ServerError; }
      var found := Found(row);
      if found.None? {
        if c.marked { negative := Some(now + AUTH_NEG_CACHE_TTL); }
        return InvalidKey;
      }
      if !found.value.verifies { return InvalidKey; }
      // The middleware asks for `is_revoked` here, but the look-up finds no revoked row.
      assert !found.value.revoked;
      if Expired(found.value.expires, now) { return KeyExpired; }
      if c.filled { cached := Some((PayloadOf(found.value), now + AUTH_CACHE_TTL)); }
      verdict := Accepted(found.value.grant);
    }
  }
}
