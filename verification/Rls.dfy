/**
 Tenant context on pooled database sessions (core/rls.py, dependencies/db.py).

 A session remembers an `RlsContext`; PostgreSQL holds it only for the current
 transaction. Requests run interleaved: every step below is what one session does
 between two awaits, with the outcome of its database call given by the event.
 */
module Rls {
  import opened Postgres

  datatype RlsContext = RlsContext(orgId: string, bypassRls: bool, lookupCode: string) {
    predicate IsEmpty() {
      orgId == "" && !bypassRls && lookupCode == ""
    }

    function AsParams(): Settings {
      Settings(orgId, if bypassRls then "true" else "false", lookupCode)
    }
  }

  const NO_CONTEXT := RlsContext("", false, "")

  /** Every binding is transaction-local (core/rls.py:88-97). */
  function ApplyContextStatement(ctx: RlsContext): Statement {
    BindContext(ctx.AsParams(), true)
  }

  const ENABLE_BYPASS := SetBypass("true", true)
  const DISABLE_BYPASS := SetBypass("false", true)

  /**
   Who opens the session: `get_db` for a tenant (or ""), `get_db_superadmin` to verify its
   caller, which never commits, or then to work with the bypass; or code that binds nothing at
   first, like the key look-up of the middleware (middleware/auth.py:412) and the workers.
   */
  datatype Kind = Request(orgId: string) | Verification(orgId: string) | Superadmin(platformOrgId: string) | Bare

  /** Where a commit or rollback goes on after its re-bind. */
  datatype Continuation = ToHandler | ToFinish | ToRelease | ToReassert

  type SessionId = nat

  /** The next thing a session does. `Handler` is arbitrary request code. */
  datatype Pc =
    | Opening(kind: Kind)
    | EnablingBypass
    | Handler
    | Rebinding(next: Continuation)
    | BypassRollback
    | BypassReassert
    | FinalCommit
    | ErrorRollback
    | Releasing
    | Closing
    | Closed

  /**
   `depth` counts the `rls_bypass` blocks that are open; `commits` is false for a session
   that is only released. The rest is bookkeeping of the model: `narrowed`, that a block has
   reset the bypass since the context was last bound; `unbound`, that a rollback or a re-bind
   has failed since then.
   */
  datatype Session = Session(id: SessionId, remembered: RlsContext, tx: Tx, pc: Pc, depth: nat,
                             narrowed: bool, unbound: bool, commits: bool)

  /** What request code may do with its session next. */
  datatype Action =
    | RunQuery
    | CommitNow
    | RollbackNow
    | SetTenant(orgId: string)
    | SetBypassRls(enabled: bool)
    | SetLookupCode(code: string)
    | EnterBypass
    | ExitBypass
    | Return
    | Raise

  /** A statement that ran: the settings it ran under and what its session remembered. */
  datatype Observation = Observation(id: SessionId, view: Settings, remembered: RlsContext, depth: nat,
                                     narrowed: bool, unbound: bool)

  datatype Local = Local(conns: map<ConnId, Connection>, session: Session, seen: seq<Observation>)

  function LinkOf(conns: map<ConnId, Connection>, s: Session): Link {
    Link(conns, s.tx)
  }

  function At(l: Link, s: Session, pc: Pc): Local {
    Local(l.conns, s.(tx := l.tx, pc := pc), [])
  }

  /** `_apply_context`: the context is remembered only once the statement succeeded. */
  function Apply(conns: map<ConnId, Connection>, s: Session, ctx: RlsContext, o: Outcome, pick: ConnId,
                 onSuccess: Pc, onFailure: Pc): Local
  {
    var (l, ok) := Execute(LinkOf(conns, s), ApplyContextStatement(ctx), o, pick);
    if ok then At(l, s.(remembered := ctx, narrowed := false, unbound := false), onSuccess)
    else At(l, s, onFailure)
  }

  function AfterRebind(next: Continuation, ok: bool): Pc {
    match next
    case ToHandler => Handler
    case ToFinish => if ok then Releasing else ErrorRollback
    case ToRelease => Releasing
    case ToReassert => BypassReassert
  }

  /** `_rebind_rls_context` returns at once for an empty context, without a statement. */
  function StartRebind(l: Link, s: Session, next: Continuation): Local {
    At(l, s, if s.remembered.IsEmpty() then AfterRebind(next, true) else Rebinding(next))
  }

  /** `RlsAsyncSession.rollback` re-binds only if there was a transaction. */
  function RollbackAndRebind(conns: map<ConnId, Connection>, s: Session, o: Outcome, next: Continuation): Local {
    var hadTransaction := !s.tx.NoTx?;
    var (l, ok) := Rollback(LinkOf(conns, s), o.Ok?);
    if !ok then At(l, s.(unbound := true), AfterRebind(next, false))
    else if !hadTransaction then At(l, s, AfterRebind(next, true))
    else StartRebind(l, s, next)
  }

  function CommitAndRebind(conns: map<ConnId, Connection>, s: Session, o: Outcome, next: Continuation,
                           onFailure: Pc): Local
  {
    var (l, ok) := Commit(LinkOf(conns, s), o.Ok?);
    if ok then StartRebind(l, s, next) else At(l, s, onFailure)
  }

  function Act(conns: map<ConnId, Connection>, s: Session, a: Action, o: Outcome, pick: ConnId): Local {
    match a
    case RunQuery =>
      var (l, ok) := Execute(LinkOf(conns, s), Query, o, pick);
      At(l, s, Handler).(
        seen := if ok then [Observation(s.id, View(l), s.remembered, s.depth, s.narrowed, s.unbound)] else [])
    case CommitNow => CommitAndRebind(conns, s, o, ToHandler, Handler)
    case RollbackNow => RollbackAndRebind(conns, s, o, ToHandler)
    case SetTenant(org) => Apply(conns, s, s.remembered.(orgId := org), o, pick, Handler, Handler)
    case SetBypassRls(b) => Apply(conns, s, s.remembered.(bypassRls := b), o, pick, Handler, Handler)
    case SetLookupCode(code) => Apply(conns, s, s.remembered.(lookupCode := code), o, pick, Handler, Handler)
    case EnterBypass =>
      var (l, ok) := Execute(LinkOf(conns, s), ENABLE_BYPASS, o, pick);
      At(l, if ok then s.(depth := s.depth + 1) else s, Handler)
    case ExitBypass =>
      if s.depth == 0 then Local(conns, s, []) else
      var (l, ok) := Execute(LinkOf(conns, s), DISABLE_BYPASS, o, pick);
      if ok then At(l, s.(depth := s.depth - 1, narrowed := true), Handler) else At(l, s, BypassRollback)
    case Return =>
      Local(conns, if s.depth > 0 then s else s.(pc := if s.commits then FinalCommit else Releasing), [])
    case Raise =>
      Local(conns, if s.depth > 0 then s else s.(pc := if s.commits then ErrorRollback else Releasing), [])
  }

  /** One step of one session, between two awaits. */
  function StepSession(conns: map<ConnId, Connection>, s: Session, a: Action, o: Outcome, pick: ConnId): Local {
    match s.pc
    case Opening(Request(org)) => Apply(conns, s, RlsContext(org, false, ""), o, pick, Handler, ErrorRollback)
    case Opening(Verification(org)) => Apply(conns, s, RlsContext(org, false, ""), o, pick, Handler, Releasing)
    case Opening(Superadmin(org)) => Apply(conns, s, s.remembered.(orgId := org), o, pick, EnablingBypass, Closing)
    case Opening(Bare) => Local(conns, s.(pc := Handler), [])
    case EnablingBypass => Apply(conns, s, s.remembered.(bypassRls := true), o, pick, Handler, Closing)
    case Handler => Act(conns, s, a, o, pick)
    case Rebinding(next) =>
      var (l, ok) := Execute(LinkOf(conns, s), ApplyContextStatement(s.remembered), o, pick);
      At(l, if ok then s.(narrowed := false, unbound := false) else s.(unbound := true), AfterRebind(next, ok))
    case BypassRollback => RollbackAndRebind(conns, s, o, ToReassert)
    case BypassReassert =>
      if s.depth == 0 then Local(conns, s, []) else
      var (l, ok) := Execute(LinkOf(conns, s), DISABLE_BYPASS, o, pick);
      At(l, s.(depth := s.depth - 1, narrowed := s.narrowed || ok), Handler)
    case FinalCommit => CommitAndRebind(conns, s, o, ToFinish, ErrorRollback)
    case ErrorRollback => RollbackAndRebind(conns, s, o, ToRelease)
    case Releasing =>
      var (l, _) := Rollback(LinkOf(conns, s), o.Ok?);
      At(l, s.(remembered := NO_CONTEXT), Closing)
    case Closing =>
      var (l, _) := Rollback(LinkOf(conns, s), o.Ok?);
      At(l, s, Closed)
    case Closed => Local(conns, s, [])
  }

  datatype World = World(conns: map<ConnId, Connection>, sessions: map<SessionId, Session>, log: seq<Observation>)

  const START := World(map[], map[], [])

  datatype Event =
    | Open(sid: SessionId, kind: Kind)
    | Step(sid: SessionId, action: Action, outcome: Outcome, pick: ConnId)

  function Next(w: World, e: Event): World {
    match e
    case Open(sid, kind) =>
      if sid in w.sessions then w
      else w.(sessions := w.sessions[sid := Session(sid, NO_CONTEXT, NoTx, Opening(kind), 0, false, false, !kind.Verification?)])
    case Step(sid, a, o, pick) =>
      if sid !in w.sessions then w
      else
        var l := StepSession(w.conns, w.sessions[sid], a, o, pick);
        World(l.conns, w.sessions[sid := l.session], w.log + l.seen)
  }

  /** Any number of sessions, any schedule, any failures. */
  function Run(events: seq<Event>): World {
    if events == [] then START else Next(Run(events[..|events| - 1]), events[|events| - 1])
  }
}
