/**
 What every run of the tenant-context sessions keeps, whatever fails: a statement never
 sees more than its own session's remembered context, and an idle connection carries nothing.
 */
module RlsSafety {
  import opened Postgres
  import opened Rls

  /** `view` shows nothing that `ctx` does not, apart from a bypass where one is allowed. */
  predicate Narrow(view: Settings, ctx: RlsContext, bypassAllowed: bool) {
    && (view.orgId == "" || view.orgId == ctx.orgId)
    && (view.lookup == "" || view.lookup == ctx.lookupCode)
    && (view.bypass == "true" ==> ctx.bypassRls || bypassAllowed)
  }

  predicate BypassAllowed(s: Session) {
    s.depth > 0 && (s.pc.Handler? || s.pc.BypassRollback?)
  }

  /** Open bypass blocks exist only where request code or the end of a block runs. */
  predicate WellPhased(s: Session) {
    && (s.pc.BypassRollback? || s.pc.BypassReassert? ==> s.depth > 0)
    && (s.pc.Rebinding? ==> s.tx.NoTx? && (s.pc.next.ToReassert? ==> s.depth > 0))
    && (s.depth > 0 ==>
          || s.pc.Handler? || s.pc.BypassRollback? || s.pc.BypassReassert?
          || (s.pc.Rebinding? && (s.pc.next.ToHandler? || s.pc.next.ToReassert?)))
    && (s.pc.Opening? || s.pc.Closed? ==> s.tx.NoTx?)
    && (s.pc.Opening? ==> s.remembered == NO_CONTEXT)
  }

  /** No setting of this connection outlives its transaction. */
  predicate CarriesNothing(c: Connection) {
    && c.durable == UNSET
    && (c.transaction.InTransaction? ==> c.transaction.afterCommit == UNSET)
  }

  predicate SessionSafe(conns: map<ConnId, Connection>, s: Session) {
    && WellPhased(s)
    && (s.tx.Holding? ==>
          && s.tx.conn in conns && conns[s.tx.conn].transaction.InTransaction?
          && Narrow(conns[s.tx.conn].transaction.effective, s.remembered, BypassAllowed(s)))
  }

  predicate ConnsClean(conns: map<ConnId, Connection>) {
    forall id :: id in conns ==> CarriesNothing(conns[id])
  }

  predicate ObservationSafe(o: Observation) {
    Narrow(o.view, o.remembered, o.depth > 0)
  }

  predicate LogSafe(log: seq<Observation>) {
    forall i :: 0 <= i < |log| ==> ObservationSafe(log[i])
  }

  /** `SessionSafe` and `Framed`, for the database calls a step is made of. */
  predicate LinkClean(l: Link) {
    && ConnsClean(l.conns)
    && (l.tx.Holding? ==> l.tx.conn in l.conns && l.conns[l.tx.conn].transaction.InTransaction?)
  }

  /** A step leaves alone every connection that is busy for another session. */
  predicate FramedLink(l: Link, r: Link) {
    && (forall id :: id in l.conns && l.conns[id].transaction.InTransaction? && l.tx != Holding(id)
          ==> id in r.conns && r.conns[id] == l.conns[id] && r.tx != Holding(id))
    && (forall id :: id in r.conns && r.conns[id].transaction.InTransaction? && r.tx != Holding(id)
          ==> id in l.conns && r.conns[id] == l.conns[id] && l.tx != Holding(id))
  }

  function Effect(stmt: Statement, view: Settings): Settings {
    match stmt
    case BindContext(v, _) => v
    case SetBypass(v, _) => view.(bypass := v)
    case Query => view
  }

  lemma ExecuteKeeps(l: Link, stmt: Statement, o: Outcome, pick: ConnId)
    requires LinkClean(l)
    requires stmt.BindContext? || stmt.SetBypass? ==> stmt.isLocal
    ensures var (r, ok) := Execute(l, stmt, o, pick);
            && LinkClean(r) && FramedLink(l, r) && !r.tx.NoTx?
            && (ok ==> r.tx.Holding?) && (r.tx.Begun? ==> l.tx.NoTx? || l.tx.Begun?) && (l.tx.Invalid? ==> r.tx.Invalid?)
            && (r.tx.Holding? ==> View(r) == if ok then Effect(stmt, View(l)) else View(l))
  {
  }

  lemma EndKeeps(l: Link, ok: bool)
    requires LinkClean(l)
    ensures var (r, done) := Commit(l, ok);
            LinkClean(r) && FramedLink(l, r) && !r.tx.Holding? && (done ==> r.tx.NoTx?)
    ensures var (r, done) := Rollback(l, ok);
            LinkClean(r) && FramedLink(l, r) && r.tx.NoTx?
  {
  }

  predicate Kept(conns: map<ConnId, Connection>, s: Session, l: Local) {
    && ConnsClean(l.conns) && SessionSafe(l.conns, l.session) && LogSafe(l.seen)
    && FramedLink(LinkOf(conns, s), LinkOf(l.conns, l.session))
  }

  lemma AtKeeps(conns: map<ConnId, Connection>, s: Session, r: Link, t: Session, pc: Pc)
    requires FramedLink(LinkOf(conns, s), r) && LinkClean(r)
    requires WellPhased(t.(tx := r.tx, pc := pc))
    requires r.tx.Holding? ==> Narrow(View(r), t.remembered, BypassAllowed(t.(pc := pc)))
    ensures Kept(conns, s, At(r, t, pc))
  {
    hide FramedLink, WellPhased, ConnsClean;
  }

  lemma ApplyKeeps(conns: map<ConnId, Connection>, s: Session, ctx: RlsContext, o: Outcome, pick: ConnId, good: Pc,
                   bad: Pc)
    requires ConnsClean(conns) && SessionSafe(conns, s)
    requires WellPhased(s.(tx := Begun, pc := good)) && WellPhased(s.(tx := Begun, pc := bad))
    requires good.Handler? || s.depth == 0
    requires bad.Handler? || s.depth == 0
    ensures Kept(conns, s, Apply(conns, s, ctx, o, pick, good, bad))
  {
    hide Execute;
    ExecuteKeeps(LinkOf(conns, s), ApplyContextStatement(ctx), o, pick);
  }

  lemma RollbackPartKeeps(conns: map<ConnId, Connection>, s: Session, o: Outcome, next: Continuation)
    requires ConnsClean(conns) && SessionSafe(conns, s)
    requires next.ToReassert? ==> s.depth > 0
    requires next.ToFinish? || next.ToRelease? ==> s.depth == 0
    ensures Kept(conns, s, RollbackAndRebind(conns, s, o, next))
  {
    hide Commit, Rollback, FramedLink, ConnsClean, Kept;
    EndKeeps(LinkOf(conns, s), o.Ok?);
    var (r, ok) := Rollback(LinkOf(conns, s), o.Ok?);
    if !ok {
      AtKeeps(conns, s, r, s.(unbound := true), AfterRebind(next, false));
    } else if s.tx.NoTx? || s.remembered.IsEmpty() {
      AtKeeps(conns, s, r, s, AfterRebind(next, true));
    } else {
      AtKeeps(conns, s, r, s, Rebinding(next));
    }
  }

  lemma CommitPartKeeps(conns: map<ConnId, Connection>, s: Session, o: Outcome, next: Continuation)
    requires ConnsClean(conns) && SessionSafe(conns, s)
    requires next.ToReassert? ==> s.depth > 0
    requires next.ToFinish? || next.ToRelease? ==> s.depth == 0
    ensures Kept(conns, s, CommitAndRebind(conns, s, o, next, AfterRebind(next, false)))
  {
    hide Commit, Rollback, FramedLink, ConnsClean, Kept;
    EndKeeps(LinkOf(conns, s), o.Ok?);
    var (r, ok) := Commit(LinkOf(conns, s), o.Ok?);
    if !ok {
      AtKeeps(conns, s, r, s, AfterRebind(next, false));
    } else if s.remembered.IsEmpty() {
      AtKeeps(conns, s, r, s, AfterRebind(next, true));
    } else {
      AtKeeps(conns, s, r, s, Rebinding(next));
    }
  }

  lemma RollbackKeeps(conns: map<ConnId, Connection>, s: Session, o: Outcome, next: Continuation)
    requires ConnsClean(conns) && SessionSafe(conns, s)
    requires next.ToReassert? ==> s.depth > 0
    requires next.ToFinish? || next.ToRelease? ==> s.depth == 0
    ensures Kept(conns, s, RollbackAndRebind(conns, s, o, next))
    ensures Kept(conns, s, CommitAndRebind(conns, s, o, next, AfterRebind(next, false)))
  {
    hide RollbackAndRebind, CommitAndRebind, Kept, ConnsClean, SessionSafe;
    RollbackPartKeeps(conns, s, o, next);
    CommitPartKeeps(conns, s, o, next);
  }

  lemma QueryKeeps(conns: map<ConnId, Connection>, s: Session, o: Outcome, pick: ConnId)
    requires ConnsClean(conns) && SessionSafe(conns, s) && s.pc.Handler?
    ensures Kept(conns, s, Act(conns, s, RunQuery, o, pick))
  {
    hide Execute;
    ExecuteKeeps(LinkOf(conns, s), Query, o, pick);
  }

  lemma BypassKeeps(conns: map<ConnId, Connection>, s: Session, a: Action, o: Outcome, pick: ConnId)
    requires ConnsClean(conns) && SessionSafe(conns, s) && s.pc.Handler? && (a.EnterBypass? || a.ExitBypass?)
    ensures Kept(conns, s, Act(conns, s, a, o, pick))
  {
    hide Execute;
    ExecuteKeeps(LinkOf(conns, s), if a.EnterBypass? then ENABLE_BYPASS else DISABLE_BYPASS, o, pick);
  }

  lemma LeavingKeeps(conns: map<ConnId, Connection>, s: Session, a: Action, o: Outcome, pick: ConnId)
    requires ConnsClean(conns) && SessionSafe(conns, s) && s.pc.Handler? && (a.Return? || a.Raise?)
    ensures Kept(conns, s, Act(conns, s, a, o, pick))
  {
  }

  lemma ActKeeps(conns: map<ConnId, Connection>, s: Session, a: Action, o: Outcome, pick: ConnId)
    requires ConnsClean(conns) && SessionSafe(conns, s) && s.pc.Handler?
    ensures Kept(conns, s, Act(conns, s, a, o, pick))
  {
    hide Execute, Apply, RollbackAndRebind, CommitAndRebind, Kept, ConnsClean;
    match a
    case RunQuery => QueryKeeps(conns, s, o, pick);
    case CommitNow => RollbackKeeps(conns, s, o, ToHandler);
    case RollbackNow => RollbackKeeps(conns, s, o, ToHandler);
    case SetTenant(org) => ApplyKeeps(conns, s, s.remembered.(orgId := org), o, pick, Handler, Handler);
    case SetBypassRls(b) => ApplyKeeps(conns, s, s.remembered.(bypassRls := b), o, pick, Handler, Handler);
    case SetLookupCode(c) => ApplyKeeps(conns, s, s.remembered.(lookupCode := c), o, pick, Handler, Handler);
    case EnterBypass => BypassKeeps(conns, s, a, o, pick);
    case ExitBypass => BypassKeeps(conns, s, a, o, pick);
    case _ => LeavingKeeps(conns, s, a, o, pick);
  }

  lemma BareKeeps(conns: map<ConnId, Connection>, s: Session, a: Action, o: Outcome, pick: ConnId)
    requires ConnsClean(conns) && SessionSafe(conns, s) && s.pc == Opening(Bare)
    ensures Kept(conns, s, StepSession(conns, s, a, o, pick))
  {
  }

  lemma OpeningKeeps(conns: map<ConnId, Connection>, s: Session, a: Action, o: Outcome, pick: ConnId)
    requires ConnsClean(conns) && SessionSafe(conns, s) && (s.pc.Opening? || s.pc.EnablingBypass?)
    ensures Kept(conns, s, StepSession(conns, s, a, o, pick))
  {
    hide Apply, Kept, ConnsClean;
    match s.pc
    case Opening(Request(org)) => ApplyKeeps(conns, s, RlsContext(org, false, ""), o, pick, Handler, ErrorRollback);
    case Opening(Verification(org)) => ApplyKeeps(conns, s, RlsContext(org, false, ""), o, pick, Handler, Releasing);
    case Opening(Superadmin(org)) => ApplyKeeps(conns, s, s.remembered.(orgId := org), o, pick, EnablingBypass, Closing);
    case Opening(Bare) => BareKeeps(conns, s, a, o, pick);
    case _ => ApplyKeeps(conns, s, s.remembered.(bypassRls := true), o, pick, Handler, Closing);
  }

  lemma RebindingKeeps(conns: map<ConnId, Connection>, s: Session, a: Action, o: Outcome, pick: ConnId)
    requires ConnsClean(conns) && SessionSafe(conns, s) && (s.pc.Rebinding? || s.pc.BypassReassert?)
    ensures Kept(conns, s, StepSession(conns, s, a, o, pick))
  {
    hide Execute;
    var stmt := if s.pc.Rebinding? then ApplyContextStatement(s.remembered) else DISABLE_BYPASS;
    ExecuteKeeps(LinkOf(conns, s), stmt, o, pick);
  }

  lemma EndingKeeps(conns: map<ConnId, Connection>, s: Session, a: Action, o: Outcome, pick: ConnId)
    requires ConnsClean(conns) && SessionSafe(conns, s)
    requires s.pc.BypassRollback? || s.pc.FinalCommit? || s.pc.ErrorRollback?
    ensures Kept(conns, s, StepSession(conns, s, a, o, pick))
  {
    hide RollbackAndRebind, CommitAndRebind, Kept, ConnsClean;
    match s.pc
    case BypassRollback => RollbackKeeps(conns, s, o, ToReassert);
    case FinalCommit => RollbackKeeps(conns, s, o, ToFinish);
    case _ => RollbackKeeps(conns, s, o, ToRelease);
  }

  lemma ClosingKeeps(conns: map<ConnId, Connection>, s: Session, a: Action, o: Outcome, pick: ConnId)
    requires ConnsClean(conns) && SessionSafe(conns, s) && (s.pc.Releasing? || s.pc.Closing? || s.pc.Closed?)
    ensures Kept(conns, s, StepSession(conns, s, a, o, pick))
  {
    hide Rollback, Commit;
    EndKeeps(LinkOf(conns, s), o.Ok?);
  }

  lemma HandlerKeeps(conns: map<ConnId, Connection>, s: Session, a: Action, o: Outcome, pick: ConnId)
    requires ConnsClean(conns) && SessionSafe(conns, s) && s.pc.Handler?
    ensures Kept(conns, s, StepSession(conns, s, a, o, pick))
  {
    hide Act, Kept;
    ActKeeps(conns, s, a, o, pick);
  }

  lemma StepKeeps(conns: map<ConnId, Connection>, s: Session, a: Action, o: Outcome, pick: ConnId)
    requires ConnsClean(conns) && SessionSafe(conns, s)
    ensures Kept(conns, s, StepSession(conns, s, a, o, pick))
    ensures var l := StepSession(conns, s, a, o, pick);
            ConnsClean(l.conns) && SessionSafe(l.conns, l.session) && LogSafe(l.seen) &&
            FramedLink(LinkOf(conns, s), LinkOf(l.conns, l.session))
  {
    hide StepSession, SessionSafe, ConnsClean, LogSafe, FramedLink;
    match s.pc
    case Opening(_) => OpeningKeeps(conns, s, a, o, pick);
    case EnablingBypass => OpeningKeeps(conns, s, a, o, pick);
    case Handler => HandlerKeeps(conns, s, a, o, pick);
    case Rebinding(_) => RebindingKeeps(conns, s, a, o, pick);
    case BypassReassert => RebindingKeeps(conns, s, a, o, pick);
    case BypassRollback => EndingKeeps(conns, s, a, o, pick);
    case FinalCommit => EndingKeeps(conns, s, a, o, pick);
    case ErrorRollback => EndingKeeps(conns, s, a, o, pick);
    case _ => ClosingKeeps(conns, s, a, o, pick);
  }

  ghost predicate Held(w: World, id: ConnId) {
    exists sid :: sid in w.sessions && w.sessions[sid].tx == Holding(id)
  }

  ghost predicate Inv(w: World) {
    && ConnsClean(w.conns)
    && LogSafe(w.log)
    && (forall sid :: sid in w.sessions ==> SessionSafe(w.conns, w.sessions[sid]))
    && (forall s, t :: s in w.sessions && t in w.sessions && s != t && w.sessions[s].tx.Holding?
          ==> w.sessions[s].tx != w.sessions[t].tx)
    && (forall id :: id in w.conns && w.conns[id].transaction.InTransaction? ==> Held(w, id))
  }

  lemma NextKeepsInv(w: World, e: Event)
    requires Inv(w)
    ensures Inv(Next(w, e))
  {
    hide StepSession, Narrow;
    var w' := Next(w, e);
    if e.Step? && e.sid in w.sessions {
      var s := w.sessions[e.sid];
      StepKeeps(w.conns, s, e.action, e.outcome, e.pick);
      var l := StepSession(w.conns, s, e.action, e.outcome, e.pick);
      assert w'.sessions == w.sessions[e.sid := l.session];
      forall sid | sid in w'.sessions ensures SessionSafe(w'.conns, w'.sessions[sid]) {
        if sid != e.sid { assert w'.sessions[sid] == w.sessions[sid]; }
      }
      forall id | id in w'.conns && w'.conns[id].transaction.InTransaction? ensures Held(w', id) {
        if l.session.tx == Holding(id) {
          assert w'.sessions[e.sid].tx == Holding(id);
        } else {
          var sid :| sid in w.sessions && w.sessions[sid].tx == Holding(id);
          assert w'.sessions[sid].tx == Holding(id);
        }
      }
    } else if e.Open? && e.sid !in w.sessions {
      forall id | id in w'.conns && w'.conns[id].transaction.InTransaction? ensures Held(w', id) {
        var sid :| sid in w.sessions && w.sessions[sid].tx == Holding(id);
        assert w'.sessions[sid].tx == Holding(id);
      }
    }
  }

  lemma {:induction false} RunKeepsInv(events: seq<Event>)
    ensures Inv(Run(events))
  {
    if events != [] {
      RunKeepsInv(events[..|events| - 1]);
      NextKeepsInv(Run(events[..|events| - 1]), events[|events| - 1]);
    }
  }

  /**
   Safety over every run: outside a bypass block no row is visible that the remembered
   context does not show; inside one, the tenant and join code are still the session's own.
   */
  lemma NeverAnotherTenant(events: seq<Event>, i: nat, row: Row)
    requires i < |Run(events).log|
    ensures var o := Run(events).log[i];
            && (o.view.orgId == "" || o.view.orgId == o.remembered.orgId)
            && (o.view.lookup == "" || o.view.lookup == o.remembered.lookupCode)
            && (o.depth == 0 && Sees(o.view, row) ==> Sees(o.remembered.AsParams(), row))
  {
    RunKeepsInv(events);
    assert ObservationSafe(Run(events).log[i]);
  }

  /** A connection no session holds is idle, shows no row, and starts the next transaction with none. */
  lemma {:induction false} PooledConnectionIsBlank(events: seq<Event>, id: ConnId, row: Row)
    requires id in Run(events).conns && !Held(Run(events), id)
    ensures var c := Run(events).conns[id];
            c.transaction.Idle? && !Sees(Begin(c).transaction.effective, row)
  {
    RunKeepsInv(events);
  }

  /** A closed session holds no connection, so nothing it bound is left anywhere. */
  lemma {:induction false} ClosedSessionHoldsNothing(events: seq<Event>, sid: SessionId)
    requires sid in Run(events).sessions && Run(events).sessions[sid].pc.Closed?
    ensures Run(events).sessions[sid].tx.NoTx?
  {
    RunKeepsInv(events);
  }
}
