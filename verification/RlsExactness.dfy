/**
 What exactly a statement sees: in every run, whatever fails, a session's context is in force unless a rollback or a
 re-bind of that session has failed, and then nothing is.
 */
module RlsExactness {
  import opened Postgres
  import opened Rls
  import opened RlsSafety

  /** The settings in force are the remembered ones; a block that closed since may have cost the bypass. */
  predicate Matches(view: Settings, ctx: RlsContext, depth: nat, narrowed: bool) {
    && view.orgId == ctx.orgId
    && view.lookup == ctx.lookupCode
    && (depth == 0 && !narrowed ==> (view.bypass == "true" <==> ctx.bypassRls))
    && (depth == 0 && narrowed ==> view.bypass != "true")
  }

  /** No context is in force. */
  predicate Blank(view: Settings, depth: nat) {
    view.orgId == "" && view.lookup == "" && (depth == 0 ==> view.bypass != "true")
  }

  predicate Shows(view: Settings, ctx: RlsContext, depth: nat, narrowed: bool, unbound: bool) {
    if unbound then Blank(view, depth) else Matches(view, ctx, depth, narrowed)
  }

  predicate SessionExact(conns: map<ConnId, Connection>, s: Session) {
    var view := View(LinkOf(conns, s));
    && (s.pc.Handler? && s.tx.Holding? ==> Shows(view, s.remembered, s.depth, s.narrowed, s.unbound))
    && (s.pc.BypassReassert? && s.tx.Holding? ==>
          if s.unbound then Blank(view, 0) else view == s.remembered.AsParams() && !s.narrowed)
    && ((s.pc.Handler? || s.pc.BypassReassert?) && (s.tx.NoTx? || s.tx.Begun?) && !s.unbound ==> s.remembered.IsEmpty())
    && (s.pc.BypassRollback? ==> !s.tx.NoTx?)
  }

  predicate ObservationExact(o: Observation) {
    Shows(o.view, o.remembered, o.depth, o.narrowed, o.unbound)
  }

  predicate LocalExact(s: Session, l: Local) {
    && SessionExact(l.conns, l.session) && l.session.id == s.id
    && (forall o :: o in l.seen ==> ObservationExact(o) && o.id == s.id)
  }

  lemma ApplyExact(conns: map<ConnId, Connection>, s: Session, ctx: RlsContext, o: Outcome, pick: ConnId, good: Pc,
                   bad: Pc)
    requires ConnsClean(conns) && SessionSafe(conns, s) && SessionExact(conns, s)
    requires good.Handler? || good.EnablingBypass?
    requires bad.Handler? || bad.ErrorRollback? || bad.Releasing? || bad.Closing?
    requires bad.Handler? ==> s.pc.Handler?
    ensures LocalExact(s, Apply(conns, s, ctx, o, pick, good, bad))
  {
    hide Execute, ConnsClean;
    assert LinkClean(LinkOf(conns, s)) by { LinkCleanOf(conns, s); }
    ExecuteKeeps(LinkOf(conns, s), ApplyContextStatement(ctx), o, pick);
  }

  lemma LinkCleanOf(conns: map<ConnId, Connection>, s: Session)
    requires ConnsClean(conns) && SessionSafe(conns, s)
    ensures LinkClean(LinkOf(conns, s))
  {
  }

  lemma RollbackExact(conns: map<ConnId, Connection>, s: Session, o: Outcome, next: Continuation)
    requires ConnsClean(conns) && SessionSafe(conns, s) && SessionExact(conns, s)
    requires next.ToHandler? ==> s.pc.Handler?
    requires next.ToReassert? ==> s.pc.BypassRollback?
    ensures LocalExact(s, RollbackAndRebind(conns, s, o, next))
  {
    hide Commit, Rollback, ConnsClean;
    LinkCleanOf(conns, s);
    EndKeeps(LinkOf(conns, s), o.Ok?);
    hide SessionSafe, View;
  }

  lemma CommitExact(conns: map<ConnId, Connection>, s: Session, o: Outcome, next: Continuation)
    requires ConnsClean(conns) && SessionSafe(conns, s) && SessionExact(conns, s) && !next.ToReassert?
    requires next.ToHandler? ==> s.pc.Handler?
    ensures LocalExact(s, CommitAndRebind(conns, s, o, next, AfterRebind(next, false)))
  {
    hide Commit, Rollback, ConnsClean;
    LinkCleanOf(conns, s);
    EndKeeps(LinkOf(conns, s), o.Ok?);
    EndedTx(LinkOf(conns, s), o.Ok?);
    hide SessionSafe, View;
  }

  lemma EndExact(conns: map<ConnId, Connection>, s: Session, o: Outcome, next: Continuation)
    requires ConnsClean(conns) && SessionSafe(conns, s) && SessionExact(conns, s)
    requires next.ToHandler? ==> s.pc.Handler?
    requires next.ToReassert? ==> s.pc.BypassRollback?
    ensures LocalExact(s, RollbackAndRebind(conns, s, o, next))
    ensures !next.ToReassert? ==> LocalExact(s, CommitAndRebind(conns, s, o, next, AfterRebind(next, false)))
  {
    hide RollbackAndRebind, CommitAndRebind, ConnsClean, SessionSafe, SessionExact, LocalExact;
    RollbackExact(conns, s, o, next);
    if !next.ToReassert? {
      CommitExact(conns, s, o, next);
    }
  }

  lemma EndedTx(l: Link, ok: bool)
    ensures var (r, done) := Commit(l, ok); !done ==> r.tx.Invalid?
    ensures var (r, done) := Commit(l, ok); !done ==> !l.tx.NoTx?
  {
  }

  lemma StatementExact(conns: map<ConnId, Connection>, s: Session, a: Action, o: Outcome, pick: ConnId)
    requires ConnsClean(conns) && SessionSafe(conns, s) && SessionExact(conns, s) && s.pc.Handler?
    requires a.RunQuery? || a.EnterBypass? || a.ExitBypass?
    ensures LocalExact(s, Act(conns, s, a, o, pick))
  {
    hide Execute, ConnsClean;
    LinkCleanOf(conns, s);
    var stmt := if a.RunQuery? then Query else if a.EnterBypass? then ENABLE_BYPASS else DISABLE_BYPASS;
    ExecuteKeeps(LinkOf(conns, s), stmt, o, pick);
  }

  lemma ActExact(conns: map<ConnId, Connection>, s: Session, a: Action, o: Outcome, pick: ConnId)
    requires ConnsClean(conns) && SessionSafe(conns, s) && SessionExact(conns, s) && s.pc.Handler?
    ensures LocalExact(s, Act(conns, s, a, o, pick))
  {
    hide Execute, Apply, RollbackAndRebind, CommitAndRebind, ConnsClean, SessionSafe;
    match a
    case CommitNow => EndExact(conns, s, o, ToHandler);
    case RollbackNow => EndExact(conns, s, o, ToHandler);
    case SetTenant(org) => ApplyExact(conns, s, s.remembered.(orgId := org), o, pick, Handler, Handler);
    case SetBypassRls(b) => ApplyExact(conns, s, s.remembered.(bypassRls := b), o, pick, Handler, Handler);
    case SetLookupCode(c) => ApplyExact(conns, s, s.remembered.(lookupCode := c), o, pick, Handler, Handler);
    case Return =>
    case Raise =>
    case _ => StatementExact(conns, s, a, o, pick);
  }

  lemma RebindingExact(conns: map<ConnId, Connection>, s: Session, a: Action, o: Outcome, pick: ConnId)
    requires ConnsClean(conns) && SessionSafe(conns, s) && SessionExact(conns, s)
    requires s.pc.Rebinding? || s.pc.BypassReassert?
    ensures LocalExact(s, StepSession(conns, s, a, o, pick))
  {
    hide Execute, ConnsClean;
    LinkCleanOf(conns, s);
    var stmt := if s.pc.Rebinding? then ApplyContextStatement(s.remembered) else DISABLE_BYPASS;
    ExecuteKeeps(LinkOf(conns, s), stmt, o, pick);
  }

  lemma BareExact(conns: map<ConnId, Connection>, s: Session, a: Action, o: Outcome, pick: ConnId)
    requires SessionExact(conns, s) && s.pc == Opening(Bare) && s.tx.NoTx? && s.remembered.IsEmpty()
    ensures LocalExact(s, StepSession(conns, s, a, o, pick))
  {
  }

  lemma StepExact(conns: map<ConnId, Connection>, s: Session, a: Action, o: Outcome, pick: ConnId)
    requires ConnsClean(conns) && SessionSafe(conns, s) && SessionExact(conns, s)
    ensures LocalExact(s, StepSession(conns, s, a, o, pick))
  {
    assert s.pc.Opening? ==> s.tx.NoTx? && s.remembered.IsEmpty();
    hide Act, Apply, RollbackAndRebind, CommitAndRebind, ConnsClean, SessionSafe, Execute;
    match s.pc
    case Opening(Bare) => BareExact(conns, s, a, o, pick);
    case Opening(Request(org)) => ApplyExact(conns, s, RlsContext(org, false, ""), o, pick, Handler, ErrorRollback);
    case Opening(Verification(org)) => ApplyExact(conns, s, RlsContext(org, false, ""), o, pick, Handler, Releasing);
    case Opening(Superadmin(org)) => ApplyExact(conns, s, s.remembered.(orgId := org), o, pick, EnablingBypass, Closing);
    case EnablingBypass => ApplyExact(conns, s, s.remembered.(bypassRls := true), o, pick, Handler, Closing);
    case Handler => ActExact(conns, s, a, o, pick);
    case Rebinding(_) => RebindingExact(conns, s, a, o, pick);
    case BypassReassert => RebindingExact(conns, s, a, o, pick);
    case BypassRollback => EndExact(conns, s, o, ToReassert);
    case FinalCommit => EndExact(conns, s, o, ToFinish);
    case ErrorRollback => EndExact(conns, s, o, ToRelease);
    case _ =>
  }

  ghost predicate Exact(w: World) {
    && (forall sid :: sid in w.sessions ==> SessionExact(w.conns, w.sessions[sid]) && w.sessions[sid].id == sid)
    && (forall i :: 0 <= i < |w.log| ==> ObservationExact(w.log[i]))
  }

  /** A busy connection of another session is left alone, so that session is as exact as before. */
  lemma OthersStayExact(w: World, conns: map<ConnId, Connection>, s: Session, t: Session, r: Session)
    requires SessionSafe(w.conns, s) && SessionExact(w.conns, s)
    requires FramedLink(LinkOf(w.conns, t), LinkOf(conns, r))
    requires s.tx.Holding? ==> s.tx != t.tx
    ensures SessionExact(conns, s)
  {
  }

  lemma NextKeepsExact(w: World, e: Event)
    requires Inv(w) && Exact(w)
    ensures Exact(Next(w, e))
  {
    hide StepSession, SessionExact, SessionSafe, ConnsClean, FramedLink, ObservationExact;
    var w' := Next(w, e);
    if e.Step? && e.sid in w.sessions {
      var s := w.sessions[e.sid];
      StepExact(w.conns, s, e.action, e.outcome, e.pick);
      StepKeeps(w.conns, s, e.action, e.outcome, e.pick);
      var l := StepSession(w.conns, s, e.action, e.outcome, e.pick);
      forall sid | sid in w'.sessions ensures SessionExact(w'.conns, w'.sessions[sid]) && w'.sessions[sid].id == sid {
        if sid != e.sid {
          OthersStayExact(w, l.conns, w.sessions[sid], s, l.session);
        }
      }
    } else if e.Open? && e.sid !in w.sessions {
      OpenedIsExact(w, e);
    }
  }

  lemma OpenedIsExact(w: World, e: Event)
    requires e.Open? && e.sid !in w.sessions
    ensures SessionExact(w.conns, Next(w, e).sessions[e.sid])
  {
  }

  lemma {:induction false} RunIsExact(events: seq<Event>)
    ensures Exact(Run(events))
  {
    if events != [] {
      RunIsExact(events[..|events| - 1]);
      RunKeepsInv(events[..|events| - 1]);
      hide Inv, Exact, Next;
      NextKeepsExact(Run(events[..|events| - 1]), events[|events| - 1]);
    }
  }

  // -- Main results --------------------------------------------------------------------------------------------------

  ghost predicate SameRows(a: Settings, b: Settings) {
    forall row :: Sees(a, row) <==> Sees(b, row)
  }

  /**
   In every run: a statement outside a bypass block sees exactly the rows of its session's remembered context, if and
   only if the session is not a superadmin one whose bypass a block has reset, nor one that has a context and failed
   to bind it again after a commit or rollback.
   */
  lemma SeesExactlyItsTenant(events: seq<Event>, i: nat)
    requires i < |Run(events).log| && Run(events).log[i].depth == 0
    ensures var o := Run(events).log[i];
            SameRows(o.view, o.remembered.AsParams()) <==>
              if o.unbound then o.remembered.IsEmpty() else !(o.narrowed && o.remembered.bypassRls)
  {
    hide Run;
    RunIsExact(events);
    RunKeepsInv(events);
    var o := Run(events).log[i];
    assert ObservationExact(o) && ObservationSafe(o);
    RowsOf(o);
  }

  /** A row of another tenant, and the session's own. */
  lemma RowsOf(o: Observation)
    requires ObservationExact(o) && o.depth == 0
    ensures SameRows(o.view, o.remembered.AsParams()) <==>
              if o.unbound then o.remembered.IsEmpty() else !(o.narrowed && o.remembered.bypassRls)
  {
    var ctx := o.remembered;
    var foreign, own := Row(o.view.orgId + "x", o.view.lookup + "x"), Row(ctx.orgId, ctx.lookupCode);
    assert |foreign.orgId| != |o.view.orgId| && |foreign.joinCode| != |o.view.lookup|;
    if SameRows(o.view, ctx.AsParams()) {
      assert Sees(o.view, foreign) <==> Sees(ctx.AsParams(), foreign);
      assert Sees(o.view, own) <==> Sees(ctx.AsParams(), own);
    }
  }

  /** The step fails to bind its session's context: a rollback that fails, or a re-bind. */
  predicate FailsToBind(w: World, e: Event) {
    e.Step? && e.sid in w.sessions && StepFailsToBind(w.conns, w.sessions[e.sid], e.action, e.outcome, e.pick)
  }

  /** Every rollback and every re-bind of this session has worked; anything else may have failed. */
  ghost predicate BindingsWork(events: seq<Event>, sid: SessionId) {
    forall n :: 0 <= n < |events| && FailsToBind(Run(events[..n]), events[n]) ==> events[n].sid != sid
  }

  predicate StepFailsToBind(conns: map<ConnId, Connection>, s: Session, a: Action, o: Outcome, pick: ConnId) {
    (s.pc.Rebinding? && !(o.Ok? && Available(conns, pick))) ||
    (((s.pc.Handler? && a.RollbackNow?) || s.pc.BypassRollback? || s.pc.ErrorRollback?) && s.tx.Holding? && !o.Ok?)
  }

  lemma ApplyStaysBound(conns: map<ConnId, Connection>, s: Session, ctx: RlsContext, o: Outcome, pick: ConnId, good: Pc,
                        bad: Pc)
    requires !s.unbound
    ensures !Apply(conns, s, ctx, o, pick, good, bad).session.unbound
  {
    hide Execute;
  }

  /** A rollback fails only if it has to end a transaction on a connection, and the call fails. */
  lemma RollbackOutcome(conns: map<ConnId, Connection>, s: Session, ok: bool)
    requires SessionSafe(conns, s)
    ensures Rollback(LinkOf(conns, s), ok).1 <==> !(s.tx.Holding? && !ok)
  {
    hide Narrow, WellPhased;
  }

  lemma RollbackUnbinds(conns: map<ConnId, Connection>, s: Session, o: Outcome, next: Continuation)
    requires SessionSafe(conns, s) && !s.unbound
    ensures RollbackAndRebind(conns, s, o, next).session.unbound <==> s.tx.Holding? && !o.Ok?
  {
    RollbackOutcome(conns, s, o.Ok?);
    hide Rollback, SessionSafe;
  }

  lemma CommitStaysBound(conns: map<ConnId, Connection>, s: Session, o: Outcome, next: Continuation, bad: Pc)
    requires !s.unbound
    ensures !CommitAndRebind(conns, s, o, next, bad).session.unbound
  {
    hide Commit;
  }

  lemma ActUnbinds(conns: map<ConnId, Connection>, s: Session, a: Action, o: Outcome, pick: ConnId)
    requires SessionSafe(conns, s) && !s.unbound && s.pc.Handler?
    ensures Act(conns, s, a, o, pick).session.unbound <==> a.RollbackNow? && s.tx.Holding? && !o.Ok?
  {
    hide Execute, Apply, RollbackAndRebind, CommitAndRebind, SessionSafe;
    match a
    case CommitNow => CommitStaysBound(conns, s, o, ToHandler, Handler);
    case RollbackNow => RollbackUnbinds(conns, s, o, ToHandler);
    case SetTenant(org) => ApplyStaysBound(conns, s, s.remembered.(orgId := org), o, pick, Handler, Handler);
    case SetBypassRls(b) => ApplyStaysBound(conns, s, s.remembered.(bypassRls := b), o, pick, Handler, Handler);
    case SetLookupCode(c) => ApplyStaysBound(conns, s, s.remembered.(lookupCode := c), o, pick, Handler, Handler);
    case _ =>
  }

  lemma OpeningStaysBound(conns: map<ConnId, Connection>, s: Session, a: Action, o: Outcome, pick: ConnId)
    requires !s.unbound && (s.pc.Opening? || s.pc.EnablingBypass?)
    ensures !StepSession(conns, s, a, o, pick).session.unbound
  {
    hide Apply;
    match s.pc
    case Opening(Request(org)) => ApplyStaysBound(conns, s, RlsContext(org, false, ""), o, pick, Handler, ErrorRollback);
    case Opening(Verification(org)) => ApplyStaysBound(conns, s, RlsContext(org, false, ""), o, pick, Handler, Releasing);
    case Opening(Superadmin(org)) =>
      ApplyStaysBound(conns, s, s.remembered.(orgId := org), o, pick, EnablingBypass, Closing);
    case EnablingBypass => ApplyStaysBound(conns, s, s.remembered.(bypassRls := true), o, pick, Handler, Closing);
    case Opening(Bare) =>
  }

  lemma EndingUnbinds(conns: map<ConnId, Connection>, s: Session, a: Action, o: Outcome, pick: ConnId)
    requires SessionSafe(conns, s) && !s.unbound && (s.pc.BypassRollback? || s.pc.FinalCommit? || s.pc.ErrorRollback?)
    ensures StepSession(conns, s, a, o, pick).session.unbound <==> StepFailsToBind(conns, s, a, o, pick)
  {
    hide RollbackAndRebind, CommitAndRebind, SessionSafe;
    RollbackUnbinds(conns, s, o, ToReassert);
    CommitStaysBound(conns, s, o, ToFinish, ErrorRollback);
    RollbackUnbinds(conns, s, o, ToRelease);
  }

  lemma OwnStepUnbinds(conns: map<ConnId, Connection>, s: Session, a: Action, o: Outcome, pick: ConnId)
    requires SessionSafe(conns, s) && !s.unbound
    requires s.pc.Rebinding? || s.pc.BypassReassert? || s.pc.Releasing? || s.pc.Closing? || s.pc.Closed?
    ensures StepSession(conns, s, a, o, pick).session.unbound <==> StepFailsToBind(conns, s, a, o, pick)
  {
    assert s.pc.Rebinding? ==> s.tx.NoTx?;
    hide Execute, Rollback, SessionSafe;
    if s.pc.Rebinding? {
      RebindFailsIff(conns, s, o, pick);
    }
  }

  lemma StepUnbinds(conns: map<ConnId, Connection>, s: Session, a: Action, o: Outcome, pick: ConnId)
    requires SessionSafe(conns, s) && !s.unbound
    ensures StepSession(conns, s, a, o, pick).session.unbound <==> StepFailsToBind(conns, s, a, o, pick)
  {
    hide SessionSafe, Act, Apply, RollbackAndRebind, CommitAndRebind, Execute, Rollback;
    if s.pc.Opening? || s.pc.EnablingBypass? {
      OpeningStaysBound(conns, s, a, o, pick);
    } else if s.pc.Handler? {
      ActUnbinds(conns, s, a, o, pick);
    } else if s.pc.BypassRollback? || s.pc.FinalCommit? || s.pc.ErrorRollback? {
      EndingUnbinds(conns, s, a, o, pick);
    } else {
      OwnStepUnbinds(conns, s, a, o, pick);
    }
  }

  /** A session comes unbound in exactly those steps. */
  lemma UnboundIffFails(w: World, e: Event)
    requires Inv(w) && e.Step? && e.sid in w.sessions && !w.sessions[e.sid].unbound
    ensures Next(w, e).sessions[e.sid].unbound <==> FailsToBind(w, e)
  {
    hide StepSession, SessionSafe, Held;
    StepUnbinds(w.conns, w.sessions[e.sid], e.action, e.outcome, e.pick);
  }

  lemma RebindFailsIff(conns: map<ConnId, Connection>, s: Session, o: Outcome, pick: ConnId)
    requires s.tx.NoTx?
    ensures Execute(LinkOf(conns, s), ApplyContextStatement(s.remembered), o, pick).1 <==>
              o.Ok? && Available(conns, pick)
  {
  }

  lemma {:induction false} BoundWhileBindingsWork(events: seq<Event>, sid: SessionId)
    requires BindingsWork(events, sid)
    ensures sid in Run(events).sessions ==> !Run(events).sessions[sid].unbound
    ensures forall i :: 0 <= i < |Run(events).log| && Run(events).log[i].id == sid ==> !Run(events).log[i].unbound
  {
    if events != [] {
      var front, last := events[..|events| - 1], events[|events| - 1];
      assert forall n :: 0 <= n < |front| ==> front[..n] == events[..n] && front[n] == events[n];
      assert front == events[..|front|] && events[|front|] == last;
      BoundWhileBindingsWork(front, sid);
      RunKeepsInv(front);
      RunIsExact(front);
      var w := Run(front);
      if last.Step? && last.sid in w.sessions {
        StepExact(w.conns, w.sessions[last.sid], last.action, last.outcome, last.pick);
        if last.sid == sid {
          UnboundIffFails(w, last);
          SeenIsUnbound(w.conns, w.sessions[sid], last.action, last.outcome, last.pick);
        }
      }
      hide StepSession, SessionExact, ObservationExact, FailsToBind, Inv;
    }
  }

  lemma SeenIsUnbound(conns: map<ConnId, Connection>, s: Session, a: Action, o: Outcome, pick: ConnId)
    ensures forall x :: x in StepSession(conns, s, a, o, pick).seen ==> x.unbound == s.unbound
  {
    hide Execute, Commit, Rollback;
  }

  /**
   For one session whose rollbacks and re-binds work, whatever else fails, in it and in others: outside bypass
   blocks it sees exactly its remembered context, across every commit and rollback; only a superadmin one may have
   lost the bypass to a block.
   */
  lemma ReliableSessionSeesItsTenant(events: seq<Event>, i: nat)
    requires i < |Run(events).log| && Run(events).log[i].depth == 0
    requires BindingsWork(events, Run(events).log[i].id)
    ensures var o := Run(events).log[i];
            SameRows(o.view, o.remembered.AsParams()) <==> !(o.narrowed && o.remembered.bypassRls)
  {
    BoundWhileBindingsWork(events, Run(events).log[i].id);
    hide Run;
    SeesExactlyItsTenant(events, i);
  }

  // -- The `had_transaction` guard -----------------------------------------------------------------------------------

  /**
   The fact behind the guard of `rollback`: while request code runs, a session whose context is bound has a
   transaction; if it has a connection, the transaction carries the context.
   */
  lemma RememberedMeansOpenTransaction(events: seq<Event>, sid: SessionId)
    requires sid in Run(events).sessions && Run(events).sessions[sid].pc.Handler?
    requires !Run(events).sessions[sid].remembered.IsEmpty() && !Run(events).sessions[sid].unbound
    ensures var w := Run(events);
            var s := w.sessions[sid];
            (s.tx.Holding? || s.tx.Invalid?) &&
            (s.tx.Holding? ==> Matches(View(LinkOf(w.conns, s)), s.remembered, s.depth, s.narrowed))
  {
    hide Run;
    RunIsExact(events);
    assert SessionExact(Run(events).conns, Run(events).sessions[sid]);
  }

  /** The step is a rollback, by request code, that fails. */
  predicate FailedRollback(w: World, e: Event, sid: SessionId) {
    e.Step? && e.sid == sid && sid in w.sessions && w.sessions[sid].pc.Handler? && e.action.RollbackNow? &&
    w.sessions[sid].tx.Holding? && !e.outcome.Ok?
  }

  ghost predicate NoTransactionSince(events: seq<Event>, n: nat, sid: SessionId) {
    forall m :: n < m <= |events| ==> sid in Run(events[..m]).sessions && Run(events[..m]).sessions[sid].tx.NoTx?
  }

  lemma ExecuteOpens(l: Link, stmt: Statement, o: Outcome, pick: ConnId)
    ensures !Execute(l, stmt, o, pick).0.tx.NoTx?
  {
  }

  lemma ApplyOpens(conns: map<ConnId, Connection>, s: Session, ctx: RlsContext, o: Outcome, pick: ConnId, good: Pc,
                   bad: Pc)
    ensures !Apply(conns, s, ctx, o, pick, good, bad).session.tx.NoTx?
  {
    hide Execute;
    ExecuteOpens(LinkOf(conns, s), ApplyContextStatement(ctx), o, pick);
  }

  lemma EndLosesTransaction(conns: map<ConnId, Connection>, s: Session, o: Outcome, next: Continuation)
    requires SessionSafe(conns, s)
    ensures var r := RollbackAndRebind(conns, s, o, next).session;
            r.remembered == s.remembered && (r.pc.Handler? && !r.remembered.IsEmpty() ==> s.tx.NoTx? || (s.tx.Holding? && !o.Ok?))
    ensures var r := CommitAndRebind(conns, s, o, next, AfterRebind(next, false)).session;
            r.remembered == s.remembered && (r.pc.Handler? && !r.remembered.IsEmpty() ==> !r.tx.NoTx?)
  {
    hide Rollback, Commit, SessionSafe;
    RollbackOutcome(conns, s, o.Ok?);
    EndedTx(LinkOf(conns, s), o.Ok?);
  }

  lemma ActLosesTransaction(conns: map<ConnId, Connection>, s: Session, a: Action, o: Outcome, pick: ConnId)
    requires SessionSafe(conns, s) && s.pc.Handler?
    requires var r := Act(conns, s, a, o, pick).session; r.pc.Handler? && r.tx.NoTx? && !r.remembered.IsEmpty()
    ensures (s.tx.NoTx? && s.remembered == Act(conns, s, a, o, pick).session.remembered) ||
            (a.RollbackNow? && s.tx.Holding? && !o.Ok?)
  {
    hide Execute, Apply, RollbackAndRebind, CommitAndRebind, SessionSafe;
    match a
    case RunQuery => ExecuteOpens(LinkOf(conns, s), Query, o, pick);
    case CommitNow => EndLosesTransaction(conns, s, o, ToHandler);
    case RollbackNow => EndLosesTransaction(conns, s, o, ToHandler);
    case SetTenant(org) => ApplyOpens(conns, s, s.remembered.(orgId := org), o, pick, Handler, Handler);
    case SetBypassRls(b) => ApplyOpens(conns, s, s.remembered.(bypassRls := b), o, pick, Handler, Handler);
    case SetLookupCode(c) => ApplyOpens(conns, s, s.remembered.(lookupCode := c), o, pick, Handler, Handler);
    case EnterBypass => ExecuteOpens(LinkOf(conns, s), ENABLE_BYPASS, o, pick);
    case ExitBypass => ExecuteOpens(LinkOf(conns, s), DISABLE_BYPASS, o, pick);
    case _ =>
  }

  /** The ends of a session, and the recovery of a block, do not lead straight back to request code. */
  lemma EndLeavesHandler(conns: map<ConnId, Connection>, s: Session, o: Outcome)
    ensures !RollbackAndRebind(conns, s, o, ToReassert).session.pc.Handler?
    ensures !RollbackAndRebind(conns, s, o, ToRelease).session.pc.Handler?
    ensures !CommitAndRebind(conns, s, o, ToFinish, ErrorRollback).session.pc.Handler?
  {
    hide Commit, Rollback;
  }

  /** Request code comes to a remembered context without a transaction only through a rollback that failed. */
  lemma LosesTransaction(conns: map<ConnId, Connection>, s: Session, a: Action, o: Outcome, pick: ConnId)
    requires SessionSafe(conns, s)
    requires var r := StepSession(conns, s, a, o, pick).session;
             r.pc.Handler? && r.tx.NoTx? && !r.remembered.IsEmpty()
    ensures s.pc.Handler?
    ensures (s.tx.NoTx? && s.remembered == StepSession(conns, s, a, o, pick).session.remembered) ||
            (a.RollbackNow? && s.tx.Holding? && !o.Ok?)
  {
    assert s.pc.Opening? ==> s.remembered.IsEmpty();
    hide Execute, Act, Apply, Commit, Rollback, SessionSafe, RollbackAndRebind, CommitAndRebind;
    EndLeavesHandler(conns, s, o);
    match s.pc
    case Opening(Request(org)) => ApplyOpens(conns, s, RlsContext(org, false, ""), o, pick, Handler, ErrorRollback);
    case Opening(Verification(org)) => ApplyOpens(conns, s, RlsContext(org, false, ""), o, pick, Handler, Releasing);
    case Opening(Superadmin(org)) => ApplyOpens(conns, s, s.remembered.(orgId := org), o, pick, EnablingBypass, Closing);
    case EnablingBypass => ApplyOpens(conns, s, s.remembered.(bypassRls := true), o, pick, Handler, Closing);
    case Handler => ActLosesTransaction(conns, s, a, o, pick);
    case Rebinding(_) => ExecuteOpens(LinkOf(conns, s), ApplyContextStatement(s.remembered), o, pick);
    case BypassReassert => ExecuteOpens(LinkOf(conns, s), DISABLE_BYPASS, o, pick);
    case _ =>
  }

  /**
   With any failures: request code runs with a remembered context and no transaction if and only if a rollback of its
   own failed and the session has had no transaction since. There alone the guard skips a re-bind that is needed.
   */
  lemma {:induction false} ContextWithoutTransaction(events: seq<Event>, sid: SessionId)
    requires sid in Run(events).sessions && Run(events).sessions[sid].pc.Handler?
    requires !Run(events).sessions[sid].remembered.IsEmpty()
    ensures Run(events).sessions[sid].tx.NoTx? <==>
              exists n :: 0 <= n < |events| && FailedRollback(Run(events[..n]), events[n], sid) &&
                          NoTransactionSince(events, n, sid)
    decreases |events|
  {
    hide Run, StepSession, SessionSafe;
    assert events[..|events|] == events;
    LastStep(events);
    if Run(events).sessions[sid].tx.NoTx? {
      var front, last := events[..|events| - 1], events[|events| - 1];
      RunKeepsInv(front);
      CameWithoutTransaction(Run(front), last, sid);
      if FailedRollback(Run(front), last, sid) {
        assert NoTransactionSince(events, |front|, sid);
      } else {
        ContextWithoutTransaction(front, sid);
        var n :| 0 <= n < |front| && FailedRollback(Run(front[..n]), front[n], sid) && NoTransactionSince(front, n, sid);
        SinceGoesOn(events, n, sid);
        assert front[..n] == events[..n] && front[n] == events[n];
      }
    }
  }

  lemma LastStep(events: seq<Event>)
    ensures events == [] ==> Run(events) == START
    ensures events != [] ==> Run(events) == Next(Run(events[..|events| - 1]), events[|events| - 1])
  {
  }

  lemma CameWithoutTransaction(w: World, e: Event, sid: SessionId)
    requires Inv(w) && sid in Next(w, e).sessions
    requires var r := Next(w, e).sessions[sid]; r.pc.Handler? && r.tx.NoTx? && !r.remembered.IsEmpty()
    ensures sid in w.sessions
    ensures FailedRollback(w, e, sid) ||
            (w.sessions[sid].pc.Handler? && w.sessions[sid].tx.NoTx? && !w.sessions[sid].remembered.IsEmpty())
  {
    hide StepSession, SessionSafe, Held;
    if e.Step? && e.sid == sid {
      LosesTransaction(w.conns, w.sessions[sid], e.action, e.outcome, e.pick);
    }
  }

  lemma SinceGoesOn(events: seq<Event>, n: nat, sid: SessionId)
    requires events != [] && NoTransactionSince(events[..|events| - 1], n, sid)
    requires sid in Run(events).sessions && Run(events).sessions[sid].tx.NoTx?
    ensures NoTransactionSince(events, n, sid)
  {
    hide Run;
    var front := events[..|events| - 1];
    forall m | n < m <= |events|
      ensures sid in Run(events[..m]).sessions && Run(events[..m]).sessions[sid].tx.NoTx?
    {
      if m < |events| {
        assert front[..m] == events[..m];
      } else {
        assert events[..m] == events;
      }
    }
  }

  // -- Runs of one session without any failing call ------------------------------------------------------------------

  /** The call works, and if it needs a connection the pool has the one it picks. */
  predicate Works(w: World, e: Event) {
    e.Step? ==>
      && e.outcome.Ok?
      && (e.sid in w.sessions && !w.sessions[e.sid].tx.Holding? ==> Available(w.conns, e.pick))
  }

  /** No call of this session has failed; other sessions may have failed at will. */
  ghost predicate FaultlessFor(events: seq<Event>, sid: SessionId) {
    forall n :: 0 <= n < |events| && events[n].Step? && events[n].sid == sid ==> Works(Run(events[..n]), events[n])
  }

  predicate Healthy(conns: map<ConnId, Connection>, s: Session) {
    s.tx.NoTx? ||
    (s.tx.Holding? && s.tx.conn in conns && conns[s.tx.conn].transaction.InTransaction? &&
     !conns[s.tx.conn].transaction.aborted)
  }

  lemma ExecuteHealthy(conns: map<ConnId, Connection>, s: Session, stmt: Statement, pick: ConnId)
    requires Healthy(conns, s) && (!s.tx.Holding? ==> Available(conns, pick))
    ensures var (r, ok) := Execute(LinkOf(conns, s), stmt, Ok, pick);
            ok && r.tx.Holding? && Healthy(r.conns, s.(tx := r.tx))
  {
  }

  lemma EndHealthy(conns: map<ConnId, Connection>, s: Session)
    requires Healthy(conns, s)
    ensures Commit(LinkOf(conns, s), true).0.tx.NoTx? && Rollback(LinkOf(conns, s), true).0.tx.NoTx?
  {
  }

  lemma ApplyHealthy(conns: map<ConnId, Connection>, s: Session, ctx: RlsContext, pick: ConnId, good: Pc, bad: Pc)
    requires Healthy(conns, s) && (!s.tx.Holding? ==> Available(conns, pick))
    ensures var l := Apply(conns, s, ctx, Ok, pick, good, bad); Healthy(l.conns, l.session)
  {
    hide Execute;
    ExecuteHealthy(conns, s, ApplyContextStatement(ctx), pick);
  }

  lemma AtIdle(l: Link, s: Session, pc: Pc)
    requires l.tx.NoTx?
    ensures Healthy(At(l, s, pc).conns, At(l, s, pc).session)
  {
  }

  lemma RollbackHealthy(conns: map<ConnId, Connection>, s: Session, next: Continuation)
    requires Healthy(conns, s)
    ensures var l := RollbackAndRebind(conns, s, Ok, next); Healthy(l.conns, l.session)
  {
    EndHealthy(conns, s);
    hide Rollback, Healthy, At;
    var (l, ok) := Rollback(LinkOf(conns, s), true);
    AtIdle(l, s.(unbound := true), AfterRebind(next, false));
    AtIdle(l, s, AfterRebind(next, true));
    AtIdle(l, s, Rebinding(next));
  }

  lemma CommitHealthy(conns: map<ConnId, Connection>, s: Session, next: Continuation, bad: Pc)
    requires Healthy(conns, s)
    ensures var l := CommitAndRebind(conns, s, Ok, next, bad); Healthy(l.conns, l.session)
  {
    EndHealthy(conns, s);
    hide Commit, Healthy, At;
    var (l, ok) := Commit(LinkOf(conns, s), true);
    AtIdle(l, s, bad);
    AtIdle(l, s, AfterRebind(next, true));
    AtIdle(l, s, Rebinding(next));
  }

  lemma StatementHealthy(conns: map<ConnId, Connection>, s: Session, a: Action, pick: ConnId)
    requires Healthy(conns, s) && (!s.tx.Holding? ==> Available(conns, pick))
    requires a.RunQuery? || a.EnterBypass? || a.ExitBypass? || a.Return? || a.Raise?
    ensures var l := Act(conns, s, a, Ok, pick); Healthy(l.conns, l.session)
  {
    hide Execute;
    ExecuteHealthy(conns, s, Query, pick);
    ExecuteHealthy(conns, s, ENABLE_BYPASS, pick);
    ExecuteHealthy(conns, s, DISABLE_BYPASS, pick);
  }

  lemma ActHealthy(conns: map<ConnId, Connection>, s: Session, a: Action, pick: ConnId)
    requires Healthy(conns, s) && (!s.tx.Holding? ==> Available(conns, pick))
    ensures var l := Act(conns, s, a, Ok, pick); Healthy(l.conns, l.session)
  {
    hide Execute, Apply, RollbackAndRebind, CommitAndRebind, Healthy;
    match a
    case CommitNow => CommitHealthy(conns, s, ToHandler, Handler);
    case RollbackNow => RollbackHealthy(conns, s, ToHandler);
    case SetTenant(org) => ApplyHealthy(conns, s, s.remembered.(orgId := org), pick, Handler, Handler);
    case SetBypassRls(b) => ApplyHealthy(conns, s, s.remembered.(bypassRls := b), pick, Handler, Handler);
    case SetLookupCode(c) => ApplyHealthy(conns, s, s.remembered.(lookupCode := c), pick, Handler, Handler);
    case _ => StatementHealthy(conns, s, a, pick);
  }

  lemma OwnStepHealthy(conns: map<ConnId, Connection>, s: Session, a: Action, pick: ConnId)
    requires Healthy(conns, s) && (!s.tx.Holding? ==> Available(conns, pick))
    requires s.pc.Rebinding? || s.pc.BypassReassert? || s.pc.Releasing? || s.pc.Closing? || s.pc.Closed? ||
             s.pc == Opening(Bare)
    ensures var l := StepSession(conns, s, a, Ok, pick); Healthy(l.conns, l.session)
  {
    hide Execute, Rollback, Commit;
    EndHealthy(conns, s);
    ExecuteHealthy(conns, s, ApplyContextStatement(s.remembered), pick);
    ExecuteHealthy(conns, s, DISABLE_BYPASS, pick);
  }

  lemma StepHealthy(conns: map<ConnId, Connection>, s: Session, a: Action, pick: ConnId)
    requires Healthy(conns, s) && (!s.tx.Holding? ==> Available(conns, pick))
    ensures var l := StepSession(conns, s, a, Ok, pick); Healthy(l.conns, l.session)
  {
    hide Execute, Apply, Act, RollbackAndRebind, CommitAndRebind, Rollback, Healthy;
    match s.pc
    case Opening(Request(org)) => ApplyHealthy(conns, s, RlsContext(org, false, ""), pick, Handler, ErrorRollback);
    case Opening(Verification(org)) => ApplyHealthy(conns, s, RlsContext(org, false, ""), pick, Handler, Releasing);
    case Opening(Superadmin(org)) => ApplyHealthy(conns, s, s.remembered.(orgId := org), pick, EnablingBypass, Closing);
    case EnablingBypass => ApplyHealthy(conns, s, s.remembered.(bypassRls := true), pick, Handler, Closing);
    case Handler => ActHealthy(conns, s, a, pick);
    case BypassRollback => RollbackHealthy(conns, s, ToReassert);
    case FinalCommit => CommitHealthy(conns, s, ToFinish, ErrorRollback);
    case ErrorRollback => RollbackHealthy(conns, s, ToRelease);
    case _ => OwnStepHealthy(conns, s, a, pick);
  }

  lemma {:induction false} FaultlessIsHealthy(events: seq<Event>, sid: SessionId)
    requires FaultlessFor(events, sid) && sid in Run(events).sessions
    ensures Healthy(Run(events).conns, Run(events).sessions[sid])
  {
    hide Run, StepSession, SessionSafe, Works;
    LastStep(events);
    var front, last := events[..|events| - 1], events[|events| - 1];
    assert forall n :: 0 <= n < |front| ==> front[..n] == events[..n] && front[n] == events[n];
    assert front == events[..|front|] && events[|front|] == last;
    RunKeepsInv(front);
    var w := Run(front);
    if sid in w.sessions {
      FaultlessIsHealthy(front, sid);
      NextHealthy(w, last, sid);
    }
  }

  lemma NextHealthy(w: World, e: Event, sid: SessionId)
    requires Inv(w) && sid in w.sessions && Healthy(w.conns, w.sessions[sid])
    requires e.Step? && e.sid == sid ==> Works(w, e)
    ensures Healthy(Next(w, e).conns, Next(w, e).sessions[sid])
  {
    hide StepSession, ConnsClean, LogSafe, Held;
    if e.Step? && e.sid in w.sessions {
      var t := w.sessions[e.sid];
      StepKeeps(w.conns, t, e.action, e.outcome, e.pick);
      if e.sid == sid {
        StepHealthy(w.conns, t, e.action, e.pick);
      } else {
        OthersStayHealthy(w, e, sid);
      }
    }
  }

  lemma OthersStayHealthy(w: World, e: Event, sid: SessionId)
    requires Inv(w) && e.Step? && e.sid in w.sessions && sid in w.sessions && sid != e.sid
    requires var l := StepSession(w.conns, w.sessions[e.sid], e.action, e.outcome, e.pick);
             FramedLink(LinkOf(w.conns, w.sessions[e.sid]), LinkOf(l.conns, l.session))
    requires Healthy(w.conns, w.sessions[sid])
    ensures Healthy(StepSession(w.conns, w.sessions[e.sid], e.action, e.outcome, e.pick).conns, w.sessions[sid])
  {
    hide StepSession, ConnsClean, SessionSafe, LogSafe, Held;
  }

  /** A session none of whose calls has failed really holds the transaction that carries its context. */
  lemma FaultlessSessionHolds(events: seq<Event>, sid: SessionId)
    requires FaultlessFor(events, sid) && sid in Run(events).sessions && Run(events).sessions[sid].pc.Handler?
    requires !Run(events).sessions[sid].remembered.IsEmpty()
    ensures var w := Run(events);
            var s := w.sessions[sid];
            s.tx.Holding? && Matches(View(LinkOf(w.conns, s)), s.remembered, s.depth, s.narrowed)
  {
    hide Run;
    FaultlessIsHealthy(events, sid);
    FaultlessBinds(events, sid);
    BoundWhileBindingsWork(events, sid);
    RememberedMeansOpenTransaction(events, sid);
  }

  lemma FaultlessBinds(events: seq<Event>, sid: SessionId)
    requires FaultlessFor(events, sid)
    ensures BindingsWork(events, sid)
  {
    hide Run;
    forall n | 0 <= n < |events| && FailsToBind(Run(events[..n]), events[n]) ensures events[n].sid != sid {
      RunKeepsInv(events[..n]);
    }
  }

  ghost predicate Faultless(events: seq<Event>) {
    events == [] || (Faultless(events[..|events| - 1]) && Works(Run(events[..|events| - 1]), events[|events| - 1]))
  }

  lemma Extend(events: seq<Event>, e: Event)
    requires Faultless(events) && Works(Run(events), e)
    ensures Faultless(events + [e]) && Run(events + [e]) == Next(Run(events), e)
  {
    hide Next, Works;
    assert (events + [e])[..|events + [e]| - 1] == events;
  }

  /** A lone superadmin session on connection 0, running request code. */
  function Alone(view: Settings, narrowed: bool, depth: nat, log: seq<Observation>): World {
    World(map[0 := Connection(UNSET, InTransaction(view, UNSET, false))],
          map[0 := Session(0, RlsContext("p", true, ""), Holding(0), Handler, depth, narrowed, false, true)], log)
  }

  const WIDE := Settings("p", "true", "")
  const LOW := Settings("p", "false", "")

  lemma SuperadminOpens() returns (events: seq<Event>)
    ensures Faultless(events) && Run(events) == Alone(WIDE, false, 0, [])
  {
    Extend([], Open(0, Superadmin("p")));
    events := [] + [Open(0, Superadmin("p"))];
    Extend(events, Step(0, RunQuery, Ok, 0));
    events := events + [Step(0, RunQuery, Ok, 0)];
    Extend(events, Step(0, RunQuery, Ok, 0));
    events := events + [Step(0, RunQuery, Ok, 0)];
  }

  lemma BlockCloses() returns (events: seq<Event>)
    ensures Faultless(events)
    ensures Run(events) == Alone(LOW, true, 0, [Observation(0, LOW, RlsContext("p", true, ""), 0, true, false)])
  {
    events := SuperadminOpens();
    Extend(events, Step(0, EnterBypass, Ok, 0));
    events := events + [Step(0, EnterBypass, Ok, 0)];
    assert Run(events) == Alone(WIDE, false, 1, []);
    Extend(events, Step(0, ExitBypass, Ok, 0));
    events := events + [Step(0, ExitBypass, Ok, 0)];
    assert Run(events) == Alone(LOW, true, 0, []);
    Extend(events, Step(0, RunQuery, Ok, 0));
    events := events + [Step(0, RunQuery, Ok, 0)];
  }

  /**
   The exception is real: a superadmin session that closes an `rls_bypass` block sees less
   than it remembers, and its next commit gives the bypass back.
   */
  lemma SuperadminIsNarrowedUntilCommit() returns (events: seq<Event>)
    ensures Faultless(events)
    ensures var log := Run(events).log;
            && |log| == 2 && log[0].remembered == log[1].remembered && log[0].remembered.bypassRls
            && log[0].depth == 0 && log[0].view.bypass == "false" && log[1].view.bypass == "true"
  {
    events := BlockCloses();
    Extend(events, Step(0, CommitNow, Ok, 0));
    events := events + [Step(0, CommitNow, Ok, 0)];
    Extend(events, Step(0, RunQuery, Ok, 0));
    events := events + [Step(0, RunQuery, Ok, 0)];
    Extend(events, Step(0, RunQuery, Ok, 0));
    events := events + [Step(0, RunQuery, Ok, 0)];
  }
}
