/**
 `RlsAsyncSession` and the functions that work on it (core/rls.py), as the object they
 update. Each method runs its statements one after the other with the given outcomes and
 ends where the same steps of `Rls` end when no other session comes in between.
 */
module RlsSession {
  import opened Postgres
  import opened Rls
  import opened RlsExactness
  import opened RlsSafety

  class Database {
    var conns: map<ConnId, Connection>

    constructor ()
      ensures conns == map[]
    {
      conns := map[];
    }
  }

  /** Runs the steps of one call to its end, with these outcomes. */
  function Complete(l: Local, outcomes: seq<Outcome>, pick: ConnId): Local
    decreases |outcomes|
  {
    if l.session.pc.Handler? || outcomes == [] then l
    else Complete(StepSession(l.conns, l.session, RunQuery, outcomes[0], pick), outcomes[1..], pick)
  }

  lemma {:induction false} CompleteKeeps(l: Local, outcomes: seq<Outcome>, pick: ConnId)
    requires ConnsClean(l.conns) && SessionSafe(l.conns, l.session)
    ensures var r := Complete(l, outcomes, pick); ConnsClean(r.conns) && SessionSafe(r.conns, r.session)
    decreases |outcomes|
  {
    if !l.session.pc.Handler? && outcomes != [] {
      StepKeeps(l.conns, l.session, RunQuery, outcomes[0], pick);
      CompleteKeeps(StepSession(l.conns, l.session, RunQuery, outcomes[0], pick), outcomes[1..], pick);
    }
  }

  /** The three stages after a failed reset: roll back, re-bind if that worked, re-assert. */
  function RolledBack(l: Local, o: Outcome): Local {
    RollbackAndRebind(l.conns, l.session, o, ToReassert)
  }

  function Rebound(l: Local, o: Outcome, pick: ConnId): Local {
    if l.session.pc.Rebinding? then StepSession(l.conns, l.session, RunQuery, o, pick) else l
  }

  function Recover(l: Local, rolledBack: Outcome, rebound: Outcome, reasserted: Outcome, pick: ConnId): Local {
    var r := Rebound(RolledBack(l, rolledBack), rebound, pick);
    StepSession(r.conns, r.session, RunQuery, reasserted, pick)
  }

  predicate Sound(l: Local) {
    ConnsClean(l.conns) && SessionSafe(l.conns, l.session)
  }

  /** A rollback fails only if it has to end a transaction on a connection, and the call fails. */
  predicate RollbackWorks(l: Local, o: Outcome) {
    l.session.tx.Holding? ==> o.Ok?
  }

  lemma RolledBackKeeps(l: Local, o: Outcome)
    requires Sound(l) && l.session.pc.BypassRollback?
    ensures var r := RolledBack(l, o);
            && r == StepSession(l.conns, l.session, RunQuery, o, 0)
            && Sound(r) && r.session.tx.NoTx?
            && r.session.pc == (if r.session.pc.Rebinding? then Rebinding(ToReassert) else BypassReassert)
            && r.session.(tx := l.session.tx, pc := l.session.pc, unbound := l.session.unbound) == l.session
            && (!l.session.tx.NoTx? ==>
                  (r.session.pc.Rebinding? <==> RollbackWorks(l, o) && !l.session.remembered.IsEmpty()))
  {
    hide ConnsClean, SessionSafe, Rollback;
    StepKeeps(l.conns, l.session, RunQuery, o, 0);
    LinkCleanOf(l.conns, l.session);
    EndKeeps(LinkOf(l.conns, l.session), o.Ok?);
    RollbackOutcome(l.conns, l.session, o.Ok?);
  }

  lemma ReboundKeeps(l: Local, o: Outcome, pick: ConnId)
    requires Sound(l) && (l.session.pc == Rebinding(ToReassert) || l.session.pc.BypassReassert?)
    ensures var r := Rebound(l, o, pick);
            Sound(r) && r.session.pc.BypassReassert?
            && r.session.remembered == l.session.remembered && r.session.depth == l.session.depth
  {
    hide ConnsClean, SessionSafe, Execute;
    StepKeeps(l.conns, l.session, RunQuery, o, pick);
  }

  /** After the rollback: the context is in force if the re-bind was due and worked, and otherwise nothing is. */
  lemma ReboundView(l: Local, o: Outcome, pick: ConnId)
    requires Sound(l) && l.session.tx.NoTx?
    requires l.session.pc == Rebinding(ToReassert) || l.session.pc.BypassReassert?
    ensures var r := Rebound(l, o, pick);
            if l.session.pc.Rebinding? && o.Ok? && Available(l.conns, pick) then
              r.session.tx.Holding? && View(LinkOf(r.conns, r.session)) == l.session.remembered.AsParams()
            else View(LinkOf(r.conns, r.session)) == UNSET
  {
    hide Execute, ConnsClean, SessionSafe;
    LinkCleanOf(l.conns, l.session);
    ExecuteKeeps(LinkOf(l.conns, l.session), ApplyContextStatement(l.session.remembered), o, pick);
    RebindFailsIff(l.conns, l.session, o, pick);
  }

  lemma ExecuteLost(l: Link, stmt: Statement, o: Outcome, pick: ConnId)
    requires l.tx.Holding? && l.tx.conn in l.conns && l.conns[l.tx.conn].transaction.InTransaction?
    ensures o.Lost? <==> !Execute(l, stmt, o, pick).0.tx.Holding?
    ensures !o.Ok? ==> !Execute(l, stmt, o, pick).1
    ensures o.Ok? && !l.conns[l.tx.conn].transaction.aborted ==> Execute(l, stmt, o, pick).1
  {
  }

  /** The re-assert narrows what is in force, or, if the connection is lost with it, leaves nothing. */
  lemma ReassertedView(l: Local, o: Outcome, pick: ConnId)
    requires Sound(l) && l.session.pc.BypassReassert? && l.session.depth > 0
    ensures var r := StepSession(l.conns, l.session, RunQuery, o, pick);
            var was, view := View(LinkOf(l.conns, l.session)), View(LinkOf(r.conns, r.session));
            (l.session.tx.Holding? && !o.Lost? ==>
               r.session.tx.Holding? && (view == was || (o.Ok? && view == was.(bypass := "false")))) &&
            (l.session.tx.Holding? && !o.Lost? && o.Ok? && Fresh(l) ==> view == was.(bypass := "false")) &&
            (l.session.tx.Holding? && !o.Lost? && !o.Ok? ==> view == was) &&
            (l.session.tx.Holding? && o.Lost? ==> view == UNSET) &&
            (was == UNSET ==> Blank(view, 0))
  {
    hide Execute, ConnsClean;
    LinkCleanOf(l.conns, l.session);
    ExecuteKeeps(LinkOf(l.conns, l.session), DISABLE_BYPASS, o, pick);
    if l.session.tx.Holding? {
      ExecuteLost(LinkOf(l.conns, l.session), DISABLE_BYPASS, o, pick);
    }
  }

  /** The session's transaction is open and not aborted. */
  predicate Fresh(l: Local) {
    Healthy(l.conns, l.session)
  }

  lemma ReassertKeeps(l: Local, o: Outcome, pick: ConnId)
    requires Sound(l) && l.session.pc.BypassReassert? && l.session.depth > 0
    ensures var r := StepSession(l.conns, l.session, RunQuery, o, pick);
            && Sound(r) && r.session.pc.Handler? && r.session.depth == l.session.depth - 1
            && r.session.remembered == l.session.remembered
            && (r.session.tx.Holding? && View(LinkOf(r.conns, r.session)).bypass == "true" ==>
                  r.session.remembered.bypassRls)
  {
    hide Execute;
    StepKeeps(l.conns, l.session, RunQuery, o, pick);
    ExecuteKeeps(LinkOf(l.conns, l.session), DISABLE_BYPASS, o, pick);
  }

  lemma RecoverKeeps(l: Local, rolledBack: Outcome, rebound: Outcome, reasserted: Outcome, pick: ConnId)
    requires Sound(l) && l.session.pc.BypassRollback? && l.session.depth > 0
    ensures var r := Recover(l, rolledBack, rebound, reasserted, pick);
            && Sound(r) && r.session.pc.Handler? && r.session.depth == l.session.depth - 1
            && r.session.remembered == l.session.remembered
            && (r.session.tx.Holding? && View(LinkOf(r.conns, r.session)).bypass == "true" ==>
                  r.session.remembered.bypassRls)
  {
    hide RolledBack, Rebound, StepSession, SessionSafe, ConnsClean;
    RolledBackKeeps(l, rolledBack);
    ReboundKeeps(RolledBack(l, rolledBack), rebound, pick);
    ReassertKeeps(Rebound(RolledBack(l, rolledBack), rebound, pick), reasserted, pick);
  }

  /**
   What the recovery of a block restores, for every outcome of its three stages: rollback, re-bind and re-assert.
   The context is in force again if and only if the first two work and the third does not lose the connection; a
   bypass of the session's own is off then, unless the re-assert failed. Otherwise no row is visible.
   */
  predicate Restored(l: Local, rolledBack: Outcome, rebound: Outcome, reasserted: Outcome, pick: ConnId) {
    RollbackWorks(l, rolledBack) && rebound.Ok? && Available(RolledBack(l, rolledBack).conns, pick) && !reasserted.Lost?
  }

  lemma RecoverExactly(l: Local, rolledBack: Outcome, rebound: Outcome, reasserted: Outcome, pick: ConnId)
    requires Sound(l) && l.session.pc.BypassRollback? && l.session.depth > 0 && !l.session.tx.NoTx?
    ensures var r := Recover(l, rolledBack, rebound, reasserted, pick);
            var ctx, view := l.session.remembered, View(LinkOf(r.conns, r.session));
            if !ctx.IsEmpty() && Restored(l, rolledBack, rebound, reasserted, pick) then
              r.session.tx.Holding? &&
              view == if reasserted.Ok? then ctx.AsParams().(bypass := "false") else ctx.AsParams()
            else Blank(view, 0)
  {
    hide RolledBack, Rebound, StepSession, SessionSafe, ConnsClean, View;
    RolledBackKeeps(l, rolledBack);
    var a := RolledBack(l, rolledBack);
    ReboundKeeps(a, rebound, pick);
    ReboundView(a, rebound, pick);
    if a.session.pc.Rebinding? && rebound.Ok? && Available(a.conns, pick) {
      ReboundIsFresh(a, rebound, pick);
    }
    ReassertedView(Rebound(a, rebound, pick), reasserted, pick);
  }

  lemma ReboundIsFresh(l: Local, o: Outcome, pick: ConnId)
    requires l.session.tx.NoTx? && l.session.pc == Rebinding(ToReassert) && o.Ok? && Available(l.conns, pick)
    ensures Fresh(Rebound(l, o, pick))
  {
  }

  /** In rows: the block's end restores the session's own view exactly under that condition. */
  lemma RecoverRestoresIff(l: Local, rolledBack: Outcome, rebound: Outcome, reasserted: Outcome, pick: ConnId)
    requires Sound(l) && l.session.pc.BypassRollback? && l.session.depth > 0 && !l.session.tx.NoTx?
    ensures var r := Recover(l, rolledBack, rebound, reasserted, pick);
            var ctx := l.session.remembered;
            SameRows(View(LinkOf(r.conns, r.session)), ctx.AsParams()) <==>
              ctx.IsEmpty() ||
              (Restored(l, rolledBack, rebound, reasserted, pick) && !(ctx.bypassRls && reasserted.Ok?))
  {
    hide Recover, Restored, View;
    RecoverExactly(l, rolledBack, rebound, reasserted, pick);
    var r := Recover(l, rolledBack, rebound, reasserted, pick);
    var ctx, restored := l.session.remembered, Restored(l, rolledBack, rebound, reasserted, pick);
    RowsOf(Observation(0, View(LinkOf(r.conns, r.session)), ctx, 0, reasserted.Ok?, ctx.IsEmpty() || !restored));
  }

  lemma RolledBackIs(l: Local, o: Outcome, after: Link, ok: bool)
    requires (after, ok) == Postgres.Rollback(LinkOf(l.conns, l.session), o.Ok?)
    ensures RolledBack(l, o) ==
              if ok && !l.session.tx.NoTx? && !l.session.remembered.IsEmpty() then
                At(after, l.session, Rebinding(ToReassert))
              else At(after, l.session.(unbound := l.session.unbound || !ok), BypassReassert)
  {
    hide Postgres.Rollback;
  }

  class RlsAsyncSession {
    const db: Database
    const id: SessionId
    var rlsContext: RlsContext
    var tx: Tx
    ghost var depth: nat
    ghost var narrowed: bool
    ghost var unbound: bool

    ghost function AsLink(): Link
      reads this, db
    {
      Link(db.conns, tx)
    }

    ghost function AsSession(): Session
      reads this
    {
      Session(id, rlsContext, tx, Handler, depth, narrowed, unbound, true)
    }

    ghost predicate Valid()
      reads this, db
    {
      ConnsClean(db.conns) && SessionSafe(db.conns, AsSession())
    }

    /** The session is where `l` says, back in request code. */
    ghost predicate EndsAs(l: Local)
      reads this, db
    {
      l.session.pc.Handler? && db.conns == l.conns && AsSession() == l.session
    }

    constructor (db: Database, id: SessionId)
      requires ConnsClean(db.conns)
      ensures Valid() && this.db == db && this.id == id &&
              AsSession() == Session(id, NO_CONTEXT, NoTx, Handler, 0, false, false, true)
    {
      this.db, this.id := db, id;
      rlsContext, tx, depth, narrowed, unbound := NO_CONTEXT, NoTx, 0, false, false;
    }

    method Execute(stmt: Statement, o: Outcome, pick: ConnId) returns (ok: bool)
      modifies this`tx, db
      ensures (AsLink(), ok) == Postgres.Execute(old(AsLink()), stmt, o, pick)
    {
      var (l, done) := Postgres.Execute(Link(db.conns, tx), stmt, o, pick);
      db.conns, tx, ok := l.conns, l.tx, done;
    }

    method SuperCommit(o: Outcome) returns (ok: bool)
      modifies this`tx, db
      ensures (AsLink(), ok) == Postgres.Commit(old(AsLink()), o.Ok?)
    {
      var (l, done) := Postgres.Commit(Link(db.conns, tx), o.Ok?);
      db.conns, tx, ok := l.conns, l.tx, done;
    }

    method SuperRollback(o: Outcome) returns (ok: bool)
      modifies this`tx, db
      ensures (AsLink(), ok) == Postgres.Rollback(old(AsLink()), o.Ok?)
    {
      var (l, done) := Postgres.Rollback(Link(db.conns, tx), o.Ok?);
      db.conns, tx, ok := l.conns, l.tx, done;
    }

    method RebindRlsContext(o: Outcome, pick: ConnId) returns (ok: bool)
      modifies this`tx, this`narrowed, this`unbound, db
      ensures rlsContext.IsEmpty() ==>
                ok && AsLink() == old(AsLink()) && narrowed == old(narrowed) && unbound == old(unbound)
      ensures !rlsContext.IsEmpty() ==>
                && (AsLink(), ok) == Postgres.Execute(old(AsLink()), ApplyContextStatement(rlsContext), o, pick)
                && narrowed == (old(narrowed) && !ok) && unbound == !ok
    {
      if rlsContext.IsEmpty() {
        return true;
      }
      ok := Execute(ApplyContextStatement(rlsContext), o, pick);
      narrowed, unbound := narrowed && !ok, !ok;
    }

    /** The commit ends the transaction and its settings; the re-bind restores them in the next one. */
    method Commit(committed: Outcome, rebound: Outcome, pick: ConnId) returns (ok: bool)
      requires Valid()
      modifies this`tx, this`narrowed, this`unbound, db
      ensures Valid()
      ensures EndsAs(Complete(Act(old(db.conns), old(AsSession()), CommitNow, committed, pick), [rebound], pick))
      ensures ok && !rlsContext.IsEmpty() ==> tx.Holding? && View(AsLink()) == rlsContext.AsParams()
    {
      hide Postgres.Execute;
      ghost var start := Act(db.conns, AsSession(), CommitNow, committed, pick);
      StepKeeps(db.conns, AsSession(), CommitNow, committed, pick);
      CompleteKeeps(start, [rebound], pick);
      EndKeeps(AsLink(), committed.Ok?);
      ok := SuperCommit(committed);
      if ok {
        ExecuteKeeps(AsLink(), ApplyContextStatement(rlsContext), rebound, pick);
        ok := RebindRlsContext(rebound, pick);
      }
    }

    /** Without a transaction nothing was discarded, and nothing is re-bound. */
    method RollbackTransaction(rolledBack: Outcome, rebound: Outcome, pick: ConnId) returns (ok: bool)
      requires Valid()
      modifies this`tx, this`narrowed, this`unbound, db
      ensures Valid()
      ensures EndsAs(Complete(Act(old(db.conns), old(AsSession()), RollbackNow, rolledBack, pick), [rebound], pick))
      ensures ok && !old(tx).NoTx? && !rlsContext.IsEmpty() ==>
                tx.Holding? && View(AsLink()) == rlsContext.AsParams()
      ensures old(tx).NoTx? ==> tx.NoTx?
    {
      hide Postgres.Execute, Narrow, Sees, Apply, CommitAndRebind, WellPhased;
      ghost var start := Act(db.conns, AsSession(), RollbackNow, rolledBack, pick);
      StepKeeps(db.conns, AsSession(), RollbackNow, rolledBack, pick);
      CompleteKeeps(start, [rebound], pick);
      EndKeeps(AsLink(), rolledBack.Ok?);
      var hadTransaction := !tx.NoTx?;
      ok := SuperRollback(rolledBack);
      unbound := unbound || !ok;
      if ok && hadTransaction {
        ExecuteKeeps(AsLink(), ApplyContextStatement(rlsContext), rebound, pick);
        ok := RebindRlsContext(rebound, pick);
      }
    }

    /** The new context is remembered only if PostgreSQL has taken it. */
    method SetTenantContext(orgId: string, o: Outcome, pick: ConnId) returns (ok: bool)
      requires Valid()
      modifies this`rlsContext, this`tx, this`narrowed, this`unbound, db
      ensures Valid()
      ensures EndsAs(Act(old(db.conns), old(AsSession()), SetTenant(orgId), o, pick))
      ensures ok ==> rlsContext == old(rlsContext).(orgId := orgId) && View(AsLink()) == rlsContext.AsParams()
      ensures !ok ==> rlsContext == old(rlsContext)
    {
      StepKeeps(db.conns, AsSession(), SetTenant(orgId), o, pick);
      var ctx := rlsContext.(orgId := orgId);
      ExecuteKeeps(AsLink(), ApplyContextStatement(ctx), o, pick);
      ok := Execute(ApplyContextStatement(ctx), o, pick);
      if ok {
        rlsContext, narrowed, unbound := ctx, false, false;
      }
    }

    /** `db.rollback()` on the failure path of a bypass block. */
    method RollbackInRecovery(rolledBack: Outcome, rebound: Outcome, pick: ConnId)
      modifies this`tx, this`narrowed, this`unbound, db
      ensures Rebound(RolledBack(Local(old(db.conns), old(AsSession()).(pc := BypassRollback), []), rolledBack),
                      rebound, pick)
           == Local(db.conns, AsSession().(pc := BypassReassert), [])
    {
      hide Postgres.Execute, Postgres.Commit, Postgres.Rollback, Sees;
      ghost var start := Local(db.conns, AsSession().(pc := BypassRollback), []);
      var hadTransaction := !tx.NoTx?;
      var ok := SuperRollback(rolledBack);
      unbound := unbound || !ok;
      RolledBackIs(start, rolledBack, AsLink(), ok);
      hide RolledBack, Postgres.Rollback, RollbackAndRebind;
      if ok && hadTransaction {
        var _ := RebindRlsContext(rebound, pick);
      }
    }

    method RecoverBypass(rolledBack: Outcome, rebound: Outcome, reasserted: Outcome, pick: ConnId)
      requires depth > 0
      modifies this`tx, this`depth, this`narrowed, this`unbound, db
      ensures EndsAs(Recover(Local(old(db.conns), old(AsSession()).(pc := BypassRollback), []),
                             rolledBack, rebound, reasserted, pick))
    {
      hide Postgres.Execute, RolledBack, Rebound;
      RollbackInRecovery(rolledBack, rebound, pick);
      var ok := Execute(DISABLE_BYPASS, reasserted, pick);
      depth, narrowed := depth - 1, narrowed || ok;
    }

    /**
     The end of an `rls_bypass` block: reset; if that fails, roll back and re-assert. Whatever
     fails, the bypass is gone afterwards unless the session remembers one of its own. If the
     reset works, the rest of the view stands; if it fails, the session sees exactly what it
     remembers if and only if the recovery restores it, and otherwise nothing.
     */
    method LeaveBypass(reset: Outcome, rolledBack: Outcome, rebound: Outcome, reasserted: Outcome, pick: ConnId)
      requires Valid() && depth > 0
      modifies this`tx, this`depth, this`narrowed, this`unbound, db
      ensures Valid() && depth == old(depth) - 1
      ensures var l := Act(old(db.conns), old(AsSession()), ExitBypass, reset, pick);
              EndsAs(if l.session.pc.Handler? then l else Recover(l, rolledBack, rebound, reasserted, pick))
      ensures tx.Holding? && View(AsLink()).bypass == "true" ==> rlsContext.bypassRls
      ensures var l := Act(old(db.conns), old(AsSession()), ExitBypass, reset, pick);
              if l.session.pc.Handler? then View(AsLink()) == old(View(AsLink())).(bypass := "false")
              else
                && (SameRows(View(AsLink()), rlsContext.AsParams()) <==>
                      rlsContext.IsEmpty() ||
                      (Restored(l, rolledBack, rebound, reasserted, pick) && !(rlsContext.bypassRls && reasserted.Ok?)))
                && (!Restored(l, rolledBack, rebound, reasserted, pick) ==> Blank(View(AsLink()), 0))
    {
      hide Postgres.Execute, Recover, SameRows, Restored;
      ExecuteKeeps(AsLink(), DISABLE_BYPASS, reset, pick);
      StepKeeps(db.conns, AsSession(), ExitBypass, reset, pick);
      ghost var start := Act(db.conns, AsSession(), ExitBypass, reset, pick);
      var ok := Execute(DISABLE_BYPASS, reset, pick);
      if ok {
        depth, narrowed := depth - 1, true;
      } else {
        RecoverKeeps(start, rolledBack, rebound, reasserted, pick);
        RecoverExactly(start, rolledBack, rebound, reasserted, pick);
        RecoverRestoresIff(start, rolledBack, rebound, reasserted, pick);
        RecoverBypass(rolledBack, rebound, reasserted, pick);
      }
    }

    /** The remembered context goes first, so no re-bind can bring it back. */
    method ReleaseTenantContext(rolledBack: Outcome)
      requires Valid() && depth == 0
      modifies this`rlsContext, this`tx, this`narrowed, this`unbound, db
      ensures Valid() && rlsContext == NO_CONTEXT && tx.NoTx?
      ensures FramedLink(old(AsLink()), AsLink())
    {
      EndKeeps(AsLink(), rolledBack.Ok?);
      rlsContext := NO_CONTEXT;
      var hadTransaction := !tx.NoTx?;
      var ok := SuperRollback(rolledBack);
      if ok && hadTransaction {
        var _ := RebindRlsContext(rolledBack, 0);
      }
    }
  }
}
