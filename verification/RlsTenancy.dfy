/**
 What a session sees by how it was opened and what it was told, without reference to what it remembers: over all runs,
 from the events alone (core/rls.py:218-291, dependencies/db.py:91-120, 181-205).
 */
module RlsTenancy {
  import opened Postgres
  import opened Rls
  import opened RlsSafety
  import opened RlsExactness

  /** The first time that `sid` is opened is event `n`, and it is opened for this. */
  predicate Opened(events: seq<Event>, n: nat, sid: SessionId, kind: Kind) {
    n < |events| && events[n] == Open(sid, kind) &&
    forall m :: 0 <= m < n ==> !(events[m].Open? && events[m].sid == sid)
  }

  predicate Sets(e: Event, sid: SessionId) {
    e.Step? && e.sid == sid && (e.action.SetTenant? || e.action.SetBypassRls? || e.action.SetLookupCode?)
  }

  /** Nobody sets the tenant, the bypass or the code of this session after it was opened. */
  predicate NeverSet(events: seq<Event>, sid: SessionId) {
    forall e :: e in events ==> !Sets(e, sid)
  }

  predicate NeverBypassed(events: seq<Event>, sid: SessionId) {
    forall e :: e in events ==> !(e.Step? && e.sid == sid && e.action.EnterBypass?)
  }

  /** What a session of this kind works under once it is open. */
  function Base(kind: Kind): RlsContext {
    match kind
    case Request(org) => RlsContext(org, false, "")
    case Verification(org) => RlsContext(org, false, "")
    case Superadmin(org) => RlsContext(org, true, "")
    case Bare => RlsContext("", false, "")
  }

  /** Request code can run, or runs on after this. */
  predicate AtWork(pc: Pc) {
    pc.Handler? || pc.BypassRollback? || pc.BypassReassert? ||
    (pc.Rebinding? && (pc.next.ToHandler? || pc.next.ToReassert?))
  }

  predicate Pinned(s: Session, kind: Kind) {
    (s.pc.Opening? ==> s.pc.kind == kind && s.remembered == RlsContext("", false, "")) &&
    (s.pc.EnablingBypass? ==> kind.Superadmin? && s.remembered == RlsContext(kind.platformOrgId, false, "")) &&
    (AtWork(s.pc) ==> s.remembered == Base(kind))
  }

  /** A step of this session, as far as the session's own books go. */
  predicate OwnBooks(s: Session, l: Local) {
    l.session.id == s.id && forall o :: o in l.seen ==> o.id == s.id && o.remembered == s.remembered
  }

  /** No block was entered or left, and none has cost a bypass. */
  predicate SameBlocks(s: Session, r: Session) {
    r.depth == s.depth && (r.narrowed ==> s.narrowed)
  }

  lemma ApplyBooks(conns: map<ConnId, Connection>, s: Session, ctx: RlsContext, o: Outcome, pick: ConnId, good: Pc,
                   bad: Pc)
    ensures var l := Apply(conns, s, ctx, o, pick, good, bad);
            l.session.id == s.id && l.seen == [] && SameBlocks(s, l.session) &&
            ((l.session.pc == good && l.session.remembered == ctx) ||
             (l.session.pc == bad && l.session.remembered == s.remembered))
  {
    hide Execute;
  }

  lemma RebindBooks(l: Link, s: Session, next: Continuation)
    ensures var r := StartRebind(l, s, next);
            r.session.id == s.id && r.seen == [] && r.session.remembered == s.remembered && SameBlocks(s, r.session) &&
            (r.session.pc == AfterRebind(next, true) || r.session.pc == Rebinding(next))
  {
  }

  /** Where a commit or rollback that goes on to `next` can end; `bad` is where it goes if it fails. */
  predicate Ended(s: Session, l: Local, next: Continuation, bad: Pc) {
    l.session.id == s.id && l.seen == [] && l.session.remembered == s.remembered && SameBlocks(s, l.session) &&
    (l.session.pc == AfterRebind(next, true) || l.session.pc == bad || l.session.pc == Rebinding(next))
  }

  lemma RollbackBooks(conns: map<ConnId, Connection>, s: Session, o: Outcome, next: Continuation)
    ensures Ended(s, RollbackAndRebind(conns, s, o, next), next, AfterRebind(next, false))
  {
    var (l, ok) := Rollback(LinkOf(conns, s), o.Ok?);
    RebindBooks(l, s, next);
    hide Rollback, StartRebind, AfterRebind;
  }

  lemma CommitBooks(conns: map<ConnId, Connection>, s: Session, o: Outcome, next: Continuation, bad: Pc)
    ensures Ended(s, CommitAndRebind(conns, s, o, next, bad), next, bad)
  {
    var (l, ok) := Commit(LinkOf(conns, s), o.Ok?);
    RebindBooks(l, s, next);
    hide Commit, StartRebind, AfterRebind;
  }

  lemma ActBooks(conns: map<ConnId, Connection>, s: Session, a: Action, o: Outcome, pick: ConnId)
    requires s.pc.Handler? && !a.SetTenant? && !a.SetBypassRls? && !a.SetLookupCode?
    ensures var l := Act(conns, s, a, o, pick);
            OwnBooks(s, l) && l.session.remembered == s.remembered &&
            !l.session.pc.Opening? && !l.session.pc.EnablingBypass?
  {
    hide Execute, CommitAndRebind, RollbackAndRebind;
    RollbackBooks(conns, s, o, ToHandler);
    CommitBooks(conns, s, o, ToHandler, Handler);
  }

  lemma OpeningPinned(conns: map<ConnId, Connection>, s: Session, a: Action, o: Outcome, pick: ConnId, kind: Kind)
    requires Pinned(s, kind) && (s.pc.Opening? || s.pc.EnablingBypass?)
    ensures var l := StepSession(conns, s, a, o, pick); Pinned(l.session, kind) && l.seen == []
  {
    hide Apply;
    match s.pc
    case Opening(Request(org)) => ApplyBooks(conns, s, RlsContext(org, false, ""), o, pick, Handler, ErrorRollback);
    case Opening(Verification(org)) => ApplyBooks(conns, s, RlsContext(org, false, ""), o, pick, Handler, Releasing);
    case Opening(Superadmin(org)) => ApplyBooks(conns, s, RlsContext(org, false, ""), o, pick, EnablingBypass, Closing);
    case Opening(Bare) =>
    case EnablingBypass =>
      ApplyBooks(conns, s, RlsContext(kind.platformOrgId, true, ""), o, pick, Handler, Closing);
  }

  lemma EndingPinned(conns: map<ConnId, Connection>, s: Session, a: Action, o: Outcome, pick: ConnId, kind: Kind)
    requires Pinned(s, kind) && (s.pc.BypassRollback? || s.pc.FinalCommit? || s.pc.ErrorRollback?)
    ensures var l := StepSession(conns, s, a, o, pick); Pinned(l.session, kind) && l.seen == []
  {
    hide CommitAndRebind, RollbackAndRebind, Base;
    RollbackBooks(conns, s, o, ToReassert);
    CommitBooks(conns, s, o, ToFinish, ErrorRollback);
    RollbackBooks(conns, s, o, ToRelease);
  }

  lemma StepPinned(conns: map<ConnId, Connection>, s: Session, a: Action, o: Outcome, pick: ConnId, kind: Kind)
    requires Pinned(s, kind) && !a.SetTenant? && !a.SetBypassRls? && !a.SetLookupCode?
    ensures var l := StepSession(conns, s, a, o, pick);
            Pinned(l.session, kind) && forall x :: x in l.seen ==> x.remembered == Base(kind)
  {
    hide Execute, Commit, Rollback, Apply, CommitAndRebind, RollbackAndRebind, Act, Base;
    if s.pc.Opening? || s.pc.EnablingBypass? {
      OpeningPinned(conns, s, a, o, pick, kind);
    } else if s.pc.BypassRollback? || s.pc.FinalCommit? || s.pc.ErrorRollback? {
      EndingPinned(conns, s, a, o, pick, kind);
    } else if s.pc.Handler? {
      ActBooks(conns, s, a, o, pick);
    }
  }

  lemma SetterBooks(conns: map<ConnId, Connection>, s: Session, a: Action, o: Outcome, pick: ConnId)
    requires s.pc.Handler?
    ensures OwnBooks(s, Act(conns, s, a, o, pick))
  {
    hide Execute, Apply, CommitAndRebind, RollbackAndRebind;
    match a
    case SetTenant(org) => ApplyBooks(conns, s, s.remembered.(orgId := org), o, pick, Handler, Handler);
    case SetBypassRls(b) => ApplyBooks(conns, s, s.remembered.(bypassRls := b), o, pick, Handler, Handler);
    case SetLookupCode(c) => ApplyBooks(conns, s, s.remembered.(lookupCode := c), o, pick, Handler, Handler);
    case _ => ActBooks(conns, s, a, o, pick);
  }

  lemma SeenById(conns: map<ConnId, Connection>, s: Session, a: Action, o: Outcome, pick: ConnId)
    ensures OwnBooks(s, StepSession(conns, s, a, o, pick))
  {
    hide Execute, Commit, Rollback, Apply, CommitAndRebind, RollbackAndRebind, Act;
    match s.pc
    case Opening(Request(org)) => ApplyBooks(conns, s, RlsContext(org, false, ""), o, pick, Handler, ErrorRollback);
    case Opening(Verification(org)) => ApplyBooks(conns, s, RlsContext(org, false, ""), o, pick, Handler, Releasing);
    case Opening(Superadmin(org)) => ApplyBooks(conns, s, s.remembered.(orgId := org), o, pick, EnablingBypass, Closing);
    case EnablingBypass => ApplyBooks(conns, s, s.remembered.(bypassRls := true), o, pick, Handler, Closing);
    case Handler => SetterBooks(conns, s, a, o, pick);
    case BypassRollback => RollbackBooks(conns, s, o, ToReassert);
    case FinalCommit => CommitBooks(conns, s, o, ToFinish, ErrorRollback);
    case ErrorRollback => RollbackBooks(conns, s, o, ToRelease);
    case _ =>
  }

  ghost predicate WorldPinned(w: World, sid: SessionId, kind: Kind) {
    sid in w.sessions && Pinned(w.sessions[sid], kind) &&
    forall o :: o in w.log && o.id == sid ==> o.remembered == Base(kind)
  }

  /** A session is never opened before the first event that opens it. */
  lemma {:induction false} NotYetOpen(events: seq<Event>, sid: SessionId)
    requires forall e :: e in events ==> !(e.Open? && e.sid == sid)
    ensures sid !in Run(events).sessions && forall o :: o in Run(events).log ==> o.id != sid
  {
    if events != [] {
      var front, last := events[..|events| - 1], events[|events| - 1];
      NotYetOpen(front, sid);
      RunIsExact(front);
      hide Run, StepSession;
      LastStep(events);
      assert last in events;
      if last.Step? && last.sid in Run(front).sessions {
        var s := Run(front).sessions[last.sid];
        SeenById(Run(front).conns, s, last.action, last.outcome, last.pick);
      }
    }
  }

  lemma {:induction false} RunPinned(events: seq<Event>, n: nat, sid: SessionId, kind: Kind)
    requires Opened(events, n, sid, kind) && NeverSet(events, sid)
    ensures WorldPinned(Run(events), sid, kind)
  {
    var front, last := events[..|events| - 1], events[|events| - 1];
    LastStep(events);
    hide Run, StepSession, Pinned;
    if n == |events| - 1 {
      NotYetOpen(front, sid);
      OpenedPinned(Run(front), sid, kind);
    } else {
      assert forall e :: e in front ==> e in events;
      RunPinned(front, n, sid, kind);
      RunIsExact(front);
      assert last in events;
      NextPinned(Run(front), last, sid, kind);
    }
  }

  lemma OpenedPinned(w: World, sid: SessionId, kind: Kind)
    requires sid !in w.sessions && forall o :: o in w.log ==> o.id != sid
    ensures WorldPinned(Next(w, Open(sid, kind)), sid, kind)
  {
  }

  lemma NextPinned(w: World, e: Event, sid: SessionId, kind: Kind)
    requires Exact(w) && WorldPinned(w, sid, kind) && !Sets(e, sid)
    ensures WorldPinned(Next(w, e), sid, kind)
  {
    hide StepSession, Pinned, SessionExact, ObservationExact;
    if e.Step? && e.sid in w.sessions {
      var s := w.sessions[e.sid];
      SeenById(w.conns, s, e.action, e.outcome, e.pick);
      if e.sid == sid {
        StepPinned(w.conns, s, e.action, e.outcome, e.pick, kind);
      }
    }
  }

  // -- What a session sees by how it was opened ----------------------------------------------------------------------

  /**
   Over every run: a session of `get_db` for a tenant, whose context nobody sets again, sees no row of another tenant,
   and none at all without a tenant. If its rollbacks and re-binds work it sees exactly the tenant's rows.
   */
  lemma TenantSeesOnlyItsRows(events: seq<Event>, n: nat, sid: SessionId, org: string, i: nat, row: Row)
    requires Opened(events, n, sid, Request(org)) || Opened(events, n, sid, Verification(org))
    requires NeverSet(events, sid)
    requires i < |Run(events).log| && Run(events).log[i].id == sid && Run(events).log[i].depth == 0
    ensures Sees(Run(events).log[i].view, row) ==> org != "" && row.orgId == org
    ensures BindingsWork(events, sid) ==> (Sees(Run(events).log[i].view, row) <==> org != "" && row.orgId == org)
  {
    var kind := if Opened(events, n, sid, Request(org)) then Request(org) else Verification(org);
    RunPinned(events, n, sid, kind);
    hide Run;
    assert Run(events).log[i].remembered == RlsContext(org, false, "");
    NeverAnotherTenant(events, i, row);
    if BindingsWork(events, sid) {
      ReliableSessionSeesItsTenant(events, i);
    }
  }

  /** A session that was opened without any context, and is never given one, sees nothing. */
  lemma BareSeesNothing(events: seq<Event>, n: nat, sid: SessionId, i: nat, row: Row)
    requires Opened(events, n, sid, Bare) && NeverSet(events, sid)
    requires i < |Run(events).log| && Run(events).log[i].id == sid && Run(events).log[i].depth == 0
    ensures !Sees(Run(events).log[i].view, row)
  {
    RunPinned(events, n, sid, Bare);
    hide Run;
    assert Run(events).log[i].remembered == RlsContext("", false, "");
    NeverAnotherTenant(events, i, row);
  }

  predicate Unbypassed(s: Session) {
    s.depth == 0 && !s.narrowed
  }

  lemma ActUnbypassed(conns: map<ConnId, Connection>, s: Session, a: Action, o: Outcome, pick: ConnId)
    requires Unbypassed(s) && s.pc.Handler? && !a.EnterBypass?
    ensures var l := Act(conns, s, a, o, pick);
            Unbypassed(l.session) && forall x :: x in l.seen ==> x.depth == 0 && !x.narrowed
  {
    hide Execute, Apply, CommitAndRebind, RollbackAndRebind;
    RollbackBooks(conns, s, o, ToHandler);
    CommitBooks(conns, s, o, ToHandler, Handler);
    match a
    case SetTenant(org) => ApplyBooks(conns, s, s.remembered.(orgId := org), o, pick, Handler, Handler);
    case SetBypassRls(x) => ApplyBooks(conns, s, s.remembered.(bypassRls := x), o, pick, Handler, Handler);
    case SetLookupCode(c) => ApplyBooks(conns, s, s.remembered.(lookupCode := c), o, pick, Handler, Handler);
    case _ =>
  }

  lemma StepUnbypassed(conns: map<ConnId, Connection>, s: Session, a: Action, o: Outcome, pick: ConnId)
    requires Unbypassed(s) && !(s.pc.Handler? && a.EnterBypass?)
    ensures var l := StepSession(conns, s, a, o, pick);
            Unbypassed(l.session) && forall x :: x in l.seen ==> x.depth == 0 && !x.narrowed
  {
    hide Execute, Commit, Rollback, Apply, CommitAndRebind, RollbackAndRebind, Act;
    match s.pc
    case Opening(Request(org)) => ApplyBooks(conns, s, RlsContext(org, false, ""), o, pick, Handler, ErrorRollback);
    case Opening(Verification(org)) => ApplyBooks(conns, s, RlsContext(org, false, ""), o, pick, Handler, Releasing);
    case Opening(Superadmin(org)) => ApplyBooks(conns, s, s.remembered.(orgId := org), o, pick, EnablingBypass, Closing);
    case EnablingBypass => ApplyBooks(conns, s, s.remembered.(bypassRls := true), o, pick, Handler, Closing);
    case Handler => ActUnbypassed(conns, s, a, o, pick);
    case BypassRollback => RollbackBooks(conns, s, o, ToReassert);
    case FinalCommit => CommitBooks(conns, s, o, ToFinish, ErrorRollback);
    case ErrorRollback => RollbackBooks(conns, s, o, ToRelease);
    case _ =>
  }

  /** Without a bypass block, a session's statements are all outside of one. */
  lemma {:induction false} RunUnbypassed(events: seq<Event>, sid: SessionId)
    requires NeverBypassed(events, sid)
    ensures sid in Run(events).sessions ==> Unbypassed(Run(events).sessions[sid])
    ensures forall o :: o in Run(events).log && o.id == sid ==> o.depth == 0 && !o.narrowed
  {
    if events != [] {
      var front, last := events[..|events| - 1], events[|events| - 1];
      assert last in events && forall e :: e in front ==> e in events;
      RunUnbypassed(front, sid);
      RunIsExact(front);
      LastStep(events);
      hide Run, StepSession, SessionExact, ObservationExact;
      var w := Run(front);
      if last.Step? && last.sid in w.sessions {
        SeenById(w.conns, w.sessions[last.sid], last.action, last.outcome, last.pick);
        if last.sid == sid {
          StepUnbypassed(w.conns, w.sessions[sid], last.action, last.outcome, last.pick);
        }
      }
    }
  }

  /** A tenant session without bypass blocks never sees another tenant's row, in any statement. */
  lemma TenantWithoutBlocks(events: seq<Event>, n: nat, sid: SessionId, org: string, i: nat, row: Row)
    requires Opened(events, n, sid, Request(org)) && NeverSet(events, sid) && NeverBypassed(events, sid)
    requires i < |Run(events).log| && Run(events).log[i].id == sid && Sees(Run(events).log[i].view, row)
    ensures org != "" && row.orgId == org
  {
    RunUnbypassed(events, sid);
    hide Run;
    TenantSeesOnlyItsRows(events, n, sid, org, i, row);
  }

  /** A session of `get_db_superadmin` sees every row, as long as it opens no block and its re-binds work. */
  lemma SuperadminSeesEveryRow(events: seq<Event>, n: nat, sid: SessionId, platform: string, i: nat, row: Row)
    requires Opened(events, n, sid, Superadmin(platform)) && NeverSet(events, sid) && NeverBypassed(events, sid)
    requires i < |Run(events).log| && Run(events).log[i].id == sid && BindingsWork(events, sid)
    ensures Sees(Run(events).log[i].view, row)
  {
    RunPinned(events, n, sid, Superadmin(platform));
    RunUnbypassed(events, sid);
    hide Run;
    assert Run(events).log[i].remembered == RlsContext(platform, true, "");
    ReliableSessionSeesItsTenant(events, i);
    assert Sees(RlsContext(platform, true, "").AsParams(), row);
  }

  // -- What the setters do -------------------------------------------------------------------------------------------

  predicate SameSetter(a: Action, b: Action) {
    (a.SetTenant? && b.SetTenant?) || (a.SetBypassRls? && b.SetBypassRls?) || (a.SetLookupCode? && b.SetLookupCode?)
  }

  predicate Holds(ctx: RlsContext, a: Action) {
    match a
    case SetTenant(org) => ctx.orgId == org
    case SetBypassRls(enabled) => ctx.bypassRls == enabled
    case SetLookupCode(code) => ctx.lookupCode == code
    case _ => true
  }

  /** Request code makes this call, and its statement succeeds. */
  predicate Taken(w: World, e: Event) {
    e.Step? && e.sid in w.sessions && w.sessions[e.sid].pc.Handler? &&
    Execute(LinkOf(w.conns, w.sessions[e.sid]), Query, e.outcome, e.pick).1
  }

  lemma TakenAlike(l: Link, a: Statement, b: Statement, o: Outcome, pick: ConnId)
    ensures Execute(l, a, o, pick).1 == Execute(l, b, o, pick).1
  {
  }

  predicate StillHolds(s: Session, a: Action) {
    !s.pc.Opening? && !s.pc.EnablingBypass? && (AtWork(s.pc) ==> Holds(s.remembered, a))
  }

  lemma SetterTakes(conns: map<ConnId, Connection>, s: Session, a: Action, o: Outcome, pick: ConnId)
    requires s.pc.Handler? && Execute(LinkOf(conns, s), Query, o, pick).1
    ensures Holds(StepSession(conns, s, a, o, pick).session.remembered, a)
    ensures a.SetTenant? || a.SetBypassRls? || a.SetLookupCode? ==>
              StepSession(conns, s, a, o, pick).session.pc.Handler? && StepSession(conns, s, a, o, pick).seen == []
  {
    hide Execute, CommitAndRebind, RollbackAndRebind;
    match a
    case SetTenant(org) =>
      TakenAlike(LinkOf(conns, s), Query, ApplyContextStatement(s.remembered.(orgId := org)), o, pick);
    case SetBypassRls(b) =>
      TakenAlike(LinkOf(conns, s), Query, ApplyContextStatement(s.remembered.(bypassRls := b)), o, pick);
    case SetLookupCode(c) =>
      TakenAlike(LinkOf(conns, s), Query, ApplyContextStatement(s.remembered.(lookupCode := c)), o, pick);
    case _ =>
  }

  lemma OtherActHolds(conns: map<ConnId, Connection>, s: Session, a: Action, o: Outcome, pick: ConnId, b: Action)
    requires s.pc.Handler? && Holds(s.remembered, b) && !SameSetter(a, b)
    ensures StillHolds(Act(conns, s, a, o, pick).session, b)
  {
    hide Execute, Apply, CommitAndRebind, RollbackAndRebind;
    match a
    case SetTenant(org) => ApplyBooks(conns, s, s.remembered.(orgId := org), o, pick, Handler, Handler);
    case SetBypassRls(x) => ApplyBooks(conns, s, s.remembered.(bypassRls := x), o, pick, Handler, Handler);
    case SetLookupCode(c) => ApplyBooks(conns, s, s.remembered.(lookupCode := c), o, pick, Handler, Handler);
    case _ => ActBooks(conns, s, a, o, pick);
  }

  lemma StepStillHolds(conns: map<ConnId, Connection>, s: Session, a: Action, o: Outcome, pick: ConnId, b: Action)
    requires StillHolds(s, b) && !SameSetter(a, b)
    ensures StillHolds(StepSession(conns, s, a, o, pick).session, b)
    ensures forall x :: x in StepSession(conns, s, a, o, pick).seen ==> Holds(x.remembered, b)
  {
    hide Execute, Commit, Rollback, Act, CommitAndRebind, RollbackAndRebind, Holds;
    SeenById(conns, s, a, o, pick);
    if s.pc.Handler? {
      OtherActHolds(conns, s, a, o, pick, b);
    } else if s.pc.BypassRollback? || s.pc.FinalCommit? || s.pc.ErrorRollback? {
      RollbackBooks(conns, s, o, ToReassert);
      CommitBooks(conns, s, o, ToFinish, ErrorRollback);
      RollbackBooks(conns, s, o, ToRelease);
    }
  }

  /** From the setter on, until the next one of its sort, the session remembers what it set. */
  lemma {:induction false} SetterLasts(events: seq<Event>, n: nat)
    requires n < |events| && Taken(Run(events[..n]), events[n])
    requires var a := events[n].action; a.SetTenant? || a.SetBypassRls? || a.SetLookupCode?
    requires forall m :: n < m < |events| ==>
               !(events[m].Step? && events[m].sid == events[n].sid && SameSetter(events[m].action, events[n].action))
    ensures var w, e := Run(events), events[n];
            |Run(events[..n]).log| <= |w.log| && e.sid in w.sessions && StillHolds(w.sessions[e.sid], e.action) &&
            forall i :: |Run(events[..n]).log| <= i < |w.log| && w.log[i].id == e.sid ==>
              Holds(w.log[i].remembered, e.action)
    decreases |events|
  {
    var front, last, e := events[..|events| - 1], events[|events| - 1], events[n];
    LastStep(events);
    RunIsExact(front);
    hide Run, StepSession, StillHolds, Holds, SessionExact, ObservationExact, Execute;
    var w := Run(front);
    if n == |events| - 1 {
      SetterTakes(w.conns, w.sessions[e.sid], e.action, e.outcome, e.pick);
      assert StillHolds(Run(events).sessions[e.sid], e.action) by { IsStillHolding(Run(events).sessions[e.sid], e.action); }
    } else {
      assert front[..n] == events[..n] && front[n] == e;
      SetterLasts(front, n);
      if last.Step? && last.sid in w.sessions {
        SeenById(w.conns, w.sessions[last.sid], last.action, last.outcome, last.pick);
        if last.sid == e.sid {
          StepStillHolds(w.conns, w.sessions[e.sid], last.action, last.outcome, last.pick, e.action);
        }
      }
    }
  }

  lemma IsStillHolding(s: Session, a: Action)
    requires s.pc.Handler? && Holds(s.remembered, a)
    ensures StillHolds(s, a)
  {
  }

  /**
   The last successful setter of each sort decides, for every statement after it, across every commit and rollback:
   the tenant and the code in force are those set, or none if a binding failed; outside bypass blocks the bypass is on
   only if it was switched on, and exactly then if bindings work and there are no blocks.
   */
  lemma LastSetterDecides(events: seq<Event>, n: nat, i: nat)
    requires n < |events| && Taken(Run(events[..n]), events[n])
    requires forall m :: n < m < |events| ==>
               !(events[m].Step? && events[m].sid == events[n].sid && SameSetter(events[m].action, events[n].action))
    requires |Run(events[..n]).log| <= i < |Run(events).log| && Run(events).log[i].id == events[n].sid
    ensures var e, o := events[n], Run(events).log[i];
            var works := BindingsWork(events, e.sid);
            match e.action
            case SetTenant(org) => (o.view.orgId == "" || o.view.orgId == org) && (works ==> o.view.orgId == org)
            case SetLookupCode(code) => (o.view.lookup == "" || o.view.lookup == code) && (works ==> o.view.lookup == code)
            case SetBypassRls(enabled) =>
              (o.depth == 0 && o.view.bypass == "true" ==> enabled) &&
              (works && NeverBypassed(events, e.sid) ==> (o.view.bypass == "true" <==> enabled))
            case _ => true
  {
    var e := events[n];
    if e.action.SetTenant? || e.action.SetBypassRls? || e.action.SetLookupCode? {
      SetterLasts(events, n);
      RunIsExact(events);
      RunKeepsInv(events);
      hide Run, Taken;
      var o := Run(events).log[i];
      assert ObservationExact(o) && ObservationSafe(o) && Holds(o.remembered, e.action);
      if BindingsWork(events, e.sid) {
        BoundWhileBindingsWork(events, e.sid);
      }
      if NeverBypassed(events, e.sid) {
        RunUnbypassed(events, e.sid);
      }
    }
  }

  // -- Statements and bypass blocks ----------------------------------------------------------------------------------

  /** Every query that succeeds is in the log, with the settings that its transaction had on its connection. */
  lemma QueryIsLogged(events: seq<Event>, e: Event)
    requires Taken(Run(events), e) && e.action.RunQuery?
    ensures var w, r := Run(events), Run(events + [e]);
            |r.log| == |w.log| + 1 && r.log[..|w.log|] == w.log && r.log[|w.log|].id == e.sid &&
            r.sessions[e.sid].tx.Holding? && r.sessions[e.sid].tx.conn in r.conns &&
            r.conns[r.sessions[e.sid].tx.conn].transaction.InTransaction? &&
            r.log[|w.log|].view == r.conns[r.sessions[e.sid].tx.conn].transaction.effective
  {
    assert (events + [e])[..|events|] == events;
    LastStep(events + [e]);
    RunIsExact(events);
    RunKeepsInv(events);
    hide Run;
    var w := Run(events);
    LinkCleanOf(w.conns, w.sessions[e.sid]);
    ExecuteKeeps(LinkOf(w.conns, w.sessions[e.sid]), Query, e.outcome, e.pick);
    hide Execute, Commit, Rollback;
    assert w.sessions[e.sid].id == e.sid;
  }

  /**
   Inside a bypass block every row is seen, and after its end no row by the bypass: for every run, a block that is
   entered, one query, the end of the block and another query, if all four statements succeed.
   */
  lemma BlockOpensAndCloses(events: seq<Event>, enter: Event, first: Event, leave: Event, second: Event, row: Row)
    requires Taken(Run(events), enter) && enter.action.EnterBypass?
    requires Taken(Run(events + [enter]), first) && first.action.RunQuery?
    requires Taken(Run(events + [enter] + [first]), leave) && leave.action.ExitBypass?
    requires Taken(Run(events + [enter] + [first] + [leave]), second) && second.action.RunQuery?
    requires enter.sid == first.sid == leave.sid == second.sid
    ensures var inside, after := Run(events + [enter] + [first]).log, Run(events + [enter] + [first] + [leave] + [second]).log;
            inside != [] && Sees(inside[|inside| - 1].view, row) &&
            after != [] && after[|after| - 1].view.bypass != "true"
  {
    Ends(events, enter);
    Ends(events + [enter], first);
    Ends(events + [enter] + [first], leave);
    Ends(events + [enter] + [first] + [leave], second);
    hide Run;
  }

  /** What one successful statement of a block leaves in force, and what a query shows of it. */
  lemma Ends(events: seq<Event>, e: Event)
    requires Taken(Run(events), e) && (e.action.EnterBypass? || e.action.ExitBypass? || e.action.RunQuery?)
    ensures AfterStatement(Run(events), Run(events + [e]), e)
  {
    assert (events + [e])[..|events|] == events;
    LastStep(events + [e]);
    RunKeepsInv(events);
    hide Run;
    var w := Run(events);
    var s := w.sessions[e.sid];
    StatementEnds(w.conns, s, e.action, e.outcome, e.pick);
    hide StepSession, Execute, View;
  }

  predicate AfterStatement(w: World, r: World, e: Event)
    requires e.Step? && e.sid in w.sessions
  {
    var s := w.sessions[e.sid];
    e.sid in r.sessions && r.sessions[e.sid].pc.Handler? &&
    (r.sessions[e.sid].tx.Holding? || (e.action.ExitBypass? && s.depth == 0)) &&
    var t, was, view := r.sessions[e.sid], View(LinkOf(w.conns, s)), View(LinkOf(r.conns, r.sessions[e.sid]));
    (e.action.EnterBypass? ==> view.bypass == "true" && t.depth == s.depth + 1) &&
    (e.action.ExitBypass? && s.depth > 0 ==> view.bypass == "false") &&
    (e.action.RunQuery? ==>
       t.depth == s.depth && (s.tx.Holding? ==> view == was) && r.log != [] && r.log[|r.log| - 1].view == view)
  }

  lemma StatementEnds(conns: map<ConnId, Connection>, s: Session, a: Action, o: Outcome, pick: ConnId)
    requires ConnsClean(conns) && SessionSafe(conns, s) && s.pc.Handler?
    requires Execute(LinkOf(conns, s), Query, o, pick).1
    requires a.EnterBypass? || a.ExitBypass? || a.RunQuery?
    ensures var l := StepSession(conns, s, a, o, pick);
            var was, view := View(LinkOf(conns, s)), View(LinkOf(l.conns, l.session));
            l.session.pc.Handler? && (l.session.tx.Holding? || (a.ExitBypass? && s.depth == 0)) &&
            (a.EnterBypass? ==> view.bypass == "true" && l.session.depth == s.depth + 1) &&
            (a.ExitBypass? && s.depth > 0 ==> view.bypass == "false") &&
            (a.RunQuery? ==> l.session.depth == s.depth && (s.tx.Holding? ==> view == was) &&
                             |l.seen| == 1 && l.seen[0].view == view)
  {
    hide Execute, View;
    LinkCleanOf(conns, s);
    var stmt := if a.RunQuery? then Query else if a.EnterBypass? then ENABLE_BYPASS else DISABLE_BYPASS;
    ExecuteKeeps(LinkOf(conns, s), stmt, o, pick);
    TakenAlike(LinkOf(conns, s), stmt, Query, o, pick);
  }

  // -- That it works -------------------------------------------------------------------------------------------------

  /** A session opens, and its first query, with every call working: the tenant's rows and no others. */
  lemma TenantOpensAndSees(org: string, verification: bool, row: Row) returns (events: seq<Event>)
    ensures |Run(events).log| == 1 && Run(events).log[0].id == 0 && Run(events).log[0].depth == 0
    ensures Sees(Run(events).log[0].view, row) <==> org != "" && row.orgId == org
  {
    var kind := if verification then Verification(org) else Request(org);
    var e0, e1, e2 := Open(0, kind), Step(0, RunQuery, Ok, 0), Step(0, RunQuery, Ok, 0);
    var view := Settings(org, "false", "");
    var s := Session(0, RlsContext(org, false, ""), Holding(0), Handler, 0, false, false, !verification);
    var conns := map[0 := Connection(UNSET, InTransaction(view, UNSET, false))];
    RunThree(e0, e1, e2);
    var w0 := Next(START, e0);
    var w1 := Next(w0, e1);
    assert w1 == World(conns, map[0 := s], []);
    var w2 := Next(w1, e2);
    assert w2.log == [Observation(0, view, s.remembered, 0, false, false)];
    events := [e0] + [e1] + [e2];
  }

  lemma RunThree(a: Event, b: Event, c: Event)
    ensures Run([a] + [b] + [c]) == Next(Next(Next(START, a), b), c)
  {
    hide Next;
    assert ([a] + [b] + [c])[..2] == [a] + [b] && ([a] + [b])[..1] == [a] && [a][..0] == [];
    LastStep([a]);
    LastStep([a] + [b]);
    LastStep([a] + [b] + [c]);
    LastStep([]);
  }

  /** A block that fails to be entered is none, and one that is entered counts. */
  lemma EnteringCounts(conns: map<ConnId, Connection>, s: Session, o: Outcome, pick: ConnId)
    requires s.pc.Handler?
    ensures var taken := Execute(LinkOf(conns, s), Query, o, pick).1;
            StepSession(conns, s, EnterBypass, o, pick).session.depth == s.depth + if taken then 1 else 0
  {
    TakenAlike(LinkOf(conns, s), Query, ENABLE_BYPASS, o, pick);
    hide Execute;
  }

  /** The steps of a session after its first query, with every call working: how it ends. */
  function Ending(kind: Kind, org: string, raises: bool): seq<Pc> {
    if kind.Verification? then [Releasing, Closing, Closed]
    else if raises then [ErrorRollback, Rebinding(ToRelease), Releasing, Closing, Closed]
    else [FinalCommit, Rebinding(ToFinish), Releasing, Closing, Closed]
  }

  /**
   How a tenant session ends, step by step: a request commits when its handler returns and rolls back when it raises,
   and is then released and closed; the session that verifies a superadmin is only released.
   */
  lemma SessionEnds(org: string, verification: bool, raises: bool, k: nat)
    requires org != ""
    requires var kind := if verification then Verification(org) else Request(org); k < |Ending(kind, org, raises)|
    ensures var kind := if verification then Verification(org) else Request(org);
            var first := Step(0, if raises then Raise else Return, Ok, 0);
            var w := After(Open(0, kind), first, k);
            0 in w.sessions && w.sessions[0].pc == Ending(kind, org, raises)[k] &&
            (w.sessions[0].pc.Closed? ==> w.sessions[0].remembered == RlsContext("", false, "") && w.sessions[0].tx.NoTx?)
  {
    var kind := if verification then Verification(org) else Request(org);
    EndingSteps(kind, org, raises, k);
  }

  /** Where that run stands after `k` steps: the connection is busy until the end of the last transaction. */
  function Expected(kind: Kind, org: string, raises: bool, k: nat): World
    requires k < |Ending(kind, org, raises)|
  {
    var pc := Ending(kind, org, raises)[k];
    var busy := (k == 0 || pc == Releasing);
    World(map[0 := Connection(UNSET, if busy then InTransaction(Settings(org, "false", ""), UNSET, false) else Idle)],
          map[0 := Session(0, if pc == Closing || pc == Closed then NO_CONTEXT else RlsContext(org, false, ""),
                           if busy then Holding(0) else NoTx, pc, 0, false, false, !kind.Verification?)], [])
  }

  lemma {:induction false} EndingSteps(kind: Kind, org: string, raises: bool, k: nat)
    requires org != "" && (kind == Request(org) || kind == Verification(org)) && k < |Ending(kind, org, raises)|
    ensures After(Open(0, kind), Step(0, if raises then Raise else Return, Ok, 0), k) == Expected(kind, org, raises, k)
  {
    var first := Step(0, if raises then Raise else Return, Ok, 0);
    hide Next, Expected;
    if k == 0 {
      HandlerRuns(kind, org);
      HandlerEnds(kind, org, raises);
      hide Running, Ending;
      assert After(Open(0, kind), first, 0) == Next(Running(kind, org), first);
    } else {
      EndingSteps(kind, org, raises, k - 1);
      EndingStep(kind, org, raises, k);
    }
  }

  function Running(kind: Kind, org: string): World {
    World(map[0 := Connection(UNSET, InTransaction(Settings(org, "false", ""), UNSET, false))],
          map[0 := Session(0, RlsContext(org, false, ""), Holding(0), Handler, 0, false, false, !kind.Verification?)], [])
  }

  lemma HandlerRuns(kind: Kind, org: string)
    requires kind == Request(org) || kind == Verification(org)
    ensures Next(Next(START, Open(0, kind)), Step(0, RunQuery, Ok, 0)) == Running(kind, org)
  {
    var s := Session(0, NO_CONTEXT, NoTx, Opening(kind), 0, false, false, !kind.Verification?);
    assert Next(START, Open(0, kind)) == World(map[], map[0 := s], []);
  }

  lemma HandlerEnds(kind: Kind, org: string, raises: bool)
    requires kind == Request(org) || kind == Verification(org)
    ensures Next(Running(kind, org), Step(0, if raises then Raise else Return, Ok, 0)) == Expected(kind, org, raises, 0)
  {
  }

  lemma EndingStep(kind: Kind, org: string, raises: bool, k: nat)
    requires org != "" && (kind == Request(org) || kind == Verification(org)) && 0 < k < |Ending(kind, org, raises)|
    ensures Next(Expected(kind, org, raises, k - 1), Step(0, RunQuery, Ok, 0)) == Expected(kind, org, raises, k)
  {
    var w := Expected(kind, org, raises, k - 1);
    var l := StepSession(w.conns, w.sessions[0], RunQuery, Ok, 0);
    EndingSessionStep(kind, org, raises, k);
    hide StepSession, Expected;
    assert w.sessions[0 := l.session] == map[0 := l.session];
  }

  lemma EndingSessionStep(kind: Kind, org: string, raises: bool, k: nat)
    requires org != "" && (kind == Request(org) || kind == Verification(org)) && 0 < k < |Ending(kind, org, raises)|
    ensures var w, r := Expected(kind, org, raises, k - 1), Expected(kind, org, raises, k);
            StepSession(w.conns, w.sessions[0], RunQuery, Ok, 0) == Local(r.conns, r.sessions[0], []) &&
            w.sessions.Keys == {0} && r.sessions == map[0 := r.sessions[0]] && r.log == [] && w.log == []
  {
  }

  /** The world after the opening, the end of the handler and `k` more steps that work. */
  function After(start: Event, first: Event, k: nat): World {
    if k == 0 then Next(Next(Next(START, start), Step(0, RunQuery, Ok, 0)), first)
    else Next(After(start, first, k - 1), Step(0, RunQuery, Ok, 0))
  }
}
