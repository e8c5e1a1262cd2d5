/**
 The part of PostgreSQL and of the SQLAlchemy session that the tenant context
 depends on: settings that live for a session or only for a transaction, a pool
 of connections, and statements that can fail in four different ways.
 */
module Postgres {
  /** The three settings that the row-level-security policies read (core/rls.py:4-22). */
  datatype Settings = Settings(orgId: string, bypass: string, lookup: string)

  const UNSET := Settings("", "", "")

  /**
   `set_config(name, value, is_local)` and everything else. A local value ends with the
   transaction; a non-local one survives its commit.
   */
  datatype Statement =
    | BindContext(values: Settings, isLocal: bool)
    | SetBypass(value: string, isLocal: bool)
    | Query

  datatype Transaction =
    | Idle
    | InTransaction(effective: Settings, afterCommit: Settings, aborted: bool)

  /** A server connection: what it carries between transactions, and its open one. */
  datatype Connection = Connection(durable: Settings, transaction: Transaction)

  const NEW_CONNECTION := Connection(UNSET, Idle)

  function Begin(c: Connection): Connection {
    c.(transaction := InTransaction(c.durable, c.durable, false))
  }

  /** COMMIT of an aborted transaction rolls it back. */
  function End(c: Connection, commit: bool): Connection {
    if c.transaction.InTransaction? && commit && !c.transaction.aborted
    then Connection(c.transaction.afterCommit, Idle)
    else Connection(c.durable, Idle)
  }

  function RunStatement(t: Transaction, stmt: Statement): (r: Transaction)
    requires t.InTransaction?
    ensures r.InTransaction?
  {
    match stmt
    case BindContext(v, isLocal) =>
      t.(effective := v, afterCommit := if isLocal then t.afterCommit else v)
    case SetBypass(v, isLocal) =>
      t.(effective := t.effective.(bypass := v),
         afterCommit := if isLocal then t.afterCommit else t.afterCommit.(bypass := v))
    case Query => t
  }

  /** A tenant row, as far as the policies look at it. */
  datatype Row = Row(orgId: string, joinCode: string)

  /** The policies: the bypass, the bound tenant, or the presented join code. */
  predicate Sees(s: Settings, row: Row) {
    || s.bypass == "true"
    || (s.orgId != "" && row.orgId == s.orgId)
    || (s.lookup != "" && row.joinCode == s.lookup)
  }

  type ConnId = nat

  /**
   How one database call ends: it works, the server rejects it (which aborts the
   transaction), it fails before it reaches the server (which changes nothing there),
   or the connection is lost or could not be had.
   */
  datatype Outcome = Ok | ServerError | ClientError | Lost

  /**
   The session's transaction: none, begun without a connection yet, open on a
   connection of the pool, or spoiled until it is rolled back.
   */
  datatype Tx = NoTx | Begun | Holding(conn: ConnId) | Invalid

  /** What a session's calls can touch: the server's connections and its own transaction. */
  datatype Link = Link(conns: map<ConnId, Connection>, tx: Tx)

  predicate Available(conns: map<ConnId, Connection>, pick: ConnId) {
    pick !in conns || conns[pick].transaction.Idle?
  }

  /** The first statement of a transaction takes a free connection, or opens a new one. */
  function Checkout(l: Link, o: Outcome, pick: ConnId): Link {
    if !l.tx.NoTx? && !l.tx.Begun? then l
    else if o.Lost? || !Available(l.conns, pick) then l.(tx := Begun)
    else
      var c := if pick in l.conns then l.conns[pick] else NEW_CONNECTION;
      Link(l.conns[pick := Begin(c)], Holding(pick))
  }

  /** `session.execute`: the new link, and whether the statement succeeded. */
  function Execute(link: Link, stmt: Statement, o: Outcome, pick: ConnId): (Link, bool) {
    var l := Checkout(link, o, pick);
    if !l.tx.Holding? || l.tx.conn !in l.conns || l.conns[l.tx.conn].transaction.Idle? then (l, false)
    else
      var id := l.tx.conn;
      var c := l.conns[id];
      if o.Lost? then (Link(l.conns - {id}, Invalid), false)
      else if c.transaction.aborted || o.ClientError? then (l, false)
      else if o.ServerError? then
        (l.(conns := l.conns[id := c.(transaction := c.transaction.(aborted := true))]), false)
      else (l.(conns := l.conns[id := c.(transaction := RunStatement(c.transaction, stmt))]), true)
  }

  /** `AsyncSession.commit`: a failed commit leaves a transaction that must be rolled back. */
  function Commit(l: Link, ok: bool): (Link, bool) {
    match l.tx
    case NoTx => (l, true)
    case Begun => (l.(tx := NoTx), true)
    case Invalid => (l, false)
    case Holding(id) =>
      if id !in l.conns then (l.(tx := Invalid), false)
      else if ok then (Link(l.conns[id := End(l.conns[id], true)], NoTx), true)
      else (Link(l.conns[id := End(l.conns[id], false)], Invalid), false)
  }

  /** `AsyncSession.rollback`: ends the transaction even when it fails; then the connection goes. */
  function Rollback(l: Link, ok: bool): (Link, bool) {
    match l.tx
    case Holding(id) =>
      if id in l.conns && ok then (Link(l.conns[id := End(l.conns[id], false)], NoTx), true)
      else (Link(l.conns - {id}, NoTx), false)
    case _ => (l.(tx := NoTx), true)
  }

  /** The settings the session's next statement would run under, if it has a connection. */
  function View(l: Link): Settings {
    if l.tx.Holding? && l.tx.conn in l.conns && l.conns[l.tx.conn].transaction.InTransaction?
    then l.conns[l.tx.conn].transaction.effective
    else UNSET
  }

  /** What "transaction-local" is about: only another setting, and only a commit, reaches the next transaction. */
  lemma LocalSettingsEndWithTheirTransaction(c: Connection, v: Settings, isLocal: bool, commit: bool, aborted: bool)
    ensures var ran := RunStatement(Begin(c).transaction, BindContext(v, isLocal));
            var t := InTransaction(ran.effective, ran.afterCommit, aborted);
            var next := Begin(End(c.(transaction := t), commit)).transaction;
            t.effective == v && next.effective == (if !isLocal && commit && !aborted then v else c.durable)
    ensures var ran := RunStatement(Begin(c).transaction, SetBypass("true", isLocal));
            var t := InTransaction(ran.effective, ran.afterCommit, aborted);
            var next := Begin(End(c.(transaction := t), commit)).transaction;
            t.effective == c.durable.(bypass := "true") &&
            next.effective == (if !isLocal && commit && !aborted then t.effective else c.durable)
  {
  }

  /** A commit keeps what is not local, unless the transaction was aborted; nothing else does. */
  lemma OnlyCommitKeeps(l: Link, id: ConnId)
    requires l.tx == Holding(id) && id in l.conns && l.conns[id].transaction.InTransaction?
    ensures var c := l.conns[id];
            Commit(l, true).0.conns[id].durable ==
              (if c.transaction.aborted then c.durable else c.transaction.afterCommit) &&
            Commit(l, false).0.conns[id].durable == c.durable && Rollback(l, true).0.conns[id].durable == c.durable &&
            id !in Rollback(l, false).0.conns
  {
  }

  /** After a statement that the server rejects, no statement of the transaction succeeds. */
  lemma RejectedStatementAborts(l: Link, id: ConnId, stmt: Statement, later: Statement, o: Outcome, pick: ConnId)
    requires l.tx == Holding(id) && id in l.conns && l.conns[id].transaction.InTransaction?
    ensures !Execute(l, stmt, ServerError, pick).1
    ensures !Execute(Execute(l, stmt, ServerError, pick).0, later, o, pick).1
  {
  }
}
