/**
 Compare-and-swap merge of the system config (core/openbao.py). Writers run interleaved;
 each reads the secret, merges its delta, and writes back if the version has not moved. The
 reply to a write may be lost after the server applied it.
 */
module OpenBao {
  import opened Sequences
  import opened Wrappers

  type Config = map<string, string>

  /** The secret at `config/data/system`: nothing yet, or data at a version of at least 1. */
  datatype Secret = NoSecret | Versioned(data: Config, version: nat)

  function DataOf(s: Secret): Config {
    if s.NoSecret? then map[] else s.data
  }

  function VersionOf(s: Secret): nat {
    if s.NoSecret? then 0 else s.version
  }

  /** What the caller learns, and what may have happened on the server. */
  datatype Reply = Answered | RefusedUnread | ReplyLost

  type WriterId = nat

  datatype Writer =
    | Starting(delta: Config)
    | HasRead(delta: Config, existing: Config, version: nat)
    | Succeeded(delta: Config)
    | FailedWriter(delta: Config)

  /** `applied` is bookkeeping: the writers whose write the server took, in version order. */
  datatype Store = Store(secret: Secret, writers: map<WriterId, Writer>, applied: seq<WriterId>, deltas: seq<Config>)

  datatype Event =
    | Begin(w: WriterId, delta: Config)
    | Read(w: WriterId, reply: Reply)
    | Write(w: WriterId, reply: Reply)

  /** KV v2 with `cas`: the write is taken only at the version it names. */
  function CasWrite(s: Secret, data: Config, cas: nat): (Secret, bool) {
    if VersionOf(s) == cas then (Versioned(data, cas + 1), true) else (s, false)
  }

  function Become(s: Store, w: WriterId, to: Writer): Store {
    s.(writers := s.writers[w := to])
  }

  function Step(s: Store, e: Event): Store {
    match e
    case Begin(w, delta) => if w in s.writers then s else Become(s, w, Starting(delta))
    case Read(w, reply) =>
      if w !in s.writers || !s.writers[w].Starting? then s
      else if reply.Answered? then
        Become(s, w, HasRead(s.writers[w].delta, DataOf(s.secret), VersionOf(s.secret)))
      else Become(s, w, FailedWriter(s.writers[w].delta))
    case Write(w, reply) =>
      if w !in s.writers || !s.writers[w].HasRead? then s
      else if reply.RefusedUnread? then Become(s, w, FailedWriter(s.writers[w].delta))
      else
        var x := s.writers[w];
        var (secret, taken) := CasWrite(s.secret, x.existing + x.delta, x.version);
        if !taken then Become(s, w, FailedWriter(x.delta))
        else Become(s, w, if reply.Answered? then Succeeded(x.delta) else FailedWriter(x.delta)).(
               secret := secret, applied := s.applied + [w], deltas := s.deltas + [x.delta])
  }

  function StartWith(secret: Secret): Store {
    Store(secret, map[], [], [])
  }

  function Run(secret: Secret, events: seq<Event>): Store {
    if events == [] then StartWith(secret)
    else Step(Run(secret, events[..|events| - 1]), events[|events| - 1])
  }

  /** The deltas laid over the initial data, one after the other. */
  function Fold(data: Config, deltas: seq<Config>): Config {
    if deltas == [] then data else Fold(data, deltas[..|deltas| - 1]) + deltas[|deltas| - 1]
  }

  ghost predicate Inv(initial: Secret, s: Store) {
    && |s.applied| == |s.deltas|
    && VersionOf(s.secret) == VersionOf(initial) + |s.deltas|
    && DataOf(s.secret) == Fold(DataOf(initial), s.deltas)
    && (forall w :: w in s.writers && s.writers[w].HasRead? ==>
          && s.writers[w].version <= VersionOf(s.secret)
          && (s.writers[w].version == VersionOf(s.secret) ==> s.writers[w].existing == DataOf(s.secret)))
    && (forall i :: 0 <= i < |s.applied| ==>
          && s.applied[i] in s.writers && s.writers[s.applied[i]].delta == s.deltas[i]
          && (s.writers[s.applied[i]].Succeeded? || s.writers[s.applied[i]].FailedWriter?))
    && Distinct(s.applied)
    && (forall w :: w in s.writers && s.writers[w].Succeeded? ==> w in s.applied)
  }

  lemma StepKeepsInv(initial: Secret, s: Store, e: Event)
    requires Inv(initial, s)
    ensures Inv(initial, Step(s, e))
  {
    var r := Step(s, e);
    if r.deltas != s.deltas {
      TakenKeepsInv(initial, s, e.w, e.reply);
    } else {
      hide Fold;
      assert !e.Begin? && e.w in s.writers && !s.writers[e.w].Succeeded? && !s.writers[e.w].FailedWriter? ==> e.w !in s.applied;
    }
  }

  lemma FoldNext(data: Config, deltas: seq<Config>, delta: Config)
    ensures Fold(data, deltas + [delta]) == Fold(data, deltas) + delta
  {
    assert (deltas + [delta])[..|deltas|] == deltas;
  }

  lemma TakenKeepsInv(initial: Secret, s: Store, w: WriterId, reply: Reply)
    requires Inv(initial, s) && Step(s, Write(w, reply)).deltas != s.deltas
    ensures Inv(initial, Step(s, Write(w, reply)))
  {
    hide Fold;
    var r := Step(s, Write(w, reply));
    var x := s.writers[w];
    assert forall i :: 0 <= i < |s.applied| ==> s.applied[i] != w;
    assert DataOf(r.secret) == DataOf(s.secret) + x.delta;
    FoldNext(DataOf(initial), s.deltas, x.delta);
  }

  lemma {:induction false} RunKeepsInv(initial: Secret, events: seq<Event>)
    ensures Inv(initial, Run(initial, events))
  {
    if events != [] {
      RunKeepsInv(initial, events[..|events| - 1]);
      StepKeepsInv(initial, Run(initial, events[..|events| - 1]), events[|events| - 1]);
    }
  }

  /**
   The stored secret is always the fold of the applied deltas in version order. Every writer
   that was told of success is among them, exactly once.
   */
  lemma StoredIsFoldOfApplied(initial: Secret, events: seq<Event>, w: WriterId)
    ensures var s := Run(initial, events);
            && DataOf(s.secret) == Fold(DataOf(initial), s.deltas)
            && VersionOf(s.secret) == VersionOf(initial) + |s.deltas|
            && (w in s.writers && s.writers[w].Succeeded? ==> multiset(s.applied)[w] == 1)
  {
    RunKeepsInv(initial, events);
    var s := Run(initial, events);
    if w in s.writers && s.writers[w].Succeeded? {
      hide Fold;
      DistinctCount(s.applied, w);
    }
  }

  /** A key that an applied write set keeps its value unless a later applied write sets it again. */
  lemma {:induction false} LastWriteWins(data: Config, deltas: seq<Config>, i: nat, key: string)
    requires i < |deltas| && key in deltas[i]
    requires forall j :: i < j < |deltas| ==> key !in deltas[j]
    ensures key in Fold(data, deltas) && Fold(data, deltas)[key] == deltas[i][key]
    decreases |deltas|
  {
    if i < |deltas| - 1 {
      LastWriteWins(data, deltas[..|deltas| - 1], i, key);
    }
  }

  lemma NoSuccessfulKeyIsLost(initial: Secret, events: seq<Event>, i: nat, key: string)
    requires var s := Run(initial, events);
             && i < |s.deltas| && key in s.deltas[i]
             && forall j :: i < j < |s.deltas| ==> key !in s.deltas[j]
    ensures var s := Run(initial, events);
            key in DataOf(s.secret) && DataOf(s.secret)[key] == s.deltas[i][key]
  {
    RunKeepsInv(initial, events);
    LastWriteWins(DataOf(initial), Run(initial, events).deltas, i, key);
  }

  /** The applied deltas are the ones that their writers were given. */
  lemma {:induction false} DeltasAreTheWriters(initial: Secret, events: seq<Event>, w: WriterId)
    requires w in Run(initial, events).writers
    ensures Begin(w, Run(initial, events).writers[w].delta) in events
    ensures forall i :: 0 <= i < |Run(initial, events).applied| && Run(initial, events).applied[i] == w ==>
              i < |Run(initial, events).deltas| && Run(initial, events).deltas[i] == Run(initial, events).writers[w].delta
  {
    RunKeepsInv(initial, events);
    var front, last := events[..|events| - 1], events[|events| - 1];
    StepKeepsDelta(Run(initial, front), last, w);
    hide Fold, Step;
    assert last in events && forall e :: e in front ==> e in events;
    if w in Run(initial, front).writers {
      DeltasAreTheWriters(initial, front, w);
    }
  }

  lemma StepKeepsDelta(s: Store, e: Event, w: WriterId)
    requires w in Step(s, e).writers
    ensures if w in s.writers then Step(s, e).writers[w].delta == s.writers[w].delta
            else e == Begin(w, Step(s, e).writers[w].delta)
  {
  }

  predicate NoReplyLost(events: seq<Event>) {
    forall e :: e in events && e.Write? ==> !e.reply.ReplyLost?
  }

  /** A writer that was told it failed contributed nothing. */
  ghost predicate FailedContributeNothing(s: Store) {
    forall w :: w in s.applied ==> w in s.writers && s.writers[w].Succeeded?
  }

  lemma {:induction false} WithRepliesFailedContributeNothing(initial: Secret, events: seq<Event>)
    requires NoReplyLost(events)
    ensures FailedContributeNothing(Run(initial, events))
  {
    if events != [] {
      var s, e := Run(initial, events[..|events| - 1]), events[|events| - 1];
      assert e in events;
      WithRepliesFailedContributeNothing(initial, events[..|events| - 1]);
    }
  }

  /**
   When a failed writer contributes: exactly when the reply to a write is lost that the
   server takes, which is to say, whose version is still current.
   */
  lemma FailedContributesIffTakenReplyLost(initial: Secret, events: seq<Event>, w: WriterId, reply: Reply)
    requires var s := Run(initial, events); w in s.writers && s.writers[w].HasRead?
    ensures var s := Run(initial, events);
            var r := Step(s, Write(w, reply));
            (r.writers[w].FailedWriter? && w in r.applied) <==>
              (reply.ReplyLost? && s.writers[w].version == VersionOf(s.secret))
  {
    RunKeepsInv(initial, events);
    var s := Run(initial, events);
    assert forall i :: 0 <= i < |s.applied| ==> s.applied[i] != w;
    assert w !in s.applied;
  }

  /** It does happen: one writer, one lost reply. */
  lemma LostReplyContributes(delta: Config) returns (events: seq<Event>)
    ensures var s := Run(NoSecret, events);
            0 in s.writers && s.writers[0].FailedWriter? && s.secret == Versioned(delta, 1) && s.applied == [0]
  {
    Extend(NoSecret, [], Begin(0, delta));
    events := [] + [Begin(0, delta)];
    Extend(NoSecret, events, Read(0, Answered));
    events := events + [Read(0, Answered)];
    Extend(NoSecret, events, Write(0, ReplyLost));
    events := events + [Write(0, ReplyLost)];
    assert map[] + delta == delta;
  }

  lemma Extend(initial: Secret, events: seq<Event>, e: Event)
    ensures Run(initial, events + [e]) == Step(Run(initial, events), e)
  {
    assert (events + [e])[..|events + [e]| - 1] == events;
  }

  /** Of the writers that read one version, at most one is applied. */
  lemma OneWinnerPerVersion(initial: Secret, events: seq<Event>, v: WriterId, w: WriterId, reply: Reply, again: Reply)
    requires v != w
    requires var s := Run(initial, events);
             && v in s.writers && w in s.writers && s.writers[v].HasRead? && s.writers[w].HasRead?
             && s.writers[v].version == s.writers[w].version
    ensures var s := Run(initial, events);
            var r := Step(Step(s, Write(v, reply)), Write(w, again));
            v in r.applied ==> w !in r.applied && r.writers[w].FailedWriter?
  {
    RunKeepsInv(initial, events);
    hide Fold, Run;
    var s := Run(initial, events);
    assert forall i :: 0 <= i < |s.applied| ==> s.applied[i] != v && s.applied[i] != w;
  }

  /**
   How one attempt of `_request` ends: refused for the moment (status 429, or the KV upgrade), carried out as far as
   the version allows, refused otherwise, not sent, or left without an answer, before or after the server took it: by
   a timeout, a lost connection or a status in the 500s.
   */
  datatype Attempt = Transient | Answer | Refused | Unsent | Unanswered(taken: bool)

  datatype Error = CasMismatch | RetriesExhausted | Rejected | ConnectionLost

  const MAX_RETRIES := 3

  /** What a whole request came to: the attempt that ended it, or three transient refusals. */
  function Final(script: seq<Attempt>): Attempt
    decreases |script|
  {
    if script == [] then Transient
    else if script[0].Transient? then Final(script[1..])
    else script[0]
  }

  /** The server has seen the request, once. */
  predicate Reached(a: Attempt) {
    a.Answer? || (a.Unanswered? && a.taken)
  }

  /** What the caller is told of a read or a write, as the machine's reply. */
  function ReplyOf(a: Attempt): Reply {
    if a.Answer? then Answered else if Reached(a) then ReplyLost else RefusedUnread
  }

  function ErrorOf(a: Attempt): Error {
    if a.Transient? then RetriesExhausted else if a.Refused? then Rejected else ConnectionLost
  }

  /** The secret on the server, and the client that merges into it. */
  class SystemConfig {
    var secret: Secret

    constructor (secret: Secret)
      ensures this.secret == secret
    {
      this.secret := secret;
    }

    /**
     `_request` retries a transient refusal up to the limit, and nothing else: the first other outcome is final. So
     the server sees a request at most once.
     */
    method Retry(script: seq<Attempt>) returns (last: Attempt, attempts: nat)
      requires |script| == 3
      ensures last == Final(script)
      ensures 1 <= attempts <= 3 && last == script[attempts - 1]
      ensures forall i :: 0 <= i < attempts - 1 ==> script[i].Transient?
      ensures last.Transient? <==> forall i :: 0 <= i < 3 ==> script[i].Transient?
    {
      last, attempts := script[0], 1;
      while attempts < MAX_RETRIES && last.Transient?
        invariant 1 <= attempts <= MAX_RETRIES && last == script[attempts - 1]
        invariant forall i :: 0 <= i < attempts - 1 ==> script[i].Transient?
        invariant Final(script) == Final(script[attempts - 1..])
      {
        last, attempts := script[attempts], attempts + 1;
      }
    }

    /**
     Read, merge, write back. `meanwhile` is what others have made of the secret in between. A success adds the
     delta; a failure leaves an effect if and only if the server took the write and its reply was lost, and then the
     delta is there although the caller was told otherwise.
     */
    method WriteSystemConfig(config: Config, meanwhile: Secret, readScript: seq<Attempt>, writeScript: seq<Attempt>)
        returns (r: Result<(), Error>)
      requires |readScript| == MAX_RETRIES && |writeScript| == MAX_RETRIES
      requires VersionOf(meanwhile) == VersionOf(secret) ==> DataOf(meanwhile) == DataOf(secret)
      modifies this
      ensures r.Success? ==>
                DataOf(secret) == DataOf(meanwhile) + config && VersionOf(secret) == VersionOf(meanwhile) + 1
      ensures var taken := Final(readScript).Answer? && Final(writeScript).Unanswered? && Final(writeScript).taken &&
                           VersionOf(meanwhile) == VersionOf(old(secret));
              r.Failure? ==>
                if taken then DataOf(secret) == DataOf(meanwhile) + config && VersionOf(secret) == VersionOf(meanwhile) + 1
                else secret == meanwhile
      ensures var answered := Final(readScript).Answer? && Final(writeScript).Answer?;
              var current := VersionOf(meanwhile) == VersionOf(old(secret));
              (r.Success? <==> answered && current) && (r == Failure(CasMismatch) <==> answered && !current)
      ensures r == Failure(RetriesExhausted) <==>
                Final(readScript).Transient? || (Final(readScript).Answer? && Final(writeScript).Transient?)
    {
      var read, _ := Retry(readScript);
      var existing, version := DataOf(secret), VersionOf(secret);
      secret := meanwhile;
      if !read.Answer? {
        return Failure(ErrorOf(read));
      }
      var written, _ := Retry(writeScript);
      var taken := false;
      if Reached(written) {
        var w := CasWrite(secret, existing + config, version);
        secret, taken := w.0, w.1;
      }
      r := if !written.Answer? then Failure(ErrorOf(written)) else if taken then Success(()) else Failure(CasMismatch);
    }
  }

  /** The client's request is the machine's: a writer that has read, and whose write ends in this way. */
  lemma ClientIsWriter(s: Store, w: WriterId, a: Attempt)
    requires w in s.writers && s.writers[w].HasRead?
    ensures var x := s.writers[w];
            var r := Step(s, Write(w, ReplyOf(a)));
            (r.secret == if Reached(a) then CasWrite(s.secret, x.existing + x.delta, x.version).0 else s.secret) &&
            (r.writers[w].Succeeded? <==> a.Answer? && x.version == VersionOf(s.secret)) &&
            (r.writers[w].FailedWriter? && r.secret != s.secret ==> a.Unanswered? && a.taken)
  {
  }
}
