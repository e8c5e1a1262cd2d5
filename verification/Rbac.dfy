/**
 The three cached answers about a user (core/rbac.py): role, permission set and must-change-password flag. Each is
 one `Kind` of the cache-aside protocol, with its own fallback and its own form in Redis.
 */
module Rbac {
  import opened Wrappers
  import opened CacheAside

  const CACHE_TTL: nat := 60

  const RoleKind: Kind<string, string> := Kind("member", CACHE_TTL, (role: string) => role, (text: string) => Some(text))

  const FlagKind: Kind<bool, string> :=
    Kind(true, CACHE_TTL, (flag: bool) => if flag then "1" else "0", (text: string) => Some(text == "1"))

  lemma RoleAndFlagAreFaithful()
    ensures RoleKind.Faithful() && FlagKind.Faithful()
  {
  }

  /** Text order, as Python sorts strings: by code point, a prefix first. */
  predicate TextLess(a: string, b: string) {
    b != "" && (a == "" || a[0] < b[0] || (a[0] == b[0] && TextLess(a[1..], b[1..])))
  }

  lemma {:induction false} TextOrder(a: string, b: string, c: string)
    ensures !TextLess(a, a)
    ensures a == b || TextLess(a, b) || TextLess(b, a)
    ensures TextLess(a, b) && TextLess(b, c) ==> TextLess(a, c)
  {
    if a != "" && b != "" {
      assert a == [a[0]] + a[1..] && b == [b[0]] + b[1..];
      TextOrder(a[1..], b[1..], if c == "" then c else c[1..]);
    } else if a != "" {
      TextOrder(a[1..], b, c);
    }
  }

  ghost predicate StrictlySorted(texts: seq<string>) {
    forall i, j :: 0 <= i < j < |texts| ==> TextLess(texts[i], texts[j])
  }

  /** A sorted list of a set's members. */
  ghost predicate ListsSet(members: set<string>, texts: seq<string>) {
    StrictlySorted(texts) && forall x :: x in texts <==> x in members
  }

  function Insert(text: string, texts: seq<string>): (r: seq<string>)
    ensures forall x :: x in r <==> x == text || x in texts
  {
    if texts == [] || TextLess(text, texts[0]) then [text] + texts
    else
      assert texts == [texts[0]] + texts[1..];
      [texts[0]] + Insert(text, texts[1..])
  }

  /** Python's `sorted` of a set of strings. */
  ghost function Sorted(members: set<string>): (r: seq<string>)
    ensures forall x :: x in r <==> x in members
  {
    if members == {} then []
    else
      var text :| text in members;
      Insert(text, Sorted(members - {text}))
  }

  /** The set of a list's members: what `frozenset` of a decoded list is. */
  function Members(texts: seq<string>): set<string> {
    set x | x in texts
  }

  lemma {:induction false} InsertKeepsSorted(text: string, texts: seq<string>)
    requires StrictlySorted(texts) && text !in texts
    ensures StrictlySorted(Insert(text, texts))
  {
    if texts != [] {
      TextOrder(text, texts[0], text);
      if TextLess(text, texts[0]) {
        forall x | x in texts[1..] ensures TextLess(text, x) {
          TextOrder(text, texts[0], x);
        }
      } else {
        InsertKeepsSorted(text, texts[1..]);
        assert forall x :: x in texts[1..] ==> TextLess(texts[0], x);
      }
    }
  }

  /** The cached form of a permission set is its sorted list; read back as a set it is the same set. */
  lemma {:induction false} PermissionsRoundTrip(members: set<string>)
    ensures ListsSet(members, Sorted(members)) && Members(Sorted(members)) == members
  {
    if members != {} {
      var text :| text in members && Sorted(members) == Insert(text, Sorted(members - {text}));
      PermissionsRoundTrip(members - {text});
      InsertKeepsSorted(text, Sorted(members - {text}));
    }
  }

  ghost const PermissionsKind: Kind<set<string>, seq<string>> :=
    Kind({}, CACHE_TTL, (members: set<string>) => Sorted(members), (texts: seq<string>) => Some(Members(texts)))

  lemma PermissionsAreFaithful()
    ensures PermissionsKind.Faithful()
  {
    forall members: set<string> ensures Members(Sorted(members)) == members {
      PermissionsRoundTrip(members);
    }
  }

  /**
   A role that a lookup returns is "member", or the user's row held it at most 60 seconds and one lookup before;
   a permission set likewise with the empty set, and a password flag with `true`.
   */
  lemma RolesAreRecent(value: Option<string>, events: seq<Event<string>>, late: nat, a: Answer<string>)
    requires PromptRun(RoleKind, value, events, late)
    requires a in RunFrom(RoleKind, Initially<string, string>(value), events).answers
    ensures a.value == "member" ||
            HeldWithin(RunFrom(RoleKind, Initially<string, string>(value), events).versions, a.value, a.at, 60 + late)
  {
    RoleAndFlagAreFaithful();
    AnswersAreRecent(RoleKind, value, events, late, a);
  }

  lemma PermissionsAreRecent(value: Option<set<string>>, events: seq<Event<set<string>>>, late: nat,
                             a: Answer<set<string>>)
    requires PromptRun(PermissionsKind, value, events, late)
    requires a in RunFrom(PermissionsKind, Initially<set<string>, seq<string>>(value), events).answers
    ensures a.value == {} ||
            HeldWithin(RunFrom(PermissionsKind, Initially<set<string>, seq<string>>(value), events).versions,
                       a.value, a.at, 60 + late)
  {
    PermissionsAreFaithful();
    AnswersAreRecent(PermissionsKind, value, events, late, a);
  }

  lemma FlagsAreRecent(value: Option<bool>, events: seq<Event<bool>>, late: nat, a: Answer<bool>)
    requires PromptRun(FlagKind, value, events, late)
    requires a in RunFrom(FlagKind, Initially<bool, string>(value), events).answers
    ensures a.value ||
            HeldWithin(RunFrom(FlagKind, Initially<bool, string>(value), events).versions, a.value, a.at, 60 + late)
  {
    RoleAndFlagAreFaithful();
    AnswersAreRecent(FlagKind, value, events, late, a);
  }

  // -- Changing a role, a permission set or the password flag ---------------------------------------------------------

  /**
   The member service flushes the change, deletes the cached answer, and the request commits at its end. A later
   lookup can still be answered with the old role only if some lookup read the row between the deletion and the
   commit, or had read it before and not yet filled Redis; and if so, then it can, when Redis works and the commit
   comes within a minute.
   */
  lemma RoleChangeEnds(w: World<string, string>, between: seq<Event<string>>, late: nat)
    requires Inv(RoleKind, w, late) && w.pending.Some? && NoCommit(between)
    ensures var cleared := Step(RoleKind, w, Invalidate(true));
            var exposed := Writes(w) || ReadDuring(RoleKind, cleared, between);
            (OldSurvives(RoleKind, RunFrom(RoleKind, cleared, between)) ==> exposed) &&
            (Undisturbed(between, 60) ==> (OldSurvives(RoleKind, RunFrom(RoleKind, cleared, between)) <==> exposed))
  {
    RoleAndFlagAreFaithful();
    DeleteThenCommit(RoleKind, w, between, late);
  }

  lemma PermissionChangeEnds(w: World<set<string>, seq<string>>, between: seq<Event<set<string>>>, late: nat)
    requires Inv(PermissionsKind, w, late) && w.pending.Some? && NoCommit(between)
    ensures var cleared := Step(PermissionsKind, w, Invalidate(true));
            var before := RunFrom(PermissionsKind, cleared, between);
            var exposed := Writes(w) || ReadDuring(PermissionsKind, cleared, between);
            (OldSurvives(PermissionsKind, before) ==> exposed) &&
            (Undisturbed(between, 60) ==> (OldSurvives(PermissionsKind, before) <==> exposed))
  {
    PermissionsAreFaithful();
    DeleteThenCommit(PermissionsKind, w, between, late);
  }

  lemma FlagChangeEnds(w: World<bool, string>, between: seq<Event<bool>>, late: nat)
    requires Inv(FlagKind, w, late) && w.pending.Some? && NoCommit(between)
    ensures var cleared := Step(FlagKind, w, Invalidate(true));
            var exposed := Writes(w) || ReadDuring(FlagKind, cleared, between);
            (OldSurvives(FlagKind, RunFrom(FlagKind, cleared, between)) ==> exposed) &&
            (Undisturbed(between, 60) ==> (OldSurvives(FlagKind, RunFrom(FlagKind, cleared, between)) <==> exposed))
  {
    RoleAndFlagAreFaithful();
    DeleteThenCommit(FlagKind, w, between, late);
  }

  /** It does happen: a lookup that begins after the demotion has been committed still answers "admin". */
  lemma DemotedAdminStaysAdmin() returns (events: seq<Event<string>>)
    ensures var w := RunFrom(RoleKind, Initially<string, string>(Some("admin")), events);
            |w.answers| == 2 && w.answers[1].value == "admin" &&
            |w.versions| == 2 && w.versions[1].value == Some("member") && w.versions[1].since <= w.answers[1].at
  {
    RoleAndFlagAreFaithful();
    OldAnswerAfterCommit(RoleKind, "admin", "member");
    events := Refill("member") + [Commit(true), Begin, Get(1, true)];
  }

  // -- The lookup as one request runs it -----------------------------------------------------------------------------

  /** The row as the repository returns it; `Failed` stands for any exception. */
  datatype UserReply<V> = Failed | NoUser | User(value: V, active: bool, deleted: bool)

  function Usable<V>(reply: UserReply<V>): Option<V> {
    if reply.User? && reply.active && !reply.deleted then Some(reply.value) else None
  }

  /** The protocol run by one lookup alone, from the cache entry it finds. */
  function Alone<V(!new), C>(kind: Kind<V, C>, now: nat, found: Option<Stored<C>>, getOk: bool, reply: UserReply<V>,
                             applied: bool): World<V, C>
  {
    var cache := if found.None? then None else Some(Entry(found.value, 0, 0));
    var start := World(now, [Version(Usable(reply), now, None)], None, cache, map[0 := Lookup(now, Asking)], 1, []);
    var asked := Step(kind, start, Get(0, getOk));
    var queried := Step(kind, asked, Query(0, !reply.Failed?));
    Step(kind, queried, Set(0, applied))
  }

  /**
   With Redis unreadable a lookup denies if and only if the database read fails, finds no usable row, or finds the
   denying value itself: otherwise it answers from the database. The docstring's "any Redis error denies" is not so.
   */
  lemma RedisFailureAsksDatabase<V(!new), C>(kind: Kind<V, C>, now: nat, found: Option<Stored<C>>, reply: UserReply<V>,
                                             applied: bool)
    ensures var w := Alone(kind, now, found, false, reply, applied);
            |w.answers| == 1 &&
            (w.answers[0].value == kind.fallback <==> Usable(reply).None? || Usable(reply).value == kind.fallback) &&
            (Usable(reply).Some? ==> w.answers[0].value == Usable(reply).value)
  {
  }

  /** What one lookup alone answers, and what it leaves in Redis. */
  function Outcome<V(!new), C>(kind: Kind<V, C>, now: nat, found: Option<Stored<C>>, getOk: bool, reply: UserReply<V>,
                               applied: bool): (V, Option<Stored<C>>)
  {
    if getOk && found.Some? && now < found.value.expires && kind.decode(found.value.content).Some? then
      (kind.decode(found.value.content).value, found)
    else
      match Usable(reply)
      case None => (kind.fallback, found)
      case Some(value) => (value, if applied then Some(Stored(kind.encode(value), now + kind.ttl)) else found)
  }

  function StoredOf<V(!new), C>(w: World<V, C>): Option<Stored<C>> {
    if w.cache.None? then None else Some(w.cache.value.stored)
  }

  /** In particular, a user who is gone, inactive or deleted is answered with the denying value, unless cached. */
  lemma InactiveIsDenied<V(!new), C>(kind: Kind<V, C>, now: nat, found: Option<Stored<C>>, reply: UserReply<V>,
                                     applied: bool)
    requires reply.User? ==> !reply.active || reply.deleted
    requires found.Some? ==> found.value.expires <= now
    ensures var w := Alone(kind, now, found, true, reply, applied);
            |w.answers| == 1 && w.answers[0].value == kind.fallback && StoredOf(w) == found
  {
    AloneIs(kind, now, found, true, reply, applied);
    hide Alone;
  }

  /** The protocol's steps, run by one lookup with nothing in between, come to exactly this outcome. */
  lemma AloneIs<V(!new), C>(kind: Kind<V, C>, now: nat, found: Option<Stored<C>>, getOk: bool, reply: UserReply<V>,
                            applied: bool)
    ensures var w := Alone(kind, now, found, getOk, reply, applied);
            |w.answers| == 1 && (w.answers[0].value, StoredOf(w)) == Outcome(kind, now, found, getOk, reply, applied)
  {
  }

  class UserCache<V(!new), C> {
    const kind: Kind<V, C>
    var stored: Option<Stored<C>>

    constructor (kind: Kind<V, C>)
      ensures this.kind == kind && stored == None
    {
      this.kind, stored := kind, None;
    }

    method Lookup(now: nat, getOk: bool, reply: UserReply<V>, applied: bool) returns (value: V)
      modifies this
      ensures var w := Alone(kind, now, old(stored), getOk, reply, applied);
              |w.answers| == 1 && (value, stored) == (w.answers[0].value, StoredOf(w))
      ensures var hit := getOk && old(stored).Some? && now < old(stored).value.expires &&
                         kind.decode(old(stored).value.content).Some?;
              if hit then value == kind.decode(old(stored).value.content).value && stored == old(stored)
              else if reply.User? && reply.active && !reply.deleted then
                value == reply.value &&
                stored == (if applied then Some(Stored(kind.encode(reply.value), now + kind.ttl)) else old(stored))
              else value == kind.fallback && stored == old(stored)
    {
      AloneIs(kind, now, stored, getOk, reply, applied);
      hide Alone;
      if getOk && stored.Some? && now < stored.value.expires {
        var content := kind.decode(stored.value.content);
        if content.Some? {
          return content.value;
        }
      }
      if reply.Failed? {
        return kind.fallback;
      }
      if reply.NoUser? || !reply.active || reply.deleted {
        return kind.fallback;
      }
      value := reply.value;
      if applied {
        stored := Some(Stored(kind.encode(value), now + kind.ttl));
      }
    }

    method Invalidate(applied: bool)
      modifies this
      ensures stored == if applied then None else old(stored)
    {
      if applied {
        stored := None;
      }
    }
  }
}
