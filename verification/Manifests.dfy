/**
 The resumable benchmark runner: which manifest a run resumes (benchmarks/cli.py), what a manifest holds on disk
 (benchmarks/checkpoint.py), and the worker pool that fills it (benchmarks/run_longmemeval.py).
 */
module Manifests {
  import opened Sequences
  import opened Wrappers

  type Project = nat
  type Path = nat

  /** A recorded verdict, with the project against which the question was judged. */
  datatype Entry = Entry(id: string, project: Project, correct: bool)

  /** A run's identity: its configuration, and the hash of its sorted question ids. */
  datatype Fingerprint = Fingerprint(config: nat, questions: multiset<string>)

  datatype Manifest = Manifest(fingerprint: Fingerprint, completed: bool, ingested: bool, project: Option<Project>,
                               results: seq<Entry>)

  function IdsOf(results: seq<Entry>): seq<string> {
    seq(|results|, i requires 0 <= i < |results| => results[i].id)
  }

  predicate Resumable(manifest: Manifest, fingerprint: Fingerprint) {
    !manifest.completed && manifest.fingerprint == fingerprint
  }

  /** The in-progress directory; paths are numbered in the order of their names. */
  datatype Directory = Directory(manifests: map<Path, Manifest>, mtime: map<Path, nat>, next: Path) {
    ghost predicate Valid() {
      mtime.Keys == manifests.Keys && forall p :: p in manifests ==> p < next
    }
  }

  datatype Choice = Fresh | Resume(path: Path) | Auto

  datatype Resolution = Create | Load(path: Path) | ConfigError

  /** The most recently written resumable manifest among the first `n`. */
  function Newest(d: Directory, fingerprint: Fingerprint, n: nat): Option<Path> {
    if n == 0 then None
    else
      var best, p := Newest(d, fingerprint, n - 1), n - 1;
      if p !in d.manifests || !Resumable(d.manifests[p], fingerprint) || p !in d.mtime then best
      else if best.Some? && best.value in d.mtime && d.mtime[p] <= d.mtime[best.value] then best
      else Some(p)
  }

  /** What `Newest` finds is resumable and no resumable manifest was written later; it misses none. */
  lemma {:induction false} NewestIsNewest(d: Directory, fingerprint: Fingerprint, n: nat)
    requires d.mtime.Keys == d.manifests.Keys
    ensures var best := Newest(d, fingerprint, n);
            if best.None? then forall p :: p in d.manifests && p < n ==> !Resumable(d.manifests[p], fingerprint)
            else best.value < n && best.value in d.manifests && Resumable(d.manifests[best.value], fingerprint) &&
                 forall p :: p in d.manifests && p < n && Resumable(d.manifests[p], fingerprint) ==>
                   d.mtime[p] <= d.mtime[best.value]
  {
    if n > 0 {
      NewestIsNewest(d, fingerprint, n - 1);
    }
  }

  function Resolve(d: Directory, fingerprint: Fingerprint, choice: Choice): Resolution {
    match choice
    case Fresh => Create
    case Resume(p) => if p in d.manifests && Resumable(d.manifests[p], fingerprint) then Load(p) else ConfigError
    case Auto =>
      match Newest(d, fingerprint, d.next)
      case None => Create
      case Some(p) => Load(p)
  }

  /** Only an incomplete manifest of exactly this run is ever resumed. */
  lemma LoadedIsResumable(d: Directory, fingerprint: Fingerprint, choice: Choice)
    requires d.Valid()
    ensures var r := Resolve(d, fingerprint, choice);
            (r.Load? ==> r.path in d.manifests && !d.manifests[r.path].completed &&
                         d.manifests[r.path].fingerprint == fingerprint) &&
            (choice.Auto? ==>
               (r.Load? <==> exists p :: p in d.manifests && !d.manifests[p].completed &&
                                         d.manifests[p].fingerprint == fingerprint)) &&
            (choice.Resume? ==>
               if choice.path in d.manifests && !d.manifests[choice.path].completed &&
                  d.manifests[choice.path].fingerprint == fingerprint
               then r == Load(choice.path) else r == ConfigError) &&
            (choice.Fresh? ==> r == Create)
  {
    NewestIsNewest(d, fingerprint, d.next);
  }

  /** What the project lookup found: by the run's own name, or else by the benchmark's. */
  datatype Found = Found(project: Project, hasSessions: bool)

  datatype ProjectPlan = Reuse | Refuse | Trust(project: Project) | Ingest(project: Project)

  /** `_ensure_project`: query what is there, or ingest if that is allowed, or refuse. */
  function EnsureProject(manifest: Manifest, allowIngest: bool, found: Option<Found>, created: Project): ProjectPlan {
    if manifest.project.Some? then
      if manifest.ingested then Reuse else if allowIngest then Ingest(manifest.project.value) else Refuse
    else if found.Some? then
      if found.value.hasSessions then Trust(found.value.project)
      else if allowIngest then Ingest(found.value.project) else Refuse
    else if allowIngest then Ingest(created) else Refuse
  }

  /**
   When a run is allowed to do what: it ingests only if that is allowed, and never into a project that already has
   sessions when found; it queries without ingesting only a project that its manifest says is ingested, or that was found
   with sessions; the project is the pinned one, else the one found, else a new one; and it refuses exactly if it would
   have to ingest and may not.
   */
  lemma ProjectRules(manifest: Manifest, allowIngest: bool, found: Option<Found>, created: Project)
    ensures var plan := EnsureProject(manifest, allowIngest, found, created);
            var ready := if manifest.project.Some? then manifest.ingested else found.Some? && found.value.hasSessions;
            var project := if manifest.project.Some? then manifest.project.value
                           else if found.Some? then found.value.project else created;
            (plan.Ingest? <==> !ready && allowIngest) && (plan.Refuse? <==> !ready && !allowIngest) &&
            (plan.Reuse? <==> ready && manifest.project.Some?) && (plan.Trust? <==> ready && manifest.project.None?) &&
            (plan.Ingest? ==> plan == Ingest(project)) && (plan.Trust? ==> plan == Trust(project))
  {
  }

  /** The questions that no result answers yet, in dataset order. */
  function Unanswered(ids: seq<string>, completed: set<string>): seq<string> {
    if ids == [] then []
    else (if ids[0] in completed then [] else [ids[0]]) + Unanswered(ids[1..], completed)
  }

  function CompletedIds(results: seq<Entry>): set<string> {
    set i | 0 <= i < |results| :: results[i].id
  }

  lemma {:induction false} UnansweredMultiplicity(ids: seq<string>, completed: set<string>, id: string)
    requires Distinct(ids)
    ensures multiset(Unanswered(ids, completed))[id] == if id in ids && id !in completed then 1 else 0
  {
    if ids != [] {
      assert ids == [ids[0]] + ids[1..];
      UnansweredMultiplicity(ids[1..], completed, id);
    }
  }

  /** Skipping what is recorded leaves exactly the rest of the dataset, if no question id comes twice. */
  lemma SkipLeavesTheRest(ids: seq<string>, results: seq<Entry>)
    requires Distinct(ids) && multiset(IdsOf(results)) <= multiset(ids)
    ensures multiset(ids) == multiset(IdsOf(results)) + multiset(Unanswered(ids, CompletedIds(results)))
  {
    var done := CompletedIds(results);
    forall id ensures multiset(ids)[id] == multiset(IdsOf(results))[id] + multiset(Unanswered(ids, done))[id] {
      DistinctCount(ids, id);
      UnansweredMultiplicity(ids, done, id);
      if id in done {
        var i :| 0 <= i < |results| && results[i].id == id;
        assert IdsOf(results)[i] == id;
      } else {
        assert id !in IdsOf(results);
      }
    }
  }

  lemma {:induction false} UnansweredExcludes(ids: seq<string>, completed: set<string>)
    ensures forall id :: id in Unanswered(ids, completed) ==> id !in completed
  {
    if ids != [] {
      UnansweredExcludes(ids[1..], completed);
    }
  }

  /** What is recorded and what a resumed run still judges make up the dataset. */
  ghost predicate ResumesExactly(ids: seq<string>, results: seq<Entry>) {
    multiset(ids) == multiset(IdsOf(results)) + multiset(Unanswered(ids, CompletedIds(results)))
  }

  lemma RepeatedIdIsSkipped(ids: seq<string>, i: nat, j: nat)
    requires i < j < |ids| && ids[i] == ids[j]
    ensures multiset(IdsOf([Entry(ids[i], 0, true)])) <= multiset(ids)
    ensures !ResumesExactly(ids, [Entry(ids[i], 0, true)])
  {
    hide Unanswered;
    var id, results := ids[i], [Entry(ids[i], 0, true)];
    var left := Unanswered(ids, CompletedIds(results));
    assert IdsOf(results) == [id];
    assert results[0].id in CompletedIds(results);
    UnansweredExcludes(ids, CompletedIds(results));
    assert multiset(left)[id] == 0;
    TwiceCounts(ids, i, j);
  }

  /** A resumed run judges exactly what is missing, whatever was recorded, if and only if no question id repeats. */
  lemma ResumeIsExactIffIdsAreDistinct(ids: seq<string>)
    ensures Distinct(ids) <==>
              forall results :: multiset(IdsOf(results)) <= multiset(ids) ==> ResumesExactly(ids, results)
  {
    if Distinct(ids) {
      forall results | multiset(IdsOf(results)) <= multiset(ids) ensures ResumesExactly(ids, results) {
        SkipLeavesTheRest(ids, results);
      }
    } else {
      hide ResumesExactly, IdsOf;
      var i, j :| 0 <= i < j < |ids| && ids[i] == ids[j];
      RepeatedIdIsSkipped(ids, i, j);
    }
  }

  /** Where the dataset has `id`; after its end if it does not have it. */
  function Order(ids: seq<string>, id: string): nat {
    if ids == [] then 0
    else if ids[|ids| - 1] == id then |ids| - 1
    else
      var before := Order(ids[..|ids| - 1], id);
      if before == |ids| - 1 then |ids| else before
  }

  function Place(ids: seq<string>, entry: Entry, sorted: seq<Entry>): seq<Entry> {
    if sorted == [] || Order(ids, entry.id) < Order(ids, sorted[0].id) then [entry] + sorted
    else [sorted[0]] + Place(ids, entry, sorted[1..])
  }

  /** `results.sort` by dataset order; stable, so entries of one order keep their sequence. */
  function SortByOrder(results: seq<Entry>, ids: seq<string>): seq<Entry> {
    if results == [] then [] else Place(ids, results[|results| - 1], SortByOrder(results[..|results| - 1], ids))
  }

  lemma {:induction false} OrderFinds(ids: seq<string>, id: string)
    ensures Order(ids, id) <= |ids|
    ensures id in ids ==> Order(ids, id) < |ids| && ids[Order(ids, id)] == id
    ensures id !in ids ==> Order(ids, id) == |ids|
  {
    if ids != [] {
      assert ids == ids[..|ids| - 1] + [ids[|ids| - 1]];
      OrderFinds(ids[..|ids| - 1], id);
    }
  }

  ghost predicate SortedByOrder(ids: seq<string>, q: seq<Entry>) {
    forall i, j :: 0 <= i < j < |q| ==> Order(ids, q[i].id) <= Order(ids, q[j].id)
  }

  lemma {:induction false} PlaceAdds(ids: seq<string>, entry: Entry, q: seq<Entry>)
    ensures multiset(Place(ids, entry, q)) == multiset(q) + multiset{entry}
  {
    hide Order;
    if q != [] {
      PlaceAdds(ids, entry, q[1..]);
      assert q == [q[0]] + q[1..];
    }
  }

  lemma SortedCons(ids: seq<string>, first: Entry, rest: seq<Entry>)
    requires SortedByOrder(ids, rest)
    requires forall x :: x in rest ==> Order(ids, first.id) <= Order(ids, x.id)
    ensures SortedByOrder(ids, [first] + rest)
  {
    hide Order;
  }

  lemma {:induction false} PlaceKeepsSorted(ids: seq<string>, entry: Entry, q: seq<Entry>)
    requires SortedByOrder(ids, q)
    ensures SortedByOrder(ids, Place(ids, entry, q))
  {
    hide Order;
    if q == [] {
    } else if Order(ids, entry.id) < Order(ids, q[0].id) {
      SortedCons(ids, entry, q);
    } else {
      var rest := Place(ids, entry, q[1..]);
      PlaceKeepsSorted(ids, entry, q[1..]);
      PlaceAdds(ids, entry, q[1..]);
      forall x | x in rest ensures Order(ids, q[0].id) <= Order(ids, x.id) {
        assert x in multiset(rest);
      }
      SortedCons(ids, q[0], rest);
    }
  }

  lemma {:induction false} SortSorts(results: seq<Entry>, ids: seq<string>)
    ensures multiset(SortByOrder(results, ids)) == multiset(results)
    ensures SortedByOrder(ids, SortByOrder(results, ids))
  {
    if results != [] {
      hide Place, Order, SortedByOrder;
      var front, last := results[..|results| - 1], results[|results| - 1];
      SortSorts(front, ids);
      PlaceAdds(ids, last, SortByOrder(front, ids));
      PlaceKeepsSorted(ids, last, SortByOrder(front, ids));
      assert results == front + [last];
    }
  }

  lemma IdsOfCons(first: Entry, rest: seq<Entry>)
    ensures IdsOf([first] + rest) == [first.id] + IdsOf(rest)
    ensures IdsOf(rest + [first]) == IdsOf(rest) + [first.id]
  {
  }

  lemma {:induction false} PlaceAddsId(ids: seq<string>, entry: Entry, q: seq<Entry>)
    ensures multiset(IdsOf(Place(ids, entry, q))) == multiset(IdsOf(q)) + multiset{entry.id}
  {
    hide IdsOf, Order;
    IdsOfCons(entry, q);
    if q != [] {
      PlaceAddsId(ids, entry, q[1..]);
      assert q == [q[0]] + q[1..];
      IdsOfCons(q[0], q[1..]);
      IdsOfCons(q[0], Place(ids, entry, q[1..]));
    }
  }

  lemma {:induction false} SortKeepsIds(results: seq<Entry>, ids: seq<string>)
    ensures multiset(IdsOf(SortByOrder(results, ids))) == multiset(IdsOf(results))
  {
    if results != [] {
      hide IdsOf, Place;
      var front, last := results[..|results| - 1], results[|results| - 1];
      SortKeepsIds(front, ids);
      PlaceAddsId(ids, last, SortByOrder(front, ids));
      assert results == front + [last];
      IdsOfCons(last, front);
    }
  }

  /** Numbers that strictly increase from 0 to `n` exclusive, `n` of them, are 0 to `n` - 1. */
  lemma {:induction false} CountUp(q: seq<nat>, k: nat)
    requires forall i, j :: 0 <= i < j < |q| ==> q[i] < q[j]
    requires forall i :: 0 <= i < |q| ==> q[i] < |q|
    requires k < |q|
    ensures k <= q[k] && q[|q| - 1 - k] <= |q| - 1 - k
  {
    if k > 0 {
      CountUp(q, k - 1);
    }
  }

  lemma SameLength(names: seq<string>, ids: seq<string>)
    requires multiset(names) == multiset(ids)
    ensures |names| == |ids|
  {
    assert |multiset(names)| == |names| && |multiset(ids)| == |ids|;
  }

  lemma NoRepeat(names: seq<string>, ids: seq<string>, i: nat, j: nat)
    requires Distinct(ids) && multiset(names) <= multiset(ids)
    requires i < j < |names|
    ensures names[i] != names[j]
  {
    DistinctCount(ids, names[i]);
    if names[i] == names[j] {
      TwiceCounts(names, i, j);
    }
  }

  lemma PermutationInOrder(names: seq<string>, ids: seq<string>)
    requires Distinct(ids) && multiset(names) == multiset(ids)
    requires forall i, j :: 0 <= i < j < |names| ==> Order(ids, names[i]) <= Order(ids, names[j])
    ensures names == ids
  {
    hide Order;
    SameLength(names, ids);
    var orders := seq(|names|, i requires 0 <= i < |names| => Order(ids, names[i]));
    forall i | 0 <= i < |names| ensures orders[i] < |names| && ids[orders[i]] == names[i] {
      assert names[i] in multiset(ids);
      OrderFinds(ids, names[i]);
    }
    forall i, j | 0 <= i < j < |names| ensures orders[i] < orders[j] {
      NoRepeat(names, ids, i, j);
    }
    forall i | 0 <= i < |names| ensures names[i] == ids[i] {
      CountUp(orders, i);
      CountUp(orders, |names| - 1 - i);
    }
  }

  /** The sorted results answer the dataset's questions one by one, in the dataset's order. */
  lemma SortedAnswersInOrder(results: seq<Entry>, ids: seq<string>)
    requires Distinct(ids) && multiset(IdsOf(results)) == multiset(ids)
    ensures multiset(SortByOrder(results, ids)) == multiset(results)
    ensures IdsOf(SortByOrder(results, ids)) == ids
  {
    hide SortByOrder, Order;
    SortSorts(results, ids);
    SortKeepsIds(results, ids);
    PermutationInOrder(IdsOf(SortByOrder(results, ids)), ids);
  }
}
