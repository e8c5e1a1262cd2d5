/**
 That a benchmark run gets somewhere (benchmarks/run_longmemeval.py:1432-1540): left alone, it judges every question,
 records the verdicts it was given, and completes its manifest.
 */
module BenchmarkCompletion {
  import opened BenchmarkRunner
  import opened Manifests
  import opened Sequences
  import opened Wrappers

  function After(w: World, events: seq<Event>): World
    decreases |events|
  {
    if events == [] then w else After(Step(w, events[0]), events[1..])
  }

  lemma {:induction false} AfterTwo(w: World, a: seq<Event>, b: seq<Event>)
    ensures After(w, a + b) == After(After(w, a), b)
    decreases |a|
  {
    if a == [] {
      assert a + b == b;
    } else {
      assert (a + b)[0] == a[0] && (a + b)[1..] == a[1..] + b;
      AfterTwo(Step(w, a[0]), a[1..], b);
    }
  }

  lemma {:induction false} RunThenAfter(before: seq<Event>, events: seq<Event>)
    ensures Run(before + events) == After(Run(before), events)
    decreases |events|
  {
    if events == [] {
      assert before + events == before;
    } else {
      RunThenAfter(before + [events[0]], events[1..]);
      assert before + events == before + [events[0]] + events[1..];
      assert (before + [events[0]])[..|before|] == before;
      hide Step;
    }
  }

  function Verdicts(ids: seq<string>, project: Project, verdicts: seq<bool>): seq<Entry>
    requires |ids| == |verdicts|
  {
    seq(|ids|, i requires 0 <= i < |ids| => Entry(ids[i], project, verdicts[i]))
  }

  /** A process with nothing in a slot, and its manifest on disk. */
  predicate Idle(w: World, p: Process) {
    w.process == Some(p) && p.phase == Querying && p.flying == [] && p.recording.None? &&
    p.path in w.directory.manifests && w.directory.manifests[p.path] == p.checkpoint
  }

  function One(correct: bool): seq<Event> {
    [Begin(0), Judge(0, correct), Record(0), Save]
  }

  lemma AfterFour(w: World, e: seq<Event>)
    requires |e| == 4
    ensures After(w, e) == Step(Step(Step(Step(w, e[0]), e[1]), e[2]), e[3])
  {
    hide Step;
    assert e[1..][1..] == e[2..] && e[2..][1..] == e[3..] && e[3..][1..] == [];
    var w1 := Step(w, e[0]);
    var w2 := Step(w1, e[1]);
    var w3 := Step(w2, e[2]);
    assert After(w3, e[3..]) == After(Step(w3, e[3]), []);
    assert After(w2, e[2..]) == After(w3, e[3..]);
    assert After(w1, e[1..]) == After(w2, e[2..]);
  }

  /** One question: taken, judged, recorded and saved. */
  lemma OneQuestion(w: World, p: Process, correct: bool)
    requires Idle(w, p) && p.queue != [] && p.workers >= 1 && p.checkpoint.project.Some?
    ensures var r := After(w, One(correct));
            var entry := Entry(p.queue[0], p.checkpoint.project.value, correct);
            var q := p.(queue := p.queue[1..], checkpoint := p.checkpoint.(results := p.checkpoint.results + [entry]));
            Idle(r, q) && r.outputs == w.outputs
  {
    AfterFour(w, One(correct));
    hide After;
    var entry := Entry(p.queue[0], p.checkpoint.project.value, correct);
    var begun := p.(queue := p.queue[1..], flying := [Judging(p.queue[0])]);
    var w1 := Step(w, Begin(0));
    assert Without(p.queue, 0) == p.queue[1..] && [] + [Judging(p.queue[0])] == [Judging(p.queue[0])];
    assert w1.process == Some(begun) && w1.directory == w.directory && w1.outputs == w.outputs;
    var judged := begun.(flying := [Judged(entry)]);
    var w2 := Step(w1, Judge(0, correct));
    assert begun.flying[0 := Judged(entry)] == judged.flying;
    assert w2.process == Some(judged) && w2.directory == w.directory && w2.outputs == w.outputs;
    var recorded := judged.(flying := [], recording := Some(entry),
                            checkpoint := p.checkpoint.(results := p.checkpoint.results + [entry]));
    var w3 := Step(w2, Record(0));
    assert Without([Judged(entry)], 0) == [];
    assert w3.process == Some(recorded) && w3.directory == w.directory && w3.outputs == w.outputs;
  }

  /** The whole queue, one question after the other. */
  lemma {:induction false} WholeQueue(w: World, p: Process, verdicts: seq<bool>) returns (events: seq<Event>)
    requires Idle(w, p) && p.workers >= 1 && p.checkpoint.project.Some? && |verdicts| == |p.queue|
    ensures var results := p.checkpoint.results + Verdicts(p.queue, p.checkpoint.project.value, verdicts);
            var q := p.(queue := [], checkpoint := p.checkpoint.(results := results));
            Idle(After(w, events), q) && After(w, events).outputs == w.outputs
    decreases |verdicts|
  {
    var project := p.checkpoint.project.value;
    if verdicts == [] {
      events := [];
      assert p.checkpoint.results + Verdicts(p.queue, project, verdicts) == p.checkpoint.results;
    } else {
      OneQuestion(w, p, verdicts[0]);
      var entry := Entry(p.queue[0], project, verdicts[0]);
      var q := p.(queue := p.queue[1..], checkpoint := p.checkpoint.(results := p.checkpoint.results + [entry]));
      assert q.checkpoint.results + Verdicts(q.queue, project, verdicts[1..])
          == p.checkpoint.results + Verdicts(p.queue, project, verdicts);
      hide After, Idle, One, Verdicts;
      var rest := WholeQueue(After(w, One(verdicts[0])), q, verdicts[1..]);
      AfterTwo(w, One(verdicts[0]), rest);
      events := One(verdicts[0]) + rest;
    }
  }

  /** A new manifest is made, and its project found with sessions or ingested; then the queue is the whole dataset. */
  lemma Prepares(w: World, config: nat, ids: seq<string>, workers: int, allowIngest: bool, found: Option<Found>,
                 created: Project)
    requires w.process.None? && workers >= 1
    requires (found.Some? && found.value.hasSessions) || allowIngest
    ensures var ready := found.Some? && found.value.hasSessions;
            var project := if found.Some? then found.value.project else created;
            var manifest := Manifest(Fingerprint(config, multiset(ids)), false, true, Some(project), []);
            var r := Step(Step(Step(w, Start(config, ids, workers, allowIngest, Fresh)), Ensure(found, created)), MarkIngested);
            Idle(r, Process(w.directory.next, ids, workers, allowIngest, manifest, Querying, ids, [], None)) &&
            r.outputs == w.outputs && w.directory.next in r.history &&
            r.history[w.directory.next].ground == (if ready then FoundWithSessions(project) else IngestionEnded(project))
  {
    var project := if found.Some? then found.value.project else created;
    var fingerprint := Fingerprint(config, multiset(ids));
    var p := Process(w.directory.next, ids, workers, allowIngest, Manifest(fingerprint, false, false, None, []), Resolved,
                     [], [], None);
    var w1 := Step(w, Start(config, ids, workers, allowIngest, Fresh));
    assert w1.process == Some(p) && w1.outputs == w.outputs && p.path in w1.history;
    var phase := if found.Some? && found.value.hasSessions then Trusting else Ingesting;
    var w2 := Step(w1, Ensure(found, created));
    assert w2.process == Some(p.(checkpoint := p.checkpoint.(project := Some(project)), phase := phase));
    assert w2.outputs == w.outputs && p.path in w2.history;
    NoneAnswered(ids);
  }

  lemma {:induction false} NoneAnswered(ids: seq<string>)
    ensures Unanswered(ids, CompletedIds([])) == ids
  {
    assert CompletedIds([]) == {};
    if ids != [] {
      NoneAnswered(ids[1..]);
      assert ids == [ids[0]] + ids[1..];
    }
  }

  /** The run returns its results and completes its manifest. */
  lemma Finishes(w: World, p: Process)
    requires Idle(w, p) && p.queue == []
    ensures var r := Step(Step(w, Return), Complete);
            r.process.None? && p.path in r.directory.manifests &&
            r.directory.manifests[p.path] == p.checkpoint.(completed := true) &&
            r.outputs == w.outputs + [Output(p.path, p.ids, SortByOrder(p.checkpoint.results, p.ids))]
  {
    hide SortByOrder;
  }

  lemma SortsToThemselves(ids: seq<string>, project: Project, verdicts: seq<bool>)
    requires Distinct(ids) && |ids| == |verdicts|
    ensures SortByOrder(Verdicts(ids, project, verdicts), ids) == Verdicts(ids, project, verdicts)
  {
    var entries := Verdicts(ids, project, verdicts);
    assert IdsOf(entries) == ids;
    SortedAnswersInOrder(entries, ids);
    var sorted := SortByOrder(entries, ids);
    hide SortByOrder;
    assert |IdsOf(sorted)| == |sorted|;
    forall i | 0 <= i < |ids| ensures sorted[i] == entries[i] {
      assert IdsOf(sorted)[i] == sorted[i].id == ids[i];
      assert sorted[i] in multiset(entries);
      var j :| 0 <= j < |entries| && entries[j] == sorted[i];
      assert ids[j] == ids[i];
    }
  }

  /**
   Left alone after any history, a fresh run over any dataset, with any number of workers from one on and any verdicts
   of the judge, returns exactly these verdicts in the order of the dataset, and leaves them in a completed manifest.
   */
  lemma UndisturbedRunFinishes(before: seq<Event>, config: nat, ids: seq<string>, verdicts: seq<bool>, workers: int,
                               allowIngest: bool, found: Option<Found>, created: Project)
      returns (events: seq<Event>)
    requires Run(before).process.None? && workers >= 1 && Distinct(ids) && |ids| == |verdicts|
    requires (found.Some? && found.value.hasSessions) || allowIngest
    ensures var path, r := Run(before).directory.next, Run(before + events);
            var project := if found.Some? then found.value.project else created;
            r.outputs == Run(before).outputs + [Output(path, ids, Verdicts(ids, project, verdicts))] &&
            path in r.directory.manifests && r.process.None? &&
            r.directory.manifests[path] ==
              Manifest(Fingerprint(config, multiset(ids)), true, true, Some(project), Verdicts(ids, project, verdicts))
  {
    var w := Run(before);
    var project := if found.Some? then found.value.project else created;
    var manifest := Manifest(Fingerprint(config, multiset(ids)), false, true, Some(project), []);
    var p := Process(w.directory.next, ids, workers, allowIngest, manifest, Querying, ids, [], None);
    var opening := [Start(config, ids, workers, allowIngest, Fresh), Ensure(found, created), MarkIngested, Save];
    Prepares(w, config, ids, workers, allowIngest, found, created);
    AfterFour(w, opening);
    var ready := Step(Step(Step(w, opening[0]), opening[1]), opening[2]);
    assert Step(ready, Save) == ready;
    var middle := WholeQueue(After(w, opening), p, verdicts);
    var results := Verdicts(ids, project, verdicts);
    assert manifest.results + results == results;
    var q := p.(queue := [], checkpoint := manifest.(results := results));
    var closing := [Return, Complete, Save, Save];
    var worked := After(After(w, opening), middle);
    Finishes(worked, q);
    AfterFour(worked, closing);
    hide After, Step, Run, Idle, SortByOrder;
    SortsToThemselves(ids, project, verdicts);
    NothingRuns(Step(Step(worked, Return), Complete));
    AfterTwo(w, opening, middle);
    AfterTwo(w, opening + middle, closing);
    events := opening + middle + closing;
    RunThenAfter(before, events);
  }

  lemma NothingRuns(w: World)
    requires w.process.None?
    ensures Step(w, Save) == w
  {
  }

  /** A run without a worker is refused when it looks for its project, and nothing is judged. */
  lemma NoWorkersNoRun(w: World, found: Option<Found>, created: Project)
    requires w.process.Some? && w.process.value.phase == Resolved && w.process.value.workers < 1
    ensures Step(w, Ensure(found, created)) == w.(process := None)
  {
  }

  /** Every manifest was last written before now. */
  ghost predicate WrittenBefore(w: World) {
    forall path :: path in w.directory.mtime ==> w.directory.mtime[path] < w.clock
  }

  lemma StepWrittenBefore(w: World, e: Event)
    requires WrittenBefore(w)
    ensures WrittenBefore(Step(w, e))
  {
    hide Resolve, EnsureProject, Unanswered, CompletedIds, SortByOrder;
  }

  /** So a manifest that is saved is newer than every other: auto-resume takes the one that was worked on last. */
  lemma {:induction false} SavedIsNewest(events: seq<Event>)
    ensures WrittenBefore(Run(events))
    ensures var w := Run(events);
            w.process.Some? && w.process.value.phase == Querying && w.process.value.recording.Some? ==>
              var r, path := Step(w, Save), w.process.value.path;
              path in r.directory.mtime &&
              forall other :: other in r.directory.mtime && other != path ==>
                r.directory.mtime[other] < r.directory.mtime[path]
  {
    if events != [] {
      SavedIsNewest(events[..|events| - 1]);
      StepWrittenBefore(Run(events[..|events| - 1]), events[|events| - 1]);
    }
  }
}
