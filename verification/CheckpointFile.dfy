/**
 The checkpoint object that a run mutates (benchmarks/checkpoint.py), the search for the manifest to resume
 (benchmarks/cli.py), and the query loop as one worker runs it (benchmarks/run_longmemeval.py).
 */
module CheckpointFile {
  import opened Manifests
  import opened Sequences
  import opened Wrappers

  /** The in-progress directory on disk. */
  class Store {
    var directory: Directory
    var clock: nat

    constructor ()
      ensures directory.Valid() && directory.manifests == map[]
    {
      directory, clock := Directory(map[], map[], 0), 0;
    }

    ghost predicate Valid()
      reads this
    {
      directory.Valid() && forall p :: p in directory.mtime ==> directory.mtime[p] < clock
    }

    method Replace(path: Path, manifest: Manifest)
      requires Valid() && path < directory.next
      modifies this
      ensures Valid() && directory.next == old(directory.next)
      ensures directory.manifests == old(directory.manifests)[path := manifest]
      ensures forall p :: p in directory.manifests && p != path ==> directory.mtime[p] < directory.mtime[path]
    {
      directory := directory.(manifests := directory.manifests[path := manifest], mtime := directory.mtime[path := clock]);
      clock := clock + 1;
    }

    /** A path that no manifest has: the file name holds the time to the microsecond. */
    method NewPath() returns (path: Path)
      requires Valid()
      modifies this
      ensures Valid() && path !in directory.manifests && path < directory.next
      ensures directory.manifests == old(directory.manifests) && directory.mtime == old(directory.mtime)
    {
      path := directory.next;
      directory := directory.(next := path + 1);
    }

    /** The newest incomplete manifest whose fingerprint matches, found by one pass over the directory. */
    method Autodiscover(fingerprint: Fingerprint) returns (newest: Option<Path>)
      requires Valid()
      ensures newest == Newest(directory, fingerprint, directory.next)
      ensures newest.None? ==>
                forall p :: p in directory.manifests ==> !Resumable(directory.manifests[p], fingerprint)
      ensures newest.Some? ==>
                newest.value in directory.manifests && Resumable(directory.manifests[newest.value], fingerprint) &&
                forall p :: p in directory.manifests && Resumable(directory.manifests[p], fingerprint) ==>
                  directory.mtime[p] <= directory.mtime[newest.value]
    {
      newest := None;
      for p := 0 to directory.next
        invariant newest == Newest(directory, fingerprint, p)
      {
        NewestIsNewest(directory, fingerprint, p);
        if p in directory.manifests && Resumable(directory.manifests[p], fingerprint) {
          if newest.None? || directory.mtime[newest.value] < directory.mtime[p] {
            newest := Some(p);
          }
        }
      }
      NewestIsNewest(directory, fingerprint, directory.next);
    }
  }

  class Checkpoint {
    const store: Store
    const path: Path
    const fingerprint: Fingerprint
    var completed: bool
    var ingested: bool
    var projectId: Option<Project>
    var results: seq<Entry>

    ghost predicate Valid()
      reads this, store
    {
      store.Valid() && path < store.directory.next
    }

    function ToManifest(): Manifest
      reads this
    {
      Manifest(fingerprint, completed, ingested, projectId, results)
    }

    constructor CreateNew(store: Store, fingerprint: Fingerprint)
      requires store.Valid()
      modifies store
      ensures Valid() && this.store == store && this.fingerprint == fingerprint
      ensures path !in old(store.directory.manifests)
      ensures ToManifest() == Manifest(fingerprint, false, false, None, [])
      ensures store.directory.manifests == old(store.directory.manifests)[path := ToManifest()]
    {
      var unused := store.NewPath();
      this.store, this.path, this.fingerprint := store, unused, fingerprint;
      completed, ingested, projectId, results := false, false, None, [];
      new;
      Save();
    }

    /** The run resumes: in memory is what the manifest on disk says. */
    constructor LoadFrom(store: Store, path: Path)
      requires store.Valid() && path in store.directory.manifests
      ensures Valid() && this.store == store && this.path == path
      ensures ToManifest() == store.directory.manifests[path]
    {
      var manifest := store.directory.manifests[path];
      this.store, this.path, this.fingerprint := store, path, manifest.fingerprint;
      completed, ingested := manifest.completed, manifest.ingested;
      projectId, results := manifest.project, manifest.results;
    }

    method Save()
      requires Valid()
      modifies store
      ensures Valid() && store.directory.manifests == old(store.directory.manifests)[path := ToManifest()]
    {
      store.Replace(path, ToManifest());
    }

    /** In memory only: the caller saves. */
    method AppendResult(entry: Entry)
      requires Valid()
      modifies this`results
      ensures Valid() && results == old(results) + [entry]
    {
      results := results + [entry];
    }

    method SetProjectId(project: Project)
      requires Valid()
      modifies this`projectId, store
      ensures Valid() && projectId == Some(project)
      ensures store.directory.manifests == old(store.directory.manifests)[path := ToManifest()]
    {
      projectId := Some(project);
      Save();
    }

    method MarkIngested()
      requires Valid()
      modifies this`ingested, store
      ensures Valid() && ingested
      ensures store.directory.manifests == old(store.directory.manifests)[path := ToManifest()]
    {
      ingested := true;
      Save();
    }

    method MarkCompleted()
      requires Valid()
      modifies this`completed, store
      ensures Valid() && completed
      ensures store.directory.manifests == old(store.directory.manifests)[path := ToManifest()]
    {
      completed := true;
      Save();
    }

    method Completed() returns (ids: set<string>)
      ensures ids == CompletedIds(results)
      ensures forall id :: id in ids <==> id in IdsOf(results)
    {
      ids := {};
      for i := 0 to |results|
        invariant ids == CompletedIds(results[..i])
      {
        ids := ids + {results[i].id};
        assert results[..i + 1] == results[..i] + [results[i]];
        CompletedAppend(results[..i], results[i]);
      }
      assert results[..|results|] == results;
      CompletedAreIds(results);
    }

    /**
     The query loop with one worker. Each question that the checkpoint does not answer is judged once, in dataset
     order, and saved before the next one.
     */
    method AnswerQuestions(dataset: seq<string>, project: Project, judge: string -> bool) returns (answers: seq<Entry>)
      requires Valid() && Distinct(dataset) && multiset(IdsOf(results)) <= multiset(dataset)
      modifies this`results, store
      ensures Valid() && IdsOf(answers) == dataset && multiset(answers) == multiset(results)
      ensures results == old(results) + Verdicts(Unanswered(dataset, CompletedIds(old(results))), project, judge)
      ensures old(results) <= results
      ensures forall r :: r in results[|old(results)|..] ==>
                r.project == project && r.correct == judge(r.id) && r.id in dataset && r.id !in IdsOf(old(results))
      ensures store.directory.manifests
           == if results == old(results) then old(store.directory.manifests)
              else old(store.directory.manifests)[path := ToManifest()]
    {
      var done := Completed();
      ghost var before := results;
      for i := 0 to |dataset|
        invariant Valid()
        invariant results == before + Verdicts(Unanswered(dataset[..i], done), project, judge)
        invariant store.directory.manifests
               == if results == before then old(store.directory.manifests)
                  else old(store.directory.manifests)[path := ToManifest()]
      {
        UnansweredAppend(dataset[..i], dataset[i], done);
        VerdictsAppend(Unanswered(dataset[..i], done), dataset[i], project, judge);
        assert dataset[..i + 1] == dataset[..i] + [dataset[i]];
        if dataset[i] !in done {
          AppendResult(Entry(dataset[i], project, judge(dataset[i])));
          Save();
        }
      }
      assert dataset[..|dataset|] == dataset;
      AnswersComplete(dataset, before, project, judge);
      UnansweredAre(dataset, done);
      answers := SortByOrder(results, dataset);
      SortedAnswersInOrder(results, dataset);
    }
  }

  function Verdicts(ids: seq<string>, project: Project, judge: string -> bool): seq<Entry> {
    seq(|ids|, i requires 0 <= i < |ids| => Entry(ids[i], project, judge(ids[i])))
  }

  lemma VerdictsAppend(ids: seq<string>, id: string, project: Project, judge: string -> bool)
    ensures Verdicts(ids + [id], project, judge) == Verdicts(ids, project, judge) + [Entry(id, project, judge(id))]
    ensures ids + [] == ids
  {
  }

  lemma AnswersComplete(dataset: seq<string>, before: seq<Entry>, project: Project, judge: string -> bool)
    requires Distinct(dataset) && multiset(IdsOf(before)) <= multiset(dataset)
    ensures var rest := Unanswered(dataset, CompletedIds(before));
            multiset(IdsOf(before + Verdicts(rest, project, judge))) == multiset(dataset)
  {
    hide Unanswered, CompletedIds, Distinct;
    var rest := Unanswered(dataset, CompletedIds(before));
    SkipLeavesTheRest(dataset, before);
    assert IdsOf(before + Verdicts(rest, project, judge)) == IdsOf(before) + rest;
  }

  lemma CompletedAppend(results: seq<Entry>, entry: Entry)
    ensures CompletedIds(results + [entry]) == CompletedIds(results) + {entry.id}
  {
    var longer := results + [entry];
    assert longer[|results|] == entry;
    forall id ensures id in CompletedIds(longer) <==> id in CompletedIds(results) + {entry.id} {
      if id in CompletedIds(results) {
        var i :| 0 <= i < |results| && results[i].id == id;
        assert longer[i].id == id;
      }
    }
  }

  lemma CompletedAreIds(results: seq<Entry>)
    ensures forall id :: id in CompletedIds(results) <==> id in IdsOf(results)
  {
    forall id ensures id in CompletedIds(results) <==> id in IdsOf(results) {
      if id in CompletedIds(results) {
        var i :| 0 <= i < |results| && results[i].id == id;
        assert IdsOf(results)[i] == id;
      }
    }
  }

  lemma {:induction false} UnansweredAppend(ids: seq<string>, id: string, completed: set<string>)
    ensures Unanswered(ids + [id], completed)
         == Unanswered(ids, completed) + if id in completed then [] else [id]
  {
    if ids == [] {
      assert ids + [id] == [id];
    } else {
      UnansweredAppend(ids[1..], id, completed);
      assert (ids + [id])[1..] == ids[1..] + [id];
    }
  }

  lemma {:induction false} UnansweredAre(ids: seq<string>, completed: set<string>)
    ensures forall id :: id in Unanswered(ids, completed) ==> id in ids && id !in completed
  {
    if ids != [] {
      UnansweredAre(ids[1..], completed);
    }
  }
}
