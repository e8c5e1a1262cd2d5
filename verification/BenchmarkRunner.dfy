/**
 The benchmark runner as a machine: one process at a time, its worker pool, and the directory of manifests that
 outlives it. A step is what runs between two awaits, or one atomic write of a manifest.
 */
module BenchmarkRunner {
  import opened Manifests
  import opened Sequences
  import opened Wrappers

  datatype Phase = Resolved | Trusting | Ingesting | Querying | Returned

  /** A question that holds a semaphore slot: with the judge, or waiting to be recorded. */
  datatype Flight = Judging(id: string) | Judged(entry: Entry) {
    function Id(): string {
      if Judging? then id else entry.id
    }
  }

  /**
   A running process. `queue` is the questions whose tasks wait for a slot; `recording` is the result that is
   in the checkpoint's list but not yet on disk, while its task holds the state lock.
   */
  datatype Process = Process(path: Path, ids: seq<string>, workers: int, allowIngest: bool, checkpoint: Manifest,
                             phase: Phase, queue: seq<string>, flying: seq<Flight>, recording: Option<Entry>)
  {
    function InSlots(): nat {
      |flying| + if recording.Some? then 1 else 0
    }
  }

  /**
   On what ground a manifest was marked as ingested: an existing project was trusted, or the run had come to the end of
   its ingest phase, which it does after an enrichment timeout too.
   */
  datatype Ground = NotReady | FoundWithSessions(project: Project) | IngestionEnded(project: Project)

  /** How often a manifest's questions were handed to the judge, how many of those were lost, and the kills. */
  datatype History = History(judged: nat, lost: nat, kills: nat, ground: Ground)

  datatype Output = Output(path: Path, ids: seq<string>, results: seq<Entry>)

  datatype World = World(directory: Directory, clock: nat, process: Option<Process>, history: map<Path, History>,
                         outputs: seq<Output>)

  datatype Event =
    | Start(config: nat, ids: seq<string>, workers: int, allowIngest: bool, choice: Choice)
    | Ensure(found: Option<Found>, created: Project)
    | MarkIngested
    | Begin(k: nat)
    | Judge(k: nat, correct: bool)
    | Record(k: nat)
    | Save
    | Return
    | Complete
    | Kill

  const Initially := World(Directory(map[], map[], 0), 0, None, map[], [])

  function Without<T>(s: seq<T>, k: nat): seq<T>
    requires k < |s|
  {
    s[..k] + s[k + 1..]
  }

  /** The manifest is written whole: a temporary file replaces the old one. */
  function Write(w: World, path: Path, manifest: Manifest): World {
    var d := w.directory;
    w.(directory := d.(manifests := d.manifests[path := manifest], mtime := d.mtime[path := w.clock]),
       clock := w.clock + 1)
  }

  function Persist(w: World, p: Process): World {
    Write(w, p.path, p.checkpoint).(process := Some(p))
  }

  function Launch(w: World, e: Event): World
    requires e.Start?
  {
    var fingerprint := Fingerprint(e.config, multiset(e.ids));
    match Resolve(w.directory, fingerprint, e.choice)
    case ConfigError => w
    case Load(path) =>
      if path !in w.directory.manifests then w
      else w.(process := Some(Process(path, e.ids, e.workers, e.allowIngest, w.directory.manifests[path], Resolved,
                                      [], [], None)))
    case Create =>
      var path, manifest := w.directory.next, Manifest(fingerprint, false, false, None, []);
      var grown := w.(directory := w.directory.(next := path + 1), history := w.history[path := History(0, 0, 0, NotReady)]);
      Persist(grown, Process(path, e.ids, e.workers, e.allowIngest, manifest, Resolved, [], [], None))
  }

  /** From the manifest's results on: one task for every question that it does not answer. */
  function OpenQueue(p: Process): Process {
    p.(phase := Querying, queue := Unanswered(p.ids, CompletedIds(p.checkpoint.results)))
  }

  function Prepare(w: World, p: Process, found: Option<Found>, created: Project): World {
    if p.workers < 1 then w.(process := None)
    else
      match EnsureProject(p.checkpoint, p.allowIngest, found, created)
      case Refuse => w.(process := None)
      case Reuse => w.(process := Some(OpenQueue(p)))
      case Trust(project) => Persist(w, p.(checkpoint := p.checkpoint.(project := Some(project)), phase := Trusting))
      case Ingest(project) =>
        if p.checkpoint.project == Some(project) then w.(process := Some(p.(phase := Ingesting)))
        else Persist(w, p.(checkpoint := p.checkpoint.(project := Some(project)), phase := Ingesting))
  }

  function Count(w: World, path: Path, judged: nat, lost: nat, kills: nat): World {
    if path !in w.history then w
    else
      var h := w.history[path];
      w.(history := w.history[path := History(h.judged + judged, h.lost + lost, h.kills + kills, h.ground)])
  }

  function Mark(w: World, path: Path, ground: Ground): World {
    if path !in w.history then w else w.(history := w.history[path := w.history[path].(ground := ground)])
  }

  function GroundOf(p: Process): Ground {
    if p.checkpoint.project.None? then NotReady
    else if p.phase == Trusting then FoundWithSessions(p.checkpoint.project.value)
    else IngestionEnded(p.checkpoint.project.value)
  }

  function Work(w: World, p: Process, e: Event): World {
    match e
    case Begin(k) =>
      if k < |p.queue| && p.InSlots() < p.workers then
        Count(w, p.path, 1, 0, 0).(process :=
          Some(p.(queue := Without(p.queue, k), flying := p.flying + [Judging(p.queue[k])])))
      else w
    case Judge(k, correct) =>
      if k < |p.flying| && p.flying[k].Judging? && p.checkpoint.project.Some? then
        var entry := Entry(p.flying[k].id, p.checkpoint.project.value, correct);
        w.(process := Some(p.(flying := p.flying[k := Judged(entry)])))
      else w
    case Record(k) =>
      if k < |p.flying| && p.flying[k].Judged? && p.recording.None? then
        var entry := p.flying[k].entry;
        w.(process := Some(p.(checkpoint := p.checkpoint.(results := p.checkpoint.results + [entry]),
                              flying := Without(p.flying, k), recording := Some(entry))))
      else w
    case Save => if p.recording.Some? then Persist(w, p.(recording := None)) else w
    case Return =>
      if p.queue == [] && p.flying == [] && p.recording.None? then
        w.(process := Some(p.(phase := Returned)),
           outputs := w.outputs + [Output(p.path, p.ids, SortByOrder(p.checkpoint.results, p.ids))])
      else w
    case _ => w
  }

  function Step(w: World, e: Event): World {
    if w.process.None? then
      if e.Start? then Launch(w, e) else w
    else
      var p := w.process.value;
      match e
      case Start(_, _, _, _, _) => w
      case Ensure(found, created) => if p.phase == Resolved then Prepare(w, p, found, created) else w
      case MarkIngested =>
        if p.phase == Trusting || p.phase == Ingesting then
          Persist(Mark(w, p.path, GroundOf(p)), OpenQueue(p.(checkpoint := p.checkpoint.(ingested := true))))
        else w
      case Complete =>
        if p.phase == Returned then
          Write(w, p.path, p.checkpoint.(completed := true)).(process := None)
        else w
      case Kill => Count(w, p.path, 0, p.InSlots(), 1).(process := None)
      case _ => if p.phase == Querying then Work(w, p, e) else w
  }

  function Run(events: seq<Event>): World {
    if events == [] then Initially else Step(Run(events[..|events| - 1]), events[|events| - 1])
  }

  /** Every dataset has distinct question ids, and no process has more than `most` workers. */
  ghost predicate Ordinary(events: seq<Event>, most: nat) {
    forall e :: e in events && e.Start? ==> Distinct(e.ids) && e.workers <= most
  }

  // -- What every step keeps ---------------------------------------------------------------------------------------

  function FlightIds(flying: seq<Flight>): seq<string> {
    seq(|flying|, i requires 0 <= i < |flying| => flying[i].Id())
  }

  ghost predicate NoIdTwice(questions: multiset<string>) {
    forall id :: questions[id] <= 1
  }

  /** A manifest answers questions of its dataset, none twice, all against the one ingested project it pins. */
  ghost predicate ManifestOk(m: Manifest) {
    NoIdTwice(m.fingerprint.questions) &&
    multiset(IdsOf(m.results)) <= m.fingerprint.questions &&
    (m.ingested ==> m.project.Some?) &&
    (m.results != [] ==> m.ingested) &&
    forall r :: r in m.results ==> m.project == Some(r.project)
  }

  ghost predicate DirectoryOk(w: World) {
    w.directory.Valid() &&
    forall path :: path in w.directory.manifests ==> ManifestOk(w.directory.manifests[path])
  }

  /** The pool: what is recorded, in flight and waiting is the dataset, each question once. */
  ghost predicate PoolOk(p: Process) {
    if p.phase == Querying || p.phase == Returned then
      p.checkpoint.ingested &&
      multiset(p.ids) == multiset(IdsOf(p.checkpoint.results)) + multiset(p.queue) + multiset(FlightIds(p.flying)) &&
      (p.phase == Returned ==> p.queue == [] && p.flying == [] && p.recording.None?)
    else p.queue == [] && p.flying == [] && p.recording.None?
  }

  ghost predicate OwnOk(p: Process, most: nat) {
    Distinct(p.ids) && p.workers <= most &&
    (p.phase == Trusting || p.phase == Ingesting ==> p.checkpoint.project.Some?) &&
    ManifestOk(p.checkpoint) && !p.checkpoint.completed && p.checkpoint.fingerprint.questions == multiset(p.ids) &&
    (forall f :: f in p.flying && f.Judged? ==> p.checkpoint.project == Some(f.entry.project)) &&
    PoolOk(p) && p.InSlots() <= if p.workers < 0 then 0 else p.workers
  }

  /** The manifest on disk is the checkpoint, except for the result that is being recorded. */
  ghost predicate OnDisk(d: Directory, p: Process) {
    p.path in d.manifests &&
    var stored := d.manifests[p.path];
    stored == p.checkpoint.(results := stored.results) &&
    p.checkpoint.results == stored.results + if p.recording.Some? then [p.recording.value] else []
  }

  function InSlotsOf(w: World, path: Path): nat {
    if w.process.Some? && w.process.value.path == path then w.process.value.InSlots() else 0
  }

  /** Every question handed to the judge is on disk, in a slot, or was lost with a killed process. */
  ghost predicate HistoryOk(w: World) {
    w.history.Keys == w.directory.manifests.Keys &&
    forall path :: path in w.history ==>
      w.history[path].judged ==
        |w.directory.manifests[path].results| + InSlotsOf(w, path) + w.history[path].lost
  }

  /** A killed process loses at most what its workers hold. */
  ghost predicate LossOk(w: World, most: nat) {
    forall path :: path in w.history ==> w.history[path].lost <= most * w.history[path].kills
  }

  ghost predicate Answered(o: Output) {
    IdsOf(o.results) == o.ids
  }

  ghost predicate Inv(w: World, most: nat) {
    DirectoryOk(w) && HistoryOk(w) &&
    (w.process.Some? ==> OwnOk(w.process.value, most) && OnDisk(w.directory, w.process.value)) &&
    forall o :: o in w.outputs ==> Answered(o)
  }

  lemma IdsAppend(results: seq<Entry>, entry: Entry)
    ensures IdsOf(results + [entry]) == IdsOf(results) + [entry.id]
  {
  }

  lemma WithoutRemoves<T>(s: seq<T>, k: nat)
    requires k < |s|
    ensures multiset(s) == multiset(Without(s, k)) + multiset{s[k]}
    ensures forall x :: x in Without(s, k) ==> x in s
  {
    assert s == s[..k] + [s[k]] + s[k + 1..];
  }

  lemma WithoutShortens<T>(s: seq<T>, k: nat)
    requires k < |s|
    ensures |Without(s, k)| == |s| - 1
  {
  }

  lemma FlightIdsWithout(flying: seq<Flight>, k: nat)
    requires k < |flying|
    ensures FlightIds(Without(flying, k)) == Without(FlightIds(flying), k)
  {
  }

  lemma StartsSound(ids: seq<string>, m: Manifest)
    requires Distinct(ids) && ManifestOk(m) && m.fingerprint.questions == multiset(ids)
    ensures multiset(ids) == multiset(IdsOf(m.results)) + multiset(Unanswered(ids, CompletedIds(m.results)))
  {
    SkipLeavesTheRest(ids, m.results);
  }

  lemma EmptyManifestOk(config: nat, ids: seq<string>)
    requires Distinct(ids)
    ensures ManifestOk(Manifest(Fingerprint(config, multiset(ids)), false, false, None, []))
  {
    forall id ensures multiset(ids)[id] <= 1 {
      DistinctCount(ids, id);
    }
  }

  /** A step that changes only the process, and holds as many slots as before. */
  lemma MovesOn(w: World, q: Process, most: nat)
    requires Inv(w, most) && w.process.Some? && q.path == w.process.value.path
    requires OwnOk(q, most) && OnDisk(w.directory, q) && q.InSlots() == w.process.value.InSlots()
    ensures Inv(w.(process := Some(q)), most)
  {
    hide OwnOk, OnDisk, ManifestOk, Answered;
  }

  lemma OwnGives(p: Process, most: nat)
    requires OwnOk(p, most)
    ensures ManifestOk(p.checkpoint) && ManifestOk(p.checkpoint.(completed := true))
    ensures p.InSlots() <= if p.workers < 0 then 0 else p.workers
    ensures p.phase == Returned ==> p.InSlots() == 0
  {
    hide Distinct, IdsOf, NoIdTwice;
  }

  /** A step that writes the manifest, and with it what was being recorded. */
  lemma Writes(w: World, m: Manifest, q: Option<Process>, most: nat)
    requires Inv(w, most) && w.process.Some? && ManifestOk(m)
    requires q.Some? ==> q.value.path == w.process.value.path && OwnOk(q.value, most) && q.value.checkpoint == m
    requires q.Some? ==> q.value.recording.None? && q.value.flying == w.process.value.flying
    requires q.None? ==> w.process.value.InSlots() == 0
    requires m.results == w.process.value.checkpoint.results
    ensures Inv(Write(w, w.process.value.path, m).(process := q), most)
  {
    hide OwnOk, ManifestOk, Answered;
    var p := w.process.value;
    assert m.results + [] == m.results;
    assert p.path in w.directory.manifests;
  }

  lemma Persists(w: World, q: Process, most: nat)
    requires Inv(w, most) && w.process.Some? && q.path == w.process.value.path
    requires OwnOk(q, most) && q.recording.None? && q.flying == w.process.value.flying
    requires q.checkpoint.results == w.process.value.checkpoint.results
    ensures Inv(Persist(w, q), most)
  {
    hide OwnOk, ManifestOk, Inv;
    OwnGives(q, most);
    Writes(w, q.checkpoint, Some(q), most);
  }

  /** A process that ends leaves the manifest as it is on disk; what is in its slots is lost. */
  lemma Ends(w: World, most: nat)
    requires Inv(w, most) && w.process.Some?
    ensures Inv(Count(w, w.process.value.path, 0, w.process.value.InSlots(), 1).(process := None), most)
    ensures w.process.value.InSlots() == 0 ==> Inv(w.(process := None), most)
  {
    hide OwnOk, ManifestOk, Answered;
    assert w.process.value.path in w.directory.manifests;
  }

  lemma LoadedIsOwn(m: Manifest, path: Path, e: Event, most: nat)
    requires ManifestOk(m) && e.Start? && Distinct(e.ids) && e.workers <= most
    requires Resumable(m, Fingerprint(e.config, multiset(e.ids)))
    ensures OwnOk(Process(path, e.ids, e.workers, e.allowIngest, m, Resolved, [], [], None), most)
    ensures m.results == m.results + []
  {
    hide ManifestOk, Distinct;
  }

  lemma LaunchLoads(w: World, e: Event, path: Path, most: nat)
    requires Inv(w, most) && w.process.None? && e.Start? && Distinct(e.ids) && e.workers <= most
    requires path in w.directory.manifests
    requires Resumable(w.directory.manifests[path], Fingerprint(e.config, multiset(e.ids)))
    ensures Inv(w.(process := Some(Process(path, e.ids, e.workers, e.allowIngest, w.directory.manifests[path],
                                           Resolved, [], [], None))), most)
  {
    hide ManifestOk, Distinct, Answered;
    var m := w.directory.manifests[path];
    LoadedIsOwn(m, path, e, most);
    hide OwnOk;
  }

  lemma LaunchCreates(w: World, e: Event, most: nat)
    requires Inv(w, most) && w.process.None? && e.Start? && Distinct(e.ids) && e.workers <= most
    requires Resolve(w.directory, Fingerprint(e.config, multiset(e.ids)), e.choice) == Create
    ensures Inv(Launch(w, e), most)
  {
    hide ManifestOk, Resolve, Distinct, Answered;
    EmptyManifestOk(e.config, e.ids);
  }

  lemma LaunchKeeps(w: World, e: Event, most: nat)
    requires Inv(w, most) && w.process.None? && e.Start? && Distinct(e.ids) && e.workers <= most
    ensures Inv(Launch(w, e), most)
  {
    hide ManifestOk, Resolve, Distinct, Answered, OwnOk, OnDisk, HistoryOk;
    LoadedIsResumable(w.directory, Fingerprint(e.config, multiset(e.ids)), e.choice);
    match Resolve(w.directory, Fingerprint(e.config, multiset(e.ids)), e.choice)
    case ConfigError =>
    case Load(path) => LaunchLoads(w, e, path, most);
    case Create => LaunchCreates(w, e, most);
  }

  lemma PrepareKeeps(w: World, e: Event, most: nat)
    requires Inv(w, most) && w.process.Some? && w.process.value.phase == Resolved && e.Ensure?
    ensures Inv(Prepare(w, w.process.value, e.found, e.created), most)
  {
    hide Persist, OpenQueue, OwnOk, OnDisk, DirectoryOk, HistoryOk, Answered;
    var p := w.process.value;
    PreparedIsEmpty(p, most);
    Ends(w, most);
    if p.workers >= 1 {
      match EnsureProject(p.checkpoint, p.allowIngest, e.found, e.created)
      case Refuse =>
      case Reuse => OpensQueue(p, most); OpensOnDisk(w, most);
      case Trust(project) => PinKeeps(w, project, Trusting, most);
      case Ingest(project) =>
        if p.checkpoint.project == Some(project) {
          IngestsPinned(w, most);
        } else {
          PinKeeps(w, project, Ingesting, most);
        }
    }
  }

  lemma PreparedIsEmpty(p: Process, most: nat)
    requires OwnOk(p, most) && p.phase != Querying
    ensures p.InSlots() == 0
  {
    hide Distinct, ManifestOk;
  }

  lemma OpensOnDisk(w: World, most: nat)
    requires Inv(w, most) && w.process.Some? && OwnOk(OpenQueue(w.process.value), most)
    ensures Inv(w.(process := Some(OpenQueue(w.process.value))), most)
  {
    hide OwnOk, DirectoryOk, HistoryOk, Answered, Unanswered;
    MovesOn(w, OpenQueue(w.process.value), most);
  }

  lemma IngestsPinned(w: World, most: nat)
    requires Inv(w, most) && w.process.Some? && w.process.value.phase == Resolved
    requires w.process.value.checkpoint.project.Some?
    ensures Inv(w.(process := Some(w.process.value.(phase := Ingesting))), most)
  {
    hide ManifestOk, Distinct, DirectoryOk, HistoryOk, Answered;
    MovesOn(w, w.process.value.(phase := Ingesting), most);
  }

  lemma OpensPool(p: Process)
    requires Distinct(p.ids) && ManifestOk(p.checkpoint) && p.checkpoint.fingerprint.questions == multiset(p.ids)
    requires p.checkpoint.ingested && p.flying == [] && p.recording.None?
    ensures PoolOk(OpenQueue(p))
  {
    hide Unanswered, CompletedIds, Distinct, IdsOf, ManifestOk;
    StartsSound(p.ids, p.checkpoint);
    assert FlightIds([]) == [];
  }

  lemma OpensQueue(p: Process, most: nat)
    requires OwnOk(p, most) && p.phase != Querying && p.phase != Returned && p.checkpoint.ingested
    ensures OwnOk(OpenQueue(p), most)
  {
    hide Unanswered, CompletedIds, ManifestOk, Distinct, IdsOf;
    OpensPool(p);
    hide PoolOk;
  }

  lemma PinsOwn(p: Process, project: Project, phase: Phase, most: nat)
    requires OwnOk(p, most) && p.phase == Resolved
    requires p.checkpoint.project.None? && (phase == Trusting || phase == Ingesting)
    ensures OwnOk(p.(checkpoint := p.checkpoint.(project := Some(project)), phase := phase), most)
    ensures p.recording.None?
  {
    hide Distinct, NoIdTwice, IdsOf;
  }

  lemma PinKeeps(w: World, project: Project, phase: Phase, most: nat)
    requires Inv(w, most) && w.process.Some? && w.process.value.phase == Resolved
    requires w.process.value.checkpoint.project.None? && (phase == Trusting || phase == Ingesting)
    ensures var p := w.process.value;
            Inv(Persist(w, p.(checkpoint := p.checkpoint.(project := Some(project)), phase := phase)), most)
  {
    hide OwnOk, OnDisk, DirectoryOk, HistoryOk, Answered, Persist;
    var p := w.process.value;
    PinsOwn(p, project, phase, most);
    Persists(w, p.(checkpoint := p.checkpoint.(project := Some(project)), phase := phase), most);
  }

  lemma MarksOwn(p: Process, most: nat)
    requires OwnOk(p, most) && (p.phase == Trusting || p.phase == Ingesting)
    ensures OwnOk(p.(checkpoint := p.checkpoint.(ingested := true)), most)
    ensures p.recording.None?
  {
    hide Distinct, NoIdTwice, IdsOf;
  }

  lemma IngestedKeeps(w: World, most: nat)
    requires Inv(w, most) && w.process.Some?
    ensures Inv(Step(w, MarkIngested), most)
  {
    hide OwnOk, OnDisk, DirectoryOk, HistoryOk, Answered, Persist, Unanswered;
    var p := w.process.value;
    if p.phase == Trusting || p.phase == Ingesting {
      var q := p.(checkpoint := p.checkpoint.(ingested := true));
      MarksOwn(p, most);
      OpensQueue(q, most);
      MarkKeeps(w, p.path, GroundOf(p), most);
      Persists(Mark(w, p.path, GroundOf(p)), OpenQueue(q), most);
    }
  }

  lemma MarkKeeps(w: World, path: Path, ground: Ground, most: nat)
    requires Inv(w, most)
    ensures Inv(Mark(w, path, ground), most)
  {
    hide OwnOk, OnDisk, ManifestOk, Answered;
  }

  lemma BeginsOwn(p: Process, k: nat, most: nat)
    requires OwnOk(p, most) && p.phase == Querying && k < |p.queue| && p.InSlots() < p.workers
    ensures OwnOk(p.(queue := Without(p.queue, k), flying := p.flying + [Judging(p.queue[k])]), most)
  {
    hide ManifestOk, Distinct, IdsOf, Without;
    WithoutRemoves(p.queue, k);
    assert FlightIds(p.flying + [Judging(p.queue[k])]) == FlightIds(p.flying) + [p.queue[k]];
    hide FlightIds;
  }

  /** A step that takes one more slot, for one more question judged. */
  lemma Takes(w: World, q: Process, most: nat)
    requires Inv(w, most) && w.process.Some? && q.path == w.process.value.path
    requires OwnOk(q, most) && OnDisk(w.directory, q) && q.InSlots() == w.process.value.InSlots() + 1
    ensures Inv(Count(w, q.path, 1, 0, 0).(process := Some(q)), most)
  {
    hide OwnOk, ManifestOk, Answered;
    assert q.path in w.directory.manifests;
  }

  lemma BeginKeeps(w: World, k: nat, most: nat)
    requires Inv(w, most) && w.process.Some?
    ensures Inv(Step(w, Begin(k)), most)
  {
    hide OwnOk, DirectoryOk, HistoryOk, Answered, Count, Without;
    var p := w.process.value;
    if p.phase == Querying && k < |p.queue| && p.InSlots() < p.workers {
      BeginsOwn(p, k, most);
      Takes(w, p.(queue := Without(p.queue, k), flying := p.flying + [Judging(p.queue[k])]), most);
    }
  }

  lemma JudgesOwn(p: Process, k: nat, entry: Entry, most: nat)
    requires OwnOk(p, most) && p.phase == Querying && k < |p.flying| && p.flying[k].Judging?
    requires entry.id == p.flying[k].id && p.checkpoint.project == Some(entry.project)
    ensures OwnOk(p.(flying := p.flying[k := Judged(entry)]), most)
  {
    hide ManifestOk, Distinct, IdsOf;
    assert FlightIds(p.flying[k := Judged(entry)]) == FlightIds(p.flying);
    hide FlightIds;
  }

  lemma JudgeKeeps(w: World, k: nat, correct: bool, most: nat)
    requires Inv(w, most) && w.process.Some?
    ensures Inv(Step(w, Judge(k, correct)), most)
  {
    hide OwnOk, DirectoryOk, HistoryOk, Answered;
    var p := w.process.value;
    if p.phase == Querying && k < |p.flying| && p.flying[k].Judging? && p.checkpoint.project.Some? {
      var entry := Entry(p.flying[k].id, p.checkpoint.project.value, correct);
      JudgesOwn(p, k, entry, most);
      MovesOn(w, p.(flying := p.flying[k := Judged(entry)]), most);
    }
  }

  lemma RecordsEntry(m: Manifest, entry: Entry, rest: multiset<string>)
    requires ManifestOk(m) && m.ingested && m.project == Some(entry.project)
    requires m.fingerprint.questions == multiset(IdsOf(m.results)) + multiset{entry.id} + rest
    ensures ManifestOk(m.(results := m.results + [entry]))
    ensures m.fingerprint.questions == multiset(IdsOf(m.results + [entry])) + rest
  {
    IdsAppend(m.results, entry);
  }

  lemma RecordsPool(p: Process, k: nat)
    requires PoolOk(p) && p.phase == Querying && k < |p.flying| && p.flying[k].Judged?
    requires ManifestOk(p.checkpoint) && p.checkpoint.fingerprint.questions == multiset(p.ids)
    requires p.checkpoint.project == Some(p.flying[k].entry.project)
    ensures var entry := p.flying[k].entry;
            var m := p.checkpoint.(results := p.checkpoint.results + [entry]);
            ManifestOk(m) &&
            PoolOk(p.(checkpoint := m, flying := Without(p.flying, k), recording := Some(entry)))
  {
    hide ManifestOk, IdsOf, Without;
    FlightIdsWithout(p.flying, k);
    WithoutRemoves(FlightIds(p.flying), k);
    assert FlightIds(p.flying)[k] == p.flying[k].entry.id;
    hide FlightIds;
    RecordsEntry(p.checkpoint, p.flying[k].entry, multiset(p.queue) + multiset(FlightIds(Without(p.flying, k))));
  }

  lemma RecordsOwn(p: Process, k: nat, most: nat)
    requires OwnOk(p, most) && p.phase == Querying && k < |p.flying| && p.flying[k].Judged? && p.recording.None?
    ensures var entry := p.flying[k].entry;
            OwnOk(p.(checkpoint := p.checkpoint.(results := p.checkpoint.results + [entry]),
                     flying := Without(p.flying, k), recording := Some(entry)), most)
  {
    hide ManifestOk, Distinct, IdsOf, Without, FlightIds;
    assert p.flying[k] in p.flying;
    WithoutShortens(p.flying, k);
    WithoutRemoves(p.flying, k);
    RecordsPool(p, k);
    hide PoolOk;
  }

  lemma RecordKeeps(w: World, k: nat, most: nat)
    requires Inv(w, most) && w.process.Some?
    ensures Inv(Step(w, Record(k)), most)
  {
    hide OwnOk, DirectoryOk, HistoryOk, Answered;
    var p := w.process.value;
    if p.phase == Querying && k < |p.flying| && p.flying[k].Judged? && p.recording.None? {
      var entry := p.flying[k].entry;
      var q := p.(checkpoint := p.checkpoint.(results := p.checkpoint.results + [entry]),
                  flying := Without(p.flying, k), recording := Some(entry));
      RecordsOwn(p, k, most);
      var stored := w.directory.manifests[p.path].results;
      assert stored + [] == stored;
      MovesOn(w, q, most);
    }
  }

  lemma SavesOwn(p: Process, most: nat)
    requires OwnOk(p, most) && p.phase == Querying
    ensures OwnOk(p.(recording := None), most)
  {
    hide ManifestOk, Distinct, IdsOf, FlightIds;
  }

  lemma SaveKeeps(w: World, most: nat)
    requires Inv(w, most) && w.process.Some?
    ensures Inv(Step(w, Save), most)
  {
    hide OwnOk, DirectoryOk, HistoryOk, Answered, Persist;
    var p := w.process.value;
    if p.phase == Querying && p.recording.Some? {
      SavesOwn(p, most);
      Persists(w, p.(recording := None), most);
    }
  }

  lemma ReturnsOwn(p: Process, most: nat)
    requires OwnOk(p, most) && p.phase == Querying && p.queue == [] && p.flying == [] && p.recording.None?
    ensures OwnOk(p.(phase := Returned), most)
    ensures Answered(Output(p.path, p.ids, SortByOrder(p.checkpoint.results, p.ids)))
  {
    hide ManifestOk, IdsOf, Distinct, SortByOrder;
    assert FlightIds(p.flying) == [];
    hide FlightIds;
    SortedAnswersInOrder(p.checkpoint.results, p.ids);
  }

  lemma ReturnKeeps(w: World, most: nat)
    requires Inv(w, most) && w.process.Some?
    ensures Inv(Step(w, Return), most)
  {
    hide OwnOk, DirectoryOk, HistoryOk, Answered, SortByOrder;
    var p := w.process.value;
    if p.phase == Querying && p.queue == [] && p.flying == [] && p.recording.None? {
      ReturnsOwn(p, most);
      MovesOn(w, p.(phase := Returned), most);
      OutputAdds(w.(process := Some(p.(phase := Returned))),
                 Output(p.path, p.ids, SortByOrder(p.checkpoint.results, p.ids)), most);
    }
  }

  lemma OutputAdds(w: World, o: Output, most: nat)
    requires Inv(w, most) && Answered(o)
    ensures Inv(w.(outputs := w.outputs + [o]), most)
  {
    hide OwnOk, OnDisk, ManifestOk, Answered;
  }

  lemma CompleteKeeps(w: World, most: nat)
    requires Inv(w, most) && w.process.Some?
    ensures Inv(Step(w, Complete), most)
  {
    hide OwnOk, ManifestOk, Answered, DirectoryOk, HistoryOk, OnDisk, Write;
    var p := w.process.value;
    if p.phase == Returned {
      OwnGives(p, most);
      Writes(w, p.checkpoint.(completed := true), None, most);
    }
  }

  lemma StepKeeps(w: World, e: Event, most: nat)
    requires Inv(w, most) && (e.Start? ==> Distinct(e.ids) && e.workers <= most)
    ensures Inv(Step(w, e), most)
  {
    hide Inv, Launch, Prepare, Work;
    if w.process.None? {
      if e.Start? { LaunchKeeps(w, e, most); }
    } else {
      match e
      case Start(_, _, _, _, _) =>
      case Ensure(_, _) => if w.process.value.phase == Resolved { PrepareKeeps(w, e, most); }
      case MarkIngested => IngestedKeeps(w, most);
      case Begin(k) => BeginKeeps(w, k, most);
      case Judge(k, correct) => JudgeKeeps(w, k, correct, most);
      case Record(k) => RecordKeeps(w, k, most);
      case Save => SaveKeeps(w, most);
      case Return => ReturnKeeps(w, most);
      case Complete => CompleteKeeps(w, most);
      case Kill => Ends(w, most);
    }
  }

  lemma {:induction false} RunKeepsInv(events: seq<Event>, most: nat)
    requires Ordinary(events, most)
    ensures Inv(Run(events), most)
  {
    if events != [] {
      RunKeepsInv(events[..|events| - 1], most);
      hide Inv, Step;
      StepKeeps(Run(events[..|events| - 1]), events[|events| - 1], most);
    }
  }

  // -- Main results ------------------------------------------------------------------------------------------------

  /** At every moment, every manifest answers only questions of its dataset, and none of them twice. */
  lemma ManifestsAnswerOnce(events: seq<Event>, most: nat, path: Path)
    requires Ordinary(events, most) && path in Run(events).directory.manifests
    ensures var m := Run(events).directory.manifests[path];
            (forall r :: r in m.results ==> r.id in m.fingerprint.questions) &&
            (forall i, j :: 0 <= i < j < |m.results| ==> m.results[i].id != m.results[j].id)
  {
    RunKeepsInv(events, most);
    OnceEach(Run(events).directory.manifests[path]);
  }

  lemma OnceEach(m: Manifest)
    requires ManifestOk(m)
    ensures forall r :: r in m.results ==> r.id in m.fingerprint.questions
    ensures forall i, j :: 0 <= i < j < |m.results| ==> m.results[i].id != m.results[j].id
  {
    var names := IdsOf(m.results);
    forall r | r in m.results ensures r.id in m.fingerprint.questions {
      var i :| 0 <= i < |m.results| && m.results[i] == r;
      assert names[i] in multiset(names);
    }
    forall i, j | 0 <= i < j < |m.results| ensures m.results[i].id != m.results[j].id {
      assert names[i] == m.results[i].id && names[j] == m.results[j].id;
      assert m.fingerprint.questions[names[i]] <= 1;
      if names[i] == names[j] {
        TwiceCounts(names, i, j);
      }
    }
  }

  /** A manifest that says it is ingested has a ground for that, for the very project it pins. */
  ghost predicate GroundOk(w: World) {
    forall path :: path in w.directory.manifests && path in w.history && w.directory.manifests[path].ingested ==>
      Grounded(w.history[path].ground, w.directory.manifests[path].project)
  }

  predicate Grounded(ground: Ground, project: Option<Project>) {
    !ground.NotReady? && project == Some(ground.project)
  }

  lemma WriteGrounds(w: World, path: Path, m: Manifest)
    requires GroundOk(w) && path in w.history
    requires m.ingested ==> Grounded(w.history[path].ground, m.project)
    ensures GroundOk(Write(w, path, m))
  {
  }

  lemma CountGrounds(w: World, path: Path, judged: nat, lost: nat, kills: nat)
    requires GroundOk(w)
    ensures GroundOk(Count(w, path, judged, lost, kills))
  {
  }

  lemma StepGrounds(w: World, e: Event, most: nat)
    requires Inv(w, most) && GroundOk(w)
    ensures GroundOk(Step(w, e))
  {
    hide ManifestOk, Answered, HistoryOk, Unanswered, CompletedIds, SortByOrder, Distinct, Resolve, PoolOk;
    if w.process.None? {
      if e.Start? {
        LaunchGrounds(w, e);
      }
    } else {
      var p := w.process.value;
      assert p.path in w.history by { PathIsKnown(w, most); }
      match e
      case Ensure(_, _) => if p.phase == Resolved { PrepareGrounds(w, e, most); }
      case MarkIngested => MarkGrounds(w, most);
      case Save => WriteGrounds(w, p.path, p.checkpoint);
      case Complete => WriteGrounds(w, p.path, p.checkpoint.(completed := true));
      case Kill => CountGrounds(w, p.path, 0, p.InSlots(), 1);
      case Begin(_) => CountGrounds(w, p.path, 1, 0, 0);
      case _ =>
    }
  }

  lemma PathIsKnown(w: World, most: nat)
    requires Inv(w, most) && w.process.Some?
    ensures w.process.value.path in w.history
  {
    hide OwnOk, ManifestOk, Answered;
  }

  lemma LaunchGrounds(w: World, e: Event)
    requires GroundOk(w) && e.Start? && w.directory.Valid()
    ensures GroundOk(Launch(w, e))
  {
    hide Resolve;
  }

  lemma PrepareGrounds(w: World, e: Event, most: nat)
    requires Inv(w, most) && GroundOk(w) && w.process.Some? && e.Ensure? && w.process.value.phase == Resolved
    ensures GroundOk(Prepare(w, w.process.value, e.found, e.created))
  {
    hide ManifestOk, Answered, HistoryOk, OpenQueue, PoolOk, Distinct;
    var p := w.process.value;
    PathIsKnown(w, most);
    ProjectIsPinned(p, most);
    match EnsureProject(p.checkpoint, p.allowIngest, e.found, e.created)
    case Trust(project) => WriteGrounds(w, p.path, p.checkpoint.(project := Some(project)));
    case Ingest(project) => WriteGrounds(w, p.path, p.checkpoint.(project := Some(project)));
    case _ =>
  }

  lemma ProjectIsPinned(p: Process, most: nat)
    requires OwnOk(p, most)
    ensures p.checkpoint.ingested || p.phase == Trusting || p.phase == Ingesting ==> p.checkpoint.project.Some?
  {
    hide Distinct, IdsOf, NoIdTwice, PoolOk;
  }

  lemma MarkGrounds(w: World, most: nat)
    requires Inv(w, most) && GroundOk(w) && w.process.Some?
    ensures GroundOk(Step(w, MarkIngested))
  {
    hide ManifestOk, Answered, HistoryOk, OpenQueue, PoolOk, Distinct;
    var p := w.process.value;
    if p.phase == Trusting || p.phase == Ingesting {
      PathIsKnown(w, most);
      ProjectIsPinned(p, most);
      MarkedGrounds(w, p.path, GroundOf(p), p.checkpoint.(ingested := true));
      var q := OpenQueue(p.(checkpoint := p.checkpoint.(ingested := true)));
      assert q.path == p.path && q.checkpoint == p.checkpoint.(ingested := true) by { OpenKeeps(p); }
    }
  }

  lemma OpenKeeps(p: Process)
    ensures var q := OpenQueue(p.(checkpoint := p.checkpoint.(ingested := true)));
            q.path == p.path && q.checkpoint == p.checkpoint.(ingested := true)
  {
  }

  lemma MarkedGrounds(w: World, path: Path, ground: Ground, m: Manifest)
    requires GroundOk(w) && path in w.history && Grounded(ground, m.project)
    ensures GroundOk(Write(Mark(w, path, ground), path, m))
  {
  }

  lemma {:induction false} RunIsGrounded(events: seq<Event>, most: nat)
    requires Ordinary(events, most)
    ensures GroundOk(Run(events))
  {
    if events != [] {
      RunIsGrounded(events[..|events| - 1], most);
      RunKeepsInv(events[..|events| - 1], most);
      hide Step, Inv, GroundOk;
      StepGrounds(Run(events[..|events| - 1]), events[|events| - 1], most);
    }
  }

  /**
   All results of a manifest were judged against the one project that it pins. That project was found with sessions
   in it, and trusted, or a run of this manifest had come to the end of its ingest
   phase.
   */
  lemma OneIngestedProject(events: seq<Event>, most: nat, path: Path)
    requires Ordinary(events, most) && path in Run(events).directory.manifests
    ensures path in Run(events).history
    ensures var m := Run(events).directory.manifests[path];
            m.results != [] ==>
              m.ingested && Grounded(Run(events).history[path].ground, m.project) &&
              forall r :: r in m.results ==> m.project == Some(r.project)
  {
    RunKeepsInv(events, most);
    RunIsGrounded(events, most);
    hide Run;
    assert ManifestOk(Run(events).directory.manifests[path]);
  }

  /** `n` is `m` later on: the same run, with more results and more flags set, and the same project once pinned. */
  ghost predicate Extends(m: Manifest, n: Manifest) {
    m.fingerprint == n.fingerprint && m.results <= n.results &&
    (m.completed ==> n.completed) && (m.ingested ==> n.ingested) && (m.project.Some? ==> n.project == m.project)
  }

  ghost predicate DirectoryGrows(d: Directory, e: Directory) {
    forall path :: path in d.manifests ==> path in e.manifests && Extends(d.manifests[path], e.manifests[path])
  }

  lemma WriteGrows(w: World, path: Path, m: Manifest)
    requires path in w.directory.manifests ==> Extends(w.directory.manifests[path], m)
    ensures DirectoryGrows(w.directory, Write(w, path, m).directory)
  {
  }

  lemma StepGrows(w: World, e: Event, most: nat)
    requires Inv(w, most)
    ensures DirectoryGrows(w.directory, Step(w, e).directory)
  {
    hide OwnOk, ManifestOk, HistoryOk, Answered, Launch, Prepare, Unanswered, CompletedIds, SortByOrder, Distinct;
    if w.process.None? {
      if e.Start? { LaunchGrows(w, e); }
    } else {
      var p := w.process.value;
      if e.Ensure? {
        if p.phase == Resolved { PrepareGrows(w, e, most); }
      } else if e.MarkIngested? {
        WriteGrows(w, p.path, p.checkpoint.(ingested := true));
      } else if e.Complete? {
        WriteGrows(w, p.path, p.checkpoint.(completed := true));
      } else if e.Save? {
        WriteGrows(w, p.path, p.checkpoint);
      }
    }
  }

  lemma LaunchGrows(w: World, e: Event)
    requires e.Start? && w.directory.Valid()
    ensures DirectoryGrows(w.directory, Launch(w, e).directory)
  {
    hide Resolve;
  }

  lemma PrepareGrows(w: World, e: Event, most: nat)
    requires Inv(w, most) && w.process.Some? && e.Ensure? && w.process.value.phase == Resolved
    ensures DirectoryGrows(w.directory, Prepare(w, w.process.value, e.found, e.created).directory)
  {
    hide OwnOk, ManifestOk, HistoryOk, Answered, OpenQueue;
    var p := w.process.value;
    PreparedResults(p, most);
    match EnsureProject(p.checkpoint, p.allowIngest, e.found, e.created)
    case Trust(project) => WriteGrows(w, p.path, p.checkpoint.(project := Some(project)));
    case Ingest(project) => WriteGrows(w, p.path, p.checkpoint.(project := Some(project)));
    case _ =>
  }

  lemma PreparedResults(p: Process, most: nat)
    requires OwnOk(p, most) && p.phase == Resolved
    ensures p.recording.None?
  {
    hide ManifestOk, Distinct;
  }

  /** What a manifest holds on disk is never taken back, however runs are killed and resumed. */
  lemma {:induction false} ManifestsOnlyGrow(events: seq<Event>, more: seq<Event>, most: nat)
    requires Ordinary(events + more, most)
    ensures DirectoryGrows(Run(events).directory, Run(events + more).directory)
    decreases |more|
  {
    hide Step, Inv;
    if more == [] {
      assert events + more == events;
    } else {
      var front, last := more[..|more| - 1], more[|more| - 1];
      assert (events + more)[..|events + more| - 1] == events + front;
      ManifestsOnlyGrow(events, front, most);
      RunKeepsInv(events + front, most);
      StepGrows(Run(events + front), last, most);
    }
  }

  /** A run that finishes returns exactly one result for every question, in dataset order. */
  lemma FinishedRunAnswersAll(events: seq<Event>, most: nat, o: Output)
    requires Ordinary(events, most) && o in Run(events).outputs
    ensures |o.results| == |o.ids| && forall i :: 0 <= i < |o.ids| ==> o.results[i].id == o.ids[i]
  {
    hide Run;
    RunKeepsInv(events, most);
    assert Answered(o);
    assert |IdsOf(o.results)| == |o.results|;
    assert forall i :: 0 <= i < |o.results| ==> IdsOf(o.results)[i] == o.results[i].id;
  }

  /** What a run returns is what its manifest on disk holds, sorted. */
  lemma ReturnReportsTheManifest(w: World, most: nat)
    requires Inv(w, most) && w.process.Some?
    ensures var after := Step(w, Return);
            after.outputs == w.outputs ||
            (|after.outputs| == |w.outputs| + 1 && after.outputs[..|w.outputs|] == w.outputs &&
             var o := after.outputs[|w.outputs|];
             o.path in after.directory.manifests &&
             multiset(o.results) == multiset(after.directory.manifests[o.path].results))
  {
    hide OwnOk, DirectoryOk, HistoryOk, Answered, SortByOrder;
    var p := w.process.value;
    SortSorts(p.checkpoint.results, p.ids);
  }

  lemma LossKeeps(w: World, e: Event, most: nat)
    requires Inv(w, most) && LossOk(w, most)
    ensures LossOk(Step(w, e), most)
  {
    hide DirectoryOk, HistoryOk, Answered, Resolve, Unanswered, CompletedIds, SortByOrder, Distinct, ManifestOk, OwnOk;
    if w.process.Some? && e.Kill? {
      var p := w.process.value;
      OwnGives(p, most);
      WorkersAtMost(p, most);
      if p.path in w.history {
        var h := w.history[p.path];
        assert most * (h.kills + 1) == most * h.kills + most;
      }
    }
  }

  lemma WorkersAtMost(p: Process, most: nat)
    requires OwnOk(p, most)
    ensures p.workers <= most
  {
    hide PoolOk, ManifestOk, Distinct;
  }

  lemma {:induction false} LossIsBounded(events: seq<Event>, most: nat)
    requires Ordinary(events, most)
    ensures LossOk(Run(events), most)
  {
    if events != [] {
      LossIsBounded(events[..|events| - 1], most);
      RunKeepsInv(events[..|events| - 1], most);
      hide Step, Inv, LossOk;
      LossKeeps(Run(events[..|events| - 1]), events[|events| - 1], most);
    }
  }

  lemma SlotsFit(p: Process, stored: Manifest, most: nat)
    requires OwnOk(p, most) && (p.phase == Querying || p.phase == Returned || p.InSlots() == 0)
    requires p.checkpoint.results == stored.results + if p.recording.Some? then [p.recording.value] else []
    ensures |stored.results| + p.InSlots() <= |p.checkpoint.fingerprint.questions|
  {
    hide Distinct, NoIdTwice;
    var ids, slots := IdsOf(p.checkpoint.results), FlightIds(p.flying);
    assert |ids| == |p.checkpoint.results| && |slots| == |p.flying|;
    if p.phase == Querying || p.phase == Returned {
      assert |multiset(p.ids)| == |multiset(ids)| + |multiset(p.queue)| + |multiset(slots)|;
    } else {
      SubMultiset(multiset(ids), p.checkpoint.fingerprint.questions);
    }
  }

  lemma SubMultiset(a: multiset<string>, b: multiset<string>)
    requires a <= b
    ensures |a| <= |b|
  {
    assert b == a + (b - a);
  }

  /**
   With at most `most` workers, the questions of a manifest are handed to the judge at most once each, plus once
   for each slot of each process that was killed: every judgement is on disk, in a slot, or was lost so.
   */
  lemma {:induction false} JudgedAtMost(events: seq<Event>, most: nat, path: Path)
    requires Ordinary(events, most) && path in Run(events).directory.manifests
    ensures path in Run(events).history
    ensures var w := Run(events);
            var h, m := w.history[path], w.directory.manifests[path];
            h.judged == |m.results| + InSlotsOf(w, path) + h.lost && h.lost <= most * h.kills &&
            h.judged <= |m.fingerprint.questions| + most * h.kills
  {
    hide Run;
    RunKeepsInv(events, most);
    LossIsBounded(events, most);
    var w := Run(events);
    var m := w.directory.manifests[path];
    FitsQuestions(w, path, most);
  }

  lemma FitsQuestions(w: World, path: Path, most: nat)
    requires Inv(w, most) && path in w.directory.manifests
    ensures var m := w.directory.manifests[path]; |m.results| + InSlotsOf(w, path) <= |m.fingerprint.questions|
  {
    hide OwnOk, HistoryOk, Answered;
    var m := w.directory.manifests[path];
    assert |IdsOf(m.results)| == |m.results|;
    SubMultiset(multiset(IdsOf(m.results)), m.fingerprint.questions);
    if w.process.Some? && w.process.value.path == path {
      var p := w.process.value;
      if p.phase != Querying && p.phase != Returned {
        PreparedIsEmpty(p, most);
      }
      SlotsFit(p, m, most);
    }
  }

  // -- The verdicts are the judge's -----------------------------------------------------------------------------------

  /** Event `n` is the judge's verdict on this question, by a process of this manifest that had it in a slot. */
  predicate Judges(events: seq<Event>, n: nat, path: Path, r: Entry) {
    n < |events| && events[n].Judge? && events[n].correct == r.correct &&
    var p := Run(events[..n]).process;
    p.Some? && p.value.path == path && events[n].k < |p.value.flying| &&
    p.value.flying[events[n].k] == Judging(r.id) && p.value.checkpoint.project == Some(r.project)
  }

  ghost predicate Verdict(events: seq<Event>, path: Path, r: Entry) {
    exists n: nat :: Judges(events, n, path, r)
  }

  ghost predicate ProcessVerdicts(events: seq<Event>, p: Process) {
    (forall r :: r in p.checkpoint.results ==> Verdict(events, p.path, r)) &&
    (forall f :: f in p.flying && f.Judged? ==> Verdict(events, p.path, f.entry)) &&
    (p.recording.Some? ==> Verdict(events, p.path, p.recording.value))
  }

  ghost predicate AllVerdicts(events: seq<Event>, w: World) {
    (forall path, r :: path in w.directory.manifests && r in w.directory.manifests[path].results ==>
       Verdict(events, path, r)) &&
    (w.process.Some? ==> ProcessVerdicts(events, w.process.value)) &&
    (forall o, r :: o in w.outputs && r in o.results ==> Verdict(events, o.path, r))
  }

  lemma VerdictStays(events: seq<Event>, e: Event, path: Path, r: Entry)
    requires Verdict(events, path, r)
    ensures Verdict(events + [e], path, r)
  {
    var n: nat :| Judges(events, n, path, r);
    assert (events + [e])[..n] == events[..n];
    assert Judges(events + [e], n, path, r);
  }

  lemma VerdictsStay(events: seq<Event>, e: Event, w: World)
    requires AllVerdicts(events, w)
    ensures AllVerdicts(events + [e], w)
  {
    hide Verdict;
    forall path, r | Verdict(events, path, r) ensures Verdict(events + [e], path, r) {
      VerdictStays(events, e, path, r);
    }
  }

  lemma JudgeIsVerdict(events: seq<Event>, e: Event, p: Process)
    requires e.Judge? && Run(events).process == Some(p) && e.k < |p.flying| && p.flying[e.k].Judging?
    requires p.checkpoint.project.Some?
    ensures Verdict(events + [e], p.path, Entry(p.flying[e.k].id, p.checkpoint.project.value, e.correct))
  {
    var n := |events|;
    assert (events + [e])[..n] == events;
    assert Judges(events + [e], n, p.path, Entry(p.flying[e.k].id, p.checkpoint.project.value, e.correct));
  }

  lemma WorkVerdicts(events: seq<Event>, w: World, p: Process, e: Event)
    requires AllVerdicts(events, w) && w.process == Some(p)
    requires e.Judge? && e.k < |p.flying| && p.flying[e.k].Judging? && p.checkpoint.project.Some? ==>
               Verdict(events, p.path, Entry(p.flying[e.k].id, p.checkpoint.project.value, e.correct))
    ensures AllVerdicts(events, Work(w, p, e))
  {
    hide Verdict, SortByOrder;
    SortSorts(p.checkpoint.results, p.ids);
    match e
    case Return =>
      forall r | r in SortByOrder(p.checkpoint.results, p.ids) ensures Verdict(events, p.path, r) {
        assert r in multiset(p.checkpoint.results);
      }
    case _ =>
  }

  /** Results can only come from where there were some: a manifest that is loaded, created, written or left alone. */
  lemma LaunchVerdicts(events: seq<Event>, w: World, e: Event)
    requires AllVerdicts(events, w) && w.process.None? && e.Start?
    ensures AllVerdicts(events, Launch(w, e))
  {
    hide Verdict, Resolve;
  }

  lemma PersistVerdicts(events: seq<Event>, w: World, p: Process)
    requires AllVerdicts(events, w) && ProcessVerdicts(events, p)
    ensures AllVerdicts(events, Persist(w, p))
  {
    hide Verdict;
  }

  lemma PrepareVerdicts(events: seq<Event>, w: World, p: Process, found: Option<Found>, created: Project)
    requires AllVerdicts(events, w) && w.process == Some(p)
    ensures AllVerdicts(events, Prepare(w, p, found, created))
  {
    hide Verdict, Unanswered, CompletedIds, EnsureProject, Persist;
    match EnsureProject(p.checkpoint, p.allowIngest, found, created)
    case Trust(project) =>
      PersistVerdicts(events, w, p.(checkpoint := p.checkpoint.(project := Some(project)), phase := Trusting));
    case Ingest(project) =>
      PersistVerdicts(events, w, p.(checkpoint := p.checkpoint.(project := Some(project)), phase := Ingesting));
    case _ =>
  }

  lemma OtherStepVerdicts(events: seq<Event>, w: World, e: Event)
    requires AllVerdicts(events, w)
    requires w.process.Some? && w.process.value.phase == Querying ==>
               e.Start? || e.Ensure? || e.MarkIngested? || e.Complete? || e.Kill?
    ensures AllVerdicts(events, Step(w, e))
  {
    hide Verdict, Unanswered, CompletedIds, SortByOrder, Launch, Prepare, Work;
    if w.process.None? {
      if e.Start? { LaunchVerdicts(events, w, e); }
    } else if e.Ensure? {
      PrepareVerdicts(events, w, w.process.value, e.found, e.created);
    }
  }

  lemma StepVerdicts(events: seq<Event>, e: Event)
    requires AllVerdicts(events, Run(events))
    ensures AllVerdicts(events + [e], Step(Run(events), e))
  {
    var w := Run(events);
    VerdictsStay(events, e, w);
    if w.process.Some? && w.process.value.phase == Querying &&
       !(e.Start? || e.Ensure? || e.MarkIngested? || e.Complete? || e.Kill?)
    {
      var p := w.process.value;
      if e.Judge? && e.k < |p.flying| && p.flying[e.k].Judging? && p.checkpoint.project.Some? {
        JudgeIsVerdict(events, e, p);
      }
      hide Verdict, Run, Work, AllVerdicts;
      WorkVerdicts(events + [e], w, p, e);
      assert Step(w, e) == Work(w, p, e);
    } else {
      hide Verdict, Run, Step, AllVerdicts;
      OtherStepVerdicts(events + [e], w, e);
    }
  }

  lemma {:induction false} RunVerdicts(events: seq<Event>)
    ensures AllVerdicts(events, Run(events))
  {
    if events != [] {
      var front, last := events[..|events| - 1], events[|events| - 1];
      RunVerdicts(front);
      StepVerdicts(front, last);
      assert front + [last] == events;
    }
  }

  /**
   Every entry that a manifest on disk holds, or that a run returned, is the verdict that the judge gave on that
   question, with that question in a slot of a process of that manifest and against the project that it pinned.
   */
  lemma RecordedVerdictsAreTheJudges(events: seq<Event>, path: Path, r: Entry)
    requires var w := Run(events);
             (path in w.directory.manifests && r in w.directory.manifests[path].results) ||
             (exists o :: o in w.outputs && o.path == path && r in o.results)
    ensures exists n: nat ::
              n < |events| && events[n].Judge? && events[n].correct == r.correct &&
              Run(events[..n]).process.Some? &&
              var p := Run(events[..n]).process.value;
              p.path == path && events[n].k < |p.flying| && p.flying[events[n].k] == Judging(r.id) &&
              p.checkpoint.project == Some(r.project)
  {
    RunVerdicts(events);
    assert Verdict(events, path, r);
    var n: nat :| Judges(events, n, path, r);
    hide Run, Verdict;
    assert n < |events| && events[n].Judge?;
  }
}
