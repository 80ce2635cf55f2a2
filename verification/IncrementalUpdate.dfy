/** One incremental update, phase by phase, and the full build it has to agree with. */
module IncrementalUpdate {
  import opened Wrappers
  import opened Paths
  import opened Repository
  import opened Sequences
  import opened FileStore
  import CommitStamp
  import Dependents

  const MAX_DEPENDENT_HOPS := 2

  /** The files within reach of some roots, the closest ones if there are too many. */
  function Dependent(graph: Dependents.Graph, roots: set<Path>): set<Path> {
    ToSet(Dependents.Capped(Dependents.Full(graph, roots, MAX_DEPENDENT_HOPS)))
  }

  /** What an update has to look at: changed files and rows outside the scope. */
  predicate InQuestion(changedFiles: seq<Path>, staleScope: seq<Path>, p: Path) {
    p in changedFiles || p in staleScope
  }

  /** The Rust parser turns some files of its own away once it sees their content. */
  predicate Taken(repo: Repo, p: Path)
    requires p in repo.disk
  {
    repo.rustOwned(p) ==> Parses(repo, p)
  }

  ghost predicate AllTaken(repo: Repo, rows: Rows, changedFiles: seq<Path>) {
    forall p :: p in changedFiles && Indexed(repo, p) && !Unchanged(repo, rows, p) ==> Taken(repo, p)
  }

  /** Which files changed in content and which rows have to go, dependents aside. */
  ghost predicate Rooted(repo: Repo, rows: Rows, changedFiles: seq<Path>, staleScope: seq<Path>, content: set<Path>,
    removed: seq<Path>)
  {
    && (forall p :: p in content <==> p in changedFiles && Indexed(repo, p) && !Unchanged(repo, rows, p) && Taken(repo, p))
    && (forall p :: p in removed <==> p in rows && !Indexed(repo, p) && InQuestion(changedFiles, staleScope, p))
  }

  /** Which files changed in content, which rows have to go and which files may need another parse. */
  ghost predicate Classified(repo: Repo, rows: Rows, changedFiles: seq<Path>, staleScope: seq<Path>,
    dependents: seq<Path>, content: set<Path>, removed: seq<Path>, candidates: seq<Path>)
  {
    && (forall p :: p in content <==> p in changedFiles && Indexed(repo, p) && !Unchanged(repo, rows, p) && Taken(repo, p))
    && (forall p :: p in removed <==>
          p in rows && !Indexed(repo, p) && (InQuestion(changedFiles, staleScope, p) || p in dependents))
    && (forall p :: p in candidates <==> Indexed(repo, p) && (p in content || p in dependents))
  }

  /** The recorded time is the file's: dependents are not looked at any closer then. */
  predicate SameTime(repo: Repo, rows: Rows, p: Path)
    requires p in repo.disk
  {
    p in rows && rows[p].mtime == repo.disk[p].mtime
  }

  /** The mtime shortcut skips a candidate only if its content is not known to have changed. */
  predicate Skipped(repo: Repo, rows: Rows, content: set<Path>, p: Path)
    requires p in repo.disk
  {
    p !in content && SameTime(repo, rows, p)
  }

  /** A candidate that is not skipped, has the stored hash and so only needs this time. */
  predicate TimeBehind(repo: Repo, rows: Rows, content: set<Path>, update: (int, Path)) {
    var p := update.1;
    p in repo.disk && !Skipped(repo, rows, content, p) && Unchanged(repo, rows, p) && update.0 == repo.disk[p].mtime
  }

  /** The queues of one update: by parser, and whether the stored hash is consulted. */
  datatype Queues = Queues(rustFull: seq<Path>, rustForced: seq<Path>, rustChecked: seq<Path>, python: seq<Path>)
  {
    predicate Has(p: Path) {
      p in rustFull || p in rustForced || p in rustChecked || p in python
    }

    /** No file is in two queues. */
    ghost predicate Apart() {
      && (forall p :: p in rustFull ==> p !in rustForced && p !in rustChecked && p !in python)
      && (forall p :: p in rustForced ==> p !in rustChecked && p !in python)
      && (forall p :: p in rustChecked ==> p !in python)
    }
  }

  /** Where every file ends up: extractor files whose content did not change are parsed whatever
      their hash, candidates unless the shortcut skips them or their hash is the stored one. */
  ghost predicate Planned(repo: Repo, rows: Rows, content: set<Path>, candidates: seq<Path>, extractorFiles: seq<Path>,
    q: Queues)
    requires forall p :: p in candidates ==> p in repo.disk
  {
    && (forall p :: p in q.rustFull <==> p in extractorFiles && p !in content && repo.rustOwned(p))
    && (forall p :: p in q.rustForced <==> p in candidates && p in content && repo.rustOwned(p))
    && (forall p :: p in q.rustChecked <==>
          p in candidates && p !in content && p !in extractorFiles && repo.rustOwned(p) && !SameTime(repo, rows, p))
    && (forall p :: p in q.python <==>
          !repo.rustOwned(p) &&
          ((p in extractorFiles && p !in content) ||
           (p in candidates && (p in content || p !in extractorFiles)
            && !Skipped(repo, rows, content, p) && !Unchanged(repo, rows, p))))
  }

  // ---------------------------------------------------------------------------
  // What becomes of every file
  // ---------------------------------------------------------------------------

  function Outside(paths: seq<Path>, content: set<Path>): seq<Path> {
    Filter(p => p !in content, paths)
  }

  /** The Rust files of outdated extractors, in the order in which they are stored in chunks. */
  function ExtractorQueue(repo: Repo, content: set<Path>, extractorFiles: seq<Path>): seq<Path> {
    Filter(repo.rustOwned, Outside(extractorFiles, content))
  }

  function ContentOf(repo: Repo, rows: Rows, named: set<Path>): set<Path> {
    set p | p in named && Indexed(repo, p) && !Unchanged(repo, rows, p) && Taken(repo, p)
  }

  function GoneOf(repo: Repo, rows: Rows, named: set<Path>): set<Path> {
    set p | p in rows && !Indexed(repo, p) && (p in named || p !in repo.scope)
  }

  function RequestOf(repo: Repo, graph: Dependents.Graph, rows: Rows, named: set<Path>, extractorFiles: seq<Path>,
    refused: nat -> bool): Request
  {
    Request(repo, rows, named, Dependent(graph, GoneOf(repo, rows, named) + ContentOf(repo, rows, named)), extractorFiles,
      refused)
  }

  /** One update: the tree, the rows at its start, what was named, what depends on what changed or
      went, the outdated extractors' files, and the chunks of these that the store refuses. */
  datatype Request = Request(repo: Repo, rows: Rows, named: set<Path>, dependents: set<Path>,
    extractorFiles: seq<Path>, refused: nat -> bool)
  {
    predicate Differing(p: Path) {
      Indexed(repo, p) && !Unchanged(repo, rows, p)
    }

    /** The named files of another content, but for those their Rust parser turns away. */
    function Content(): set<Path> {
      ContentOf(repo, rows, named)
    }

    function TurnedAway(): set<Path> {
      set p | p in named && Differing(p) && !Taken(repo, p)
    }

    predicate Removed(p: Path) {
      p in rows && !Indexed(repo, p) && (p in named || p !in repo.scope || p in dependents)
    }

    function Queue(): seq<Path> {
      ExtractorQueue(repo, Content(), extractorFiles)
    }

    /** Files that are parsed whatever their hash, except in a chunk that the store refuses. */
    function Reparsed(): set<Path> {
      (set p | p in extractorFiles && p !in Content() && !repo.rustOwned(p)) + AcceptedOf(Queue(), refused, |Queue()|)
    }

    /** Changed files, and dependents that changed along unless their time is the recorded one. */
    function LookedAt(): set<Path> {
      Content() +
      set p | p in dependents && p !in extractorFiles && Indexed(repo, p) && !Unchanged(repo, rows, p) &&
              !SameTime(repo, rows, p)
    }

    /** A file that is to be parsed is fresh afterwards if its parser takes it, a row that is to go is
        gone, and every other row is as it was. */
    ghost predicate Outcome(after: Rows, p: Path) {
      if (p in Reparsed() || p in LookedAt()) && Storable(repo, p) then Fresh(repo, after, p)
      else if Removed(p) then p !in after
      else SameData(rows, after, p)
    }

    /** What is reported: the files that could not be parsed, and those of the refused chunks. */
    function Errors(): set<Error> {
      Unparsed(repo, TurnedAway() + Reparsed() + LookedAt()) + Refusals(RefusedOf(Queue(), refused, |Queue()|))
    }
  }

  /** So whatever else fails: a named file of another content is stored if its parser takes it, so is a
      dependent of another content and time, so is an outdated extractor's file; what is no longer
      indexed and is named, out of scope or a dependent goes; and any other row stays. */
  lemma FilesAreIndependent(r: Request, after: Rows, p: Path)
    requires r.Outcome(after, p)
    ensures Storable(r.repo, p) && r.Differing(p) && p in r.named ==> Fresh(r.repo, after, p)
    ensures Storable(r.repo, p) && p in r.extractorFiles && !r.repo.rustOwned(p) && p !in r.named ==> Fresh(r.repo, after, p)
    ensures (p in r.dependents && p !in r.extractorFiles && Storable(r.repo, p) && r.Differing(p)
             && !SameTime(r.repo, r.rows, p)) ==> Fresh(r.repo, after, p)
    ensures (p in r.rows && !Indexed(r.repo, p) && p !in r.extractorFiles
             && (p in r.named || p !in r.repo.scope || p in r.dependents)) ==> p !in after
    ensures p !in r.extractorFiles && p !in r.named && p !in r.dependents && (p in r.rows ==> p in r.repo.scope) ==>
      SameData(r.rows, after, p)
  {
    assert p in r.Reparsed() ==> p in r.extractorFiles by {
      assert p in r.Queue() ==> p in Outside(r.extractorFiles, r.Content());
    }
  }

  /** Unless there are too many, dependents are exactly the files at a distance of one or two from those
      that changed or went. */
  lemma DependentsAreReached(repo: Repo, graph: Dependents.Graph, rows: Rows, named: set<Path>, extractorFiles: seq<Path>,
    refused: nat -> bool, p: Path)
    ensures var r := RequestOf(repo, graph, rows, named, extractorFiles, refused);
      var roots := set q | q in named + rows.Keys && ((q in named && r.Differing(q) && Taken(repo, q)) ||
                                                      (q in rows && !Indexed(repo, q) && (q in named || q !in repo.scope)));
      |Dependents.Full(graph, roots, 2)| <= 500 ==>
        (p in r.dependents <==> Dependents.Distance(graph, roots, p, 1) || Dependents.Distance(graph, roots, p, 2))
  {
    var r := RequestOf(repo, graph, rows, named, extractorFiles, refused);
    var roots := set q | q in named + rows.Keys && ((q in named && r.Differing(q) && Taken(repo, q)) ||
                                                    (q in rows && !Indexed(repo, q) && (q in named || q !in repo.scope)));
    assert roots == GoneOf(repo, rows, named) + ContentOf(repo, rows, named);
    Dependents.FullIsExact(graph, roots, 2, p);
    assert p in r.dependents <==> p in Dependents.Capped(Dependents.Full(graph, roots, 2));
  }

  // ---------------------------------------------------------------------------
  // Why the plan is enough
  // ---------------------------------------------------------------------------

  /** What the update was told about covers everything the store and the tree disagree about. */
  ghost predicate Told(repo: Repo, rows: Rows, changedFiles: seq<Path>, staleScope: seq<Path>) {
    forall p :: Differs(repo, rows, p) ==> InQuestion(changedFiles, staleScope, p)
  }

  /** A file of the plan was parsed afresh, or its hash turned out to be the stored one. */
  ghost predicate Settled(repo: Repo, rows: Rows, extractorFiles: seq<Path>, after: Rows, p: Path) {
    || Fresh(repo, after, p)
    || (p !in extractorFiles && p in repo.disk && Unchanged(repo, rows, p) && SameData(rows, after, p))
  }

  /** A row that the present parsers wrote from the present content is fresh. */
  lemma UnchangedIsFresh(repo: Repo, rows: Rows, after: Rows, p: Path)
    requires p in repo.disk && Unchanged(repo, rows, p) && RowFaithful(repo, p, rows[p]) && SameData(rows, after, p)
    ensures Fresh(repo, after, p)
  {
    assert repo.hash(repo.disk[p].content) == rows[p].hash;
  }

  /** Every path the store and the tree disagree about is in the plan: a removal when it is not
      indexed, a parse that the mtime shortcut does not skip when it is. So the result is exact,
      just when no outdated extractor claims a file that is not indexed any more. */
  lemma PlanIsEnough(repo: Repo, rows: Rows, timed: Rows, after: Rows, changedFiles: seq<Path>, staleScope: seq<Path>,
    dependents: seq<Path>, content: set<Path>, removed: seq<Path>, candidates: seq<Path>, extractorFiles: seq<Path>,
    q: Queues)
    requires Classified(repo, rows, changedFiles, staleScope, dependents, content, removed, candidates)
    requires forall p :: SameData(rows, timed, p)
    requires Planned(repo, timed, content, candidates, extractorFiles, q)
    requires Told(repo, rows, changedFiles, staleScope)
    requires AllTaken(repo, rows, changedFiles)
    requires forall p :: p in staleScope ==> p !in repo.scope
    requires Faithful(repo, rows, ToSet(extractorFiles))
    requires forall p :: q.Has(p) ==> Settled(repo, rows, extractorFiles, after, p)
    requires forall p :: !q.Has(p) ==> if p in removed then p !in after else SameData(rows, after, p)
    ensures Exact(repo, after) <==> forall p :: p in extractorFiles ==> Indexed(repo, p)
  {
    forall p | p in extractorFiles && !Indexed(repo, p) ensures p in after {
      assert q.Has(p);
      assert Settled(repo, rows, extractorFiles, after, p);
    }
    forall p | p !in extractorFiles || Indexed(repo, p)
      ensures (p in after <==> Indexed(repo, p)) && (p in after ==> Fresh(repo, after, p)) {
      assert SameData(rows, timed, p);
      assert Differs(repo, rows, p) ==> InQuestion(changedFiles, staleScope, p);
      if q.Has(p) {
        assert Settled(repo, rows, extractorFiles, after, p);
        if !Fresh(repo, after, p) {
          UnchangedIsFresh(repo, rows, after, p);
        }
      } else if p !in removed && p in rows {
        UnchangedIsFresh(repo, rows, after, p);
      }
    }
  }

  /** Removed and re-parsed files are apart, unless an outdated extractor claims a removed one. */
  lemma RemovedIsNotParsed(repo: Repo, rows: Rows, timed: Rows, changedFiles: seq<Path>, staleScope: seq<Path>,
    dependents: seq<Path>, content: set<Path>, removed: seq<Path>, candidates: seq<Path>, extractorFiles: seq<Path>,
    q: Queues)
    requires Classified(repo, rows, changedFiles, staleScope, dependents, content, removed, candidates)
    requires Planned(repo, timed, content, candidates, extractorFiles, q)
    ensures (exists p :: p in removed && q.Has(p)) <==> (exists p :: p in removed && p in extractorFiles)
  {
    forall p | p in removed ensures q.Has(p) <==> p in extractorFiles {
      assert !Indexed(repo, p);
    }
  }

  // ---------------------------------------------------------------------------
  // The phases
  // ---------------------------------------------------------------------------

  lemma CarriedThrough(repo: Repo, rows0: Rows, rows1: Rows, rows2: Rows, rows3: Rows, rows4: Rows)
    requires Carried(repo, rows0, rows1) && Carried(repo, rows1, rows2)
    requires Carried(repo, rows2, rows3) && Carried(repo, rows3, rows4)
    ensures Carried(repo, rows0, rows4)
  {
    CarriedOn(repo, rows0, rows1, rows2);
    CarriedOn(repo, rows2, rows3, rows4);
    CarriedOn(repo, rows0, rows2, rows4);
  }

  /** Times may move and rows may go. */
  lemma CarriedWhenApplied(repo: Repo, rows: Rows, timed: Rows, removed: seq<Path>, applied: Rows)
    requires forall p :: SameData(rows, timed, p)
    requires forall p :: if p in removed then p !in applied else SameData(timed, applied, p)
    ensures Carried(repo, rows, applied)
  {
    forall p | p in applied ensures p in rows && SameData(rows, applied, p) {
      assert SameData(rows, timed, p) && SameData(timed, applied, p);
    }
  }

  class Update {
    const store: Store
    const covers: bool
    const changedFiles: seq<Path>
    const staleScope: seq<Path>
    const extractorFiles: seq<Path>
    var removedFiles: seq<Path>
    var dependentFiles: seq<Path>
    var contentChanged: set<Path>
    var rustChanged: set<Path>
    var candidates: seq<Path>
    var queues: Queues
    var mtimeOnly: seq<(int, Path)>

    /** What to look at: an explicit list or the diff, forced files on top, and rows out of scope. */
    constructor Prepare(store: Store, explicit: Option<seq<Path>>, diff: seq<Path>, extra: seq<Path>,
      base: Option<CommitStamp.Sha>, extractorFiles: seq<Path>)
      ensures this.store == store && this.extractorFiles == extractorFiles
      ensures forall p :: p in changedFiles <==> (p in if explicit.Some? then explicit.value else diff) || p in extra
      ensures forall p :: p in staleScope <==> p in store.rows && p !in store.repo.scope
      ensures covers <==> explicit.None? && CommitStamp.DiffCovers(store.stamp, base)
      ensures queues == Queues([], [], [], []) && mtimeOnly == []
    {
      this.store, this.extractorFiles := store, extractorFiles;
      covers := explicit.None? && CommitStamp.DiffCovers(store.stamp, base);
      var given := if explicit.Some? then explicit.value else diff;
      changedFiles := given + Filter(p => p !in given, Dedupe(extra));
      SortedLists(store.rows.Keys - store.repo.scope);
      staleScope := Sorted(store.rows.Keys - store.repo.scope);
      removedFiles, dependentFiles, candidates := [], [], [];
      contentChanged, rustChanged := {}, {};
      queues, mtimeOnly := Queues([], [], [], []), [];
    }

    /** Split by the parser that owns a path. */
    method Split(paths: seq<Path>) returns (rust: seq<Path>, python: seq<Path>)
      ensures forall p :: p in rust <==> p in paths && store.repo.rustOwned(p)
      ensures forall p :: p in python <==> p in paths && !store.repo.rustOwned(p)
      ensures rust == Filter(store.repo.rustOwned, paths)
    {
      rust := Filter(store.repo.rustOwned, paths);
      python := Filter(p => !store.repo.rustOwned(p), paths);
    }

    /** Those of the paths that are indexable files, and those whose rows have to go. */
    method Candidates(paths: seq<Path>) returns (files: seq<Path>, gone: seq<Path>)
      requires WellFormed(store.repo)
      ensures forall p :: p in files <==> p in paths && Indexed(store.repo, p)
      ensures forall p :: p in gone <==> p in paths && p in store.rows && !Indexed(store.repo, p)
    {
      files, gone := FilterCandidates(store.repo, paths);
      files := Filter(p => p in store.repo.scope, files);
      var rows := store.rows;
      gone := Filter(p => p in rows, gone + Filter(p => p !in store.repo.scope, paths));
    }

    /** Look at the content of the changed files. */
    method ClassifyRoots()
      requires WellFormed(store.repo)
      requires forall p :: p in staleScope <==> p in store.rows && p !in store.repo.scope
      modifies this`removedFiles, this`contentChanged, this`rustChanged, this`mtimeOnly, store`rows, store`errors
      ensures Rooted(store.repo, old(store.rows), changedFiles, staleScope, contentChanged, removedFiles)
      ensures rustChanged == set p | p in contentChanged && store.repo.rustOwned(p)
      ensures forall p :: SameData(old(store.rows), store.rows, p)
      ensures forall u :: u in mtimeOnly <==>
        (u in old(mtimeOnly) ||
         (u.1 in changedFiles && Indexed(store.repo, u.1) && !store.repo.rustOwned(u.1)
          && OnlyTouched(store.repo, store.rows, u, false)))
      ensures OnlyUnchangedMoved(old(store.rows), store.rows)
      ensures store.Reported(old(store.errors), false)
      ensures ErrorsSince(old(store.errors), store.errors) == Unparsed(store.repo, TurnedAway(old(store.rows)))
      ensures store.errors == old(store.errors) ==> AllTaken(store.repo, old(store.rows), changedFiles)
    {
      var repo := store.repo;
      var files, gone := Candidates(changedFiles);
      removedFiles := Dedupe(gone + staleScope);
      var rust, python := Split(files);
      var rustDiffers := store.ClassifyRust(rust);
      assert forall p :: p in python ==> SameData(old(store.rows), store.rows, p);
      var pythonDiffers, times := ClassifyChangedFiles(repo, python, store.rows, false);
      mtimeOnly := mtimeOnly + times;
      rustChanged := ToSet(rustDiffers);
      contentChanged := rustChanged + ToSet(pythonDiffers);
      RustClassified(old(store.rows), rust, store.rows);
    }

    /** Only times of unchanged files moved, and those reported are those turned away. */
    lemma RustClassified(before: Rows, rust: seq<Path>, after: Rows)
      requires Retimed(store.repo, before, rust, after)
      requires forall p :: p in rust <==> p in changedFiles && Indexed(store.repo, p) && store.repo.rustOwned(p)
      ensures OnlyUnchangedMoved(before, after)
      ensures Unparsed(store.repo, ChangedOf(store.repo, before, rust)) == Unparsed(store.repo, TurnedAway(before))
    {
      forall p | p in before
        ensures p in after && (after[p] == before[p] || (p in store.repo.disk && Unchanged(store.repo, before, p)))
      {
        assert RetimedAt(store.repo, before, rust, after, p);
      }
    }

    /** The named files of another content that the Rust parser turns away. */
    function TurnedAway(rows: Rows): set<Path> {
      set p | p in changedFiles && Indexed(store.repo, p) && !Unchanged(store.repo, rows, p) && !Taken(store.repo, p)
    }

    ghost predicate OnlyUnchangedMoved(before: Rows, after: Rows) {
      forall p :: p in before ==>
        p in after && (after[p] == before[p] || (p in store.repo.disk && Unchanged(store.repo, before, p)))
    }

    /** Look at everything that changed, went or depends on it. */
    method LookAgain() returns (files: seq<Path>, gone: seq<Path>)
      requires WellFormed(store.repo)
      ensures forall p :: p in files <==>
        (p in contentChanged || p in removedFiles || p in dependentFiles) && Indexed(store.repo, p)
      ensures forall p :: p in gone <==>
        (p in contentChanged || p in removedFiles || p in dependentFiles) && p in store.rows && !Indexed(store.repo, p)
    {
      var all := contentChanged + ToSet(removedFiles) + ToSet(dependentFiles);
      SortedLists(all);
      files, gone := Candidates(Sorted(all));
    }

    /** Add the files that depend on changed or removed ones; only then is there more to remove. */
    method Expand(graph: Dependents.Graph, ghost rows: Rows)
      requires WellFormed(store.repo)
      requires Rooted(store.repo, rows, changedFiles, staleScope, contentChanged, removedFiles)
      requires rows.Keys == store.rows.Keys
      modifies this`removedFiles, this`dependentFiles, this`candidates
      ensures Classified(store.repo, rows, changedFiles, staleScope, dependentFiles,
        contentChanged, removedFiles, candidates)
      ensures ToSet(dependentFiles) == Dependent(graph, ToSet(old(removedFiles)) + contentChanged)
    {
      var ordered, truncated :=
        Dependents.FindDependentsForFiles(graph, ToSet(removedFiles) + contentChanged, MAX_DEPENDENT_HOPS);
      dependentFiles := Dedupe(ordered);
      assert ToSet(dependentFiles) == ToSet(ordered);
      if dependentFiles != [] {
        var gone;
        candidates, gone := LookAgain();
        removedFiles := Dedupe(removedFiles + gone);
      } else {
        SortedLists(contentChanged);
        candidates := Sorted(contentChanged);
      }
    }

    /** Look at Rust-owned candidates: known changes are forced, the others checked unless the
        recorded time is still the file's. */
    method PlanRust(paths: seq<Path>) returns (forced: seq<Path>, unsure: seq<Path>)
      requires forall p :: p in paths ==> p in store.repo.disk
      ensures forall p :: p in forced <==> p in paths && p in rustChanged
      ensures forall p :: p in unsure <==> p in paths && p !in rustChanged && !SameTime(store.repo, store.rows, p)
    {
      forced, unsure := [], [];
      for i := 0 to |paths|
        invariant forall p :: p in forced <==> p in paths[..i] && p in rustChanged
        invariant forall p :: p in unsure <==>
          p in paths[..i] && p !in rustChanged && !SameTime(store.repo, store.rows, p)
      {
        var p := paths[i];
        if p in rustChanged {
          forced := forced + [p];
        } else if !SameTime(store.repo, store.rows, p) {
          unsure := unsure + [p];
        }
      }
      assert paths[..|paths|] == paths;
    }

    /** Look at the other candidates: the shortcut, then the hash, then the queue. */
    method PlanPython(paths: seq<Path>) returns (parse: seq<Path>, times: seq<(int, Path)>)
      requires forall p :: p in paths ==> p in store.repo.disk
      ensures forall p :: p in parse <==>
        p in paths && !Skipped(store.repo, store.rows, contentChanged, p) && !Unchanged(store.repo, store.rows, p)
      ensures forall u :: u in times <==> u.1 in paths && TimeBehind(store.repo, store.rows, contentChanged, u)
    {
      parse, times := [], [];
      for i := 0 to |paths|
        invariant forall p :: p in parse <==>
          p in paths[..i] && !Skipped(store.repo, store.rows, contentChanged, p) && !Unchanged(store.repo, store.rows, p)
        invariant forall u :: u in times <==> u.1 in paths[..i] && TimeBehind(store.repo, store.rows, contentChanged, u)
      {
        var p := paths[i];
        if !Skipped(store.repo, store.rows, contentChanged, p) {
          if Unchanged(store.repo, store.rows, p) {
            times := times + [(store.repo.disk[p].mtime, p)];
          } else {
            parse := parse + [p];
          }
        }
      }
      assert paths[..|paths|] == paths;
    }

    /** Files of outdated extractors are parsed in full unless the normal path parses them. */
    method Plan()
      requires forall p :: p in candidates ==> p in store.repo.disk
      requires rustChanged == set p | p in contentChanged && store.repo.rustOwned(p)
      modifies this`candidates, this`queues, this`mtimeOnly
      ensures Planned(store.repo, store.rows, contentChanged, old(candidates), extractorFiles, queues)
      ensures queues.rustFull == ExtractorQueue(store.repo, contentChanged, extractorFiles)
      ensures forall u :: u in mtimeOnly <==>
        (u in old(mtimeOnly) ||
         (u.1 in old(candidates) && (u.1 in contentChanged || u.1 !in extractorFiles) && !store.repo.rustOwned(u.1)
          && TimeBehind(store.repo, store.rows, contentChanged, u)))
    {
      var content := contentChanged;
      var full := Outside(extractorFiles, content);
      candidates := Filter(p => p !in full, candidates);
      var rustFull, pythonFull := Split(full);
      var rust, python := Split(candidates);
      var forced, unsure := PlanRust(rust);
      var parse, times := PlanPython(python);
      queues := Queues(rustFull, forced, unsure, pythonFull + parse);
      mtimeOnly := mtimeOnly + times;
    }

    /** Remove and re-time. */
    method Apply()
      modifies store`rows
      ensures store.rows == Timed(old(store.rows) - ToSet(removedFiles), mtimeOnly)
      ensures forall p :: if p in removedFiles then p !in store.rows else SameData(old(store.rows), store.rows, p)
    {
      store.RemoveFiles(removedFiles);
      ghost var left := store.rows;
      store.UpdateMtimes(mtimeOnly);
      forall p ensures if p in removedFiles then p !in store.rows else SameData(old(store.rows), store.rows, p) {
        TimedKeepsData(left, mtimeOnly, p);
        assert p in removedFiles <==> p in ToSet(removedFiles);
      }
    }

    /** A file of a queue is fresh, or it was a checked one with the stored hash. */
    ghost predicate Parsed(before: Rows, p: Path)
      reads this, store
    {
      || Fresh(store.repo, store.rows, p)
      || ((p in queues.rustForced || p in queues.rustChecked)
          && p in store.repo.disk && Unchanged(store.repo, before, p) && SameData(before, store.rows, p))
    }

    /** Parse and store the queues: whole extractors first, changed Rust files, then the others. */
    method Parse(refused: nat -> bool)
      requires queues.Apart()
      modifies store`rows, store`errors
      ensures store.Reported(old(store.errors), true)
      ensures forall p :: !queues.Has(p) ==> SameData(old(store.rows), store.rows, p)
      ensures store.errors == old(store.errors) ==> forall p :: queues.Has(p) ==> Parsed(old(store.rows), p)
      ensures Failed(old(store.errors), store.errors) <==>
        SomeRefused(refused, (|queues.rustFull| + PARSE_BATCH - 1) / PARSE_BATCH)
      ensures Carried(store.repo, old(store.rows), store.rows)
      ensures forall p :: ParsedAt(refused, old(store.rows), store.rows, p)
      ensures old(store.errors) <= store.errors
      ensures ErrorsSince(old(store.errors), store.errors) == ParseErrors(refused, old(store.rows))
    {
      store.StoreRustBatches(queues.rustFull, refused);
      ghost var rows1, errors1 := store.rows, store.errors;
      store.StoreChangedFiles(queues.rustForced);
      ghost var rows2, errors2 := store.rows, store.errors;
      store.StoreChangedFiles(queues.rustChecked);
      ghost var rows3, errors3 := store.rows, store.errors;
      store.StoreFiles(queues.python);
      FailuresAddUp(old(store.errors), errors1, store.errors);
      CarriedThrough(store.repo, old(store.rows), rows1, rows2, rows3, store.rows);
      forall p
        ensures !queues.Has(p) ==> SameData(old(store.rows), store.rows, p)
        ensures store.errors == old(store.errors) && queues.Has(p) ==> Parsed(old(store.rows), p)
      {
        FileThroughQueues(old(store.rows), rows1, rows2, rows3, store.errors == old(store.errors), p);
      }
      QueuesTouchTheirOwn(refused, old(store.rows), rows1, rows2, rows3, store.rows);
      ErrorsOfQueues(refused, old(store.rows), rows1, rows2, old(store.errors), errors1, errors2, errors3, store.errors);
    }

    function Accepted(refused: nat -> bool): set<Path>
      reads this
    {
      AcceptedOf(queues.rustFull, refused, |queues.rustFull|)
    }

    /** The queued files whose chunk is accepted and whose hash, where it is consulted, is not the
        stored one. */
    function Due(refused: nat -> bool, before: Rows): set<Path>
      reads this
    {
      Accepted(refused) + ChangedOf(store.repo, before, queues.rustForced)
      + ChangedOf(store.repo, before, queues.rustChecked) + ToSet(queues.python)
    }

    /** What parsing makes of a file. */
    ghost predicate ParsedAt(refused: nat -> bool, before: Rows, after: Rows, p: Path)
      reads this
    {
      if p in Due(refused, before) && Storable(store.repo, p) then Fresh(store.repo, after, p) else SameData(before, after, p)
    }

    function ParseErrors(refused: nat -> bool, before: Rows): set<Error>
      reads this
    {
      Unparsed(store.repo, Due(refused, before)) + Refusals(RefusedOf(queues.rustFull, refused, |queues.rustFull|))
    }

    lemma QueuesTouchTheirOwn(refused: nat -> bool, rows0: Rows, rows1: Rows, rows2: Rows, rows3: Rows, rows4: Rows)
      requires queues.Apart()
      requires StoredRows(store.repo, rows0, Accepted(refused), rows1)
      requires forall p :: RefreshedAt(store.repo, rows1, queues.rustForced, rows2, p)
      requires forall p :: RefreshedAt(store.repo, rows2, queues.rustChecked, rows3, p)
      requires StoredRows(store.repo, rows3, ToSet(queues.python), rows4)
      ensures forall p :: ParsedAt(refused, rows0, rows4, p)
    {
      forall p ensures ParsedAt(refused, rows0, rows4, p) {
        assert RefreshedAt(store.repo, rows1, queues.rustForced, rows2, p);
        assert RefreshedAt(store.repo, rows2, queues.rustChecked, rows3, p);
        assert p in Accepted(refused) ==> p in queues.rustFull;
      }
    }

    lemma ErrorsOfQueues(refused: nat -> bool, rows0: Rows, rows1: Rows, rows2: Rows, errors0: seq<Error>,
      errors1: seq<Error>, errors2: seq<Error>, errors3: seq<Error>, errors4: seq<Error>)
      requires queues.Apart() && errors0 <= errors1 <= errors2 <= errors3 <= errors4
      requires StoredRows(store.repo, rows0, Accepted(refused), rows1)
      requires forall p :: RefreshedAt(store.repo, rows1, queues.rustForced, rows2, p)
      requires ErrorsSince(errors0, errors1) == Unparsed(store.repo, Accepted(refused)) +
        Refusals(RefusedOf(queues.rustFull, refused, |queues.rustFull|))
      requires ErrorsSince(errors1, errors2) == Unparsed(store.repo, ChangedOf(store.repo, rows1, queues.rustForced))
      requires ErrorsSince(errors2, errors3) == Unparsed(store.repo, ChangedOf(store.repo, rows2, queues.rustChecked))
      requires ErrorsSince(errors3, errors4) == Unparsed(store.repo, ToSet(queues.python))
      ensures ErrorsSince(errors0, errors4) == ParseErrors(refused, rows0)
    {
      ErrorsAddUp(errors0, errors1, errors2);
      ErrorsAddUp(errors0, errors2, errors3);
      ErrorsAddUp(errors0, errors3, errors4);
      LaterQueuesSeeTheSame(refused, rows0, rows1, rows2);
    }

    /** What the queues before it stored changes nothing for the files of a checked queue. */
    lemma LaterQueuesSeeTheSame(refused: nat -> bool, rows0: Rows, rows1: Rows, rows2: Rows)
      requires queues.Apart()
      requires StoredRows(store.repo, rows0, Accepted(refused), rows1)
      requires forall p :: RefreshedAt(store.repo, rows1, queues.rustForced, rows2, p)
      ensures ChangedOf(store.repo, rows1, queues.rustForced) == ChangedOf(store.repo, rows0, queues.rustForced)
      ensures ChangedOf(store.repo, rows2, queues.rustChecked) == ChangedOf(store.repo, rows0, queues.rustChecked)
    {
      forall p | p in queues.rustChecked ensures (p in rows2 <==> p in rows0) && (p in rows0 ==> rows2[p] == rows0[p]) {
        assert RefreshedAt(store.repo, rows1, queues.rustForced, rows2, p);
      }
    }

    /** A file is touched by its own queue only. */
    lemma FileThroughQueues(rows0: Rows, rows1: Rows, rows2: Rows, rows3: Rows, clean: bool, p: Path)
      requires queues.Apart()
      requires p !in queues.rustFull ==> SameData(rows0, rows1, p)
      requires p !in queues.rustForced ==> SameData(rows1, rows2, p)
      requires p !in queues.rustChecked ==> SameData(rows2, rows3, p)
      requires p !in queues.python ==> SameData(rows3, store.rows, p)
      requires clean && p in queues.rustFull ==> Fresh(store.repo, rows1, p)
      requires clean && p in queues.rustForced ==> Fresh(store.repo, rows2, p) || Kept(rows1, rows2, p)
      requires clean && p in queues.rustChecked ==> Fresh(store.repo, rows3, p) || Kept(rows2, rows3, p)
      requires clean && p in queues.python ==> Fresh(store.repo, store.rows, p)
      ensures !queues.Has(p) ==> SameData(rows0, store.rows, p)
      ensures clean && queues.Has(p) ==> Parsed(rows0, p)
    {
    }

    ghost predicate Kept(before: Rows, after: Rows, p: Path) {
      p in store.repo.disk && Unchanged(store.repo, before, p) && SameData(before, after, p)
    }

    /** What the update is entitled to expect for its result to be that of a full build. */
    ghost predicate Entitled(rows: Rows)
      reads store
    {
      && Told(store.repo, rows, changedFiles, staleScope)
      && Faithful(store.repo, rows, ToSet(extractorFiles))
    }

    /** Everything the plan rests on: the rows at the start, and with the times then updated. */
    ghost predicate Decided(rows: Rows, timed: Rows, wanted: seq<Path>)
      reads this, store
    {
      && Classified(store.repo, rows, changedFiles, staleScope, dependentFiles, contentChanged, removedFiles, wanted)
      && (forall p :: SameData(rows, timed, p))
      && Planned(store.repo, timed, contentChanged, wanted, extractorFiles, queues)
    }

    function RequestFor(graph: Dependents.Graph, rows: Rows, refused: nat -> bool): Request {
      RequestOf(store.repo, graph, rows, ToSet(changedFiles), extractorFiles, refused)
    }

    /** What was decided is what the request says, and only times were touched on the way. */
    ghost predicate Follows(r: Request, timed: Rows)
      reads this
    {
      && contentChanged == r.Content() && ToSet(dependentFiles) == r.dependents
      && queues.rustFull == r.Queue() && OnlyUnchangedMoved(r.rows, timed)
    }

    /** Decide what to remove and what to parse. */
    method Decide(graph: Dependents.Graph) returns (ghost wanted: seq<Path>)
      requires WellFormed(store.repo)
      requires forall p :: p in staleScope <==> p in store.rows && p !in store.repo.scope
      modifies this, store`rows, store`errors
      ensures Decided(old(store.rows), store.rows, wanted)
      ensures forall refused :: Follows(RequestFor(graph, old(store.rows), refused), store.rows)
      ensures old(store.errors) <= store.errors
      ensures ErrorsSince(old(store.errors), store.errors) == Unparsed(store.repo, TurnedAway(old(store.rows)))
      ensures store.Reported(old(store.errors), false)
      ensures store.errors == old(store.errors) ==> AllTaken(store.repo, old(store.rows), changedFiles)
    {
      ClassifyRoots();
      SameKeys(old(store.rows), store.rows);
      assert ToSet(removedFiles) == GoneOf(store.repo, old(store.rows), ToSet(changedFiles));
      assert contentChanged == ContentOf(store.repo, old(store.rows), ToSet(changedFiles));
      Expand(graph, old(store.rows));
      wanted := candidates;
      Plan();
    }

    /** All phases but the stamp. */
    method Process(graph: Dependents.Graph, refused: nat -> bool) returns (early: bool)
      requires WellFormed(store.repo) && store.errors == []
      requires forall p :: p in staleScope <==> p in store.rows && p !in store.repo.scope
      modifies this, store`rows, store`errors
      ensures store.errors == [] && Entitled(old(store.rows)) ==>
        (Exact(store.repo, store.rows) <==> forall p :: p in extractorFiles ==> Indexed(store.repo, p))
      ensures early ==> StoreFailures(store.errors) == []
      ensures Carried(store.repo, old(store.rows), store.rows)
      ensures forall p :: RequestFor(graph, old(store.rows), refused).Outcome(store.rows, p)
      ensures ToSet(store.errors) == RequestFor(graph, old(store.rows), refused).Errors()
    {
      ghost var rows := store.rows;
      ghost var wanted := Decide(graph);
      ghost var timed, reported := store.rows, store.errors;
      ghost var applied;
      early, applied := CarryOut(refused);
      CarriedWhenApplied(store.repo, rows, timed, removedFiles, applied);
      CarriedOn(store.repo, rows, applied, store.rows);
      Outcomes(RequestFor(graph, rows, refused), timed, applied, wanted, reported);
      if store.errors == [] && Entitled(rows) {
        Settle(rows, timed, applied, wanted);
      }
    }

    /** All phases. */
    method Complete(graph: Dependents.Graph, refused: nat -> bool, head: Option<CommitStamp.Sha>)
      returns (failures: seq<Path>)
      requires WellFormed(store.repo) && store.errors == []
      requires forall p :: p in staleScope <==> p in store.rows && p !in store.repo.scope
      modifies this, store
      ensures store.errors == [] && Entitled(old(store.rows)) ==>
        (Exact(store.repo, store.rows) <==> forall p :: p in extractorFiles ==> Indexed(store.repo, p))
      ensures Carried(store.repo, old(store.rows), store.rows)
      ensures forall p :: RequestFor(graph, old(store.rows), refused).Outcome(store.rows, p)
      ensures ToSet(store.errors) == RequestFor(graph, old(store.rows), refused).Errors()
      ensures failures == StoreFailures(store.errors)
      ensures store.stamp == if covers && failures == [] && head.Some? then head else old(store.stamp)
    {
      var early := Process(graph, refused);
      failures := StoreFailures(store.errors);
      RecordHead(store, covers && (early || failures == []), head);
    }

    /** Remove and parse, unless there is nothing of either. */
    method CarryOut(refused: nat -> bool) returns (early: bool, ghost applied: Rows)
      requires queues.Apart()
      modifies store`rows, store`errors
      ensures forall p :: if p in removedFiles then p !in applied else SameData(old(store.rows), applied, p)
      ensures forall p :: ParsedAt(refused, applied, store.rows, p)
      ensures old(store.errors) <= store.errors
      ensures ErrorsSince(old(store.errors), store.errors) == ParseErrors(refused, applied)
      ensures forall p :: !queues.Has(p) ==> SameData(applied, store.rows, p)
      ensures store.errors == old(store.errors) ==> forall p :: queues.Has(p) ==> Parsed(applied, p)
      ensures Carried(store.repo, applied, store.rows)
      ensures early ==> store.errors == old(store.errors)
    {
      Apply();
      applied := store.rows;
      early := removedFiles == [] && queues == Queues([], [], [], []);
      if !early {
        Parse(refused);
      }
    }

    /** What is due is what the request wants parsed. */
    lemma DueIsWanted(r: Request, timed: Rows, applied: Rows, wanted: seq<Path>)
      requires r.repo == store.repo && r.named == ToSet(changedFiles) && r.extractorFiles == extractorFiles
      requires Decided(r.rows, timed, wanted) && Follows(r, timed)
      requires forall p :: if p in removedFiles then p !in applied else SameData(timed, applied, p)
      ensures Due(r.refused, applied) == r.Reparsed() + r.LookedAt()
    {
      forall p ensures p in Due(r.refused, applied) <==> p in r.Reparsed() || p in r.LookedAt() {
        assert SameData(r.rows, timed, p) && (p in removedFiles ==> !Indexed(store.repo, p));
        DueAt(r, timed, applied, wanted, p);
      }
    }

    lemma DueAt(r: Request, timed: Rows, applied: Rows, wanted: seq<Path>, p: Path)
      requires r.repo == store.repo && r.named == ToSet(changedFiles) && r.extractorFiles == extractorFiles
      requires forall q :: q in wanted ==> q in store.repo.disk
      requires Planned(store.repo, timed, contentChanged, wanted, extractorFiles, queues) && Follows(r, timed)
      requires p in wanted <==> Indexed(store.repo, p) && (p in contentChanged || p in dependentFiles)
      requires SameData(r.rows, timed, p)
      requires Indexed(store.repo, p) ==> SameData(timed, applied, p)
      ensures p in Due(r.refused, applied) <==> p in r.Reparsed() || p in r.LookedAt()
    {
    }

    lemma Outcomes(r: Request, timed: Rows, applied: Rows, wanted: seq<Path>, reported: seq<Error>)
      requires r.repo == store.repo && r.named == ToSet(changedFiles) && r.extractorFiles == extractorFiles
      requires forall p :: p in staleScope <==> p in r.rows && p !in store.repo.scope
      requires Decided(r.rows, timed, wanted) && Follows(r, timed)
      requires forall p :: if p in removedFiles then p !in applied else SameData(timed, applied, p)
      requires forall p :: ParsedAt(r.refused, applied, store.rows, p)
      requires reported <= store.errors && ToSet(reported) == Unparsed(store.repo, TurnedAway(r.rows))
      requires ErrorsSince(reported, store.errors) == ParseErrors(r.refused, applied)
      ensures forall p :: r.Outcome(store.rows, p)
      ensures ToSet(store.errors) == r.Errors()
    {
      DueIsWanted(r, timed, applied, wanted);
      forall p ensures r.Outcome(store.rows, p) {
        assert ParsedAt(r.refused, applied, store.rows, p) && SameData(r.rows, timed, p);
      }
      ReportedInAll(r, reported, r.Reparsed() + r.LookedAt());
    }

    lemma ReportedInAll(r: Request, reported: seq<Error>, due: set<Path>)
      requires r.repo == store.repo && r.named == ToSet(changedFiles) && due == r.Reparsed() + r.LookedAt()
      requires reported <= store.errors && ToSet(reported) == Unparsed(store.repo, TurnedAway(r.rows))
      requires ErrorsSince(reported, store.errors) ==
        Unparsed(store.repo, due) + Refusals(RefusedOf(r.Queue(), r.refused, |r.Queue()|))
      ensures ToSet(store.errors) == r.Errors()
    {
      assert store.errors == reported + store.errors[|reported|..];
      assert r.TurnedAway() == TurnedAway(r.rows);
      assert ToSet(store.errors) == ToSet(reported) + ErrorsSince(reported, store.errors);
      assert Unparsed(store.repo, TurnedAway(r.rows)) + Unparsed(store.repo, due) ==
        Unparsed(store.repo, r.TurnedAway() + r.Reparsed() + r.LookedAt());
    }

    /** What the phases leave behind meets the terms of `PlanIsEnough`. */
    lemma Settle(rows: Rows, timed: Rows, applied: Rows, wanted: seq<Path>)
      requires Decided(rows, timed, wanted)
      requires Entitled(rows) && AllTaken(store.repo, rows, changedFiles)
      requires forall p :: p in staleScope ==> p !in store.repo.scope
      requires forall p :: if p in removedFiles then p !in applied else SameData(timed, applied, p)
      requires forall p :: !queues.Has(p) ==> SameData(applied, store.rows, p)
      requires forall p :: queues.Has(p) ==> Parsed(applied, p)
      ensures Exact(store.repo, store.rows) <==> forall p :: p in extractorFiles ==> Indexed(store.repo, p)
    {
      forall p | queues.Has(p) ensures Settled(store.repo, rows, extractorFiles, store.rows, p) {
        assert Parsed(applied, p);
        assert SameData(rows, timed, p);
      }
      forall p | !queues.Has(p) ensures if p in removedFiles then p !in store.rows else SameData(rows, store.rows, p) {
        assert SameData(rows, timed, p);
        assert SameData(applied, store.rows, p);
      }
      PlanIsEnough(store.repo, rows, timed, store.rows, changedFiles, staleScope, dependentFiles, contentChanged,
        removedFiles, wanted, extractorFiles, queues);
    }
  }

  // ---------------------------------------------------------------------------
  // Updates and builds
  // ---------------------------------------------------------------------------

  function Changes(explicit: Option<seq<Path>>, diff: seq<Path>, extra: seq<Path>): set<Path> {
    ToSet((if explicit.Some? then explicit.value else diff) + extra)
  }

  /** Nothing in the scope moved without being named, and only outdated extractors left old rows. */
  ghost predicate Informed(repo: Repo, rows: Rows, changes: set<Path>, extractorFiles: seq<Path>) {
    && (forall p :: p in repo.scope && Differs(repo, rows, p) ==> p in changes)
    && Faithful(repo, rows, ToSet(extractorFiles))
  }

  lemma NothingToDo(repo: Repo, rows: Rows)
    requires Informed(repo, rows, {}, []) && rows.Keys <= repo.scope
    ensures Exact(repo, rows)
  {
    forall p ensures (p in rows <==> Indexed(repo, p)) && (p in rows ==> Fresh(repo, rows, p)) {
      assert p in repo.scope && Differs(repo, rows, p) ==> false;
      if p in rows {
        UnchangedIsFresh(repo, rows, rows, p);
      }
    }
  }

  lemma NothingIsMissing(repo: Repo, rows: Rows, named: set<Path>)
    requires rows.Keys <= repo.scope && named == {}
    ensures Informed(repo, rows, named, []) ==> Exact(repo, rows)
  {
    if Informed(repo, rows, named, []) {
      NothingToDo(repo, rows);
    }
  }

  lemma SameChanges(explicit: Option<seq<Path>>, diff: seq<Path>, extra: seq<Path>, changedFiles: seq<Path>)
    requires forall p :: p in changedFiles <==> (p in if explicit.Some? then explicit.value else diff) || p in extra
    ensures ToSet(changedFiles) == Changes(explicit, diff, extra)
  {
  }

  lemma InformedIsEntitled(repo: Repo, rows: Rows, changedFiles: seq<Path>, staleScope: seq<Path>,
    extractorFiles: seq<Path>)
    requires forall p :: p in staleScope <==> p in rows && p !in repo.scope
    ensures Informed(repo, rows, ToSet(changedFiles), extractorFiles) ==> Told(repo, rows, changedFiles, staleScope)
  {
  }

  /** An update that is told of nothing leaves every row as it is. */
  lemma NothingNamed(repo: Repo, graph: Dependents.Graph, rows: Rows, named: set<Path>, refused: nat -> bool)
    requires rows.Keys <= repo.scope && named == {}
    ensures var r := RequestOf(repo, graph, rows, named, [], refused);
      (forall p :: r.Outcome(rows, p)) && r.Errors() == {}
  {
    var r := RequestOf(repo, graph, rows, named, [], refused);
    assert GoneOf(repo, rows, named) + ContentOf(repo, rows, named) == {};
    Dependents.NothingBeyondEmpty(graph, {}, MAX_DEPENDENT_HOPS);
    assert r.dependents == {};
    assert r.Queue() == [];
  }

  method RecordHead(store: Store, covers: bool, head: Option<CommitStamp.Sha>)
    modifies store`stamp
    ensures store.stamp == if covers && head.Some? then head else old(store.stamp)
  {
    if covers && head.Some? {
      store.stamp := head;
    }
  }

  /** A whole update. Informed about all changes and without errors it leaves exactly what a full
      build would, and the stamp moves only when the diff covers the gap and everything was stored. */
  method IncrementalUpdate(store: Store, graph: Dependents.Graph, explicit: Option<seq<Path>>, diff: seq<Path>,
    extra: seq<Path>, base: Option<CommitStamp.Sha>, extractorFiles: seq<Path>, refused: nat -> bool,
    head: Option<CommitStamp.Sha>)
    returns (failures: seq<Path>)
    requires WellFormed(store.repo)
    modifies store
    ensures store.errors == [] && Informed(store.repo, old(store.rows), Changes(explicit, diff, extra), extractorFiles) ==>
      (Exact(store.repo, store.rows) <==> forall p :: p in extractorFiles ==> Indexed(store.repo, p))
    ensures var r := RequestOf(store.repo, graph, old(store.rows), Changes(explicit, diff, extra), extractorFiles, refused);
      (forall p :: r.Outcome(store.rows, p)) && ToSet(store.errors) == r.Errors()
    ensures Carried(store.repo, old(store.rows), store.rows)
    ensures failures == StoreFailures(store.errors)
    ensures store.stamp ==
      if explicit.None? && base.Some? && (old(store.stamp).None? || base == old(store.stamp)) && failures == [] && head.Some?
      then head else old(store.stamp)
    ensures store.stamp == CommitStamp.After(old(store.stamp),
      CommitStamp.Update(explicit.Some?, base, Changes(explicit, diff, extra), "", head, failures != []))
  {
    store.errors := [];
    failures := [];
    var update := new Update.Prepare(store, explicit, diff, extra, base, extractorFiles);
    SameChanges(explicit, diff, extra, update.changedFiles);
    if update.changedFiles == [] && update.staleScope == [] && extractorFiles == [] {
      NothingNamed(store.repo, graph, store.rows, Changes(explicit, diff, extra), refused);
      NothingIsMissing(store.repo, store.rows, Changes(explicit, diff, extra));
      RecordHead(store, update.covers, head);
      return;
    }
    InformedIsEntitled(store.repo, store.rows, update.changedFiles, update.staleScope, extractorFiles);
    failures := update.Complete(graph, refused, head);
  }

  /** The indexed Rust files in the order in which they are stored in chunks. */
  function BuildQueue(repo: Repo): seq<Path> {
    Filter(repo.rustOwned, Sorted(set p | p in repo.scope && IsFile(repo, p)))
  }

  /** The indexed files, but for those in a chunk that the store refuses. */
  function Built(repo: Repo, refused: nat -> bool): set<Path> {
    (set p | p in repo.scope && IsFile(repo, p) && !repo.rustOwned(p)) +
    AcceptedOf(BuildQueue(repo), refused, |BuildQueue(repo)|)
  }

  /** What a build makes of a file: no row unless it is indexed, its present row if its parser takes
      it and its chunk is accepted, else the row it had. */
  ghost predicate BuiltAt(repo: Repo, refused: nat -> bool, before: Rows, after: Rows, p: Path) {
    if !Indexed(repo, p) then p !in after
    else if p in Built(repo, refused) && Storable(repo, p) then p in after && after[p] == RowOf(repo, p)
    else (p in after <==> p in before) && (p in before ==> after[p] == before[p])
  }

  function BuildErrors(repo: Repo, refused: nat -> bool): set<Error> {
    Unparsed(repo, Built(repo, refused)) + Refusals(RefusedOf(BuildQueue(repo), refused, |BuildQueue(repo)|))
  }

  lemma BuildIsExact(repo: Repo, refused: nat -> bool, before: Rows, purged: Rows, half: Rows, after: Rows,
    rust: seq<Path>, python: seq<Path>)
    requires rust == BuildQueue(repo)
    requires forall p :: p in rust <==> Indexed(repo, p) && repo.rustOwned(p)
    requires forall p :: p in python <==> Indexed(repo, p) && !repo.rustOwned(p)
    requires forall p :: p in purged <==> p in before && (p in rust || p in python)
    requires forall p :: p in purged ==> purged[p] == before[p]
    requires StoredRows(repo, purged, AcceptedOf(rust, refused, |rust|), half)
    requires StoredRows(repo, half, ToSet(python), after)
    ensures forall p :: BuiltAt(repo, refused, before, after, p)
    ensures Unparsed(repo, AcceptedOf(rust, refused, |rust|)) + Unparsed(repo, ToSet(python)) ==
      Unparsed(repo, Built(repo, refused))
  {
    forall p ensures BuiltAt(repo, refused, before, after, p) {
      assert p in AcceptedOf(rust, refused, |rust|) ==> p in rust;
    }
  }

  /** `collect_all_files`: what is to be indexed, by parser. */
  method CollectAllFiles(repo: Repo) returns (rust: seq<Path>, python: seq<Path>)
    ensures rust == BuildQueue(repo)
    ensures forall p :: p in rust <==> Indexed(repo, p) && repo.rustOwned(p)
    ensures forall p :: p in python <==> Indexed(repo, p) && !repo.rustOwned(p)
  {
    var indexed := set p | p in repo.scope && IsFile(repo, p);
    SortedLists(indexed);
    rust := BuildQueue(repo);
    python := Filter(p => !repo.rustOwned(p), Sorted(indexed));
  }

  method Purge(store: Store, files: seq<Path>)
    modifies store`rows
    ensures forall p :: p in store.rows <==> p in old(store.rows) && p in files
    ensures forall p :: p in store.rows ==> store.rows[p] == old(store.rows)[p]
  {
    var stale := store.rows.Keys - ToSet(files);
    SortedLists(stale);
    store.RemoveFiles(Sorted(stale));
    forall p | p in store.rows ensures p in files {
      assert p !in Sorted(stale);
    }
  }

  /** A build that reports nothing stored everything there is to index. */
  lemma BuiltWithoutErrors(repo: Repo, refused: nat -> bool, before: Rows, after: Rows)
    requires forall p :: BuiltAt(repo, refused, before, after, p)
    ensures BuildErrors(repo, refused) == {} ==> Exact(repo, after)
    ensures Carried(repo, before, after)
  {
    var queue := BuildQueue(repo);
    SortedLists(set p | p in repo.scope && IsFile(repo, p));
    if BuildErrors(repo, refused) == {} {
      forall p | Indexed(repo, p) ensures p in Built(repo, refused) && Storable(repo, p) {
        if repo.rustOwned(p) {
          var i: nat :| i < |queue| && queue[i] == p;
          assert Error(p, true) !in Refusals(RefusedOf(queue, refused, |queue|));
        }
        assert Error(p, false) !in Unparsed(repo, Built(repo, refused));
      }
      forall p ensures (p in after <==> Indexed(repo, p)) && (p in after ==> Fresh(repo, after, p)) {
        assert BuiltAt(repo, refused, before, after, p);
      }
    }
    forall p | p in after ensures Fresh(repo, after, p) || (p in before && SameData(before, after, p)) {
      assert BuiltAt(repo, refused, before, after, p);
    }
  }

  /** Purge what is not indexed, store everything that is. */
  method StoreAll(store: Store, refused: nat -> bool)
    modifies store`rows, store`errors
    ensures forall p :: BuiltAt(store.repo, refused, old(store.rows), store.rows, p)
    ensures ToSet(store.errors) == BuildErrors(store.repo, refused)
  {
    store.errors := [];
    var rust, python := CollectAllFiles(store.repo);
    Purge(store, rust + python);
    ghost var purged := store.rows;
    store.StoreRustBatches(rust, refused);
    ghost var half, reported := store.rows, store.errors;
    store.StoreFiles(python);
    BuildIsExact(store.repo, refused, old(store.rows), purged, half, store.rows, rust, python);
    ErrorsAddUp([], reported, store.errors);
  }

  method FullBuild(store: Store, refused: nat -> bool, head: Option<CommitStamp.Sha>) returns (failures: seq<Path>)
    modifies store
    ensures store.errors == [] ==> Exact(store.repo, store.rows)
    ensures forall p :: BuiltAt(store.repo, refused, old(store.rows), store.rows, p)
    ensures ToSet(store.errors) == BuildErrors(store.repo, refused)
    ensures Carried(store.repo, old(store.rows), store.rows)
    ensures failures == StoreFailures(store.errors)
    ensures store.stamp == if failures == [] && head.Some? then head else old(store.stamp)
    ensures store.stamp == CommitStamp.After(old(store.stamp), CommitStamp.Build(head, failures != []))
  {
    StoreAll(store, refused);
    BuiltWithoutErrors(store.repo, refused, old(store.rows), store.rows);
    failures := StoreFailures(store.errors);
    RecordHead(store, failures == [], head);
  }

  // ---------------------------------------------------------------------------
  // Any number of updates and builds
  // ---------------------------------------------------------------------------

  /** What the trees of several updates and builds, clean or not, made of the rows one after another. */
  ghost predicate History(repo: Repo, trees: seq<Repo>, states: seq<Rows>) {
    && |states| == |trees| + 1
    && forall i :: 0 <= i < |trees| ==> SameParsers(repo, trees[i]) && Carried(trees[i], states[i], states[i + 1])
  }

  lemma {:induction false} HistoryKeepsFaithful(repo: Repo, trees: seq<Repo>, states: seq<Rows>, except: set<Path>)
    requires Collisionless(repo) && History(repo, trees, states) && Faithful(repo, states[0], except)
    ensures Faithful(repo, states[|trees|], except)
    decreases |trees|
  {
    if trees != [] {
      var last := |trees| - 1;
      assert History(repo, trees[..last], states[..last + 1]);
      HistoryKeepsFaithful(repo, trees[..last], states[..last + 1], except);
      assert SameParsers(repo, trees[last]) && Carried(trees[last], states[last], states[last + 1]);
      CarriedKeepsFaithful(repo, trees[last], states[last], states[last + 1], except);
    }
  }

  /** What a clean build of some tree leaves has nothing of older parsers, whatever was there before. */
  lemma ExactIsFaithful(repo: Repo, tree: Repo, rows: Rows)
    requires Collisionless(repo) && SameParsers(repo, tree) && Exact(tree, rows)
    ensures Faithful(repo, rows, {})
  {
    forall p | p in rows ensures RowFaithful(repo, p, rows[p]) {
      FreshIsFaithful(repo, tree, rows, p);
    }
  }

  /** So after any history of an empty store, or since a clean build, under the same parsers and with
      failed updates included, the next update is informed just when every path of its scope that
      differs is named. */
  lemma InformedAfterAnyHistory(repo: Repo, trees: seq<Repo>, states: seq<Rows>, changes: set<Path>)
    requires Collisionless(repo) && History(repo, trees, states)
    requires states[0] == map[] || exists built :: SameParsers(repo, built) && Exact(built, states[0])
    ensures Informed(repo, states[|trees|], changes, []) <==>
      forall p :: p in repo.scope && Differs(repo, states[|trees|], p) ==> p in changes
  {
    if states[0] != map[] {
      var built :| SameParsers(repo, built) && Exact(built, states[0]);
      ExactIsFaithful(repo, built, states[0]);
    }
    HistoryKeepsFaithful(repo, trees, states, ToSet([]));
  }

  /** An instance of an outdated extractor's file that stopped being indexed: a binary file under a
      known suffix is removed and parsed again, and the store keeps a row a build would not. */
  lemma BinaryFileOfAnOutdatedExtractor(entities: Entities)
    ensures var repo := Repo(map["a.m" := File([0], 1)], {"a.m"}, {}, (_, _) => false, (_, _) => Some(entities),
                             (c: Bytes) => if c == [0] then "new" else "old", _ => false);
      var rows: Rows := map["a.m" := Row("old", 0, [])];
      var after: Rows := map["a.m" := Row("new", 1, entities)];
      var q := Queues([], [], [], ["a.m"]);
      && Told(repo, rows, ["a.m"], []) && Faithful(repo, rows, {"a.m"})
      && Classified(repo, rows, ["a.m"], [], [], {}, ["a.m"], []) && Planned(repo, rows, {}, [], ["a.m"], q)
      && Settled(repo, rows, ["a.m"], after, "a.m") && !Indexed(repo, "a.m") && !Exact(repo, after)
  {
    var repo := Repo(map["a.m" := File([0], 1)], {"a.m"}, {}, (_, _) => false, (_, _) => Some(entities),
                     (c: Bytes) => if c == [0] then "new" else "old", _ => false);
    var after: Rows := map["a.m" := Row("new", 1, entities)];
    assert "a.m" in after && !Indexed(repo, "a.m");
  }
}
