/** The stored files, and the steps that classify, remove and store them. */
module FileStore {
  import opened Wrappers
  import opened Repository
  import opened Sequences

  const PARSE_BATCH := 500

  /** Split paths into files to look at and paths whose data must go; ignored paths are neither. */
  method FilterCandidates(repo: Repo, paths: seq<Path>) returns (files: seq<Path>, gone: seq<Path>)
    ensures forall p :: p in files <==> p in paths && p !in repo.ignored && IsFile(repo, p)
    ensures forall p :: p in gone <==> p in paths && p !in repo.ignored && !IsFile(repo, p)
  {
    files, gone := [], [];
    for i := 0 to |paths|
      invariant forall p :: p in files <==> p in paths[..i] && p !in repo.ignored && IsFile(repo, p)
      invariant forall p :: p in gone <==> p in paths[..i] && p !in repo.ignored && !IsFile(repo, p)
    {
      var p := paths[i];
      if p !in repo.ignored {
        if IsFile(repo, p) {
          files := files + [p];
        } else {
          gone := gone + [p];
        }
      }
    }
    assert paths[..|paths|] == paths;
  }

  /** The recorded time is the file's, and that is taken as proof. */
  predicate Trusted(repo: Repo, rows: Rows, p: Path, trustMtime: bool)
    requires p in repo.disk
  {
    trustMtime && p in rows && rows[p].mtime == repo.disk[p].mtime
  }

  /** The present time of a file whose hash is the stored one. */
  predicate OnlyTouched(repo: Repo, rows: Rows, update: (int, Path), trustMtime: bool) {
    var p := update.1;
    && p in repo.disk && !Trusted(repo, rows, p, trustMtime) && Unchanged(repo, rows, p)
    && update.0 == repo.disk[p].mtime
  }

  /** Files whose content changed, and files of which only the modification time did. */
  method ClassifyChangedFiles(repo: Repo, paths: seq<Path>, rows: Rows, trustMtime: bool)
    returns (changed: seq<Path>, mtimeOnly: seq<(int, Path)>)
    ensures forall p :: p in changed <==>
      p in paths && (p in repo.disk ==> !Trusted(repo, rows, p, trustMtime) && !Unchanged(repo, rows, p))
    ensures forall u :: u in mtimeOnly <==> u.1 in paths && OnlyTouched(repo, rows, u, trustMtime)
  {
    changed, mtimeOnly := [], [];
    for i := 0 to |paths|
      invariant forall p :: p in changed <==>
        p in paths[..i] && (p in repo.disk ==> !Trusted(repo, rows, p, trustMtime) && !Unchanged(repo, rows, p))
      invariant forall u :: u in mtimeOnly <==> u.1 in paths[..i] && OnlyTouched(repo, rows, u, trustMtime)
    {
      var p := paths[i];
      if p !in repo.disk {
        changed := changed + [p];
      } else if Trusted(repo, rows, p, trustMtime) {
      } else if Unchanged(repo, rows, p) {
        mtimeOnly := mtimeOnly + [(repo.disk[p].mtime, p)];
      } else {
        changed := changed + [p];
      }
    }
    assert paths[..|paths|] == paths;
  }

  /** A store whose rows were all written by the present parsers, apart from some files. */
  ghost predicate Faithful(repo: Repo, rows: Rows, except: set<Path>) {
    forall p :: p in rows && p !in except ==> RowFaithful(repo, p, rows[p])
  }

  ghost predicate RowFaithful(repo: Repo, p: Path, row: Row) {
    forall c: Bytes :: repo.hash(c) == row.hash ==> repo.parse(p, c) == Some(row.entities)
  }

  /** The store and the tree disagree about a path: one lacks it, or the content moved. */
  ghost predicate Differs(repo: Repo, rows: Rows, p: Path) {
    if Indexed(repo, p) then !Unchanged(repo, rows, p) else p in rows
  }

  /** The store holds exactly the indexed files, each as parsed from its present content. */
  ghost predicate Exact(repo: Repo, rows: Rows) {
    forall p :: (p in rows <==> Indexed(repo, p)) && (p in rows ==> Fresh(repo, rows, p))
  }

  /** Every row is a fresh one or holds the file data it held before. */
  ghost predicate Carried(repo: Repo, before: Rows, after: Rows) {
    forall p :: p in after ==> Fresh(repo, after, p) || (p in before && SameData(before, after, p))
  }

  lemma CarriedOn(repo: Repo, before: Rows, middle: Rows, after: Rows)
    requires Carried(repo, before, middle) && Carried(repo, middle, after)
    ensures Carried(repo, before, after)
  {
    forall p | p in after ensures Fresh(repo, after, p) || (p in before && SameData(before, after, p)) {
      if !Fresh(repo, after, p) {
        assert p in middle && SameData(middle, after, p);
      }
    }
  }

  /** Contents with one hash have one parse. */
  ghost predicate Collisionless(repo: Repo) {
    forall p, c: Bytes, d: Bytes :: repo.hash(c) == repo.hash(d) ==> repo.parse(p, c) == repo.parse(p, d)
  }

  /** Other trees under the same parsers and the same hash. */
  ghost predicate SameParsers(repo: Repo, other: Repo) {
    repo.parse == other.parse && repo.hash == other.hash
  }

  lemma CarriedKeepsFaithful(repo: Repo, tree: Repo, before: Rows, after: Rows, except: set<Path>)
    requires Collisionless(repo) && SameParsers(repo, tree)
    requires Faithful(repo, before, except) && Carried(tree, before, after)
    ensures Faithful(repo, after, except)
  {
    forall p | p in after && p !in except ensures RowFaithful(repo, p, after[p]) {
      if Fresh(tree, after, p) {
        FreshIsFaithful(repo, tree, after, p);
      } else {
        assert RowFaithful(repo, p, before[p]);
      }
    }
  }

  lemma FreshIsFaithful(repo: Repo, tree: Repo, rows: Rows, p: Path)
    requires Collisionless(repo) && SameParsers(repo, tree) && Fresh(tree, rows, p)
    ensures RowFaithful(repo, p, rows[p])
  {
    var content := tree.disk[p].content;
    assert repo.hash(content) == rows[p].hash;
    forall c: Bytes | repo.hash(c) == rows[p].hash ensures repo.parse(p, c) == Some(rows[p].entities) {
      assert repo.hash(c) == repo.hash(content);
    }
  }

  lemma ExactIsUnique(repo: Repo, a: Rows, b: Rows)
    requires Exact(repo, a) && Exact(repo, b)
    ensures forall p :: SameData(a, b, p)
  {
    forall p ensures SameData(a, b, p) {
      assert p in a ==> Fresh(repo, a, p);
      assert p in b ==> Fresh(repo, b, p);
    }
  }

  /** The files that could not be stored, as opposed to parsed. */
  function StoreFailures(errors: seq<Error>): (r: seq<Path>)
    ensures r == [] <==> forall e :: e in errors ==> !e.store
  {
    if errors == [] then []
    else
      var last := errors[|errors| - 1];
      StoreFailures(errors[..|errors| - 1]) + if last.store then [last.file] else []
  }

  /** Some file could not be stored in between. */
  ghost predicate Failed(before: seq<Error>, now: seq<Error>) {
    exists k :: |before| <= k < |now| && now[k].store
  }

  lemma FailuresAddUp(a: seq<Error>, b: seq<Error>, c: seq<Error>)
    requires a <= b <= c
    ensures Failed(a, c) <==> Failed(a, b) || Failed(b, c)
  {
    assert forall k :: 0 <= k < |b| ==> b[k] == c[k];
  }

  /** Set the recorded times of stored files. */
  function Timed(rows: Rows, updates: seq<(int, Path)>): Rows {
    if updates == [] then rows
    else
      var last := |updates| - 1;
      var before, (mtime, p) := Timed(rows, updates[..last]), updates[last];
      if p in before then before[p := before[p].(mtime := mtime)] else before
  }

  /** That changes no file data, and no row without an update. */
  lemma {:induction false} TimedKeepsData(rows: Rows, updates: seq<(int, Path)>, p: Path)
    ensures SameData(rows, Timed(rows, updates), p)
    ensures p in rows && (forall u :: u in updates ==> u.1 != p) ==> Timed(rows, updates)[p] == rows[p]
  {
    if updates != [] {
      TimedKeepsData(rows, updates[..|updates| - 1], p);
    }
  }

  /** And brings a row to the time of its updates. */
  lemma {:induction false} TimedSetsTimes(rows: Rows, updates: seq<(int, Path)>, p: Path, mtime: int)
    requires p in rows && (mtime, p) in updates && forall u :: u in updates && u.1 == p ==> u.0 == mtime
    ensures p in Timed(rows, updates) && Timed(rows, updates)[p] == rows[p].(mtime := mtime)
  {
    var init, last := updates[..|updates| - 1], updates[|updates| - 1];
    TimedKeepsData(rows, init, p);
    if (mtime, p) in init {
      TimedSetsTimes(rows, init, p, mtime);
    } else {
      assert last == (mtime, p);
      forall u | u in init ensures u.1 != p {
        assert u in updates;
      }
    }
  }

  /** A looked-at file whose hash is the stored one has its present time, nothing else moved. */
  ghost predicate RetimedAt(repo: Repo, before: Rows, paths: seq<Path>, after: Rows, p: Path) {
    && (p in after <==> p in before)
    && (p in before ==>
         after[p] == (if p in paths && p in repo.disk && Unchanged(repo, before, p)
                      then before[p].(mtime := repo.disk[p].mtime) else before[p]))
  }

  ghost predicate Retimed(repo: Repo, before: Rows, paths: seq<Path>, after: Rows) {
    forall p :: RetimedAt(repo, before, paths, after, p)
  }

  lemma TouchedTimes(repo: Repo, rows: Rows, paths: seq<Path>, mtimeOnly: seq<(int, Path)>)
    requires forall u :: u in mtimeOnly <==> u.1 in paths && OnlyTouched(repo, rows, u, false)
    ensures Retimed(repo, rows, paths, Timed(rows, mtimeOnly))
    ensures forall p :: SameData(rows, Timed(rows, mtimeOnly), p)
  {
    forall p ensures RetimedAt(repo, rows, paths, Timed(rows, mtimeOnly), p) && SameData(rows, Timed(rows, mtimeOnly), p) {
      TimedKeepsData(rows, mtimeOnly, p);
      if p in paths && p in repo.disk && Unchanged(repo, rows, p) {
        assert OnlyTouched(repo, rows, (repo.disk[p].mtime, p), false);
        TimedSetsTimes(rows, mtimeOnly, p, repo.disk[p].mtime);
      }
    }
  }

  /** Some of the chunks a list is stored in is refused. */
  ghost predicate SomeRefused(refused: nat -> bool, chunks: nat) {
    exists chunk: nat :: chunk < chunks && refused(chunk)
  }

  /** A file on disk that its parser takes. */
  predicate Storable(repo: Repo, p: Path) {
    p in repo.disk && Parses(repo, p)
  }

  function RowOf(repo: Repo, p: Path): Row
    requires Storable(repo, p)
  {
    var file := repo.disk[p];
    Row(repo.hash(file.content), file.mtime, repo.parse(p, file.content).value)
  }

  /** One error for each of the files that no parser takes. */
  function Unparsed(repo: Repo, files: set<Path>): set<Error> {
    set p | p in files && !Storable(repo, p) :: Error(p, false)
  }

  /** One error for each file of a refused chunk. */
  function Refusals(files: set<Path>): set<Error> {
    set p | p in files :: Error(p, true)
  }

  /** What was reported in between. */
  function ErrorsSince(before: seq<Error>, now: seq<Error>): set<Error>
    requires before <= now
  {
    ToSet(now[|before|..])
  }

  lemma ErrorsAddUp(a: seq<Error>, b: seq<Error>, c: seq<Error>)
    requires a <= b <= c
    ensures ErrorsSince(a, c) == ErrorsSince(a, b) + ErrorsSince(b, c)
  {
    assert c[|a|..] == b[|a|..] + c[|b|..];
  }

  lemma ErrorsOfMore(before: seq<Error>, more: seq<Error>)
    ensures ErrorsSince(before, before + more) == ToSet(more)
  {
    assert (before + more)[|before|..] == more;
  }

  /** The first files of a list whose chunks are stored, and those whose chunks are refused. */
  function AcceptedOf(paths: seq<Path>, refused: nat -> bool, end: nat): set<Path>
    requires end <= |paths|
  {
    set i: nat | i < end && !refused(i / PARSE_BATCH) :: paths[i]
  }

  function RefusedOf(paths: seq<Path>, refused: nat -> bool, end: nat): set<Path>
    requires end <= |paths|
  {
    set i: nat | i < end && refused(i / PARSE_BATCH) :: paths[i]
  }

  lemma OneChunkMore(paths: seq<Path>, refused: nat -> bool, chunk: nat, at: nat, end: nat)
    requires at == chunk * PARSE_BATCH <= end <= |paths| && end <= at + PARSE_BATCH
    ensures AcceptedOf(paths, refused, end) ==
      AcceptedOf(paths, refused, at) + if refused(chunk) then {} else ToSet(paths[at..end])
    ensures RefusedOf(paths, refused, end) ==
      RefusedOf(paths, refused, at) + if refused(chunk) then ToSet(paths[at..end]) else {}
  {
    assert forall i: nat :: at <= i < end ==> i / PARSE_BATCH == chunk;
    forall p | p in paths[at..end] ensures exists i: nat :: at <= i < end && paths[i] == p {
      var j :| 0 <= j < |paths[at..end]| && paths[at..end][j] == p;
      assert paths[at + j] == p;
    }
    forall i: nat | at <= i < end ensures paths[i] in paths[at..end] {
      assert paths[at..end][i - at] == paths[i];
    }
  }

  /** The files of a list that are not on disk or whose content is not the stored one. */
  function ChangedOf(repo: Repo, rows: Rows, paths: seq<Path>): set<Path> {
    set p | p in paths && (p in repo.disk ==> !Unchanged(repo, rows, p))
  }

  function Unstorable(repo: Repo, paths: seq<Path>): (r: seq<Error>)
    ensures forall e :: e in r <==> e in Unparsed(repo, ToSet(paths))
  {
    if paths == [] then []
    else
      var last := paths[|paths| - 1];
      assert forall p :: p in paths <==> p in paths[..|paths| - 1] || p == last;
      Unstorable(repo, paths[..|paths| - 1]) + if Storable(repo, last) then [] else [Error(last, false)]
  }

  /** Exactly the storable ones of some files got the rows of their present content. */
  ghost predicate StoredRows(repo: Repo, before: Rows, files: set<Path>, after: Rows) {
    forall q ::
      && (q in after <==> q in before || (q in files && Storable(repo, q)))
      && (q in after ==> after[q] == if q in files && Storable(repo, q) then RowOf(repo, q) else before[q])
  }

  lemma StoredOn(repo: Repo, before: Rows, files: set<Path>, middle: Rows, more: set<Path>, after: Rows)
    requires StoredRows(repo, before, files, middle) && StoredRows(repo, middle, more, after)
    ensures StoredRows(repo, before, files + more, after)
  {
  }

  /** A looked-at file has its present time if its hash is the stored one, else its present row if
      it can be parsed; nothing else moved. */
  ghost predicate RefreshedAt(repo: Repo, before: Rows, paths: seq<Path>, after: Rows, q: Path) {
    var same := q in repo.disk && Unchanged(repo, before, q);
    && (q in after <==> q in before || (q in paths && Storable(repo, q)))
    && (q in after ==>
         after[q] == (if q in paths && same then before[q].(mtime := repo.disk[q].mtime)
                      else if q in paths && Storable(repo, q) then RowOf(repo, q) else before[q]))
  }

  lemma RetimedAndStored(repo: Repo, before: Rows, paths: seq<Path>, timed: Rows, changed: seq<Path>, after: Rows)
    requires Retimed(repo, before, paths, timed) && StoredRows(repo, timed, ToSet(changed), after)
    requires forall q :: q in changed <==> q in paths && (q in repo.disk ==> !Unchanged(repo, before, q))
    ensures forall q :: RefreshedAt(repo, before, paths, after, q)
  {
    forall q ensures RefreshedAt(repo, before, paths, after, q) {
      assert RetimedAt(repo, before, paths, timed, q);
    }
  }

  lemma StoredMore(repo: Repo, before: Rows, paths: seq<Path>, middle: Rows, p: Path, after: Rows)
    requires StoredRows(repo, before, ToSet(paths), middle)
    requires after == if Storable(repo, p) then middle[p := RowOf(repo, p)] else middle
    ensures StoredRows(repo, before, ToSet(paths + [p]), after)
  {
    assert ToSet(paths + [p]) == ToSet(paths) + {p};
  }

  lemma StoredAndReported(repo: Repo, before: Rows, reported: seq<Error>, paths: seq<Path>, i: nat, middle: Rows,
    errors: seq<Error>, after: Rows, later: seq<Error>)
    requires i < |paths| && StoredRows(repo, before, ToSet(paths[..i]), middle)
    requires errors == reported + Unstorable(repo, paths[..i])
    requires after == if Storable(repo, paths[i]) then middle[paths[i] := RowOf(repo, paths[i])] else middle
    requires later == errors + if Storable(repo, paths[i]) then [] else [Error(paths[i], false)]
    ensures StoredRows(repo, before, ToSet(paths[..i + 1]), after)
    ensures later == reported + Unstorable(repo, paths[..i + 1])
  {
    StoredMore(repo, before, paths[..i], middle, paths[i], after);
    assert paths[..i + 1] == paths[..i] + [paths[i]];
    assert paths[..i + 1][..i] == paths[..i];
  }

  class Store {
    const repo: Repo
    var rows: Rows
    var errors: seq<Error>
    var stamp: Option<string>

    constructor (repo: Repo, rows: Rows, stamp: Option<string>)
      ensures this.repo == repo && this.rows == rows && errors == [] && this.stamp == stamp
    {
      this.repo, this.rows, this.errors, this.stamp := repo, rows, [], stamp;
    }

    method RemoveFiles(paths: seq<Path>)
      modifies this`rows
      ensures rows == old(rows) - ToSet(paths)
    {
      rows := rows - ToSet(paths);
    }

    method UpdateMtimes(updates: seq<(int, Path)>)
      modifies this`rows
      ensures rows == Timed(old(rows), updates)
    {
      for i := 0 to |updates|
        invariant rows == Timed(old(rows), updates[..i])
      {
        var (mtime, p) := updates[i];
        assert updates[..i + 1][..i] == updates[..i];
        if p in rows {
          rows := rows[p := rows[p].(mtime := mtime)];
        }
      }
      assert updates[..|updates|] == updates;
    }

    /** Parse one file and store it; a file that cannot be read or parsed keeps its old row. */
    method StoreFile(p: Path)
      modifies this`rows, this`errors
      ensures rows == if Storable(repo, p) then old(rows)[p := RowOf(repo, p)] else old(rows)
      ensures errors == old(errors) + if Storable(repo, p) then [] else [Error(p, false)]
    {
      if p !in repo.disk || repo.parse(p, repo.disk[p].content).None? {
        errors := errors + [Error(p, false)];
        return;
      }
      var file := repo.disk[p];
      rows := rows[p := Row(repo.hash(file.content), file.mtime, repo.parse(p, file.content).value)];
    }

    /** Errors are only ever appended; without a store failure among them unless one is allowed. */
    ghost predicate Reported(before: seq<Error>, storing: bool)
      reads this`errors
    {
      && before <= errors
      && (!storing ==> forall k :: |before| <= k < |errors| ==> !errors[k].store)
    }

    /** The outcome of storing a list of files: unless an error was added they are all fresh. */
    ghost predicate Stored(paths: seq<Path>, before: Rows, errorsBefore: seq<Error>)
      reads this
    {
      && Reported(errorsBefore, true)
      && (forall q :: q !in paths ==> (q in rows <==> q in before) && (q in rows ==> rows[q] == before[q]))
      && (errors == errorsBefore ==> forall q :: q in paths ==> Fresh(repo, rows, q))
    }

    /** Every file that can be parsed gets its row, every other one an error. */
    method StoreFiles(paths: seq<Path>)
      modifies this`rows, this`errors
      ensures StoredRows(repo, old(rows), ToSet(paths), rows) && errors == old(errors) + Unstorable(repo, paths)
      ensures Stored(paths, old(rows), old(errors)) && Reported(old(errors), false)
      ensures ErrorsSince(old(errors), errors) == Unparsed(repo, ToSet(paths))
      ensures Carried(repo, old(rows), rows)
    {
      for i := 0 to |paths|
        invariant StoredRows(repo, old(rows), ToSet(paths[..i]), rows)
        invariant errors == old(errors) + Unstorable(repo, paths[..i])
      {
        ghost var before, reported := rows, errors;
        StoreFile(paths[i]);
        StoredAndReported(repo, old(rows), old(errors), paths, i, before, reported, rows, errors);
      }
      assert paths[..|paths|] == paths;
      RowsMakeStored(paths, old(rows), old(errors));
    }

    lemma RowsMakeStored(paths: seq<Path>, before: Rows, errorsBefore: seq<Error>)
      requires StoredRows(repo, before, ToSet(paths), rows) && errors == errorsBefore + Unstorable(repo, paths)
      ensures Stored(paths, before, errorsBefore) && Reported(errorsBefore, false)
      ensures ErrorsSince(errorsBefore, errors) == Unparsed(repo, ToSet(paths))
    {
      AllParsedWithoutErrors(paths, errorsBefore);
    }

    /** One chunk; when the store refuses it, every file of it is reported and it is skipped. */
    method StoreChunk(chunk: seq<Path>, refused: bool)
      requires chunk != []
      modifies this`rows, this`errors
      ensures old(errors) <= errors
      ensures StoredRows(repo, old(rows), if refused then {} else ToSet(chunk), rows)
      ensures ErrorsSince(old(errors), errors) == if refused then Refusals(ToSet(chunk)) else Unparsed(repo, ToSet(chunk))
    {
      if refused {
        ghost var before := errors;
        ghost var more := seq(|chunk|, i requires 0 <= i < |chunk| => Error(chunk[i], true));
        errors := errors + seq(|chunk|, i requires 0 <= i < |chunk| => Error(chunk[i], true));
        assert errors == before + more;
        ErrorsOfMore(before, more);
        RefusalsOf(chunk, more);
      } else {
        StoreFiles(chunk);
      }
    }

    lemma RefusalsOf(chunk: seq<Path>, more: seq<Error>)
      requires |more| == |chunk| && forall i :: 0 <= i < |chunk| ==> more[i] == Error(chunk[i], true)
      ensures ToSet(more) == Refusals(ToSet(chunk))
    {
      forall p | p in chunk ensures Error(p, true) in more {
        var i :| 0 <= i < |chunk| && chunk[i] == p;
        assert more[i] == Error(p, true);
      }
    }

    /** The outcome of storing the first files of a list in chunks. */
    ghost predicate StoredSoFar(paths: seq<Path>, refused: nat -> bool, end: nat, before: Rows, errorsBefore: seq<Error>)
      requires end <= |paths|
      reads this
    {
      && errorsBefore <= errors
      && StoredRows(repo, before, AcceptedOf(paths, refused, end), rows)
      && ErrorsSince(errorsBefore, errors) ==
           Unparsed(repo, AcceptedOf(paths, refused, end)) + Refusals(RefusedOf(paths, refused, end))
    }

    lemma StoredOneChunkMore(paths: seq<Path>, refused: nat -> bool, chunk: nat, at: nat, end: nat, before: Rows,
      errorsBefore: seq<Error>, middle: Rows, reported: seq<Error>)
      requires at == chunk * PARSE_BATCH <= end <= |paths| && end <= at + PARSE_BATCH
      requires errorsBefore <= reported <= errors
      requires StoredRows(repo, before, AcceptedOf(paths, refused, at), middle)
      requires ErrorsSince(errorsBefore, reported) ==
        Unparsed(repo, AcceptedOf(paths, refused, at)) + Refusals(RefusedOf(paths, refused, at))
      requires StoredRows(repo, middle, if refused(chunk) then {} else ToSet(paths[at..end]), rows)
      requires ErrorsSince(reported, errors) ==
        if refused(chunk) then Refusals(ToSet(paths[at..end])) else Unparsed(repo, ToSet(paths[at..end]))
      ensures StoredSoFar(paths, refused, end, before, errorsBefore)
    {
      var accepted := AcceptedOf(paths, refused, at);
      OneChunkMore(paths, refused, chunk, at, end);
      ErrorsAddUp(errorsBefore, reported, errors);
      if refused(chunk) {
        StoredOn(repo, before, accepted, middle, {}, rows);
        assert accepted + {} == accepted;
      } else {
        StoredOn(repo, before, accepted, middle, ToSet(paths[at..end]), rows);
      }
    }

    /** Store in chunks: a refused one does not keep the others from being stored. */
    method StoreRustBatches(paths: seq<Path>, refused: nat -> bool)
      modifies this`rows, this`errors
      ensures Stored(paths, old(rows), old(errors))
      ensures Carried(repo, old(rows), rows)
      ensures Failed(old(errors), errors) <==> SomeRefused(refused, (|paths| + PARSE_BATCH - 1) / PARSE_BATCH)
      ensures StoredSoFar(paths, refused, |paths|, old(rows), old(errors))
    {
      var at, chunk := 0, 0;
      while at < |paths|
        invariant at == (if chunk * PARSE_BATCH < |paths| then chunk * PARSE_BATCH else |paths|)
        invariant StoredSoFar(paths, refused, at, old(rows), old(errors))
        decreases |paths| - at
      {
        var end := if at + PARSE_BATCH < |paths| then at + PARSE_BATCH else |paths|;
        ghost var before, middle := errors, rows;
        StoreChunk(paths[at..end], refused(chunk));
        StoredOneChunkMore(paths, refused, chunk, at, end, old(rows), old(errors), middle, before);
        at, chunk := end, chunk + 1;
      }
      EverythingStored(paths, refused, old(rows), old(errors));
      FailedExactly(paths, refused, old(rows), old(errors));
    }

    lemma EverythingStored(paths: seq<Path>, refused: nat -> bool, before: Rows, errorsBefore: seq<Error>)
      requires StoredSoFar(paths, refused, |paths|, before, errorsBefore)
      ensures Stored(paths, before, errorsBefore) && Carried(repo, before, rows)
    {
      if errors == errorsBefore {
        assert ErrorsSince(errorsBefore, errors) == {};
        forall q | q in paths ensures q in AcceptedOf(paths, refused, |paths|) && Storable(repo, q) {
          var i: nat :| i < |paths| && paths[i] == q;
          assert Error(q, true) !in Refusals(RefusedOf(paths, refused, |paths|));
          assert Error(q, false) !in Unparsed(repo, AcceptedOf(paths, refused, |paths|));
        }
      }
    }

    lemma FailedExactly(paths: seq<Path>, refused: nat -> bool, before: Rows, errorsBefore: seq<Error>)
      requires StoredSoFar(paths, refused, |paths|, before, errorsBefore)
      ensures Failed(errorsBefore, errors) <==> SomeRefused(refused, (|paths| + PARSE_BATCH - 1) / PARSE_BATCH)
    {
      if Failed(errorsBefore, errors) {
        var k :| |errorsBefore| <= k < |errors| && errors[k].store;
        assert errors[|errorsBefore|..][k - |errorsBefore|] == errors[k];
        assert errors[k] in ErrorsSince(errorsBefore, errors);
        var i: nat :| i < |paths| && refused(i / PARSE_BATCH) && paths[i] == errors[k].file;
        assert i / PARSE_BATCH < (|paths| + PARSE_BATCH - 1) / PARSE_BATCH;
      }
      if SomeRefused(refused, (|paths| + PARSE_BATCH - 1) / PARSE_BATCH) {
        var chunk: nat :| chunk < (|paths| + PARSE_BATCH - 1) / PARSE_BATCH && refused(chunk);
        var i := chunk * PARSE_BATCH;
        assert i < |paths| && i / PARSE_BATCH == chunk;
        assert paths[i] in RefusedOf(paths, refused, |paths|);
        assert Error(paths[i], true) in ErrorsSince(errorsBefore, errors);
        var k :| 0 <= k < |errors[|errorsBefore|..]| && errors[|errorsBefore|..][k] == Error(paths[i], true);
        assert errors[|errorsBefore| + k].store;
      }
    }

    /** Look at Rust-owned candidates: bring the unchanged ones' times up to date, and note the
        changed ones or report those the Rust parser does not take after all. */
    method ClassifyRust(paths: seq<Path>) returns (changed: seq<Path>)
      requires forall p :: p in paths ==> p in repo.disk
      modifies this`rows, this`errors
      ensures forall p :: SameData(old(rows), rows, p)
      ensures Retimed(repo, old(rows), paths, rows)
      ensures forall p :: p in changed <==> p in paths && !Unchanged(repo, old(rows), p) && Parses(repo, p)
      ensures Reported(old(errors), false)
      ensures errors == old(errors) ==> forall p :: p in paths && !Unchanged(repo, old(rows), p) ==> Parses(repo, p)
      ensures ErrorsSince(old(errors), errors) == Unparsed(repo, ChangedOf(repo, old(rows), paths))
    {
      var differing, mtimeOnly := ClassifyChangedFiles(repo, paths, rows, false);
      changed := [];
      ghost var more := [];
      for i := 0 to |differing|
        invariant rows == old(rows)
        invariant forall p :: p in changed <==> p in differing[..i] && Parses(repo, p)
        invariant errors == old(errors) + more && more == Unstorable(repo, differing[..i])
      {
        assert differing[..i + 1][..i] == differing[..i];
        if Parses(repo, differing[i]) {
          changed := changed + [differing[i]];
        } else {
          errors := errors + [Error(differing[i], false)];
          more := more + [Error(differing[i], false)];
        }
      }
      assert differing[..|differing|] == differing;
      assert ToSet(differing) == ChangedOf(repo, old(rows), paths);
      UpdateMtimes(mtimeOnly);
      TouchedTimes(repo, old(rows), paths, mtimeOnly);
      AllParsedWithoutErrors(differing, old(errors));
    }

    lemma AllParsedWithoutErrors(paths: seq<Path>, errorsBefore: seq<Error>)
      requires errors == errorsBefore + Unstorable(repo, paths)
      ensures Reported(errorsBefore, false) && ErrorsSince(errorsBefore, errors) == Unparsed(repo, ToSet(paths))
      ensures errors == errorsBefore ==> forall p :: p in paths ==> Storable(repo, p)
    {
      ErrorsOfMore(errorsBefore, Unstorable(repo, paths));
      forall k | |errorsBefore| <= k < |errors| ensures !errors[k].store {
        assert errors[k] in Unstorable(repo, paths);
      }
      forall q | q in paths && errors == errorsBefore ensures Storable(repo, q) {
        assert Unstorable(repo, paths) == [];
        assert Error(q, false) !in Unparsed(repo, ToSet(paths));
      }
    }

    /** Store the files of a list whose content is not the stored one. */
    method StoreChangedFiles(paths: seq<Path>)
      modifies this`rows, this`errors
      ensures forall q :: RefreshedAt(repo, old(rows), paths, rows, q)
      ensures Carried(repo, old(rows), rows)
      ensures Reported(old(errors), false)
      ensures ErrorsSince(old(errors), errors) == Unparsed(repo, ChangedOf(repo, old(rows), paths))
      ensures forall q :: q !in paths ==> SameData(old(rows), rows, q)
      ensures errors == old(errors) ==> forall q :: q in paths ==>
        Fresh(repo, rows, q) || (q in repo.disk && Unchanged(repo, old(rows), q) && SameData(old(rows), rows, q))
    {
      var changed, mtimeOnly := ClassifyChangedFiles(repo, paths, rows, false);
      assert ToSet(changed) == ChangedOf(repo, old(rows), paths);
      UpdateMtimes(mtimeOnly);
      TouchedTimes(repo, old(rows), paths, mtimeOnly);
      ghost var timed := rows;
      StoreFiles(changed);
      RetimedAndStored(repo, old(rows), paths, timed, changed, rows);
      CarriedOn(repo, old(rows), timed, rows);
      forall q | q !in changed ensures SameData(old(rows), rows, q) {
        assert SameData(old(rows), timed, q);
      }
    }
  }
}
