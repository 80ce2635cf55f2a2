/** The working tree as one update or build sees it, and the rows the graph store keeps per file. */
module Repository {
  import opened Wrappers

  type Path = string
  type Bytes = seq<nat>
  type Entities = seq<string>

  datatype File = File(content: Bytes, mtime: int)

  /** `scope` is the version-control listing minus ignored paths; `parses` says which files some
      parser takes, `parse` is that parser (None for a parse error), `rustOwned` who runs it. */
  datatype Repo = Repo(
    disk: map<Path, File>,
    scope: set<Path>,
    ignored: set<Path>,
    parses: (Path, Bytes) -> bool,
    parse: (Path, Bytes) -> Option<Entities>,
    hash: Bytes -> string,
    rustOwned: Path -> bool)

  datatype Row = Row(hash: string, mtime: int, entities: Entities)

  type Rows = map<Path, Row>

  /** `store` marks a file that could not be stored, as opposed to parsed. */
  datatype Error = Error(file: Path, store: bool)

  /** A regular file some parser takes. */
  predicate IsFile(repo: Repo, p: Path) {
    p in repo.disk && repo.parses(p, repo.disk[p].content)
  }

  /** Some parser takes the file's present content. */
  predicate Parses(repo: Repo, p: Path)
    requires p in repo.disk
  {
    repo.parse(p, repo.disk[p].content).Some?
  }

  /** What a full build indexes. */
  predicate Indexed(repo: Repo, p: Path) {
    p in repo.scope && IsFile(repo, p)
  }

  function HashOf(repo: Repo, p: Path): string
    requires p in repo.disk
  {
    repo.hash(repo.disk[p].content)
  }

  predicate Unchanged(repo: Repo, rows: Rows, p: Path)
    requires p in repo.disk
  {
    p in rows && rows[p].hash == HashOf(repo, p)
  }

  /** A file stored from its present content. */
  predicate Fresh(repo: Repo, rows: Rows, p: Path) {
    && p in repo.disk && p in rows
    && rows[p].hash == HashOf(repo, p)
    && repo.parse(p, repo.disk[p].content) == Some(rows[p].entities)
  }

  /** The same file data, whatever the recorded modification time. */
  predicate SameData(a: Rows, b: Rows, p: Path) {
    && (p in a <==> p in b)
    && (p in a ==> a[p].hash == b[p].hash && a[p].entities == b[p].entities)
  }

  lemma SameKeys(a: Rows, b: Rows)
    requires forall p :: SameData(a, b, p)
    ensures a.Keys == b.Keys
  {
    forall p ensures p in a <==> p in b {
      assert SameData(a, b, p);
    }
  }

  predicate WellFormed(repo: Repo) {
    repo.scope !! repo.ignored
  }
}
