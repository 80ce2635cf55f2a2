/** The count cached per provider and dimension, with writers running between any two steps. */
module CountCache {
  import opened Wrappers

  type Vector = seq<real>
  type Rows = map<(string, string), Vector>

  /** The row of the generation table: the epoch is drawn when the table is created, every insert,
      update or delete of an embedding raises the generation. */
  datatype Version = Version(epoch: string, generation: nat)

  /** A reader's cache, and the count it is in the middle of: the version is read, the rows not yet. */
  datatype Reader = Reader(cache: map<(string, nat), (Version, nat)>, pending: Option<Pending>)
  datatype Pending = Pending(key: (string, nat), version: Option<Version>)

  datatype World = World(rows: Rows, version: Option<Version>, epochs: set<string>, readers: map<nat, Reader>)

  datatype Step =
    | Upsert(name: string, provider: string, vector: Vector)
    | Delete(name: string, provider: string)
    | Recreate(epoch: string)
    | ReadVersion(reader: nat, key: (string, nat))
    | ReadRows(reader: nat)

  function Matching(rows: Rows, key: (string, nat)): set<(string, string)> {
    set k | k in rows && k.1 == key.0 && |rows[k]| == key.1
  }

  function Count(rows: Rows, key: (string, nat)): nat {
    |Matching(rows, key)|
  }

  /** A new row counts for its own provider and dimension and for no other. */
  lemma NewRowCounts(rows: Rows, k: (string, string), vector: Vector, key: (string, nat))
    requires k !in rows
    ensures Count(rows[k := vector], key) == Count(rows, key) + if k.1 == key.0 && |vector| == key.1 then 1 else 0
  {
    NewRowMatches(rows, k, vector, key);
    assert k !in Matching(rows, key);
  }

  lemma NewRowMatches(rows: Rows, k: (string, string), vector: Vector, key: (string, nat))
    requires k !in rows
    ensures Matching(rows[k := vector], key) == Matching(rows, key) + if k.1 == key.0 && |vector| == key.1 then {k} else {}
  {
    var more := rows[k := vector];
    forall j | j in more ensures j == k || (j in rows && more[j] == rows[j]) {
    }
  }

  function Raised(version: Option<Version>): Option<Version> {
    if version.None? then None else Some(version.value.(generation := version.value.generation + 1))
  }

  /** The cached answer, when the version read is the one it was counted at. */
  predicate IsHit(r: Reader, key: (string, nat), version: Option<Version>) {
    version.Some? && key in r.cache && r.cache[key].0 == version.value
  }

  predicate Enabled(w: World, s: Step) {
    match s
    case Recreate(epoch) => epoch !in w.epochs
    case Delete(name, provider) => (name, provider) in w.rows
    case ReadVersion(reader, _) => reader in w.readers && w.readers[reader].pending.None?
    case ReadRows(reader) => reader in w.readers && w.readers[reader].pending.Some?
    case _ => true
  }

  function Counted(r: Reader, count: nat): Reader
    requires r.pending.Some?
  {
    var p := r.pending.value;
    Reader(if p.version.Some? then r.cache[p.key := (p.version.value, count)] else r.cache, None)
  }

  function Next(w: World, s: Step): World
    requires Enabled(w, s)
  {
    match s
    case Upsert(name, provider, vector) => w.(rows := w.rows[(name, provider) := vector], version := Raised(w.version))
    case Delete(name, provider) => w.(rows := w.rows - {(name, provider)}, version := Raised(w.version))
    case Recreate(epoch) => w.(rows := map[], version := Some(Version(epoch, 0)), epochs := w.epochs + {epoch})
    case ReadVersion(reader, key) =>
      var r := w.readers[reader];
      if IsHit(r, key, w.version) then w
      else w.(readers := w.readers[reader := r.(pending := Some(Pending(key, w.version)))])
    case ReadRows(reader) =>
      var r := w.readers[reader];
      w.(readers := w.readers[reader := Counted(r, Count(w.rows, r.pending.value.key))])
  }

  ghost predicate IsRun(w: World, steps: seq<Step>)
    decreases |steps|
  {
    steps == [] || (Enabled(w, steps[0]) && IsRun(Next(w, steps[0]), steps[1..]))
  }

  function Run(w: World, steps: seq<Step>): World
    requires IsRun(w, steps)
    decreases |steps|
  {
    if steps == [] then w else Run(Next(w, steps[0]), steps[1..])
  }

  // ---------------------------------------------------------------------------
  // The invariant
  // ---------------------------------------------------------------------------

  /** A version that was current once, or is. */
  predicate Past(w: World, v: Version) {
    && v.epoch in w.epochs
    && (w.version.Some? && v.epoch == w.version.value.epoch ==> v.generation <= w.version.value.generation)
  }

  ghost predicate ReaderInv(w: World, r: Reader) {
    && (forall key :: key in r.cache ==>
          Past(w, r.cache[key].0) && (w.version == Some(r.cache[key].0) ==> r.cache[key].1 == Count(w.rows, key)))
    && (r.pending.Some? && r.pending.value.version.Some? ==> Past(w, r.pending.value.version.value))
  }

  ghost predicate Inv(w: World) {
    && (w.version.Some? ==> w.version.value.epoch in w.epochs)
    && forall i :: i in w.readers ==> ReaderInv(w, w.readers[i])
  }

  /** After a write every version in any reader's hands is behind for good. */
  lemma WriteOutdates(w: World, rows: Rows, r: Reader)
    requires Inv(w) && ReaderInv(w, r)
    ensures ReaderInv(w.(rows := rows, version := Raised(w.version)), r)
  {
  }

  lemma RecreationOutdates(w: World, epoch: string, r: Reader)
    requires Inv(w) && ReaderInv(w, r) && epoch !in w.epochs
    ensures ReaderInv(Next(w, Recreate(epoch)), r)
  {
  }

  lemma StepKeepsInv(w: World, s: Step)
    requires Inv(w) && Enabled(w, s)
    ensures Inv(Next(w, s))
  {
    var w' := Next(w, s);
    forall i | i in w'.readers ensures ReaderInv(w', w'.readers[i]) {
      assert ReaderInv(w, w.readers[i]);
      match s
      case Upsert(_, _, _) => WriteOutdates(w, w'.rows, w.readers[i]);
      case Delete(_, _) => WriteOutdates(w, w'.rows, w.readers[i]);
      case Recreate(epoch) => RecreationOutdates(w, epoch, w.readers[i]);
      case _ =>
    }
  }

  lemma {:induction false} RunKeepsInv(w: World, steps: seq<Step>)
    requires Inv(w) && IsRun(w, steps)
    ensures Inv(Run(w, steps))
    decreases |steps|
  {
    if steps != [] {
      StepKeepsInv(w, steps[0]);
      RunKeepsInv(Next(w, steps[0]), steps[1..]);
    }
  }

  function Opened(readers: set<nat>, rows: Rows, version: Option<Version>): World {
    World(rows, version, if version.Some? then {version.value.epoch} else {}, map i | i in readers :: Reader(map[], None))
  }

  /** Whatever the interleaving, a hit answers what counting now would. */
  lemma HitIsAFreshCount(readers: set<nat>, rows: Rows, version: Option<Version>, steps: seq<Step>, reader: nat,
    key: (string, nat))
    requires IsRun(Opened(readers, rows, version), steps)
    requires var w := Run(Opened(readers, rows, version), steps); reader in w.readers && IsHit(w.readers[reader], key, w.version)
    ensures var w := Run(Opened(readers, rows, version), steps);
      w.readers[reader].cache[key].1 == Count(w.rows, key)
  {
    RunKeepsInv(Opened(readers, rows, version), steps);
    var w := Run(Opened(readers, rows, version), steps);
    assert ReaderInv(w, w.readers[reader]);
  }

  /** Steps of other readers: nobody writes, and the reader itself does not act. */
  ghost predicate OnlyOthersRead(steps: seq<Step>, reader: nat) {
    forall s :: s in steps ==> (s.ReadVersion? || s.ReadRows?) && s.reader != reader
  }

  lemma {:induction false} OthersChangeNothing(w: World, steps: seq<Step>, reader: nat)
    requires IsRun(w, steps) && OnlyOthersRead(steps, reader) && reader in w.readers
    ensures var w' := Run(w, steps);
      reader in w'.readers && w'.readers[reader] == w.readers[reader] && w'.rows == w.rows && w'.version == w.version
    decreases |steps|
  {
    if steps != [] {
      assert steps[0] in steps;
      OthersChangeNothing(Next(w, steps[0]), steps[1..], reader);
    }
  }

  /** The cache does its work: a count that nobody writes into is remembered, and whatever other readers
      do in between, asking again is a hit with the count of the rows. */
  lemma CountIsRemembered(w: World, reader: nat, key: (string, nat), between: seq<Step>, later: seq<Step>)
    requires Enabled(w, ReadVersion(reader, key)) && w.version.Some? && !IsHit(w.readers[reader], key, w.version)
    requires OnlyOthersRead(between, reader) && OnlyOthersRead(later, reader)
    requires var read := Next(w, ReadVersion(reader, key));
      IsRun(read, between) && Enabled(Run(read, between), ReadRows(reader)) &&
      IsRun(Next(Run(read, between), ReadRows(reader)), later)
    ensures var read := Next(w, ReadVersion(reader, key));
      var w' := Run(Next(Run(read, between), ReadRows(reader)), later);
      reader in w'.readers && IsHit(w'.readers[reader], key, w'.version)
      && w'.readers[reader].cache[key].1 == Count(w.rows, key)
  {
    var read := Next(w, ReadVersion(reader, key));
    OthersChangeNothing(read, between, reader);
    OthersChangeNothing(Next(Run(read, between), ReadRows(reader)), later, reader);
  }

  /** And a write, of whatever rows, makes the next question count again. */
  lemma WriteEndsTheHit(w: World, s: Step, reader: nat, key: (string, nat))
    requires Inv(w) && Enabled(w, s) && (s.Upsert? || s.Delete? || s.Recreate?) && reader in w.readers
    ensures var w' := Next(w, s); !IsHit(w'.readers[reader], key, w'.version)
  {
    assert ReaderInv(w, w.readers[reader]);
  }

  /** It does rest on every write raising the generation: one that does not leaves a stale hit. */
  lemma SilentWriteMakesAStaleHit(version: Version)
    ensures var key := ("p", 0);
      var w0 := Opened({0}, map[], Some(version));
      var w := Next(Next(w0, ReadVersion(0, key)), ReadRows(0));
      var silent := w.(rows := map[("n", "p") := []]);
      IsHit(silent.readers[0], key, silent.version) && silent.readers[0].cache[key].1 != Count(silent.rows, key)
  {
    var rows: Rows := map[("n", "p") := []];
    assert Matching(rows, ("p", 0)) == {("n", "p")};
    assert Matching(map[], ("p", 0)) == {};
  }
}
