/** Decoding the NUL-separated output of `git diff --name-status -z` and `git status --porcelain -z`. */
module GitDecoders {
  import opened Sequences

  const NUL := '\0'

  // ---------------------------------------------------------------------------
  // Fields
  // ---------------------------------------------------------------------------

  function Split(payload: string): (fields: seq<string>)
    ensures fields != []
  {
    if payload == "" then [""]
    else
      var rest := Split(payload[1..]);
      if payload[0] == NUL then [""] + rest else [[payload[0]] + rest[0]] + rest[1..]
  }

  predicate NonEmpty(field: string) {
    field != ""
  }

  function NulFields(payload: string): seq<string> {
    Filter(NonEmpty, Split(payload))
  }

  /** What git writes: every field ends in a NUL. */
  function Joined(fields: seq<string>): string {
    if fields == [] then "" else fields[0] + [NUL] + Joined(fields[1..])
  }

  predicate IsField(field: string) {
    field != "" && NUL !in field
  }

  lemma {:induction false} SplitOff(field: string, rest: string)
    requires NUL !in field
    ensures Split(field + [NUL] + rest) == [field] + Split(rest)
  {
    if field == "" {
      assert ("" + [NUL] + rest)[1..] == rest;
    } else {
      SplitOff(field[1..], rest);
      assert (field + [NUL] + rest)[1..] == field[1..] + [NUL] + rest;
      assert [field[0]] + field[1..] == field;
    }
  }

  /** Splitting undoes joining. */
  lemma {:induction false} FieldsRoundTrip(fields: seq<string>)
    requires forall f :: f in fields ==> IsField(f)
    ensures NulFields(Joined(fields)) == fields
  {
    if fields != [] {
      FieldsRoundTrip(fields[1..]);
      assert IsField(fields[0]);
      SplitOff(fields[0], Joined(fields[1..]));
    }
  }

  // ---------------------------------------------------------------------------
  // Name-status records
  // ---------------------------------------------------------------------------

  predicate TwoPaths(status: string) {
    status != "" && (status[0] == 'R' || status[0] == 'C')
  }

  function Wanted(status: string): nat {
    if TwoPaths(status) then 2 else 1
  }

  /** The paths in the fields, record by record; a cut-off record gives what it has. */
  function StatusPaths(fields: seq<string>): seq<string>
    decreases |fields|
  {
    if fields == [] then []
    else
      var end := if 1 + Wanted(fields[0]) < |fields| then 1 + Wanted(fields[0]) else |fields|;
      fields[1..end] + StatusPaths(fields[end..])
  }

  lemma RecordAt(fields: seq<string>, index: nat)
    requires index < |fields|
    ensures var end := Min(index + 1 + Wanted(fields[index]), |fields|);
      StatusPaths(fields[index..]) == fields[index + 1..end] + StatusPaths(fields[end..])
  {
    var end := Min(index + 1 + Wanted(fields[index]), |fields|);
    assert fields[index..][1..end - index] == fields[index + 1..end];
    assert fields[index..][end - index..] == fields[end..];
  }

  /** Read one record: the paths after the status, as many as it wants and there are. */
  method TakePaths(fields: seq<string>, index: nat) returns (paths: seq<string>, next: nat)
    requires index < |fields|
    ensures next > index
    ensures paths + StatusPaths(fields[Min(next, |fields|)..]) == StatusPaths(fields[index..])
  {
    var wanted := Wanted(fields[index]);
    paths := [];
    for offset := 1 to wanted + 1
      invariant paths == fields[index + 1..Min(index + offset, |fields|)]
    {
      if index + offset < |fields| {
        paths := paths + [fields[index + offset]];
      }
    }
    RecordAt(fields, index);
    next := index + wanted + 1;
  }

  lemma FourParts(a: seq<string>, b: seq<string>, c: seq<string>, d: seq<string>)
    ensures (a + b + c) + d == a + b + (c + d)
  {
  }

  lemma TwoParts(a: seq<string>, b: seq<string>, c: seq<string>)
    ensures (a + b) + c == a + (b + c)
  {
  }

  method CollectPaths(fields: seq<string>) returns (files: seq<string>)
    ensures files == StatusPaths(fields)
  {
    files := [];
    var index: nat := 0;
    assert fields[0..] == fields;
    while index < |fields|
      invariant files + StatusPaths(fields[Min(index, |fields|)..]) == StatusPaths(fields)
      decreases |fields| - index
    {
      var paths, next := TakePaths(fields, index);
      TwoParts(files, paths, StatusPaths(fields[Min(next, |fields|)..]));
      files := files + paths;
      index := next;
    }
  }

  method ParseNameStatus(payload: string) returns (files: seq<string>)
    ensures files == Dedupe(StatusPaths(NulFields(payload)))
  {
    files := CollectPaths(NulFields(payload));
    files := Dedupe(files);
  }

  /** A change of one path, or a rename or copy from one to another. */
  datatype Change = Change(status: string, path: string) | Move(status: string, source: string, target: string)

  /** Renames and copies, and nothing else, have a second path. */
  predicate IsChange(c: Change) {
    match c
    case Change(status, path) => IsField(status) && status[0] != 'R' && status[0] != 'C' && IsField(path)
    case Move(status, source, target) =>
      IsField(status) && (status[0] == 'R' || status[0] == 'C') && IsField(source) && IsField(target)
  }

  function PathsOf(c: Change): seq<string> {
    if c.Change? then [c.path] else [c.source, c.target]
  }

  function ChangeFields(changes: seq<Change>): seq<string> {
    if changes == [] then [] else [changes[0].status] + PathsOf(changes[0]) + ChangeFields(changes[1..])
  }

  function AllPaths(changes: seq<Change>): seq<string> {
    if changes == [] then [] else PathsOf(changes[0]) + AllPaths(changes[1..])
  }

  lemma {:induction false} ChangeFieldsAreFields(changes: seq<Change>)
    requires forall c :: c in changes ==> IsChange(c)
    ensures forall f :: f in ChangeFields(changes) ==> IsField(f)
  {
    if changes != [] {
      ChangeFieldsAreFields(changes[1..]);
      assert IsChange(changes[0]);
    }
  }

  /** Records are read one by one, whatever follows them. */
  lemma {:induction false} RecordsThenRest(changes: seq<Change>, rest: seq<string>)
    requires forall c :: c in changes ==> IsChange(c)
    ensures StatusPaths(ChangeFields(changes) + rest) == AllPaths(changes) + StatusPaths(rest)
  {
    if changes == [] {
      assert ChangeFields(changes) + rest == rest;
    } else {
      RecordsThenRest(changes[1..], rest);
      assert IsChange(changes[0]);
      OneRecord(changes[0], ChangeFields(changes[1..]) + rest);
      FourParts([changes[0].status], PathsOf(changes[0]), ChangeFields(changes[1..]), rest);
      TwoParts(PathsOf(changes[0]), AllPaths(changes[1..]), StatusPaths(rest));
    }
  }

  lemma OneRecord(c: Change, rest: seq<string>)
    requires IsChange(c)
    ensures StatusPaths([c.status] + PathsOf(c) + rest) == PathsOf(c) + StatusPaths(rest)
  {
    var first := [c.status] + PathsOf(c);
    var fields := first + rest;
    assert fields[0] == c.status && fields[1..|first|] == PathsOf(c) && fields[|first|..] == rest;
  }

  /** So a payload that ends in the middle of a record still gives what it has. */
  lemma CutOffRecord(changes: seq<Change>, last: Change, kept: nat)
    requires (forall c :: c in changes ==> IsChange(c)) && IsChange(last) && kept <= |PathsOf(last)|
    ensures StatusPaths(ChangeFields(changes) + ([last.status] + PathsOf(last)[..kept])) ==
      AllPaths(changes) + PathsOf(last)[..kept]
  {
    var cut := [last.status] + PathsOf(last)[..kept];
    RecordsThenRest(changes, cut);
    assert cut[1..] == PathsOf(last)[..kept] && cut[|cut|..] == [];
    assert StatusPaths(cut) == cut[1..] + StatusPaths(cut[|cut|..]);
  }

  /** Decoding gives every path of both sides, first seen first and none twice. */
  lemma NameStatusRoundTrip(changes: seq<Change>)
    requires forall c :: c in changes ==> IsChange(c)
    ensures Dedupe(StatusPaths(NulFields(Joined(ChangeFields(changes))))) == Dedupe(AllPaths(changes))
    ensures Distinct(Dedupe(AllPaths(changes)))
  {
    ChangeFieldsAreFields(changes);
    FieldsRoundTrip(ChangeFields(changes));
    RecordsThenRest(changes, []);
    assert ChangeFields(changes) + [] == ChangeFields(changes) && AllPaths(changes) + [] == AllPaths(changes);
    DedupeIsDistinct(AllPaths(changes));
  }

  // ---------------------------------------------------------------------------
  // Porcelain records
  // ---------------------------------------------------------------------------

  datatype Sources = Sources(staged: seq<string>, unstaged: seq<string>, untracked: seq<string>)

  function Plus(a: Sources, b: Sources): Sources {
    Sources(a.staged + b.staged, a.unstaged + b.unstaged, a.untracked + b.untracked)
  }

  predicate Moved(x: char, y: char) {
    x == 'R' || x == 'C' || y == 'R' || y == 'C'
  }

  /** Where the paths of a record go, by its two status letters. */
  function Sorted(x: char, y: char, paths: seq<string>): Sources {
    if x == '?' && y == '?' then Sources([], [], paths)
    else Sources(if x != ' ' then paths else [], if y != ' ' then paths else [], [])
  }

  /** The fields record by record: a moved file's next field is its other path. */
  function StatusSources(entries: seq<string>): Sources
    decreases |entries|
  {
    if entries == [] then Sources([], [], [])
    else if |entries[0]| <= 3 then StatusSources(entries[1..])
    else
      var x, y, path := entries[0][0], entries[0][1], entries[0][3..];
      if Moved(x, y) && |entries| > 1 then Plus(Sorted(x, y, [path, entries[1]]), StatusSources(entries[2..]))
      else Plus(Sorted(x, y, [path]), StatusSources(entries[1..]))
  }

  lemma PlusAssociates(a: Sources, b: Sources, c: Sources)
    ensures Plus(Plus(a, b), c) == Plus(a, Plus(b, c))
  {
  }

  lemma ShortEntry(entries: seq<string>, at: nat)
    requires at < |entries| && |entries[at]| <= 3
    ensures StatusSources(entries[at..]) == StatusSources(entries[at + 1..])
  {
    assert entries[at..][1..] == entries[at + 1..];
  }

  lemma LongEntry(entries: seq<string>, at: nat, paths: seq<string>, next: nat)
    requires at < |entries| && |entries[at]| > 3
    requires var more := Moved(entries[at][0], entries[at][1]) && at + 1 < |entries|;
      && next == at + (if more then 2 else 1)
      && paths == [entries[at][3..]] + if more then [entries[at + 1]] else []
    ensures StatusSources(entries[at..]) ==
      Plus(Sorted(entries[at][0], entries[at][1], paths), StatusSources(entries[next..]))
  {
    var rest := entries[at..];
    assert rest[0] == entries[at];
    if Moved(rest[0][0], rest[0][1]) && |rest| > 1 {
      assert rest[1] == entries[at + 1] && rest[2..] == entries[at + 2..];
      MovedEntry(rest);
    } else {
      assert rest[1..] == entries[at + 1..];
      PlainEntry(rest);
    }
  }

  lemma MovedEntry(rest: seq<string>)
    requires |rest| > 1 && |rest[0]| > 3 && Moved(rest[0][0], rest[0][1])
    ensures StatusSources(rest) ==
      Plus(Sorted(rest[0][0], rest[0][1], [rest[0][3..]] + [rest[1]]), StatusSources(rest[2..]))
  {
    assert [rest[0][3..]] + [rest[1]] == [rest[0][3..], rest[1]];
  }

  lemma PlainEntry(rest: seq<string>)
    requires rest != [] && |rest[0]| > 3 && !(Moved(rest[0][0], rest[0][1]) && |rest| > 1)
    ensures StatusSources(rest) ==
      Plus(Sorted(rest[0][0], rest[0][1], [rest[0][3..]] + []), StatusSources(rest[1..]))
  {
    assert [rest[0][3..]] + [] == [rest[0][3..]];
  }

  method CollectSources(entries: seq<string>) returns (found: Sources)
    ensures found == StatusSources(entries)
  {
    var staged: seq<string>, unstaged: seq<string>, untracked: seq<string> := [], [], [];
    var index := 0;
    assert entries[0..] == entries;
    while index < |entries|
      invariant 0 <= index <= |entries|
      invariant Plus(Sources(staged, unstaged, untracked), StatusSources(entries[index..])) == StatusSources(entries)
      decreases |entries| - index
    {
      ghost var before, at := Sources(staged, unstaged, untracked), index;
      var entry := entries[index];
      index := index + 1;
      if |entry| <= 3 {
        ShortEntry(entries, at);
        continue;
      }
      var x, y, paths := entry[0], entry[1], [entry[3..]];
      if Moved(x, y) {
        if index < |entries| {
          paths := paths + [entries[index]];
          index := index + 1;
        }
      }
      LongEntry(entries, at, paths, index);
      PlusAssociates(before, Sorted(x, y, paths), StatusSources(entries[index..]));
      if x == '?' && y == '?' {
        untracked := untracked + paths;
      } else {
        if x != ' ' {
          staged := staged + paths;
        }
        if y != ' ' {
          unstaged := unstaged + paths;
        }
      }
      assert Sources(staged, unstaged, untracked) == Plus(before, Sorted(x, y, paths));
    }
    found := Sources(staged, unstaged, untracked);
  }

  method GetWorktreeChangeSources(payload: string) returns (worktree: seq<string>, sources: Sources)
    ensures var found := StatusSources(NulFields(payload));
      && sources == Sources(Dedupe(found.staged), Dedupe(found.unstaged), Dedupe(found.untracked))
      && worktree == Dedupe(found.staged + found.unstaged + found.untracked)
  {
    var found := CollectSources(NulFields(payload));
    sources := Sources(Dedupe(found.staged), Dedupe(found.unstaged), Dedupe(found.untracked));
    worktree := Dedupe(found.staged + found.unstaged + found.untracked);
  }

  /** A porcelain record; `other` is the other path of a moved file. */
  datatype Record = Record(x: char, y: char, path: string, other: string)

  /** A rename or copy in the index or in the worktree. */
  predicate HasOther(r: Record) {
    r.x == 'R' || r.x == 'C' || r.y == 'R' || r.y == 'C'
  }

  predicate IsRecord(r: Record) {
    r.x != NUL && r.y != NUL && IsField(r.path) && (HasOther(r) ==> IsField(r.other))
  }

  function RecordPaths(r: Record): seq<string> {
    if HasOther(r) then [r.path, r.other] else [r.path]
  }

  function RecordFields(records: seq<Record>): seq<string> {
    if records == [] then []
    else
      var r := records[0];
      [[r.x, r.y, ' '] + r.path] + RecordPaths(r)[1..] + RecordFields(records[1..])
  }

  predicate IsStaged(r: Record) {
    !IsUntracked(r) && r.x != ' '
  }

  predicate IsUnstaged(r: Record) {
    !IsUntracked(r) && r.y != ' '
  }

  predicate IsUntracked(r: Record) {
    r.x == '?' && r.y == '?'
  }

  /** The paths of the records of a kind, in order. */
  function PathsWhere(f: Record -> bool, records: seq<Record>): seq<string> {
    if records == [] then []
    else (if f(records[0]) then RecordPaths(records[0]) else []) + PathsWhere(f, records[1..])
  }

  lemma {:induction false} RecordFieldsAreFields(records: seq<Record>)
    requires forall r :: r in records ==> IsRecord(r)
    ensures forall f :: f in RecordFields(records) ==> IsField(f)
  {
    if records != [] {
      RecordFieldsAreFields(records[1..]);
      assert IsRecord(records[0]);
    }
  }

  lemma {:induction false} SourcesOfRecords(records: seq<Record>)
    requires forall r :: r in records ==> IsRecord(r)
    ensures StatusSources(RecordFields(records)) ==
      Sources(PathsWhere(IsStaged, records), PathsWhere(IsUnstaged, records), PathsWhere(IsUntracked, records))
  {
    if records != [] {
      SourcesOfRecords(records[1..]);
      var r, fields := records[0], RecordFields(records);
      assert IsRecord(r);
      assert fields[0][0] == r.x && fields[0][1] == r.y && fields[0][3..] == r.path;
      assert fields[|RecordPaths(r)|..] == RecordFields(records[1..]);
    }
  }

  /** Decoding puts every path just where its record's letters say, the second field of a move with
      the first and never on its own. */
  lemma PorcelainRoundTrip(records: seq<Record>)
    requires forall r :: r in records ==> IsRecord(r)
    ensures StatusSources(NulFields(Joined(RecordFields(records)))) ==
      Sources(PathsWhere(IsStaged, records), PathsWhere(IsUnstaged, records), PathsWhere(IsUntracked, records))
  {
    RecordFieldsAreFields(records);
    FieldsRoundTrip(RecordFields(records));
    SourcesOfRecords(records);
  }
}
