/** Payloads of queued tasks and how two requests for one kind of work are merged. */
module TaskPayload {
  import opened Paths

  datatype Json = JNull | JBool(flag: bool) | JInt(number: int) | JStr(text: string) | JList(items: seq<string>)

  type Payload = map<string, Json>

  const EMBED := "embed"
  const FILES := "files"
  const SKIP := "skip_structure"

  predicate Truthy(j: Json) {
    match j
    case JNull => false
    case JBool(b) => b
    case JInt(n) => n != 0
    case JStr(s) => s != ""
    case JList(items) => items != []
  }

  predicate HasList(p: Payload) {
    FILES in p && p[FILES].JList?
  }

  predicate Skips(p: Payload) {
    SKIP in p && Truthy(p[SKIP])
  }

  /** Newer keys win; an embedding task keeps every file and the structural update any requester needs. */
  function Merge(kind: string, older: Payload, newer: Payload): Payload {
    var merged := older + newer;
    if kind != EMBED then merged
    else
      var structured := if Skips(older) && Skips(newer) then merged else merged - {SKIP};
      if !HasList(older) || !HasList(newer) then structured - {FILES}
      else structured[FILES := JList(Sorted(ItemSet(older[FILES].items + newer[FILES].items)))]
  }

  function ItemSet(items: seq<string>): set<string> {
    set x | x in items
  }

  // ---------------------------------------------------------------------------
  // What a payload asks for
  // ---------------------------------------------------------------------------

  datatype Scope = Whole | Only(paths: set<string>)

  function Union(a: Scope, b: Scope): Scope {
    if a.Whole? || b.Whole? then Whole else Only(a.paths + b.paths)
  }

  predicate Within(a: Scope, b: Scope) {
    b.Whole? || (a.Only? && a.paths <= b.paths)
  }

  /** A payload without a list of files asks for the whole corpus. */
  function ScopeOf(p: Payload): Scope {
    if HasList(p) then Only(ItemSet(p[FILES].items)) else Whole
  }

  /** A payload does everything a request asked for. */
  predicate Includes(kind: string, p: Payload, request: Payload) {
    if kind == EMBED then
      && Within(ScopeOf(request), ScopeOf(p))
      && (!Skips(request) ==> !Skips(p))
      && request.Keys - {FILES, SKIP} <= p.Keys
    else request.Keys <= p.Keys
  }

  /** The merged embedding task covers exactly the union, and skips the structural update only if
      both requests may. */
  lemma MergeIsUnion(older: Payload, newer: Payload)
    ensures ScopeOf(Merge(EMBED, older, newer)) == Union(ScopeOf(older), ScopeOf(newer))
    ensures Skips(Merge(EMBED, older, newer)) <==> Skips(older) && Skips(newer)
  {
    if HasList(older) && HasList(newer) {
      var all := ItemSet(older[FILES].items + newer[FILES].items);
      SortedLists(all);
      assert ItemSet(Sorted(all)) == all;
      assert all == ItemSet(older[FILES].items) + ItemSet(newer[FILES].items);
    }
  }

  /** Keys without a rule of their own are those of both requests, with the newer value. */
  lemma MergeKeepsNewest(kind: string, older: Payload, newer: Payload, key: string)
    requires kind != EMBED || (key != FILES && key != SKIP)
    ensures key in Merge(kind, older, newer) <==> key in older || key in newer
    ensures key in newer ==> Merge(kind, older, newer)[key] == newer[key]
    ensures key in older && key !in newer ==> Merge(kind, older, newer)[key] == older[key]
  {
  }

  /** A merged payload does what both requests asked for, and all that was merged into the older one. */
  lemma MergeIncludes(kind: string, older: Payload, newer: Payload, request: Payload)
    requires Includes(kind, older, request) || Includes(kind, newer, request)
    ensures Includes(kind, Merge(kind, older, newer), request)
  {
    MergeIsUnion(older, newer);
    assert Merge(kind, older, newer).Keys >= (older.Keys + newer.Keys) - {FILES, SKIP};
  }

  lemma IncludesItself(kind: string, p: Payload)
    ensures Includes(kind, p, p)
  {
  }

  // ---------------------------------------------------------------------------
  // What the worker makes of it
  // ---------------------------------------------------------------------------

  /** The worker drops empty paths and takes a list with nothing left for the whole corpus. */
  function WorkerScope(p: Payload): Scope {
    if Scoped(p) then Only(NonEmpty(p)) else Whole
  }

  function NonEmpty(p: Payload): set<string>
    requires HasList(p)
  {
    set x | x in p[FILES].items && x != ""
  }

  predicate Scoped(p: Payload) {
    HasList(p) && NonEmpty(p) != {}
  }

  predicate Hollow(p: Payload) {
    HasList(p) && NonEmpty(p) == {}
  }

  /** By the worker's reading a merge still covers the union, except that a list without paths,
      which alone means everything, disappears into a list that has some. */
  lemma WorkerUnionExactly(older: Payload, newer: Payload)
    ensures WorkerScope(Merge(EMBED, older, newer)) == Union(WorkerScope(older), WorkerScope(newer))
            <==> !(Hollow(older) && Scoped(newer)) && !(Scoped(older) && Hollow(newer))
  {
    if HasList(older) && HasList(newer) {
      var merged := Merge(EMBED, older, newer);
      SortedLists(ItemSet(older[FILES].items + newer[FILES].items));
      assert NonEmpty(merged) == NonEmpty(older) + NonEmpty(newer);
    }
  }

  /** For instance a request with an empty list followed by one for a single file. */
  lemma EmptyListIsForgotten()
    ensures var hollow, scoped := map[FILES := JList([])], map[FILES := JList(["a.py"])];
      WorkerScope(hollow).Whole? && WorkerScope(Merge(EMBED, hollow, scoped)) == Only({"a.py"})
  {
    var hollow: Payload, scoped: Payload := map[FILES := JList([])], map[FILES := JList(["a.py"])];
    assert "a.py" in NonEmpty(scoped);
    assert NonEmpty(hollow) == {} && NonEmpty(scoped) == {"a.py"};
    SortedLists(ItemSet([] + ["a.py"]));
    assert NonEmpty(Merge(EMBED, hollow, scoped)) == {"a.py"};
  }
}
