/** The commit a graph claims to describe, over whole runs of updates and builds. */
module CommitStamp {
  import opened Wrappers

  type Sha = string
  type Path = string
  type Tree = map<Path, string>

  /** What git knows: the tree of every commit. */
  type Trees = map<Sha, Tree>

  /** An update diffs `base` (None when it names no commit) against the HEAD of that moment and
      stamps the HEAD of a later one; None there means git did not answer. `failed` means a file
      could not be stored. */
  datatype Event =
    | Update(explicit: bool, base: Option<Sha>, changed: set<Path>, diffed: Sha, head: Option<Sha>, failed: bool)
    | Build(head: Option<Sha>, failed: bool)

  predicate DiffCovers(stamp: Option<Sha>, base: Option<Sha>) {
    base.Some? && (stamp.None? || base == stamp)
  }

  predicate Stamps(stamp: Option<Sha>, e: Event) {
    match e
    case Update(explicit, base, _, _, head, failed) => !explicit && DiffCovers(stamp, base) && !failed && head.Some?
    case Build(head, failed) => !failed && head.Some?
  }

  function After(stamp: Option<Sha>, e: Event): Option<Sha> {
    if Stamps(stamp, e) then e.head else stamp
  }

  function Run(stamp: Option<Sha>, events: seq<Event>): Option<Sha> {
    if events == [] then stamp
    else After(Run(stamp, events[..|events| - 1]), events[|events| - 1])
  }

  /** The stamp before the k-th event of a run. */
  function At(stamp: Option<Sha>, events: seq<Event>, k: nat): Option<Sha>
    requires k <= |events|
  {
    Run(stamp, events[..k])
  }

  function TreeOf(trees: Trees, sha: Sha): Tree {
    if sha in trees then trees[sha] else map[]
  }

  predicate SameAt(a: Tree, b: Tree, p: Path) {
    (p in a <==> p in b) && (p in a ==> a[p] == b[p])
  }

  /** The two commits disagree about a path: `git diff` between them names it. */
  predicate DiffersAt(trees: Trees, a: Sha, b: Sha, p: Path) {
    !SameAt(TreeOf(trees, a), TreeOf(trees, b), p)
  }

  /** The update's changed files hold whatever differs between its base and the commit it stamps. */
  ghost predicate Covers(trees: Trees, e: Event)
    requires e.Update?
  {
    e.base.Some? && e.head.Some? ==> forall p :: DiffersAt(trees, e.base.value, e.head.value, p) ==> p in e.changed
  }

  /** Git answered: the changed files hold the diff of the base against HEAD (and whatever the
      worktree adds). */
  ghost predicate Answered(trees: Trees, e: Event)
    requires e.Update?
  {
    e.base.Some? ==> forall p :: DiffersAt(trees, e.base.value, e.diffed, p) ==> p in e.changed
  }

  /** An update that git answered covers what it stamps just when whatever HEAD moved by since the
      diff is among the changed files anyway; so it does when HEAD stood still. */
  lemma CoversExactly(trees: Trees, e: Event)
    requires e.Update? && Answered(trees, e)
    ensures Covers(trees, e) <==>
      (e.base.Some? && e.head.Some? ==>
        forall p :: DiffersAt(trees, e.diffed, e.head.value, p) && DiffersAt(trees, e.base.value, e.head.value, p) ==>
          p in e.changed)
    ensures e.head == Some(e.diffed) ==> Covers(trees, e)
  {
    if e.base.Some? && e.head.Some? {
      forall p | DiffersAt(trees, e.base.value, e.head.value, p) && !DiffersAt(trees, e.diffed, e.head.value, p)
        ensures p in e.changed
      {
        assert DiffersAt(trees, e.base.value, e.diffed, p);
      }
    }
  }

  lemma AtNext(stamp: Option<Sha>, events: seq<Event>, k: nat)
    requires k < |events|
    ensures At(stamp, events, k + 1) == After(At(stamp, events, k), events[k])
  {
    assert events[..k + 1][..k] == events[..k];
  }

  lemma {:induction false} OnceStamped(stamp: Option<Sha>, events: seq<Event>, from: nat, to: nat)
    requires from <= to <= |events| && At(stamp, events, from).Some?
    ensures At(stamp, events, to).Some?
  {
    if from < to {
      OnceStamped(stamp, events, from, to - 1);
      AtNext(stamp, events, to - 1);
    }
  }

  /** The k-th event looked at the path: a stamping update had it among its changed files, or a
      build that took the stamp read everything. */
  predicate Visited(stamp: Option<Sha>, events: seq<Event>, k: nat, p: Path)
    requires k < |events|
  {
    && Stamps(At(stamp, events, k), events[k])
    && (events[k].Update? ==> p in events[k].changed)
  }

  /** Every update that moves a stamp covers the way it moves it. */
  ghost predicate StampsCover(trees: Trees, stamp: Option<Sha>, events: seq<Event>) {
    forall k :: 0 <= k < |events| ==> StampCovers(trees, At(stamp, events, k), events[k])
  }

  ghost predicate StampCovers(trees: Trees, before: Option<Sha>, e: Event) {
    e.Update? && before.Some? && Stamps(before, e) ==> Covers(trees, e)
  }

  /** The stamp telescopes: whatever differs between two stamped commits was visited in between. */
  lemma {:induction false} StampTelescopes(
    trees: Trees, stamp: Option<Sha>, events: seq<Event>, from: nat, to: nat, a: Sha, b: Sha, p: Path) returns (k: nat)
    requires StampsCover(trees, stamp, events)
    requires from <= to <= |events|
    requires At(stamp, events, from) == Some(a) && At(stamp, events, to) == Some(b)
    requires DiffersAt(trees, a, b, p)
    ensures from <= k < to && Visited(stamp, events, k, p)
  {
    var last := to - 1;
    AtNext(stamp, events, last);
    OnceStamped(stamp, events, from, last);
    var before := At(stamp, events, last).value;
    if Stamps(Some(before), events[last]) && (events[last].Build? || DiffersAt(trees, before, b, p)) {
      assert StampCovers(trees, Some(before), events[last]);
      k := last;
    } else {
      k := StampTelescopes(trees, stamp, events, from, last, a, before, p);
    }
  }

  /** Some event in between looked at the path. */
  ghost predicate VisitedBetween(stamp: Option<Sha>, events: seq<Event>, from: nat, to: nat, p: Path)
    requires to <= |events|
  {
    exists k: nat :: from <= k < to && Visited(stamp, events, k, p)
  }

  ghost predicate NothingUnvisited(trees: Trees, stamp: Option<Sha>, events: seq<Event>, from: nat, to: nat)
    requires from <= to <= |events|
  {
    At(stamp, events, from).Some? && At(stamp, events, to).Some? ==>
      forall p :: DiffersAt(trees, At(stamp, events, from).value, At(stamp, events, to).value, p) ==>
        VisitedBetween(stamp, events, from, to, p)
  }

  /** Over all stamps of a run it does so exactly when every update that moved one covered its way. */
  lemma StampTelescopesExactly(trees: Trees, stamp: Option<Sha>, events: seq<Event>)
    ensures StampsCover(trees, stamp, events) <==>
      forall from: nat, to: nat :: from <= to <= |events| ==> NothingUnvisited(trees, stamp, events, from, to)
  {
    if StampsCover(trees, stamp, events) {
      forall from: nat, to: nat | from <= to <= |events| ensures NothingUnvisited(trees, stamp, events, from, to) {
        BetweenStamps(trees, stamp, events, from, to);
      }
    }
    if forall from: nat, to: nat :: from <= to <= |events| ==> NothingUnvisited(trees, stamp, events, from, to) {
      forall k | 0 <= k < |events| ensures StampCovers(trees, At(stamp, events, k), events[k]) {
        assert NothingUnvisited(trees, stamp, events, k, k + 1);
        OneStampCovers(trees, stamp, events, k);
      }
    }
  }

  lemma BetweenStamps(trees: Trees, stamp: Option<Sha>, events: seq<Event>, from: nat, to: nat)
    requires StampsCover(trees, stamp, events) && from <= to <= |events|
    ensures NothingUnvisited(trees, stamp, events, from, to)
  {
    if At(stamp, events, from).Some? && At(stamp, events, to).Some? {
      var a, b := At(stamp, events, from).value, At(stamp, events, to).value;
      forall p | DiffersAt(trees, a, b, p) ensures VisitedBetween(stamp, events, from, to, p) {
        var k := StampTelescopes(trees, stamp, events, from, to, a, b, p);
      }
    }
  }

  lemma OneStampCovers(trees: Trees, stamp: Option<Sha>, events: seq<Event>, k: nat)
    requires k < |events| && NothingUnvisited(trees, stamp, events, k, k + 1)
    ensures StampCovers(trees, At(stamp, events, k), events[k])
  {
    AtNext(stamp, events, k);
    var before, e := At(stamp, events, k), events[k];
    if e.Update? && before.Some? && Stamps(before, e) {
      forall p | DiffersAt(trees, e.base.value, e.head.value, p) ensures p in e.changed {
        assert VisitedBetween(stamp, events, k, k + 1, p);
      }
    }
  }

  /** A clean build of a known HEAD, or a clean update from the stamp to a known HEAD. */
  predicate Moves(stamp: Option<Sha>, e: Event) {
    && e.head.Some? && !e.failed
    && (e.Update? ==> !e.explicit && e.base.Some? && (stamp.Some? ==> e.base == stamp))
  }

  /** Every event leaves the HEAD it saw last exactly then, and the stamp as it was otherwise. */
  lemma MovesExactly(stamp: Option<Sha>, e: Event)
    ensures After(stamp, e) == if Moves(stamp, e) then e.head else stamp
  {
  }

  /** Every event is a clean build, or a clean update based on what the one before it saw last. */
  ghost predicate Chain(events: seq<Event>) {
    && (forall k :: 0 <= k < |events| ==> events[k].head.Some? && !events[k].failed)
    && (forall k :: 0 <= k < |events| && events[k].Update? ==>
          !events[k].explicit && events[k].base.Some? && (k > 0 ==> events[k].base == events[k - 1].head))
  }

  /** So a graph keeps up: after a clean build and any number of clean updates, each based on the HEAD
      that the last one saw, the stamp is the HEAD of the last, whatever the stamp was before. */
  lemma {:induction false} StampKeepsUp(stamp: Option<Sha>, events: seq<Event>)
    requires events != [] && events[0].Build? && Chain(events)
    ensures Run(stamp, events) == events[|events| - 1].head
  {
    var last := |events| - 1;
    if last > 0 {
      assert Chain(events[..last]) by {
        assert forall k :: 0 <= k < last ==> events[..last][k] == events[k];
      }
      StampKeepsUp(stamp, events[..last]);
    } else {
      assert Run(stamp, events[..0]) == stamp;
    }
    MovesExactly(Run(stamp, events[..last]), events[last]);
  }

  /** An explicit file list, a base that is not the stamped commit, or a store failure. */
  predicate Uncovered(stamp: Option<Sha>, e: Event) {
    e.failed || (e.Update? && (e.explicit || e.base.None? || (stamp.Some? && e.base != stamp)))
  }

  /** However many such updates run, they leave the stamp where it was. */
  lemma {:induction false} UncoveredRunKeepsStamp(stamp: Option<Sha>, events: seq<Event>)
    requires forall e :: e in events ==> Uncovered(stamp, e)
    ensures Run(stamp, events) == stamp
  {
    if events != [] {
      UncoveredRunKeepsStamp(stamp, events[..|events| - 1]);
      assert Uncovered(stamp, events[|events| - 1]);
    }
  }

  /** Without HEAD standing still the claim fails: the commit stamped need not be the one diffed. */
  lemma MovedHeadLosesAPath()
    ensures var trees := map["a" := map[], "b" := map[], "c" := map["f" := "new"]];
      var e := Update(false, Some("a"), {}, "b", Some("c"), false);
      && (forall p :: DiffersAt(trees, "a", "b", p) ==> p in e.changed)
      && Run(Some("a"), [e]) == Some("c") && DiffersAt(trees, "a", "c", "f")
      && !Visited(Some("a"), [e], 0, "f")
  {
    var e := Update(false, Some("a"), {}, "b", Some("c"), false);
    assert Run(Some("a"), []) == Some("a");
    assert [e][..0] == [];
  }
}
