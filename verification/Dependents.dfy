/** Files that depend on changed ones: a layered search with a cap, against shortest distances. */
module Dependents {
  import opened Paths

  const MAX_DEPENDENT_FILES := 500

  /** The files that depend on a file directly. */
  type Graph = map<string, set<string>>

  function Direct(g: Graph, file: string): set<string> {
    if file in g then g[file] else {}
  }

  function DirectOf(g: Graph, files: set<string>): set<string> {
    set f, d | f in files && d in Direct(g, f) :: d
  }

  /** One batched hop, without the files asked about. */
  function BatchHop(g: Graph, frontier: set<string>): set<string> {
    DirectOf(g, frontier) - frontier
  }

  // ---------------------------------------------------------------------------
  // Distance, by walks
  // ---------------------------------------------------------------------------

  /** A walk from a root along direct dependencies. */
  ghost predicate Walk(g: Graph, roots: set<string>, p: seq<string>) {
    && p != [] && p[0] in roots
    && forall i :: 0 <= i < |p| - 1 ==> p[i + 1] in Direct(g, p[i])
  }

  ghost predicate WalkTo(g: Graph, roots: set<string>, p: seq<string>, v: string, hops: nat) {
    Walk(g, roots, p) && |p| == hops + 1 && p[hops] == v
  }

  ghost predicate Within(g: Graph, roots: set<string>, v: string, hops: nat) {
    exists p :: WalkTo(g, roots, p, v, hops)
  }

  /** The shortest distance of a file from the roots. */
  ghost predicate Distance(g: Graph, roots: set<string>, v: string, hops: nat) {
    Within(g, roots, v, hops) && forall fewer: nat :: fewer < hops ==> !Within(g, roots, v, fewer)
  }

  // ---------------------------------------------------------------------------
  // Layers
  // ---------------------------------------------------------------------------

  function Layer(g: Graph, roots: set<string>, hops: nat): set<string>
    decreases hops, 0
  {
    if hops == 0 then roots else DirectOf(g, Layer(g, roots, hops - 1)) - Seen(g, roots, hops - 1)
  }

  function Seen(g: Graph, roots: set<string>, hops: nat): set<string>
    decreases hops, 1
  {
    if hops == 0 then roots else Seen(g, roots, hops - 1) + Layer(g, roots, hops)
  }

  /** All dependents up to a number of hops, by distance and then by path. */
  function Full(g: Graph, roots: set<string>, hops: nat): seq<string> {
    if hops == 0 then [] else Full(g, roots, hops - 1) + Sorted(Layer(g, roots, hops))
  }

  lemma WalkExtends(g: Graph, roots: set<string>, u: string, v: string, hops: nat)
    requires Within(g, roots, u, hops) && v in Direct(g, u)
    ensures Within(g, roots, v, hops + 1)
  {
    var p :| WalkTo(g, roots, p, u, hops);
    assert WalkTo(g, roots, p + [v], v, hops + 1);
  }

  lemma WalkShrinks(g: Graph, roots: set<string>, v: string, hops: nat)
    requires Within(g, roots, v, hops + 1)
    ensures exists u :: Within(g, roots, u, hops) && v in Direct(g, u)
  {
    var p :| WalkTo(g, roots, p, v, hops + 1);
    assert WalkTo(g, roots, p[..hops + 1], p[hops], hops);
  }

  /** What has been seen after some hops is what a walk of at most that many hops reaches. */
  lemma {:induction false} SeenIsWithin(g: Graph, roots: set<string>, hops: nat, v: string)
    ensures v in Seen(g, roots, hops) <==> exists n: nat :: n <= hops && Within(g, roots, v, n)
    ensures v in Layer(g, roots, hops) <==> Distance(g, roots, v, hops)
    decreases hops, 1
  {
    if hops == 0 {
      if v in roots {
        assert WalkTo(g, roots, [v], v, 0);
      }
      assert v in roots <==> Within(g, roots, v, 0);
    } else {
      SeenIsWithin(g, roots, hops - 1, v);
      LayerIsDistance(g, roots, hops, v);
    }
  }

  lemma {:induction false} LayerIsDistance(g: Graph, roots: set<string>, hops: nat, v: string)
    requires hops > 0
    requires v in Seen(g, roots, hops - 1) <==> exists n: nat :: n <= hops - 1 && Within(g, roots, v, n)
    ensures v in Layer(g, roots, hops) <==> Distance(g, roots, v, hops)
    decreases hops, 0
  {
    if v !in Seen(g, roots, hops - 1) {
      if v in Layer(g, roots, hops) {
        var u :| u in Layer(g, roots, hops - 1) && v in Direct(g, u);
        SeenIsWithin(g, roots, hops - 1, u);
        WalkExtends(g, roots, u, v, hops - 1);
      }
      if Within(g, roots, v, hops) {
        WalkShrinks(g, roots, v, hops - 1);
        var u :| Within(g, roots, u, hops - 1) && v in Direct(g, u);
        forall fewer: nat | fewer < hops - 1 ensures !Within(g, roots, u, fewer) {
          if Within(g, roots, u, fewer) {
            WalkExtends(g, roots, u, v, fewer);
          }
        }
        SeenIsWithin(g, roots, hops - 1, u);
      }
    }
  }

  // ---------------------------------------------------------------------------
  // The ordering
  // ---------------------------------------------------------------------------

  ghost predicate Dependent(g: Graph, roots: set<string>, hops: nat, v: string) {
    exists n: nat :: 1 <= n <= hops && Distance(g, roots, v, n)
  }

  /** The dependents are exactly the files at shortest distance 1 to the limit. */
  lemma {:induction false} FullIsExact(g: Graph, roots: set<string>, hops: nat, v: string)
    ensures v in Full(g, roots, hops) <==> Dependent(g, roots, hops, v)
  {
    if hops > 0 {
      FullIsExact(g, roots, hops - 1, v);
      SeenIsWithin(g, roots, hops, v);
      SortedLists(Layer(g, roots, hops));
      DependentSplits(g, roots, hops, v);
    }
  }

  lemma DependentSplits(g: Graph, roots: set<string>, hops: nat, v: string)
    requires hops > 0
    ensures Dependent(g, roots, hops, v) <==> Dependent(g, roots, hops - 1, v) || Distance(g, roots, v, hops)
  {
    if n: nat :| 1 <= n <= hops - 1 && Distance(g, roots, v, n) {
      assert Dependent(g, roots, hops, v);
    }
  }

  /** No root is its own dependent, however the files refer to each other. */
  lemma NoRootIsDependent(g: Graph, roots: set<string>, hops: nat, v: string)
    requires v in roots
    ensures v !in Full(g, roots, hops)
  {
    FullIsExact(g, roots, hops, v);
    assert WalkTo(g, roots, [v], v, 0);
    assert Within(g, roots, v, 0);
  }

  /** Strictly earlier by distance, then by path. */
  ghost predicate Nearer(g: Graph, roots: set<string>, a: string, b: string, m: nat, n: nat) {
    && Distance(g, roots, a, m) && Distance(g, roots, b, n)
    && a != b && (m < n || (m == n && Leq(a, b)))
  }

  lemma DistanceIsUnique(g: Graph, roots: set<string>, v: string, m: nat, n: nat)
    requires Distance(g, roots, v, m) && Distance(g, roots, v, n)
    ensures m == n
  {
  }

  /** The distance of the i-th dependent. */
  lemma {:induction false} DistanceAt(g: Graph, roots: set<string>, hops: nat, i: nat) returns (n: nat)
    requires i < |Full(g, roots, hops)|
    ensures 1 <= n <= hops && Distance(g, roots, Full(g, roots, hops)[i], n)
  {
    assert Full(g, roots, hops)[i] in Full(g, roots, hops);
    FullIsExact(g, roots, hops, Full(g, roots, hops)[i]);
    n :| 1 <= n <= hops && Distance(g, roots, Full(g, roots, hops)[i], n);
  }

  lemma LayerEntry(g: Graph, roots: set<string>, hops: nat, k: nat)
    requires k < |Sorted(Layer(g, roots, hops))|
    ensures Distance(g, roots, Sorted(Layer(g, roots, hops))[k], hops)
  {
    SortedLists(Layer(g, roots, hops));
    assert Sorted(Layer(g, roots, hops))[k] in Layer(g, roots, hops);
    SeenIsWithin(g, roots, hops, Sorted(Layer(g, roots, hops))[k]);
  }

  lemma SameLayer(g: Graph, roots: set<string>, hops: nat, i: nat, j: nat)
    requires i < j < |Sorted(Layer(g, roots, hops))|
    ensures var layer := Sorted(Layer(g, roots, hops)); Nearer(g, roots, layer[i], layer[j], hops, hops)
  {
    LayerEntry(g, roots, hops, i);
    LayerEntry(g, roots, hops, j);
    SortedLists(Layer(g, roots, hops));
  }

  lemma EarlierLayer(g: Graph, roots: set<string>, hops: nat, i: nat, j: nat) returns (m: nat)
    requires i < |Full(g, roots, hops)| && j < |Sorted(Layer(g, roots, hops + 1))|
    ensures Nearer(g, roots, Full(g, roots, hops)[i], Sorted(Layer(g, roots, hops + 1))[j], m, hops + 1)
  {
    m := DistanceAt(g, roots, hops, i);
    LayerEntry(g, roots, hops + 1, j);
  }

  /** They come by distance and then by path, none twice. */
  lemma {:induction false} FullIsOrdered(g: Graph, roots: set<string>, hops: nat, i: nat, j: nat) returns (m: nat, n: nat)
    requires i < j < |Full(g, roots, hops)|
    ensures Nearer(g, roots, Full(g, roots, hops)[i], Full(g, roots, hops)[j], m, n)
  {
    var split := |Full(g, roots, hops - 1)|;
    if j < split {
      m, n := FullIsOrdered(g, roots, hops - 1, i, j);
    } else if i < split {
      m := EarlierLayer(g, roots, hops - 1, i, j - split);
      n := hops;
    } else {
      SameLayer(g, roots, hops, i - split, j - split);
      m, n := hops, hops;
    }
  }

  /** Whatever the cap, no file that is kept is farther from the roots than one that is dropped. */
  lemma CapKeepsTheClosest(g: Graph, roots: set<string>, hops: nat, kept: nat, dropped: nat, m: nat, n: nat)
    requires kept < MAX_DEPENDENT_FILES <= dropped < |Full(g, roots, hops)|
    requires Distance(g, roots, Full(g, roots, hops)[kept], m)
    requires Distance(g, roots, Full(g, roots, hops)[dropped], n)
    ensures m <= n
  {
    var m', n' := FullIsOrdered(g, roots, hops, kept, dropped);
    DistanceIsUnique(g, roots, Full(g, roots, hops)[kept], m, m');
    DistanceIsUnique(g, roots, Full(g, roots, hops)[dropped], n, n');
  }

  // ---------------------------------------------------------------------------
  // The search
  // ---------------------------------------------------------------------------

  /** Once a layer is empty nothing lies beyond it. */
  lemma {:induction false} NothingBeyond(g: Graph, roots: set<string>, hops: nat, more: nat)
    requires hops <= more && Layer(g, roots, hops) == {}
    ensures Layer(g, roots, more) == {}
    ensures Full(g, roots, more) == Full(g, roots, hops)
  {
    if hops < more {
      NothingBeyond(g, roots, hops, more - 1);
    }
  }

  lemma {:induction false} FullGrows(g: Graph, roots: set<string>, hops: nat, more: nat)
    requires hops <= more
    ensures Full(g, roots, hops) <= Full(g, roots, more)
  {
    if hops < more {
      FullGrows(g, roots, hops, more - 1);
    }
  }

  function Capped(full: seq<string>): seq<string> {
    if |full| > MAX_DEPENDENT_FILES then full[..MAX_DEPENDENT_FILES] else full
  }

  lemma NextLayer(g: Graph, roots: set<string>, hops: nat)
    ensures BatchHop(g, Layer(g, roots, hops)) - Seen(g, roots, hops) == Layer(g, roots, hops + 1)
    ensures Seen(g, roots, hops) + Layer(g, roots, hops + 1) == Seen(g, roots, hops + 1)
    ensures Full(g, roots, hops) + Sorted(Layer(g, roots, hops + 1)) == Full(g, roots, hops + 1)
  {
    assert Layer(g, roots, hops) <= Seen(g, roots, hops);
  }

  /** One hop on: the files not yet visited, after the others and in order. */
  method Hop(g: Graph, ordered: seq<string>, visited: set<string>, frontier: set<string>,
    ghost roots: set<string>, ghost hop: nat)
    returns (longer: seq<string>, wider: set<string>, newDeps: set<string>)
    requires frontier == Layer(g, roots, hop) && visited == Seen(g, roots, hop) && ordered == Full(g, roots, hop)
    ensures newDeps == Layer(g, roots, hop + 1) && wider == Seen(g, roots, hop + 1)
    ensures longer == Full(g, roots, hop + 1) && (newDeps == {} ==> longer == ordered)
  {
    NextLayer(g, roots, hop);
    newDeps := BatchHop(g, frontier) - visited;
    longer := ordered + Sorted(newDeps);
    wider := visited + newDeps;
  }

  /** Expand hop by hop; when the cap is passed keep the files closest to the roots. */
  method FindDependentsForFiles(g: Graph, roots: set<string>, maxHops: int)
    returns (ordered: seq<string>, truncated: bool)
    ensures var full := Full(g, roots, if maxHops < 0 then 0 else maxHops);
      ordered == Capped(full) && (truncated <==> |full| > MAX_DEPENDENT_FILES)
    ensures var full := Full(g, roots, if maxHops < 0 then 0 else maxHops);
      ordered <= full && |ordered| == (if |full| < 500 then |full| else 500) && (truncated <==> ordered != full)
  {
    ordered, truncated := [], false;
    if roots == {} || maxHops <= 0 {
      NothingBeyondEmpty(g, roots, maxHops);
      return;
    }
    var visited, frontier, hop := roots, roots, 0;
    while hop < maxHops
      invariant 0 <= hop <= maxHops
      invariant frontier == Layer(g, roots, hop) && visited == Seen(g, roots, hop)
      invariant ordered == Full(g, roots, hop) && |ordered| <= MAX_DEPENDENT_FILES && !truncated
    {
      ordered, visited, frontier := Hop(g, ordered, visited, frontier, roots, hop);
      hop := hop + 1;
      if frontier == {} {
        NothingBeyond(g, roots, hop, maxHops);
        return;
      }
      if |ordered| > MAX_DEPENDENT_FILES {
        FullGrows(g, roots, hop, maxHops);
        return ordered[..MAX_DEPENDENT_FILES], true;
      }
    }
  }

  lemma NothingBeyondEmpty(g: Graph, roots: set<string>, maxHops: int)
    requires roots == {} || maxHops <= 0
    ensures Full(g, roots, if maxHops < 0 then 0 else maxHops) == []
  {
    if maxHops > 0 {
      NothingBeyond(g, roots, 0, maxHops);
    }
  }
}
