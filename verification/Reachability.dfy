/** Reachability in a finite, possibly cyclic graph of definition names. */
module Reachability {

  /** The names each definition refers to. A name outside the map has no successors. */
  type Graph = map<string, set<string>>

  predicate Edge(g: Graph, a: string, b: string) {
    a in g && b in g[a]
  }

  ghost predicate IsPath(g: Graph, p: seq<string>) {
    p != [] && forall i :: 0 < i < |p| ==> Edge(g, p[i - 1], p[i])
  }

  ghost predicate PathTo(g: Graph, roots: set<string>, n: string) {
    exists p :: IsPath(g, p) && p[0] in roots && p[|p| - 1] == n
  }

  /** Every name that can occur: the roots and everything some definition refers to. */
  function Universe(g: Graph, roots: set<string>): set<string> {
    roots + set a, b | a in g && b in g[a] :: b
  }

  /** The transitive closure of the reference edges from `roots`. */
  ghost function Reach(g: Graph, roots: set<string>): set<string> {
    set n | n in Universe(g, roots) && PathTo(g, roots, n)
  }

  ghost predicate Closed(g: Graph, s: set<string>) {
    forall a, b :: a in s && Edge(g, a, b) ==> b in s
  }

  lemma ReachHasRoots(g: Graph, roots: set<string>)
    ensures roots <= Reach(g, roots)
  {
    forall n | n in roots
      ensures PathTo(g, roots, n)
    {
      assert IsPath(g, [n]);
    }
  }

  lemma ReachStep(g: Graph, roots: set<string>, a: string, b: string)
    requires a in Reach(g, roots) && Edge(g, a, b)
    ensures b in Reach(g, roots)
  {
    var p :| IsPath(g, p) && p[0] in roots && p[|p| - 1] == a;
    var q := p + [b];
    forall i | 0 < i < |q|
      ensures Edge(g, q[i - 1], q[i])
    {
      if i == |p| {
        assert q[i - 1] == a;
      }
    }
    assert IsPath(g, q) && q[|q| - 1] == b;
  }

  lemma ReachIsClosed(g: Graph, roots: set<string>)
    ensures Closed(g, Reach(g, roots))
  {
    forall a, b | a in Reach(g, roots) && Edge(g, a, b)
      ensures b in Reach(g, roots)
    {
      ReachStep(g, roots, a, b);
    }
  }

  lemma {:induction false} PathStaysInside(g: Graph, p: seq<string>, s: set<string>)
    requires IsPath(g, p) && p[0] in s && Closed(g, s)
    ensures p[|p| - 1] in s
    decreases |p|
  {
    if |p| > 1 {
      var q := p[..|p| - 1];
      assert IsPath(g, q);
      PathStaysInside(g, q, s);
      assert Edge(g, p[|p| - 2], p[|p| - 1]);
    }
  }

  /** The closure is the least closed set that holds the roots. */
  lemma ReachIsLeast(g: Graph, roots: set<string>, s: set<string>)
    requires roots <= s && Closed(g, s)
    ensures Reach(g, roots) <= s
  {
    forall n | n in Reach(g, roots)
      ensures n in s
    {
      var p :| IsPath(g, p) && p[0] in roots && p[|p| - 1] == n;
      PathStaysInside(g, p, s);
    }
  }

  lemma ReachIsInUniverse(g: Graph, roots: set<string>, n: string)
    requires PathTo(g, roots, n)
    ensures n in Universe(g, roots)
  {
    var p :| IsPath(g, p) && p[0] in roots && p[|p| - 1] == n;
    if |p| > 1 {
      assert Edge(g, p[|p| - 2], p[|p| - 1]);
    }
  }

  // ----- exploring with a worklist

  /** What a worklist exploration keeps: everything met is reachable, and every edge out of `seen` has been met. */
  ghost predicate Exploring(g: Graph, roots: set<string>, seen: set<string>, work: seq<string>) {
    && (forall n :: n in seen || n in work ==> n in Reach(g, roots))
    && (forall n :: n in roots ==> n in seen || n in work)
    && (forall a, b :: a in seen && Edge(g, a, b) ==> b in seen || b in work)
  }

  lemma ExploreSkip(g: Graph, roots: set<string>, seen: set<string>, work: seq<string>)
    requires work != [] && Exploring(g, roots, seen, work) && work[|work| - 1] in seen
    ensures Exploring(g, roots, seen, work[..|work| - 1])
  {
  }

  lemma ExploreVisit(g: Graph, roots: set<string>, seen: set<string>, work: seq<string>, next: seq<string>)
    requires work != [] && Exploring(g, roots, seen, work)
    requires var name := work[|work| - 1];
             forall n :: n in next <==> n in work[..|work| - 1] || (Edge(g, name, n) && n !in seen + {name})
    ensures Exploring(g, roots, seen + {work[|work| - 1]}, next)
  {
    var name := work[|work| - 1];
    assert forall n :: n in work ==> n in work[..|work| - 1] || n == name;
    forall b | Edge(g, name, b)
      ensures b in Reach(g, roots)
    {
      ReachStep(g, roots, name, b);
    }
  }

  lemma ExploreDone(g: Graph, roots: set<string>, seen: set<string>)
    requires Exploring(g, roots, seen, [])
    ensures seen == Reach(g, roots)
  {
    assert Closed(g, seen);
    ReachIsLeast(g, roots, seen);
  }
}
