/** scripts/rust-distribution-packages.py: the packages reachable from the shipped roots. */
module Worklist {
  import opened Results

  /** The kind cargo gives an edge; null is a normal dependency. */
  datatype Kind = Normal | Build | Dev

  datatype Dependency = Dependency(pkg: nat, kinds: set<Kind>)

  /** `resolve`: the dependencies of each package. */
  type Graph = map<nat, seq<Dependency>>

  predicate Shipped(d: Dependency) { d.kinds <= {Normal, Build} }

  predicate Edge(graph: Graph, p: nat, q: nat) { p in graph && exists d :: d in graph[p] && Shipped(d) && d.pkg == q }

  /** A path of shipped edges from a root. */
  predicate Path(graph: Graph, roots: seq<nat>, path: seq<nat>) {
    && path != [] && path[0] in roots
    && forall i :: 0 < i < |path| ==> Edge(graph, path[i - 1], path[i])
  }

  ghost predicate Reachable(graph: Graph, roots: seq<nat>, p: nat) {
    exists path :: Path(graph, roots, path) && path[|path| - 1] == p
  }

  /** What one visit pushes, in order. */
  function Pushed(deps: seq<Dependency>): seq<nat> {
    if deps == [] then []
    else
      var before, last := Pushed(deps[..|deps| - 1]), deps[|deps| - 1];
      if Shipped(last) then before + [last.pkg] else before
  }

  lemma {:induction false} PushedIs(deps: seq<Dependency>, q: nat)
    ensures q in Pushed(deps) <==> exists d :: d in deps && Shipped(d) && d.pkg == q
  {
    if deps != [] {
      var before, last := deps[..|deps| - 1], deps[|deps| - 1];
      PushedIs(before, q);
      assert deps == before + [last];
      if d :| d in deps && Shipped(d) && d.pkg == q {
        assert d in before || d == last;
      }
    }
  }

  lemma ReachedBy(graph: Graph, roots: seq<nat>, p: nat, q: nat)
    requires Reachable(graph, roots, p) && Edge(graph, p, q)
    ensures Reachable(graph, roots, q)
  {
    var path :| Path(graph, roots, path) && path[|path| - 1] == p;
    var longer := path + [q];
    assert Path(graph, roots, longer) && longer[|longer| - 1] == q;
  }

  lemma RootReached(graph: Graph, roots: seq<nat>, r: nat)
    requires r in roots
    ensures Reachable(graph, roots, r)
  {
    assert Path(graph, roots, [r]);
  }

  /** A set that holds the roots and is closed under shipped edges holds everything reachable. */
  lemma {:induction false} ClosureCovers(graph: Graph, roots: seq<nat>, found: set<nat>, path: seq<nat>)
    requires forall r :: r in roots ==> r in found
    requires forall p, q :: p in found && Edge(graph, p, q) ==> q in found
    requires Path(graph, roots, path)
    ensures path[|path| - 1] in found
    decreases |path|
  {
    if |path| > 1 {
      var before := path[..|path| - 1];
      ClosureCovers(graph, roots, found, before);
      assert Edge(graph, path[|path| - 2], path[|path| - 1]);
    }
  }

  /** The inner loop: pushes the shipped dependencies of one package. */
  method PushAll(stack: seq<nat>, deps: seq<Dependency>) returns (r: seq<nat>)
    ensures r == stack + Pushed(deps)
  {
    r := stack;
    for i := 0 to |deps|
      invariant r == stack + Pushed(deps[..i])
    {
      assert deps[..i + 1][..i] == deps[..i];
      if deps[i].kinds <= {Normal, Build} {
        r := r + [deps[i].pkg];
      }
    }
    assert deps[..|deps|] == deps;
  }

  /** What the loop keeps: all found is reachable, and what the found lead to is found or waiting. */
  ghost predicate Exploring(graph: Graph, roots: seq<nat>, stack: seq<nat>, found: set<nat>) {
    && found <= graph.Keys
    && (forall p :: p in stack || p in found ==> Reachable(graph, roots, p))
    && (forall r :: r in roots ==> r in found || r in stack)
    && forall p, q :: p in found && Edge(graph, p, q) ==> q in found || q in stack
  }

  lemma ExploringStart(graph: Graph, roots: seq<nat>)
    ensures Exploring(graph, roots, roots, {})
  {
    forall r | r in roots ensures Reachable(graph, roots, r) {
      RootReached(graph, roots, r);
    }
  }

  lemma PopSeen(graph: Graph, roots: seq<nat>, rest: seq<nat>, package: nat, found: set<nat>)
    requires Exploring(graph, roots, rest + [package], found) && package in found
    ensures Exploring(graph, roots, rest, found)
  {
    forall p | p in rest ensures p in rest + [package] {
    }
    forall p | p in rest + [package] ensures p in rest || p in found {
    }
  }

  lemma PopNew(graph: Graph, roots: seq<nat>, rest: seq<nat>, package: nat, found: set<nat>, stack: seq<nat>)
    requires Exploring(graph, roots, rest + [package], found) && package in graph
    requires stack == rest + Pushed(graph[package])
    ensures Exploring(graph, roots, stack, found + {package})
  {
    var now := found + {package};
    assert package in rest + [package];
    forall q ensures q in Pushed(graph[package]) <==> Edge(graph, package, q) {
      PushedIs(graph[package], q);
    }
    forall p | p in stack || p in now ensures Reachable(graph, roots, p) {
      if p in Pushed(graph[package]) {
        ReachedBy(graph, roots, package, p);
      } else {
        assert p in rest + [package] || p in found;
      }
    }
    forall p | p in rest + [package] ensures p in now || p in stack {
    }
  }

  lemma ExploringEnd(graph: Graph, roots: seq<nat>, found: set<nat>)
    requires Exploring(graph, roots, [], found)
    ensures forall p :: p in found <==> Reachable(graph, roots, p)
  {
    forall p | Reachable(graph, roots, p) ensures p in found {
      var path :| Path(graph, roots, path) && path[|path| - 1] == p;
      ClosureCovers(graph, roots, found, path);
    }
  }

  lemma TopReached(graph: Graph, roots: seq<nat>, stack: seq<nat>, found: set<nat>)
    requires Exploring(graph, roots, stack, found) && stack != []
    ensures Reachable(graph, roots, stack[|stack| - 1])
  {
  }

  /** One turn of the loop; None when the package has no node. */
  method Visit(graph: Graph, ghost roots: seq<nat>, stack: seq<nat>, found: set<nat>)
    returns (r: Option<(seq<nat>, set<nat>)>)
    requires Exploring(graph, roots, stack, found) && stack != []
    ensures r.Some? ==> Exploring(graph, roots, r.value.0, r.value.1)
    ensures r.Some? ==> found < r.value.1 || (found == r.value.1 && |r.value.0| < |stack|)
    ensures r.None? ==> stack[|stack| - 1] !in graph
  {
    var package, rest := stack[|stack| - 1], stack[..|stack| - 1];
    assert stack == rest + [package];
    if package in found {
      PopSeen(graph, roots, rest, package, found);
      return Some((rest, found));
    }
    if package !in graph {
      return None;
    }
    var next := PushAll(rest, graph[package]);
    PopNew(graph, roots, rest, package, found, next);
    return Some((next, found + {package}));
  }

  /** The worklist loop ends, duplicates and cycles notwithstanding, with exactly the reachable packages; None, where
      Python raises KeyError, when one of them has no node. */
  method Reach(graph: Graph, roots: seq<nat>) returns (r: Option<set<nat>>)
    ensures r.Some? ==> forall p :: p in r.value <==> Reachable(graph, roots, p)
    ensures r.Some? <==> forall p :: Reachable(graph, roots, p) ==> p in graph
  {
    var stack, reachable := roots, {};
    ExploringStart(graph, roots);
    while stack != []
      invariant Exploring(graph, roots, stack, reachable)
      decreases graph.Keys - reachable, |stack|
    {
      var turn := Visit(graph, roots, stack, reachable);
      if turn.None? {
        TopReached(graph, roots, stack, reachable);
        return None;
      }
      FewerLeft(graph.Keys, reachable, turn.value.1);
      stack, reachable := turn.value.0, turn.value.1;
    }
    ExploringEnd(graph, roots, reachable);
    return Some(reachable);
  }

  lemma FewerLeft(all: set<nat>, found: set<nat>, more: set<nat>)
    requires found <= more <= all
    ensures all - more <= all - found && (found < more ==> all - more < all - found)
  {
    if found < more {
      var p :| p in more && p !in found;
      assert p in all - found && p !in all - more;
    }
  }
}
