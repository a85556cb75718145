/**
 The dependency closure of siem/rbac/broker_tls/build_candidate.py: which package
 directories of the archive the patched client needs.
 */
module BuildCandidate {
  import opened Common
  import opened PosixPath
  import opened Texts

  const AXIOS := "usr/share/wazuh-dashboard/node_modules/axios"
  const MANIFEST := "/package.json"

  /** A `package.json` that parses: its dependencies in file order. */
  datatype Meta = Meta(dependencies: seq<string>)

  /** Member names, and the descriptions that can be read, by the directory they describe. */
  datatype Archive = Archive(members: set<string>, metas: map<string, Meta>)

  // ----- Resolution -----

  /** `str(directory / 'node_modules' / name)` */
  function Candidate(directory: Path, name: string): string {
    Print(Over(Over(directory, "node_modules"), name))
  }

  /** Ancestor `k` of the parent directory offers the package. */
  predicate Offers(a: Archive, name: string, p: Path, k: int) {
    && 0 <= k <= |p.parts| && LastName(Ancestor(p, k)) != "node_modules"
    && Candidate(Ancestor(p, k), name) + MANIFEST in a.members
  }

  /** The first index from `k` below `n` that the search accepts. */
  function First(accepts: nat -> bool, n: nat, k: nat): (r: Option<nat>)
    requires k <= n
    ensures r.Some? ==> k <= r.value < n && accepts(r.value) && forall i :: k <= i < r.value ==> !accepts(i)
    ensures r.None? ==> forall i :: k <= i < n ==> !accepts(i)
    decreases n - k
  {
    if k == n then None else if accepts(k) then Some(k) else First(accepts, n, k + 1)
  }

  /** `resolve`; `None` is DEPENDENCY_MISSING. */
  function Resolve(a: Archive, name: string, parent: string): Option<string> {
    var p := Parse(parent);
    var k := First((i: nat) => Offers(a, name, p, i), |p.parts| + 1, 0);
    if k.None? then None else Some(Candidate(Ancestor(p, k.value), name))
  }

  /** The nearest enclosing directory that offers the package is the one that is used. */
  lemma ResolvesNearest(a: Archive, name: string, parent: string, k: nat)
    requires Offers(a, name, Parse(parent), k) && forall i :: 0 <= i < k ==> !Offers(a, name, Parse(parent), i)
    ensures Resolve(a, name, parent) == Some(Candidate(Ancestor(Parse(parent), k), name))
  {
    FirstIs((i: nat) => Offers(a, name, Parse(parent), i), |Parse(parent).parts| + 1, k);
  }

  /** Names without empty ones, dots and parents. */
  predicate Plain(name: string) { Root(name) == "" && Print(Parse(name)) == name && Parse(name).parts != [] }

  /** A package is looked for below the directory's `node_modules`. */
  lemma CandidateIsBelow(directory: string, name: string)
    requires Plain(directory) && Plain(name)
    ensures Candidate(Parse(directory), name) == directory + "/node_modules/" + name
  {
    var d, n := Parse(directory).parts, Parse(name).parts;
    ParsesAsOne("node_modules");
    PartsJoin(directory);
    PartsJoin(name);
    Below(d, n, "node_modules");
    assert Over(Parse(directory), "node_modules") == Path("", d + ["node_modules"]);
    assert Over(Path("", d + ["node_modules"]), name) == Path("", d + ["node_modules"] + n);
    ModulesBetweenSlashes();
    SlashesAround(directory, "node_modules", "/node_modules/", name);
  }

  lemma PartsJoin(name: string)
    requires Plain(name)
    ensures Parse(name).root == "" && Join(Parse(name).parts, '/') == name
  {
    assert "" + Join(Parse(name).parts, '/') == Join(Parse(name).parts, '/');
  }

  lemma Below(a: seq<string>, b: seq<string>, middle: string)
    requires a != [] && b != []
    ensures Print(Path("", a + [middle] + b)) == Join(a, '/') + ['/'] + middle + ['/'] + Join(b, '/')
  {
    JoinConcat(a + [middle], b, '/');
    JoinConcat(a, [middle], '/');
  }

  lemma ModulesBetweenSlashes()
    ensures "/node_modules/" == ['/'] + "node_modules" + ['/']
  {
  }

  lemma SlashesAround(a: string, middle: string, between: string, b: string)
    requires between == ['/'] + middle + ['/']
    ensures a + ['/'] + middle + ['/'] + b == a + between + b
  {
  }

  lemma ParsesAsOne(name: string)
    requires name != "" && name != "." && '/' !in name
    ensures Parse(name) == Path("", [name])
  {
    SplitOne(name, '/');
    NamesKept([name]);
  }

  lemma FirstIs(accepts: nat -> bool, n: nat, k: nat)
    requires k < n && accepts(k) && forall i :: 0 <= i < k ==> !accepts(i)
    ensures First(accepts, n, 0) == Some(k)
  {
    var r := First(accepts, n, 0);
  }

  // ----- Closure -----

  /** The archive as a graph of package directories. */
  datatype Graph = Graph(metas: map<string, Meta>, resolve: (string, string) -> Option<string>)

  function GraphOf(a: Archive): Graph {
    Graph(a.metas, (name, parent) => Resolve(a, name, parent))
  }

  /** The description of `root` can be read and every dependency resolves into `roots`. */
  predicate Expanded(g: Graph, root: string, roots: set<string>) {
    root in g.metas && forall i :: 0 <= i < |g.metas[root].dependencies| ==> Leads(g, root, g.metas[root].dependencies[i], roots)
  }

  predicate Leads(g: Graph, root: string, name: string, roots: set<string>) {
    var r := g.resolve(name, root); r.Some? && r.value in roots
  }

  /** Closed under "resolve each declared dependency from this root". */
  ghost predicate Closed(g: Graph, roots: set<string>) {
    forall r :: r in roots ==> Expanded(g, r, roots)
  }

  /** The least closed set that contains the start. */
  ghost predicate IsClosure(g: Graph, start: string, roots: set<string>) {
    start in roots && Closed(g, roots) && forall other :: start in other && Closed(g, other) ==> roots <= other
  }

  /** Everything added since `start` is expanded. */
  ghost predicate Complete(g: Graph, start: set<string>, roots: set<string>) {
    forall r :: r in roots && r !in start ==> Expanded(g, r, roots)
  }

  /** Nothing was added to `start` that a closed set around `root` could do without. */
  ghost predicate Needed(g: Graph, root: string, start: set<string>, roots: set<string>) {
    forall other :: Closed(g, other) && root in other ==> roots <= start + other
  }

  /** No closed set holds the root. */
  ghost predicate Hopeless(g: Graph, root: string) {
    forall other :: Closed(g, other) ==> root !in other
  }

  lemma CompleteGrows(g: Graph, start: set<string>, mid: set<string>, roots: set<string>)
    requires Complete(g, start, mid) && mid <= roots && Complete(g, mid, roots)
    ensures Complete(g, start, roots)
  {
    forall r | r in roots && r !in start ensures Expanded(g, r, roots) {
      if r in mid {
        assert Expanded(g, r, mid);
        forall i | 0 <= i < |g.metas[r].dependencies| ensures Leads(g, r, g.metas[r].dependencies[i], roots) {
          assert Leads(g, r, g.metas[r].dependencies[i], mid);
        }
      }
    }
  }

  lemma NeededGrows(g: Graph, root: string, i: nat, target: string, start: set<string>, mid: set<string>, roots: set<string>)
    requires root in g.metas && i < |g.metas[root].dependencies| && g.resolve(g.metas[root].dependencies[i], root) == Some(target)
    requires Needed(g, root, start, mid) && Needed(g, target, mid, roots)
    ensures Needed(g, root, start, roots)
  {
    forall other | Closed(g, other) && root in other ensures roots <= start + other {
      assert Expanded(g, root, other);
      assert Leads(g, root, g.metas[root].dependencies[i], other);
    }
  }

  lemma HopelessSpreads(g: Graph, root: string, i: nat)
    requires root in g.metas && i < |g.metas[root].dependencies|
    requires var r := g.resolve(g.metas[root].dependencies[i], root); r.None? || Hopeless(g, r.value)
    ensures Hopeless(g, root)
  {
    forall other | Closed(g, other) ensures root !in other {
      assert root in other ==> Expanded(g, root, other) && Leads(g, root, g.metas[root].dependencies[i], other);
    }
  }

  /** What holds of the roots once the first `n` dependencies of `root` have been visited. */
  ghost predicate Visited(g: Graph, root: string, n: nat, before: set<string>, roots: set<string>) {
    && root in g.metas && n <= |g.metas[root].dependencies| && before + {root} <= roots
    && Complete(g, before + {root}, roots) && Needed(g, root, before, roots)
    && forall i :: 0 <= i < n ==> Leads(g, root, g.metas[root].dependencies[i], roots)
  }

  lemma VisitedGrows(g: Graph, root: string, n: nat, target: string, before: set<string>, mid: set<string>, roots: set<string>)
    requires Visited(g, root, n, before, mid) && n < |g.metas[root].dependencies|
    requires g.resolve(g.metas[root].dependencies[n], root) == Some(target)
    requires mid <= roots && Needed(g, target, mid, roots) && Complete(g, mid, roots) && target in roots
    ensures Visited(g, root, n + 1, before, roots)
  {
    NeededGrows(g, root, n, target, before, mid, roots);
    CompleteGrows(g, before + {root}, mid, roots);
    forall i | 0 <= i < n ensures Leads(g, root, g.metas[root].dependencies[i], roots) {
      assert Leads(g, root, g.metas[root].dependencies[i], mid);
    }
  }

  lemma AllVisited(g: Graph, root: string, before: set<string>, roots: set<string>)
    requires root in g.metas && Visited(g, root, |g.metas[root].dependencies|, before, roots)
    ensures Complete(g, before, roots)
  {
    assert Expanded(g, root, roots);
  }

  class Builder {
    const graph: Graph
    var roots: set<string>

    constructor (graph: Graph)
      ensures this.graph == graph && roots == {}
    {
      this.graph := graph;
      roots := {};
    }

    /** How many readable descriptions have not been used up. */
    ghost function Left(): nat
      reads this
    {
      |graph.metas.Keys - roots|
    }

    /**
     `visit`. It terminates on cyclic graphs because each root it goes on from uses up
     a description of its own. It succeeds whenever some closed set holds the root,
     and adds no more than any such set.
     */
    method Visit(root: string) returns (ok: bool)
      modifies this
      ensures old(roots) <= roots && Needed(graph, root, old(roots), roots)
      ensures if ok then root in roots && Complete(graph, old(roots), roots) else Hopeless(graph, root)
      decreases Left(), 1
    {
      if root in roots {
        return true;
      }
      roots := roots + {root};
      if root !in graph.metas {
        assert forall other :: Closed(graph, other) && root in other ==> Expanded(graph, root, other);
        return false;
      }
      Fewer(graph.metas.Keys, old(roots), root);
      ok := VisitDependencies(root, graph.metas[root].dependencies, old(roots));
    }

    method VisitDependencies(root: string, dependencies: seq<string>, ghost before: set<string>) returns (ok: bool)
      requires root in graph.metas && dependencies == graph.metas[root].dependencies && roots == before + {root}
      modifies this
      ensures old(roots) <= roots && Needed(graph, root, before, roots)
      ensures if ok then Complete(graph, before, roots) else Hopeless(graph, root)
      decreases Left(), 2
    {
      for n := 0 to |dependencies|
        invariant Visited(graph, root, n, before, roots)
      {
        ghost var reached := roots;
        var target := graph.resolve(dependencies[n], root);
        if target.None? {
          HopelessSpreads(graph, root, n);
          return false;
        }
        Smaller(graph.metas.Keys, old(roots), roots);
        ok := Visit(target.value);
        NeededGrows(graph, root, n, target.value, before, reached, roots);
        if !ok {
          HopelessSpreads(graph, root, n);
          return;
        }
        VisitedGrows(graph, root, n, target.value, before, reached, roots);
      }
      ok := true;
      AllVisited(graph, root, before, roots);
    }
  }

  lemma Fewer(all: set<string>, before: set<string>, root: string)
    requires root in all && root !in before
    ensures |all - (before + {root})| < |all - before|
  {
    assert all - before == (all - (before + {root})) + {root};
  }

  lemma Smaller(all: set<string>, before: set<string>, after: set<string>)
    requires before <= after
    ensures |all - after| <= |all - before|
  {
    var kept, gone := all - after, (all * after) - before;
    assert all - before == kept + gone && kept !! gone;
  }

  /** The roots that `build_from_tar` collects, starting from axios. */
  method CollectRoots(a: Archive) returns (r: Option<set<string>>)
    ensures r.Some? ==> IsClosure(GraphOf(a), AXIOS, r.value)
    ensures r.None? ==> Hopeless(GraphOf(a), AXIOS)
  {
    var builder := new Builder(GraphOf(a));
    var ok := builder.Visit(AXIOS);
    r := if ok then Some(builder.roots) else None;
  }
}
