/** The processes below a supervisord instance, collected level by level. */
module ProcessTree {
  import opened Prelude

  datatype Pid = Pid(number: int)

  /** A snapshot of the parent-child relation; it need not be a tree. */
  type Children = map<Pid, set<Pid>>

  function ChildrenOf(children: Children, pid: Pid): set<Pid> {
    if pid in children then children[pid] else {}
  }

  predicate IsChild(children: Children, parent: Pid, child: Pid) {
    parent in children && child in children[parent]
  }

  /** `path` leads from a root down to `pid`, one child at a time. */
  ghost predicate IsPath(roots: set<Pid>, children: Children, path: seq<Pid>, pid: Pid) {
    && path != [] && path[0] in roots && path[|path| - 1] == pid
    && forall i | 0 < i < |path| :: IsChild(children, path[i - 1], path[i])
  }

  ghost predicate Reachable(roots: set<Pid>, children: Children, pid: Pid) {
    exists path :: IsPath(roots, children, path, pid)
  }

  ghost function AllPids(roots: set<Pid>, children: Children): set<Pid> {
    roots + set p, q | p in children && q in children[p] :: q
  }

  lemma ChildrenAreAll(roots: set<Pid>, children: Children, parent: Pid)
    ensures ChildrenOf(children, parent) <= AllPids(roots, children)
  {
    if parent in children {
      forall q | q in children[parent] ensures q in AllPids(roots, children) {
      }
    }
  }

  lemma RootIsReachable(roots: set<Pid>, children: Children, pid: Pid)
    requires pid in roots
    ensures Reachable(roots, children, pid)
  {
    assert IsPath(roots, children, [pid], pid);
  }

  lemma ChildIsReachable(roots: set<Pid>, children: Children, parent: Pid, pid: Pid)
    requires Reachable(roots, children, parent) && pid in ChildrenOf(children, parent)
    ensures Reachable(roots, children, pid)
  {
    var path :| IsPath(roots, children, path, parent);
    assert IsPath(roots, children, path + [pid], pid);
  }

  lemma {:induction false} ClosedContainsPath(roots: set<Pid>, children: Children, closed: set<Pid>, path: seq<Pid>,
      pid: Pid)
    requires roots <= closed && Successors(children, closed) <= closed
    requires IsPath(roots, children, path, pid)
    ensures pid in closed
    decreases |path|
  {
    if |path| > 1 {
      var init := path[..|path| - 1];
      ClosedContainsPath(roots, children, closed, init, init[|init| - 1]);
      assert pid in ChildrenOf(children, init[|init| - 1]);
    }
  }

  ghost function Successors(children: Children, parents: set<Pid>): set<Pid> {
    set p, q | p in parents && q in ChildrenOf(children, p) :: q
  }

  /** One query per parent, in any order. */
  method ChildrenOfAll(children: Children, parents: set<Pid>) returns (below: set<Pid>)
    ensures below == Successors(children, parents)
  {
    below := {};
    var unvisited := parents;
    while unvisited != {}
      invariant unvisited <= parents
      invariant below == Successors(children, parents - unvisited)
      decreases |unvisited|
    {
      var parent :| parent in unvisited;
      ghost var visited := parents - unvisited;
      unvisited := unvisited - {parent};
      assert parents - unvisited == visited + {parent};
      OneMoreParent(children, visited, parent);
      below := below + ChildrenOf(children, parent);
    }
    assert parents - unvisited == parents;
  }

  lemma OneMoreParent(children: Children, visited: set<Pid>, parent: Pid)
    ensures Successors(children, visited + {parent}) == Successors(children, visited) + ChildrenOf(children, parent)
  {
    forall q | q in ChildrenOf(children, parent) ensures q in Successors(children, visited + {parent}) {
      assert parent in visited + {parent};
    }
  }

  ghost predicate AllReachable(roots: set<Pid>, children: Children, pids: set<Pid>) {
    forall pid | pid in pids :: Reachable(roots, children, pid)
  }

  lemma SuccessorsAreReachable(roots: set<Pid>, children: Children, parents: set<Pid>)
    requires AllReachable(roots, children, parents)
    ensures AllReachable(roots, children, Successors(children, parents))
    ensures Successors(children, parents) <= AllPids(roots, children)
  {
    forall q | q in Successors(children, parents)
      ensures Reachable(roots, children, q) && q in AllPids(roots, children)
    {
      var p :| p in parents && q in ChildrenOf(children, p);
      ChildIsReachable(roots, children, p, q);
      ChildrenAreAll(roots, children, p);
    }
  }

  /** Everything collected is reachable, and only the frontier may have children not collected yet. */
  ghost predicate Collected(roots: set<Pid>, children: Children, managed: set<Pid>, frontier: set<Pid>) {
    && roots <= managed <= AllPids(roots, children)
    && frontier <= managed
    && AllReachable(roots, children, managed)
    && Successors(children, managed - frontier) <= managed
  }

  lemma RootsAreCollected(roots: set<Pid>, children: Children)
    ensures Collected(roots, children, roots, roots)
  {
    forall pid | pid in roots ensures Reachable(roots, children, pid) {
      RootIsReachable(roots, children, pid);
    }
    assert roots - roots == {};
  }

  /** Without a frontier everything reachable is collected. */
  lemma AllCollected(roots: set<Pid>, children: Children, managed: set<Pid>)
    requires Collected(roots, children, managed, {})
    ensures forall pid :: pid in managed <==> Reachable(roots, children, pid)
  {
    assert managed - {} == managed;
    forall pid | Reachable(roots, children, pid) ensures pid in managed {
      var path :| IsPath(roots, children, path, pid);
      ClosedContainsPath(roots, children, managed, path, pid);
    }
  }

  lemma OneLevel(roots: set<Pid>, children: Children, managed: set<Pid>, frontier: set<Pid>)
    requires Collected(roots, children, managed, frontier)
    ensures var next := Successors(children, frontier) - managed;
      && Collected(roots, children, managed + next, next)
      && (next == {} ==> AllPids(roots, children) - (managed + next) == AllPids(roots, children) - managed)
      && (next != {} ==> |AllPids(roots, children) - (managed + next)| < |AllPids(roots, children) - managed|)
  {
    var next := Successors(children, frontier) - managed;
    SuccessorsAreReachable(roots, children, frontier);
    SuccessorsSplit(children, managed - frontier, frontier);
    assert (managed - frontier) + frontier == managed;
    assert (managed + next) - next == managed;
    Shrinks(AllPids(roots, children), managed, next);
  }

  lemma SuccessorsSplit(children: Children, a: set<Pid>, b: set<Pid>)
    ensures Successors(children, a + b) == Successors(children, a) + Successors(children, b)
  {
    forall q ensures q in Successors(children, a + b) <==>
      q in Successors(children, a) || q in Successors(children, b) {
    }
  }

  lemma Shrinks(all: set<Pid>, managed: set<Pid>, frontier: set<Pid>)
    requires frontier <= all && frontier !! managed
    ensures frontier == {} ==> all - (managed + frontier) == all - managed
    ensures frontier != {} ==> |all - (managed + frontier)| < |all - managed|
  {
    if frontier != {} {
      var pid :| pid in frontier;
      assert pid in all - managed;
      SmallerSet(all - (managed + frontier), all - managed);
    }
  }

  lemma SmallerSet(a: set<Pid>, b: set<Pid>)
    requires a < b
    ensures |a| < |b|
  {
    assert b - a != {};
    var x :| x in b - a;
    assert |b - {x}| == |b| - 1;
    SubsetSize(a, b - {x});
  }

  /** The result is exactly what the roots lead to, on every finite snapshot, with cycles or without. */
  method ManagedPids(roots: set<Pid>, children: Children) returns (managed: set<Pid>)
    ensures forall pid :: pid in managed <==> Reachable(roots, children, pid)
  {
    managed := roots;
    var frontier := managed;
    RootsAreCollected(roots, children);
    while frontier != {}
      invariant Collected(roots, children, managed, frontier)
      decreases |AllPids(roots, children) - managed|, |frontier|
    {
      var below := ChildrenOfAll(children, frontier);
      OneLevel(roots, children, managed, frontier);
      frontier := below - managed;
      managed := managed + frontier;
    }
    AllCollected(roots, children, managed);
  }
}
