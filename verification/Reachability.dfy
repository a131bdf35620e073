/** Reachability in a directed graph given by its edges. */
module Reachability {

  ghost predicate IsPath<T(!new)>(edge: (T, T) -> bool, path: seq<T>) {
    path != [] && forall i, j :: 0 <= i < j < |path| && j == i + 1 ==> edge(path[i], path[j])
  }

  ghost predicate Reaches<T(!new)>(edge: (T, T) -> bool, x: T, y: T) {
    exists path :: IsPath(edge, path) && path[0] == x && path[|path| - 1] == y
  }

  lemma ReachesItself<T(!new)>(edge: (T, T) -> bool, x: T)
    ensures Reaches(edge, x, x)
  {
    assert IsPath(edge, [x]);
  }

  lemma ReachesNext<T(!new)>(edge: (T, T) -> bool, x: T, y: T, z: T)
    requires Reaches(edge, x, y) && edge(y, z)
    ensures Reaches(edge, x, z)
  {
    var path :| IsPath(edge, path) && path[0] == x && path[|path| - 1] == y;
    var longer := path + [z];
    forall i, j | 0 <= i < j < |longer| && j == i + 1
      ensures edge(longer[i], longer[j])
    {
      assert longer[i] == path[i];
    }
    assert IsPath(edge, longer);
  }

  ghost predicate Closed<T(!new)>(edge: (T, T) -> bool, nodes: set<T>) {
    forall x, y :: x in nodes && edge(x, y) ==> y in nodes
  }

  lemma {:induction false} ClosedHoldsPath<T(!new)>(edge: (T, T) -> bool, nodes: set<T>, path: seq<T>)
    requires Closed(edge, nodes) && IsPath(edge, path) && path[0] in nodes
    ensures path[|path| - 1] in nodes
  {
    if |path| > 1 {
      var front := path[..|path| - 1];
      forall i, j | 0 <= i < j < |front| && j == i + 1
        ensures edge(front[i], front[j])
      {
        assert front[i] == path[i] && front[j] == path[j];
      }
      ClosedHoldsPath(edge, nodes, front);
      var i := |path| - 2;
      assert edge(path[i], path[i + 1]);
    }
  }

  /** A closed set that holds a node holds everything reachable from it. */
  lemma ClosedHoldsReachable<T(!new)>(edge: (T, T) -> bool, nodes: set<T>, x: T)
    requires Closed(edge, nodes) && x in nodes
    ensures forall y :: Reaches(edge, x, y) ==> y in nodes
  {
    forall y | Reaches(edge, x, y)
      ensures y in nodes
    {
      var path :| IsPath(edge, path) && path[0] == x && path[|path| - 1] == y;
      ClosedHoldsPath(edge, nodes, path);
    }
  }
}
