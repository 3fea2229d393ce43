// Directed graphs over state ids: paths, reachability and mutual-reachability
// classes. Shared by the SCC computation, the checker and their specifications.
module Graph {
  type Id = string
  type Edges = set<(Id, Id)>

  ghost predicate Path(g: Edges, p: seq<Id>) {
    |p| >= 1 && forall i | 0 <= i < |p| - 1 :: (p[i], p[i + 1]) in g
  }

  ghost predicate PathBetween(g: Edges, p: seq<Id>, x: Id, y: Id) {
    Path(g, p) && p[0] == x && p[|p| - 1] == y
  }

  ghost predicate Reach(g: Edges, x: Id, y: Id) {
    exists p :: PathBetween(g, p, x, y)
  }

  ghost predicate Mutual(g: Edges, x: Id, y: Id) {
    Reach(g, x, y) && Reach(g, y, x)
  }

  // x lies on some cycle: one edge out of x leads back to x.
  ghost predicate OnCycle(g: Edges, x: Id) {
    exists y :: (x, y) in g && Reach(g, y, x)
  }

  lemma ReachRefl(g: Edges, x: Id)
    ensures Reach(g, x, x)
  {
    assert PathBetween(g, [x], x, x);
  }

  lemma ReachEdge(g: Edges, x: Id, y: Id)
    requires (x, y) in g
    ensures Reach(g, x, y)
  {
    assert PathBetween(g, [x, y], x, y);
  }

  lemma ReachTrans(g: Edges, x: Id, y: Id, z: Id)
    requires Reach(g, x, y) && Reach(g, y, z)
    ensures Reach(g, x, z)
  {
    var p :| PathBetween(g, p, x, y);
    var q :| PathBetween(g, q, y, z);
    var r := p + q[1..];
    forall i | 0 <= i < |r| - 1 ensures (r[i], r[i + 1]) in g {
      if i == |p| - 1 { assert r[i] == q[0] && r[i + 1] == q[1]; }
      else if i >= |p| { assert r[i] == q[i - |p| + 1] && r[i + 1] == q[i - |p| + 2]; }
    }
    assert PathBetween(g, r, x, z);
  }

  // A set closed under edges contains everything its members reach.
  lemma ReachClosed(g: Edges, s: set<Id>, x: Id, y: Id)
    requires forall a, b | (a, b) in g && a in s :: b in s
    requires x in s && Reach(g, x, y)
    ensures y in s
  {
    var p :| PathBetween(g, p, x, y);
    var i := 0;
    while i < |p| - 1
      invariant 0 <= i < |p| && p[i] in s
    {
      assert (p[i], p[i + 1]) in g;
      i := i + 1;
    }
  }
}
