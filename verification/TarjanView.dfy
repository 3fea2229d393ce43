// The value-level theory of Tarjan's algorithm: the state of a depth-first
// search as one value, the invariant every step keeps, and the lemmas the
// array-based method in Tarjan.dfy appeals to.
//
// Throughout, g is the edge relation and r a relation that stands for
// reachability along g; only the last section fixes r to be exactly that.
module TarjanView {
  import opened Graph

  // `num` holds the visit numbers handed out so far and `low` the lowlinks,
  // `stack` grows at its right end, `out` holds the emitted vertices.
  datatype View = View(index: nat, stack: seq<Id>, num: map<Id, nat>, low: map<Id, nat>, out: set<Id>)

  ghost predicate Numbered(e: View) {
    && e.low.Keys == e.num.Keys
    && (forall x | x in e.num :: e.num[x] < e.index)
    && (forall i | 0 <= i < |e.stack| :: e.stack[i] in e.num)
    && (forall i, j | 0 <= i < j < |e.stack| :: e.num[e.stack[i]] < e.num[e.stack[j]])
  }

  ghost predicate Coloured(e: View) {
    && (forall x :: x in e.num <==> x in e.stack || x in e.out)
    && (forall x | x in e.stack :: x !in e.out)
  }

  // A finished vertex has no edge to an unnumbered one.
  ghost predicate NoEdgeToFresh(g: Edges, e: View, gray: set<Id>) {
    forall x, y | (x, y) in g && x in e.num && x !in gray :: y in e.num
  }

  ghost predicate Inv(g: Edges, e: View, gray: set<Id>) {
    Numbered(e) && Coloured(e) && NoEdgeToFresh(g, e, gray)
  }

  ghost predicate Keeps(m: map<Id, nat>, n: map<Id, nat>) {
    forall x | x in m :: x in n && n[x] == m[x]
  }

  ghost predicate Extends(a: View, b: View) {
    && a.index <= b.index && a.stack <= b.stack && a.out <= b.out
    && Keeps(a.num, b.num) && Keeps(a.low, b.low)
    && (forall x | x in b.num && x !in a.num :: a.index <= b.num[x])
  }

  ghost predicate AllReach(r: Edges, s: seq<Id>, v: Id) {
    forall x | x in s :: (x, v) in r
  }

  ghost predicate ReachesAll(r: Edges, v: Id, s: seq<Id>, from: nat) {
    forall i | from <= i < |s| :: (v, s[i]) in r
  }

  // Edges from b's stack at or above position `from` into a's stack lead to
  // vertices numbered at least `bound`.
  ghost predicate Bounded(g: Edges, a: View, b: View, from: nat, bound: nat) {
    forall i, y | from <= i < |b.stack| && y in a.stack && y in a.num && (b.stack[i], y) in g :: bound <= a.num[y]
  }

  ghost predicate Touches(r: Edges, e: View, v: Id, y: Id, n: nat) {
    y in e.stack && y in e.num && e.num[y] == n && (v, y) in r
  }

  // What a completed visit of v, entered in state a, leaves behind: either v's
  // component was emitted, or v stays on the stack and low[v] is the number of
  // an older stack vertex that v reaches.
  ghost predicate Visited(g: Edges, r: Edges, a: View, b: View, v: Id) {
    && Extends(a, b)
    && v in b.num && v in b.low && b.num[v] == a.index
    && (b.stack == a.stack ==> b.low[v] == a.index)
    && (b.stack != a.stack ==>
      && (exists y :: Touches(r, a, v, y, b.low[v]))
      && AllReach(r, b.stack, v)
      && ReachesAll(r, v, b.stack, |a.stack|))
    && Bounded(g, a, b, |a.stack|, b.low[v])
  }

  // The scan of v's successors: a is the state v was entered from, e the
  // current one, `done` the successors already looked at.
  ghost predicate Scanning(g: Edges, r: Edges, a: View, e: View, v: Id, done: set<Id>) {
    && Extends(a, e)
    && a.stack + [v] <= e.stack
    && v !in a.num && v !in a.low && v in e.num && e.num[v] == a.index && v in e.low
    && (e.low[v] == a.index || exists y :: Touches(r, a, v, y, e.low[v]))
    && AllReach(r, e.stack, v)
    && ReachesAll(r, v, e.stack, |a.stack|)
    && Bounded(g, a, e, |a.stack| + 1, e.low[v])
    && Scanned(a, e, v, done)
  }

  ghost predicate Scanned(a: View, e: View, v: Id, done: set<Id>)
    requires v in e.low
  {
    forall y | y in done :: y in e.num && (y in a.stack && y in a.num ==> e.low[v] <= a.num[y])
  }

  // ---- entering a vertex -----------------------------------------------------

  ghost function Enter(e: View, v: Id): View {
    View(e.index + 1, e.stack + [v], e.num[v := e.index], e.low[v := e.index], e.out)
  }

  lemma EnterInv(g: Edges, e: View, gray: set<Id>, v: Id)
    requires Inv(g, e, gray) && v !in e.num
    ensures Inv(g, Enter(e, v), gray + {v})
  {
  }

  lemma ScanStart(g: Edges, r: Edges, a: View, v: Id)
    requires Numbered(a) && v !in a.num && AllReach(r, a.stack, v) && (v, v) in r
    ensures Scanning(g, r, a, Enter(a, v), v, {})
  {
  }

  // ---- scanning the successors -------------------------------------------------

  ghost function SetLow(e: View, v: Id, n: nat): View {
    e.(low := e.low[v := n])
  }

  // low[v] := min(low[v], n).
  ghost function Lowered(e: View, v: Id, n: nat): View
    requires v in e.low
  {
    if n < e.low[v] then SetLow(e, v, n) else e
  }

  lemma SetLowInv(g: Edges, e: View, gray: set<Id>, v: Id, n: nat)
    requires Inv(g, e, gray) && v in e.num
    ensures Inv(g, SetLow(e, v, n), gray)
  {
  }

  // A stack vertex numbered below v lies below v on the stack.
  lemma BelowV(a: View, e: View, v: Id, y: Id)
    requires Numbered(e) && Extends(a, e) && a.stack + [v] <= e.stack
    requires v in e.num && y in e.stack && y in e.num && e.num[y] < e.num[v]
    requires forall i | 0 <= i < |a.stack| :: a.stack[i] in a.num
    ensures y in a.stack && y in a.num && a.num[y] == e.num[y]
  {
    var i :| 0 <= i < |e.stack| && e.stack[i] == y;
    assert e.stack[|a.stack|] == (a.stack + [v])[|a.stack|] == v;
    assert i < |a.stack|;
    assert a.stack[i] == e.stack[i];
  }

  lemma OnLargerStack(s: seq<Id>, t: seq<Id>, y: Id)
    requires s <= t && y in s
    ensures y in t
  {
  }

  // A successor that is already numbered: its number bounds low[v] if it is on
  // the stack, and needs no bound otherwise.
  lemma ScanOffStack(g: Edges, r: Edges, a: View, e: View, v: Id, done: set<Id>, w: Id)
    requires Scanning(g, r, a, e, v, done) && w in e.num
    requires w !in e.stack || e.low[v] <= e.num[w]
    ensures Scanning(g, r, a, e, v, done + {w})
  {
  }

  // Lowering low[v] to the number of an older stack vertex that v reaches.
  lemma ScanLower(g: Edges, r: Edges, a: View, e: View, v: Id, done: set<Id>, w: Id, y: Id)
    requires Scanning(g, r, a, e, v, done) && w in e.num
    requires y in a.stack && y in a.num && (v, y) in r && a.num[y] < e.low[v]
    requires w in a.stack && w in a.num ==> a.num[y] <= a.num[w]
    ensures Scanning(g, r, a, SetLow(e, v, a.num[y]), v, done + {w})
  {
    assert Touches(r, a, v, y, a.num[y]);
  }

  // The state after a recursive visit of a fresh successor w, before the
  // lowlink is merged: everything the scan needs except the bound for the new
  // stack segment, which holds for m = min(low[v], low[w]).
  lemma FreshBounded(g: Edges, r: Edges, a: View, e: View, f: View, v: Id, done: set<Id>, w: Id, m: nat)
    requires Scanning(g, r, a, e, v, done)
    requires Visited(g, r, e, f, w)
    requires m <= f.low[w] && m <= e.low[v]
    ensures Bounded(g, a, f, |a.stack| + 1, m)
  {
  }

  // If w was popped nothing on the stack changed; otherwise every stack vertex
  // reaches v through w, and v reaches w's part of the stack.
  lemma FreshReach(g: Edges, r: Edges, a: View, e: View, f: View, v: Id, done: set<Id>, w: Id)
    requires Scanning(g, r, a, e, v, done)
    requires Visited(g, r, e, f, w) && (v, w) in r
    requires forall x, y, z | (x, y) in r && (y, z) in r :: (x, z) in r
    ensures AllReach(r, f.stack, v) && ReachesAll(r, v, f.stack, |a.stack|)
  {
  }

  lemma ScanFreshKeep(g: Edges, r: Edges, a: View, e: View, f: View, v: Id, done: set<Id>, w: Id)
    requires Scanning(g, r, a, e, v, done)
    requires Visited(g, r, e, f, w) && w !in e.num && Numbered(a)
    requires AllReach(r, f.stack, v) && ReachesAll(r, v, f.stack, |a.stack|)
    requires Bounded(g, a, f, |a.stack| + 1, e.low[v])
    ensures Scanning(g, r, a, f, v, done + {w})
  {
  }

  // After a recursive visit of the fresh successor w.
  lemma ScanFresh(g: Edges, r: Edges, a: View, e: View, f: View, v: Id, done: set<Id>, w: Id)
    requires Scanning(g, r, a, e, v, done) && Numbered(a) && Numbered(e)
    requires w !in e.num && (v, w) in r
    requires Visited(g, r, e, f, w)
    requires forall x, y, z | (x, y) in r && (y, z) in r :: (x, z) in r
    ensures v in f.low && w in f.low && f.low[v] == e.low[v]
    ensures f.low[v] <= f.low[w] ==> Scanning(g, r, a, f, v, done + {w})
    ensures f.low[w] < f.low[v] ==> Scanning(g, r, a, SetLow(f, v, f.low[w]), v, done + {w})
  {
    FreshReach(g, r, a, e, f, v, done, w);
    if f.low[v] <= f.low[w] {
      FreshBounded(g, r, a, e, f, v, done, w, f.low[v]);
      ScanFreshKeep(g, r, a, e, f, v, done, w);
    } else {
      ScanFreshLower(g, r, a, e, f, v, done, w);
    }
  }

  lemma ScanFreshLower(g: Edges, r: Edges, a: View, e: View, f: View, v: Id, done: set<Id>, w: Id)
    requires Scanning(g, r, a, e, v, done) && Numbered(a) && Numbered(e)
    requires w !in e.num && (v, w) in r
    requires Visited(g, r, e, f, w) && v in f.low && f.low[w] < e.low[v]
    requires AllReach(r, f.stack, v) && ReachesAll(r, v, f.stack, |a.stack|)
    requires forall x, y, z | (x, y) in r && (y, z) in r :: (x, z) in r
    ensures Scanning(g, r, a, SetLow(f, v, f.low[w]), v, done + {w})
  {
    LowInRange(g, r, a, e, v, done);
    assert f.stack != e.stack;
    var y :| Touches(r, e, w, y, f.low[w]);
    assert (v, y) in r;
    BelowV(a, e, v, y);
    assert Touches(r, a, v, y, f.low[w]);
    FreshBounded(g, r, a, e, f, v, done, w, f.low[w]);
    if w in a.stack { OnLargerStack(a.stack, e.stack, w); }
  }

  lemma LowInRange(g: Edges, r: Edges, a: View, e: View, v: Id, done: set<Id>)
    requires Scanning(g, r, a, e, v, done) && Numbered(a)
    ensures e.low[v] <= a.index <= e.index
  {
  }

  // ---- leaving a vertex ----------------------------------------------------------

  // v is not the root of its component: it stays on the stack, finished.
  lemma LeaveNonRoot(g: Edges, r: Edges, a: View, e: View, v: Id, done: set<Id>)
    requires Scanning(g, r, a, e, v, done)
    requires forall y | (v, y) in g :: y in done
    requires e.low[v] != a.index
    ensures Visited(g, r, a, e, v)
  {
  }

  lemma LeaveInv(g: Edges, e: View, gray: set<Id>, v: Id, done: set<Id>)
    requires Inv(g, e, gray + {v})
    requires forall y | (v, y) in g :: y in done
    requires forall y | y in done :: y in e.num
    ensures Inv(g, e, gray)
  {
  }

  function Members(s: seq<Id>): set<Id> {
    set x | x in s
  }

  // Popping the stack down to, and including, v.
  ghost function PopTo(e: View, n: nat): View
    requires n <= |e.stack|
  {
    e.(stack := e.stack[..n], out := e.out + Members(e.stack[n..]))
  }

  lemma PopInv(g: Edges, e: View, gray: set<Id>, n: nat)
    requires Inv(g, e, gray) && n <= |e.stack|
    ensures Inv(g, PopTo(e, n), gray)
  {
  }

  // v is the root of its component, which is the stack from v upwards.
  lemma LeaveRoot(g: Edges, r: Edges, a: View, e: View, v: Id, done: set<Id>)
    requires Scanning(g, r, a, e, v, done)
    requires e.low[v] == a.index
    ensures Visited(g, r, a, PopTo(e, |a.stack|), v)
  {
  }

  // Every edge out of the popped part stays in it or leads to emitted vertices.
  lemma PoppedEdges(g: Edges, r: Edges, a: View, e: View, gray: set<Id>, v: Id, done: set<Id>, x: Id, y: Id)
    requires Scanning(g, r, a, e, v, done) && Inv(g, e, gray + {v}) && Numbered(a)
    requires forall z | (v, z) in g :: z in done
    requires forall z | z in gray :: z in a.stack
    requires e.low[v] == a.index
    requires x in e.stack[|a.stack|..] && (x, y) in g
    ensures y in e.stack[|a.stack|..] || y in e.out
  {
  }

  // The popped part is mutually connected through v.
  lemma PoppedMutual(g: Edges, r: Edges, a: View, e: View, v: Id, done: set<Id>, x: Id)
    requires Scanning(g, r, a, e, v, done)
    requires x in e.stack[|a.stack|..]
    ensures (x, v) in r && (v, x) in r
  {
  }

  // ---- the emitted components --------------------------------------------------

  // c lists exactly one mutual-reachability class, each member once.
  ghost predicate IsClass(g: Edges, c: seq<Id>) {
    && c != []
    && (forall i, j | 0 <= i < j < |c| :: c[i] != c[j])
    && (forall x, y | x in c :: y in c <==> Mutual(g, x, y))
  }

  ghost function Union(sccs: seq<seq<Id>>): set<Id> {
    set i, x | 0 <= i < |sccs| && x in sccs[i] :: x
  }

  // Each component is a class, no vertex occurs twice, and no edge leads from
  // an emitted component to a later one.
  ghost predicate SccsOk(g: Edges, sccs: seq<seq<Id>>) {
    && (forall i | 0 <= i < |sccs| :: IsClass(g, sccs[i]))
    && (forall i, j, x | 0 <= i < j < |sccs| && x in sccs[i] :: x !in sccs[j])
    && (forall i, x, y | 0 <= i < |sccs| && x in sccs[i] && (x, y) in g :: exists j :: 0 <= j <= i && y in sccs[j])
  }

  lemma UnionClosed(g: Edges, sccs: seq<seq<Id>>, x: Id, y: Id)
    requires SccsOk(g, sccs) && x in Union(sccs) && Reach(g, x, y)
    ensures y in Union(sccs)
  {
    ReachClosed(g, Union(sccs), x, y);
  }

  lemma PoppedReachesIn(g: Edges, r: Edges, a: View, e: View, gray: set<Id>, v: Id, done: set<Id>, sccs: seq<seq<Id>>, x: Id, y: Id)
    requires Scanning(g, r, a, e, v, done) && Inv(g, e, gray + {v}) && Numbered(a)
    requires forall z | (v, z) in g :: z in done
    requires forall z | z in gray :: z in a.stack
    requires e.low[v] == a.index
    requires SccsOk(g, sccs) && Union(sccs) == e.out
    requires x in e.stack[|a.stack|..] && Reach(g, x, y)
    ensures y in e.stack[|a.stack|..] || y in e.out
  {
    var s := Members(e.stack[|a.stack|..]) + e.out;
    forall p, q | (p, q) in g && p in s ensures q in s {
      if p in e.stack[|a.stack|..] {
        PoppedEdges(g, r, a, e, gray, v, done, p, q);
      }
    }
    ReachClosed(g, s, x, y);
  }

  lemma StackDistinct(e: View, n: nat, x: Id)
    requires Numbered(e) && Coloured(e) && n <= |e.stack|
    ensures forall i, j | 0 <= i < j < |e.stack[n..]| :: e.stack[n..][i] != e.stack[n..][j]
    ensures x in e.stack[n..] ==> x !in e.out
  {
  }

  ghost function Reversed(s: seq<Id>): (t: seq<Id>)
    ensures |t| == |s|
    ensures forall i | 0 <= i < |s| :: t[i] == s[|s| - 1 - i]
    ensures forall x :: x in t <==> x in s
  {
    if s == [] then [] else
      assert forall x :: x in s <==> x == s[0] || x in s[1..];
      Reversed(s[1..]) + [s[0]]
  }

  ghost predicate IsReachability(g: Edges, r: Edges, nodes: set<Id>) {
    && (forall x, y :: (x, y) in r <==> x in nodes && y in nodes && Reach(g, x, y))
    && (forall x, y | (x, y) in g :: x in nodes && y in nodes)
  }

  lemma PoppedClass(g: Edges, r: Edges, nodes: set<Id>, a: View, e: View, gray: set<Id>, v: Id, done: set<Id>, sccs: seq<seq<Id>>)
    requires IsReachability(g, r, nodes)
    requires Scanning(g, r, a, e, v, done) && Inv(g, e, gray + {v}) && Numbered(a)
    requires forall z | (v, z) in g :: z in done
    requires forall z | z in gray :: z in a.stack
    requires e.low[v] == a.index
    requires SccsOk(g, sccs) && Union(sccs) == e.out
    ensures IsClass(g, Reversed(e.stack[|a.stack|..]))
  {
    var c := e.stack[|a.stack|..];
    StackDistinct(e, |a.stack|, v);
    forall x, y | x in c ensures y in c <==> Mutual(g, x, y) {
      PoppedMutual(g, r, a, e, v, done, x);
      if y in c {
        PoppedMutual(g, r, a, e, v, done, y);
        ReachTrans(g, x, v, y);
        ReachTrans(g, y, v, x);
      } else if Mutual(g, x, y) {
        PoppedReachesIn(g, r, a, e, gray, v, done, sccs, x, y);
        UnionClosed(g, sccs, y, x);
        StackDistinct(e, |a.stack|, x);
        assert false;
      }
    }
  }

  lemma AppendScc(g: Edges, sccs: seq<seq<Id>>, c: seq<Id>)
    requires SccsOk(g, sccs) && IsClass(g, c)
    requires forall x | x in c :: x !in Union(sccs)
    requires forall x, y | x in c && (x, y) in g :: y in c || y in Union(sccs)
    ensures SccsOk(g, sccs + [c]) && Union(sccs + [c]) == Union(sccs) + Members(c)
  {
    var t := sccs + [c];
    forall i, x, y | 0 <= i < |t| && x in t[i] && (x, y) in g ensures exists j :: 0 <= j <= i && y in t[j] {
      if i < |sccs| {
        var j :| 0 <= j <= i && y in sccs[j];
        assert y in t[j];
      } else if y in c {
        assert y in t[i];
      } else {
        var j :| 0 <= j < |sccs| && y in sccs[j];
        assert y in t[j];
      }
    }
    forall x ensures x in Union(t) <==> x in Union(sccs) + Members(c) {
      if x in Union(sccs) { var i :| 0 <= i < |sccs| && x in sccs[i]; assert x in t[i]; }
      if x in c { assert x in t[|sccs|]; }
    }
  }

  // Emitting v's component keeps the list of components right.
  lemma EmitClass(g: Edges, r: Edges, nodes: set<Id>, a: View, e: View, gray: set<Id>, v: Id, done: set<Id>, sccs: seq<seq<Id>>)
    requires IsReachability(g, r, nodes)
    requires Scanning(g, r, a, e, v, done) && Inv(g, e, gray + {v}) && Numbered(a)
    requires forall z | (v, z) in g :: z in done
    requires forall z | z in gray :: z in a.stack
    requires e.low[v] == a.index
    requires SccsOk(g, sccs) && Union(sccs) == e.out
    ensures var sccs' := sccs + [Reversed(e.stack[|a.stack|..])];
      SccsOk(g, sccs') && Union(sccs') == PopTo(e, |a.stack|).out
  {
    var c := Reversed(e.stack[|a.stack|..]);
    PoppedClass(g, r, nodes, a, e, gray, v, done, sccs);
    forall x | x in c ensures x !in Union(sccs) {
      StackDistinct(e, |a.stack|, x);
    }
    forall x, y | x in c && (x, y) in g ensures y in c || y in Union(sccs) {
      PoppedEdges(g, r, a, e, gray, v, done, x, y);
    }
    AppendScc(g, sccs, c);
  }

  // r contains g, is reflexive on the nodes, and is transitive.
  ghost predicate Connects(g: Edges, r: Edges, nodes: set<Id>) {
    && IsReachability(g, r, nodes)
    && (forall x | x in nodes :: (x, x) in r)
    && (forall x, y | (x, y) in g :: (x, y) in r)
    && (forall x, y, z | (x, y) in r && (y, z) in r :: (x, z) in r)
  }

  ghost function Reachability(g: Edges, nodes: set<Id>): (r: Edges)
    requires forall x, y | (x, y) in g :: x in nodes && y in nodes
    ensures Connects(g, r, nodes)
  {
    var r := set x, y | x in nodes && y in nodes && Reach(g, x, y) :: (x, y);
    assert forall x | x in nodes :: (x, x) in r by {
      forall x | x in nodes ensures (x, x) in r { ReachRefl(g, x); }
    }
    assert forall x, y | (x, y) in g :: (x, y) in r by {
      forall x, y | (x, y) in g ensures (x, y) in r { ReachEdge(g, x, y); }
    }
    assert forall x, y, z | (x, y) in r && (y, z) in r :: (x, z) in r by {
      forall x, y, z | (x, y) in r && (y, z) in r ensures (x, z) in r { ReachTrans(g, x, y, z); }
    }
    r
  }
}
