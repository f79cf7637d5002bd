/** Finite directed graphs: paths, strict reachability, and the rank an acyclic graph gives its nodes.
    The service engine recurses along start edges and the PID tracker along parent-to-child edges;
    both terminate because the number of strict descendants falls at every edge. */
module Graph {

  type Digraph<T> = map<T, set<T>>

  ghost predicate Edge<T>(g: Digraph<T>, a: T, b: T) {
    a in g && b in g[a]
  }

  ghost predicate IsPath<T>(g: Digraph<T>, p: seq<T>) {
    && |p| >= 1
    && forall i, j :: 0 <= i < |p| - 1 && j == i + 1 ==> Edge(g, p[i], p[j])
  }

  ghost predicate PathFromTo<T>(g: Digraph<T>, p: seq<T>, a: T, b: T) {
    IsPath(g, p) && p[0] == a && p[|p| - 1] == b
  }

  /** b is a strict descendant of a: some path of at least one edge leads from a to b. */
  ghost predicate Reaches<T(!new)>(g: Digraph<T>, a: T, b: T) {
    exists p: seq<T> :: |p| >= 2 && PathFromTo(g, p, a, b)
  }

  ghost predicate Acyclic<T(!new)>(g: Digraph<T>) {
    forall a: T :: !Reaches(g, a, a)
  }

  ghost function Nodes<T>(g: Digraph<T>): set<T> {
    set a, b | a in g && b in g[a] :: b
  }

  ghost function Descendants<T(!new)>(g: Digraph<T>, a: T): set<T> {
    set x | x in Nodes(g) && Reaches(g, a, x)
  }

  ghost function Rank<T(!new)>(g: Digraph<T>, a: T): nat {
    |Descendants(g, a)|
  }

  lemma EdgeReaches<T(!new)>(g: Digraph<T>, a: T, b: T)
    requires Edge(g, a, b)
    ensures Reaches(g, a, b)
  {
    assert PathFromTo(g, [a, b], a, b);
  }

  lemma EdgeThenReaches<T(!new)>(g: Digraph<T>, a: T, b: T, c: T)
    requires Edge(g, a, b) && Reaches(g, b, c)
    ensures Reaches(g, a, c)
  {
    var p :| |p| >= 2 && PathFromTo(g, p, b, c);
    var q := [a] + p;
    assert IsPath(g, q) by {
      forall i, j | 0 <= i < |q| - 1 && j == i + 1
        ensures Edge(g, q[i], q[j])
      {
        if i > 0 {
          assert q[i] == p[i - 1] && q[j] == p[j - 1];
        }
      }
    }
    assert PathFromTo(g, q, a, c);
  }

  /** Every path of at least one edge begins with an edge. */
  lemma FirstEdge<T(!new)>(g: Digraph<T>, a: T, c: T) returns (b: T)
    requires Reaches(g, a, c)
    ensures Edge(g, a, b) && (b == c || Reaches(g, b, c))
  {
    var p :| |p| >= 2 && PathFromTo(g, p, a, c);
    b := p[1];
    assert Edge(g, p[0], p[1]);
    if |p| > 2 {
      assert PathFromTo(g, p[1..], b, c);
    }
  }

  lemma {:induction false} ReachesIsNode<T(!new)>(g: Digraph<T>, a: T, c: T)
    requires Reaches(g, a, c)
    ensures c in Nodes(g)
  {
    var p :| |p| >= 2 && PathFromTo(g, p, a, c);
    var i := |p| - 2;
    assert Edge(g, p[i], p[i + 1]);
  }

  /** The rank falls along an edge to a node that is not on a cycle. */
  lemma RankFalls<T(!new)>(g: Digraph<T>, a: T, b: T)
    requires Edge(g, a, b) && !Reaches(g, b, b)
    ensures Rank(g, b) < Rank(g, a)
  {
    EdgeReaches(g, a, b);
    ReachesIsNode(g, a, b);
    forall x | x in Descendants(g, b)
      ensures x in Descendants(g, a)
    {
      EdgeThenReaches(g, a, b, x);
    }
    assert b in Descendants(g, a) && b !in Descendants(g, b);
    ProperSubsetSmaller(Descendants(g, b), Descendants(g, a));
  }

  /** Recursion along the edges of an acyclic graph terminates. */
  lemma RankDecreases<T(!new)>(g: Digraph<T>, a: T, b: T)
    requires Acyclic(g) && Edge(g, a, b)
    ensures Rank(g, b) < Rank(g, a)
  {
    RankFalls(g, a, b);
  }

  lemma ProperSubsetSmaller<T>(a: set<T>, b: set<T>)
    requires a < b
    ensures |a| < |b|
  {
    assert a + (b - a) == b;
    assert |b - a| > 0 by {
      var x :| x in b && x !in a;
      assert x in b - a;
    }
  }
}
