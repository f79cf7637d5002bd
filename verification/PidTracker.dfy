/** The index of process ancestry: which pids were forked by which, and the search for the descendants of a
    pid that were reparented to pid 1. */
module PidTracker {
  import opened Graph

  /** For each pid the children recorded for it, in order of arrival and possibly repeated. */
  type Relations = map<int, seq<int>>

  ghost function Forks(r: Relations): Digraph<int> {
    map p | p in r :: set c | c in r[p]
  }

  function ChildrenOf(r: Relations, pid: int): seq<int> {
    if pid in r then r[pid] else []
  }

  /** r with b recorded as the latest child of a. */
  function Recorded(r: Relations, a: int, b: int): Relations {
    r[a := ChildrenOf(r, a) + [b]]
  }

  /** No process that pid descends to, nor pid itself, is its own ancestor. */
  ghost predicate Sound(r: Relations, pid: int) {
    forall x :: (x == pid || Reaches(Forks(r), pid, x)) ==> !Reaches(Forks(r), x, x)
  }

  /** What a search is for: x descends from pid and is recorded as a child of pid 1. */
  ghost predicate Wanted(r: Relations, pid: int, x: int) {
    Reaches(Forks(r), pid, x) && x in ChildrenOf(r, 1)
  }

  ghost predicate Distinct(s: seq<int>) {
    forall i, j :: 0 <= i < j < |s| ==> s[i] != s[j]
  }

  class Pids {
    var relations: Relations

    constructor ()
      ensures relations == map[]
    {
      relations := map[];
    }

    /** `Add`: -1 stands for a pid that is not known. */
    method Add(parent: int, child: int, infant: int)
      modifies this
      ensures var r := old(relations);
              relations == if child == -1 || (parent == -1 && infant == -1) then r
                           else if infant == -1 then Recorded(r, parent, child)
                           else if parent == -1 then Recorded(r, child, infant)
                           else Recorded(Recorded(r, parent, child), child, infant)
      ensures forall a, b :: Edge(Forks(relations), a, b) <==>
                Edge(old(Forks(relations)), a, b) ||
                (child != -1 && parent != -1 && a == parent && b == child) ||
                (child != -1 && infant != -1 && a == child && b == infant)
    {
      if child == -1 {
        return;
      }
      if parent != -1 {
        relations := Recorded(relations, parent, child);
      }
      if infant != -1 {
        relations := Recorded(relations, child, infant);
      }
    }

    /** `find`, on whatever order the map iterates in: it filters at every level of its recursion, and yet
        the result is plain reachability, filtered once. */
    method Find(pid: int) returns (found: seq<int>)
      requires Sound(relations, pid)
      ensures Distinct(found)
      ensures forall x :: x in found <==> Wanted(relations, pid, x)
      decreases Rank(Forks(relations), pid), 1
    {
      var children: seq<int> := [];
      var left := relations.Items;
      while left != {}
        invariant left <= relations.Items
        invariant Distinct(children)
        invariant pid in relations && (pid, relations[pid]) in left ==> children == []
        invariant pid in relations && (pid, relations[pid]) !in left ==>
                  Gathered(relations, pid, |relations[pid]|, children)
        invariant pid !in relations ==> children == []
        decreases left
      {
        var entry :| entry in left;
        left := left - {entry};
        var (parent, child) := entry;
        if parent == pid {
          children := Gather(pid, child);
        }
      }
      GatheredIsWanted(relations, pid, children);
      found := [];
      for i := 0 to |children|
        invariant Distinct(found)
        invariant forall x :: x in found <==> x in children[..i] && x in ChildrenOf(relations, 1)
      {
        if children[i] in ChildrenOf(relations, 1) {
          found := found + [children[i]];
        }
      }
      assert children[..|children|] == children;
    }

    /** The inner loop of `find`: each child, and whatever the search finds below it. */
    method Gather(pid: int, child: seq<int>) returns (children: seq<int>)
      requires Sound(relations, pid) && pid in relations && child == relations[pid]
      ensures Distinct(children) && Gathered(relations, pid, |relations[pid]|, children)
      decreases Rank(Forks(relations), pid), 0
    {
      children := [];
      for i := 0 to |child|
        invariant Distinct(children) && Gathered(relations, pid, i, children)
      {
        var c := child[i];
        assert Edge(Forks(relations), pid, c);
        SoundBelow(relations, pid, c);
        RankFalls(Forks(relations), pid, c);
        children := Append(children, c);
        var below := Find(c);
        for k := 0 to |below|
          invariant Distinct(children)
          invariant forall x :: x in children <==>
                    x == c || x in below[..k] || FromFirst(relations, pid, i, x)
        {
          children := Append(children, below[k]);
        }
        assert below[..|below|] == below;
      }
    }

    method Append(s: seq<int>, x: int) returns (r: seq<int>)
      requires Distinct(s)
      ensures Distinct(r) && forall y :: y in r <==> y in s || y == x
    {
      r := if x in s then s else s + [x];
    }
  }

  /** x is one of pid's first n children or is wanted below one of them. */
  ghost predicate FromFirst(r: Relations, pid: int, n: nat, x: int)
    requires pid in r && n <= |r[pid]|
  {
    exists i :: 0 <= i < n && (x == r[pid][i] || Wanted(r, r[pid][i], x))
  }

  ghost predicate Gathered(r: Relations, pid: int, n: nat, children: seq<int>)
    requires pid in r && n <= |r[pid]|
  {
    forall x :: x in children <==> FromFirst(r, pid, n, x)
  }

  lemma SoundBelow(r: Relations, pid: int, c: int)
    requires Sound(r, pid) && Edge(Forks(r), pid, c)
    ensures Sound(r, c) && !Reaches(Forks(r), c, c)
  {
    EdgeReaches(Forks(r), pid, c);
    forall x | Reaches(Forks(r), c, x)
      ensures Reaches(Forks(r), pid, x)
    {
      EdgeThenReaches(Forks(r), pid, c, x);
    }
  }

  lemma GatheredIsWanted(r: Relations, pid: int, children: seq<int>)
    requires if pid in r then Gathered(r, pid, |r[pid]|, children) else children == []
    ensures forall x :: Wanted(r, pid, x) <==> x in children && x in ChildrenOf(r, 1)
  {
    forall x | Wanted(r, pid, x)
      ensures x in children
    {
      var c := FirstEdge(Forks(r), pid, x);
      var i :| 0 <= i < |r[pid]| && r[pid][i] == c;
      assert x == r[pid][i] || Wanted(r, r[pid][i], x);
    }
    forall x | x in children && x in ChildrenOf(r, 1)
      ensures Wanted(r, pid, x)
    {
      var i :| 0 <= i < |r[pid]| && (x == r[pid][i] || Wanted(r, r[pid][i], x));
      assert Edge(Forks(r), pid, r[pid][i]);
      EdgeReaches(Forks(r), pid, r[pid][i]);
      if x != r[pid][i] {
        EdgeThenReaches(Forks(r), pid, r[pid][i], x);
      }
    }
  }

  /** What `Add` records is never lost: if the forks of r are among those of r', so is what a search finds. */
  lemma FindOnlyGrows(r: Relations, r': Relations, pid: int, x: int)
    requires forall a, b :: Edge(Forks(r), a, b) ==> Edge(Forks(r'), a, b)
    requires Wanted(r, pid, x)
    ensures Wanted(r', pid, x)
  {
    var p :| |p| >= 2 && PathFromTo(Forks(r), p, pid, x);
    forall i, j | 0 <= i < |p| - 1 && j == i + 1
      ensures Edge(Forks(r'), p[i], p[j])
    {
      assert Edge(Forks(r), p[i], p[j]);
    }
    assert PathFromTo(Forks(r'), p, pid, x);
    assert Edge(Forks(r), 1, x);
    assert Edge(Forks(r'), 1, x);
  }

  /** One chain of nested searches from pid: each searches a child of the one before. */
  ghost predicate CallChain(r: Relations, pid: int, calls: seq<int>) {
    IsPath(Forks(r), calls) && calls[0] == pid
  }

  ghost predicate NestingWithin(r: Relations, pid: int, n: nat) {
    forall calls :: CallChain(r, pid, calls) ==> |calls| <= n
  }

  /** The search returns exactly when its precondition holds: the nesting is bounded if and only if no
      process below pid is its own ancestor. */
  lemma NestingBoundedIff(r: Relations, pid: int)
    ensures (exists n: nat :: NestingWithin(r, pid, n)) <==> Sound(r, pid)
  {
    if Sound(r, pid) {
      forall calls | CallChain(r, pid, calls)
        ensures |calls| <= Rank(Forks(r), pid) + 1
      {
        ChainBounded(r, pid, calls);
      }
      assert NestingWithin(r, pid, Rank(Forks(r), pid) + 1);
    } else {
      var x :| (x == pid || Reaches(Forks(r), pid, x)) && Reaches(Forks(r), x, x);
      forall n: nat
        ensures !NestingWithin(r, pid, n)
      {
        var calls := LongChain(r, pid, x, n);
      }
    }
  }

  lemma {:induction false} ChainBounded(r: Relations, pid: int, calls: seq<int>)
    requires Sound(r, pid) && CallChain(r, pid, calls)
    ensures |calls| <= Rank(Forks(r), pid) + 1
    decreases |calls|
  {
    if |calls| > 1 {
      assert Edge(Forks(r), calls[0], calls[1]);
      SoundBelow(r, pid, calls[1]);
      RankFalls(Forks(r), pid, calls[1]);
      ChainBounded(r, calls[1], calls[1..]);
    }
  }

  /** Going round the cycle as often as it takes. */
  lemma {:induction false} LongChain(r: Relations, pid: int, x: int, n: nat) returns (calls: seq<int>)
    requires x == pid || Reaches(Forks(r), pid, x)
    requires Reaches(Forks(r), x, x)
    ensures CallChain(r, pid, calls) && |calls| > n && calls[|calls| - 1] == x
  {
    if n == 0 {
      if x == pid {
        calls := [x];
      } else {
        calls :| |calls| >= 2 && PathFromTo(Forks(r), calls, pid, x);
      }
    } else {
      var before := LongChain(r, pid, x, n - 1);
      var round :| |round| >= 2 && PathFromTo(Forks(r), round, x, x);
      calls := before + round[1..];
      forall i, j | 0 <= i < |calls| - 1 && j == i + 1
        ensures Edge(Forks(r), calls[i], calls[j])
      {
        if i < |before| - 1 {
          assert Edge(Forks(r), before[i], before[j]);
        } else {
          var k := i - |before| + 1;
          assert calls[i] == round[k] && calls[j] == round[k + 1];
        }
      }
    }
  }
}
