/**
 * The issue-relation graph the scheduler queries. An edge a -> b means
 * "a blocks b": b cannot start until a has ended.
 */
module Graph {
  import opened Common

  /**
   * The relation lookup, for the two relation types the engine uses: the ids
   * an issue blocks ("blocking") and the ids that block it ("blocked_by"),
   * each in relation order. An id without an entry has no relations (the
   * lookup returns undefined).
   */
  datatype Relations = Relations(blocking: map<Id, seq<Id>>, blockedBy: map<Id, seq<Id>>)

  function Successors(r: Relations, id: Id): seq<Id>
  {
    if id in r.blocking then r.blocking[id] else []
  }

  function Predecessors(r: Relations, id: Id): seq<Id>
  {
    if id in r.blockedBy then r.blockedBy[id] else []
  }

  /** a blocks b. */
  predicate Edge(r: Relations, a: Id, b: Id)
  {
    b in Successors(r, a)
  }

  /** Every id the "blocking" relation mentions; a finite universe for the walks. */
  function Nodes(r: Relations): (ns: set<Id>)
    ensures forall a, b | Edge(r, a, b) :: a in ns && b in ns
    ensures forall a, b | b in Successors(r, a) :: b in ns
  {
    r.blocking.Keys + set a, b | a in r.blocking && b in r.blocking[a] :: b
  }

  /** A non-empty sequence of ids, each blocking the next. */
  ghost predicate IsPath(r: Relations, p: seq<Id>)
  {
    |p| >= 1 && forall i | 0 <= i < |p| - 1 :: Edge(r, p[i], p[i + 1])
  }

  /** b is reachable from a along "blocking" edges; a reaches itself. */
  ghost predicate Reachable(r: Relations, a: Id, b: Id)
  {
    exists p :: IsPath(r, p) && p[0] == a && p[|p| - 1] == b
  }

  /** b lies strictly downstream of a: through one of a's direct successors. */
  ghost predicate Downstream(r: Relations, a: Id, b: Id)
  {
    exists d :: Edge(r, a, d) && Reachable(r, d, b)
  }

  /** No path of one edge or more returns to where it started. */
  ghost predicate Acyclic(r: Relations)
  {
    forall p | IsPath(r, p) && |p| >= 2 :: p[0] != p[|p| - 1]
  }

  /**
   * Record a new "a blocks b" relation: b is appended to a's blocking list
   * and a to b's blocked_by list.
   */
  function AddRelation(r: Relations, a: Id, b: Id): (r': Relations)
    ensures forall x, y :: Edge(r', x, y) <==> Edge(r, x, y) || (x == a && y == b)
    ensures forall x | x != a :: Successors(r', x) == Successors(r, x)
    ensures Successors(r', a) == Successors(r, a) + [b]
    ensures Predecessors(r', b) == Predecessors(r, b) + [a]
  {
    Relations(r.blocking[a := Successors(r, a) + [b]], r.blockedBy[b := Predecessors(r, b) + [a]])
  }

  lemma ReachableRefl(r: Relations, a: Id)
    ensures Reachable(r, a, a)
  {
    assert IsPath(r, [a]);
  }

  /** Extending a path by one edge. */
  lemma ReachableStep(r: Relations, a: Id, b: Id, c: Id)
    requires Reachable(r, a, b) && Edge(r, b, c)
    ensures Reachable(r, a, c)
  {
    var p :| IsPath(r, p) && p[0] == a && p[|p| - 1] == b;
    var q := p + [c];
    assert IsPath(r, q);
  }

  /** Prepending one edge to a path. */
  lemma ReachablePrepend(r: Relations, a: Id, b: Id, c: Id)
    requires Edge(r, a, b) && Reachable(r, b, c)
    ensures Reachable(r, a, c)
  {
    var p :| IsPath(r, p) && p[0] == b && p[|p| - 1] == c;
    var q := [a] + p;
    assert IsPath(r, q);
  }

  lemma ReachableTrans(r: Relations, a: Id, b: Id, c: Id)
    requires Reachable(r, a, b) && Reachable(r, b, c)
    ensures Reachable(r, a, c)
  {
    var p :| IsPath(r, p) && p[0] == a && p[|p| - 1] == b;
    var q :| IsPath(r, q) && q[0] == b && q[|q| - 1] == c;
    var pq := p + q[1..];
    assert IsPath(r, pq) by {
      forall i | 0 <= i < |pq| - 1
        ensures Edge(r, pq[i], pq[i + 1])
      {
        if i < |p| - 1 {
          assert pq[i] == p[i] && pq[i + 1] == p[i + 1];
        } else {
          assert pq[i] == q[i - |p| + 1] && pq[i + 1] == q[i - |p| + 2];
        }
      }
    }
  }

  /** A set closed under successors keeps every path that starts inside it. */
  lemma {:induction false} ClosedSetKeepsPaths(r: Relations, s: set<Id>, p: seq<Id>)
    requires forall x, y | x in s && Edge(r, x, y) :: y in s
    requires IsPath(r, p) && p[0] in s
    ensures p[|p| - 1] in s
  {
    if |p| > 1 {
      var q := p[1..];
      assert IsPath(r, q) by {
        forall i | 0 <= i < |q| - 1
          ensures Edge(r, q[i], q[i + 1])
        {
          assert q[i] == p[i + 1] && q[i + 1] == p[i + 2];
        }
      }
      assert Edge(r, p[0], p[1]);
      ClosedSetKeepsPaths(r, s, q);
    }
  }

  lemma ClosedSetNotReachable(r: Relations, s: set<Id>, a: Id, b: Id)
    requires forall x, y | x in s && Edge(r, x, y) :: y in s
    requires a in s && b !in s
    ensures !Reachable(r, a, b)
  {
    if Reachable(r, a, b) {
      var p :| IsPath(r, p) && p[0] == a && p[|p| - 1] == b;
      ClosedSetKeepsPaths(r, s, p);
    }
  }

  /**
   * A path of the graph extended with a -> b either is a path of the old
   * graph, or reaches a from its start and continues from b to its end.
   */
  lemma {:induction false} PathAfterAdd(r: Relations, a: Id, b: Id, p: seq<Id>)
    requires IsPath(AddRelation(r, a, b), p)
    ensures IsPath(r, p) || (Reachable(r, p[0], a) && Reachable(r, b, p[|p| - 1]))
  {
    var r' := AddRelation(r, a, b);
    if |p| > 1 {
      var q := p[1..];
      assert IsPath(r', q) by {
        forall i | 0 <= i < |q| - 1
          ensures Edge(r', q[i], q[i + 1])
        {
          assert q[i] == p[i + 1] && q[i + 1] == p[i + 2];
        }
      }
      PathAfterAdd(r, a, b, q);
      assert Edge(r', p[0], p[1]);
      assert q[|q| - 1] == p[|p| - 1];
      if Edge(r, p[0], p[1]) {
        if IsPath(r, q) {
          assert IsPath(r, p) by {
            forall i | 0 <= i < |p| - 1
              ensures Edge(r, p[i], p[i + 1])
            {
              if i > 0 {
                assert p[i] == q[i - 1] && p[i + 1] == q[i];
              }
            }
          }
        } else {
          ReachablePrepend(r, p[0], q[0], a);
        }
      } else {
        assert p[0] == a && q[0] == b;
        ReachableRefl(r, a);
        if IsPath(r, q) {
          assert Reachable(r, b, p[|p| - 1]);
        }
      }
    } else {
      assert IsPath(r, p);
    }
  }

  /**
   * The guarded insert: adding a -> b to an acyclic graph in which a is not
   * reachable from b leaves the graph acyclic.
   */
  lemma AddRelationKeepsAcyclic(r: Relations, a: Id, b: Id)
    requires Acyclic(r)
    requires !Reachable(r, b, a)
    ensures Acyclic(AddRelation(r, a, b))
  {
    var r' := AddRelation(r, a, b);
    forall p | IsPath(r', p) && |p| >= 2
      ensures p[0] != p[|p| - 1]
    {
      PathAfterAdd(r, a, b, p);
      if p[0] == p[|p| - 1] && !IsPath(r, p) {
        ReachableTrans(r, b, p[|p| - 1], a);
      }
    }
  }

  /** Without the guard the insert can close a cycle: a graph a -> b plus b -> a. */
  lemma UnguardedAddCanCloseCycle()
    ensures var r := Relations(map["a" := ["b"]], map["b" := ["a"]]);
            Acyclic(r) && !Acyclic(AddRelation(r, "b", "a"))
  {
    var r := Relations(map["a" := ["b"]], map["b" := ["a"]]);
    RankedIsAcyclic(r, x => if x == "a" then 0 else 1);
    var r' := AddRelation(r, "b", "a");
    var c := ["a", "b", "a"];
    assert Edge(r', "a", "b") && Edge(r', "b", "a");
    assert IsPath(r', c);
  }

  /** A graph whose edges all increase some rank has no cycle. */
  lemma RankedIsAcyclic(r: Relations, rank: Id -> int)
    requires forall a, b | Edge(r, a, b) :: rank(a) < rank(b)
    ensures Acyclic(r)
  {
    forall p | IsPath(r, p) && |p| >= 2
      ensures p[0] != p[|p| - 1]
    {
      RankIncreasesAlongPath(r, rank, p);
    }
  }

  lemma {:induction false} RankIncreasesAlongPath(r: Relations, rank: Id -> int, p: seq<Id>)
    requires forall a, b | Edge(r, a, b) :: rank(a) < rank(b)
    requires IsPath(r, p) && |p| >= 2
    ensures rank(p[0]) < rank(p[|p| - 1])
  {
    assert Edge(r, p[0], p[1]);
    if |p| > 2 {
      var q := p[1..];
      assert IsPath(r, q) by {
        forall i | 0 <= i < |q| - 1
          ensures Edge(r, q[i], q[i + 1])
        {
          assert q[i] == p[i + 1] && q[i + 1] == p[i + 2];
        }
      }
      RankIncreasesAlongPath(r, rank, q);
    }
  }
}
