/**
 * The dependency scheduler of the timeline: the cycle check run before a
 * "blocking" relation is created, the cascade that pushes blocked issues
 * later when their blocker ends too late, and the clamp that keeps a batch of
 * proposed dates after the direct blockers' ends. Dates are day numbers.
 */
module Scheduler {
  import opened Common
  import opened Graph

  /** An issue's stored dates, as the issue store returns them. */
  datatype Issue = Issue(startDate: Option<Day>, targetDate: Option<Day>)

  // ---------------------------------------------------------------------
  // Cycle check
  // ---------------------------------------------------------------------

  lemma SmallerRemainder(u: set<Id>, a: set<Id>, b: set<Id>, x: Id)
    requires a <= b <= u && x in b && x !in a
    ensures |u - b| < |u - a|
  {
    var d := (u - a) - (u - b);
    assert x in d;
    assert u - a == (u - b) + d;
    assert (u - b) * d == {};
  }

  /** The inner loop of the walk: queue every successor of current not yet visited. */
  method EnqueueUnvisited(r: Relations, current: Id, visited: set<Id>, queue: seq<Id>) returns (queue': seq<Id>)
    ensures forall x | x in queue' :: x in queue || Edge(r, current, x)
    ensures forall x | x in queue :: x in queue'
    ensures forall y | Edge(r, current, y) :: y in visited || y in queue'
  {
    queue' := queue;
    var downstream := Successors(r, current);
    for j := 0 to |downstream|
      invariant forall x | x in queue' :: x in queue || Edge(r, current, x)
      invariant forall x | x in queue :: x in queue'
      invariant forall k | 0 <= k < j :: downstream[k] in visited || downstream[k] in queue'
    {
      var id := downstream[j];
      if id !in visited {
        queue' := queue' + [id];
      }
    }
  }

  /**
   * Whether a new relation srcId blocks tgtId would close a cycle: a
   * breadth-first walk forward from tgtId over existing "blocking" edges,
   * each id expanded at most once, answering true as soon as srcId is dequeued.
   */
  method WouldCreateCycle(r: Relations, srcId: Id, tgtId: Id) returns (cycle: bool)
    ensures cycle <==> Reachable(r, tgtId, srcId)
  {
    var visited: set<Id> := {};
    var queue: seq<Id> := [tgtId];
    ghost var universe := Nodes(r) + {tgtId};
    ReachableRefl(r, tgtId);
    while |queue| > 0
      invariant visited <= universe
      invariant forall x | x in queue :: x in universe
      invariant forall x | x in visited :: Reachable(r, tgtId, x)
      invariant forall x | x in queue :: Reachable(r, tgtId, x)
      invariant srcId !in visited
      invariant tgtId in visited || tgtId in queue
      invariant forall x, y | x in visited && Edge(r, x, y) :: y in visited || y in queue
      decreases |universe - visited|, |queue|
    {
      var current := queue[0];
      assert queue == [current] + queue[1..];
      queue := queue[1..];
      if current == srcId {
        return true;
      }
      if current in visited {
        continue;
      }
      ghost var before := visited;
      visited := visited + {current};
      SmallerRemainder(universe, before, visited, current);
      assert forall x, y | x in before && Edge(r, x, y) :: y in visited || y in queue;
      queue := EnqueueUnvisited(r, current, visited, queue);
      forall x | x in queue
        ensures x in universe && Reachable(r, tgtId, x)
      {
        if Edge(r, current, x) {
          ReachableStep(r, tgtId, current, x);
        }
      }
    }
    ClosedSetNotReachable(r, visited, tgtId, srcId);
    return false;
  }

  // ---------------------------------------------------------------------
  // Cascade
  // ---------------------------------------------------------------------

  /**
   * u moves an existing, dated issue strictly later and keeps its duration:
   * the end is present exactly when the stored end is, and moves by the same
   * number of days as the start.
   */
  predicate ForwardShift(issues: map<Id, Issue>, u: DatePatch)
  {
    && u.id in issues
    && issues[u.id].startDate.Some?
    && u.startDate.Some?
    && u.startDate.value > issues[u.id].startDate.value
    && (u.targetDate.Some? <==> issues[u.id].targetDate.Some?)
    && (u.targetDate.Some? ==>
          u.targetDate.value - u.startDate.value
          == issues[u.id].targetDate.value - issues[u.id].startDate.value)
  }

  /** No two patches of the batch name the same issue. */
  predicate DistinctIds(us: seq<DatePatch>)
  {
    forall i, j | 0 <= i < j < |us| :: us[i].id != us[j].id
  }

  /**
   * A source's end as the cascade sees it: the end it was shifted to earlier
   * in the same cascade (or, for the start block, the override end seeded
   * before the walk), otherwise its stored end.
   */
  function EffectiveEnd(issues: map<Id, Issue>, shifted: map<Id, Day>, src: Id): Option<Day>
    requires src in issues
  {
    if src in shifted then Some(shifted[src]) else issues[src].targetDate
  }

  /**
   * What examining the edge src -> tgt yields: no patch when either issue is
   * unknown, the source's effective end or the target's start is missing, or
   * the target already starts strictly after that end; otherwise the target
   * starts the day after that end and keeps its duration.
   */
  function EdgeShift(issues: map<Id, Issue>, shifted: map<Id, Day>, src: Id, tgt: Id): (u: Option<DatePatch>)
    ensures u.None? <==>
      || src !in issues || tgt !in issues
      || EffectiveEnd(issues, shifted, src).None?
      || issues[tgt].startDate.None?
      || issues[tgt].startDate.value > EffectiveEnd(issues, shifted, src).value
    ensures u.Some? ==>
      && u.value.id == tgt
      && ForwardShift(issues, u.value)
      && u.value.startDate == Some(EffectiveEnd(issues, shifted, src).value + 1)
  {
    if src !in issues || tgt !in issues then None
    else
      var srcEnd := EffectiveEnd(issues, shifted, src);
      var tgtStart := issues[tgt].startDate;
      if srcEnd.None? || tgtStart.None? then None
      else if tgtStart.value > srcEnd.value then None
      else
        var newStart := srcEnd.value + 1;
        var shift := newStart - tgtStart.value;
        var newEnd := match issues[tgt].targetDate
          case Some(e) => Some(e + shift)
          case None => None;
        Some(DatePatch(tgt, Some(newStart), newEnd))
  }

  /**
   * What the walk's state keeps true: at most one patch per issue, every
   * patched issue already visited and moved forward with its duration, and
   * every patched end recorded as that issue's shifted end.
   */
  predicate CascadeState(issues: map<Id, Issue>, visited: set<Id>, shifted: map<Id, Day>, updates: seq<DatePatch>)
  {
    && DistinctIds(updates)
    && (forall u | u in updates :: u.id in visited && ForwardShift(issues, u))
    && (forall u | u in updates && u.targetDate.Some? :: u.id in shifted && shifted[u.id] == u.targetDate.value)
  }

  /** The shifted-end map the cascade starts from. */
  function Seed(startSrc: Id, overrideEnd: Option<Day>): map<Id, Day>
  {
    if overrideEnd.Some? then map[startSrc := overrideEnd.value] else map[]
  }

  lemma NoLargerRemainder(u: set<Id>, a: set<Id>, b: set<Id>)
    requires a <= b
    ensures |u - b| <= |u - a|
  {
    assert u - a == (u - b) + ((u - a) - (u - b));
  }

  lemma DownstreamIsReachable(r: Relations, a: Id, b: Id)
    requires Downstream(r, a, b)
    ensures Reachable(r, a, b)
  {
    var d :| Edge(r, a, d) && Reachable(r, d, b);
    ReachablePrepend(r, a, d, b);
  }

  // ---------------------------------------------------------------------
  // The cascade as a function: the reference the walk's methods follow
  // ---------------------------------------------------------------------

  /** The walk's state: the ids examined, the ends shifted so far, the patches in order. */
  datatype Walk = Walk(visited: set<Id>, shifted: map<Id, Day>, updates: seq<DatePatch>)

  /** The shifted-end map after patch u: its end recorded when it has one. */
  function Record(shifted: map<Id, Day>, u: DatePatch): map<Id, Day>
  {
    if u.targetDate.Some? then shifted[u.id := u.targetDate.value] else shifted
  }

  lemma SnocPrefix(a: seq<DatePatch>, u: DatePatch, b: seq<DatePatch>)
    requires |a| + 1 <= |b| && b[..|a| + 1] == a + [u]
    ensures b[..|a|] == a && b[|a|] == u
  {
    assert b[..|a|] == b[..|a| + 1][..|a|];
    assert b[|a|] == b[..|a| + 1][|a|];
  }

  /**
   * What examining src -> tgt does to the walk: nothing for a visited
   * target; otherwise the target is marked, and when the edge shifts it,
   * its patch is appended and all of its successors are walked in turn.
   * universe bounds the ids the walk can visit.
   */
  function EdgeWalk(r: Relations, issues: map<Id, Issue>, src: Id, tgt: Id, universe: set<Id>, w: Walk): (w': Walk)
    requires Nodes(r) <= universe && tgt in universe && w.visited <= universe
    ensures w.visited <= w'.visited <= universe && tgt in w'.visited
    ensures |w.updates| <= |w'.updates| && w'.updates[..|w.updates|] == w.updates
    ensures tgt in w.visited ==> w' == w
    ensures tgt !in w.visited && EdgeShift(issues, w.shifted, src, tgt).None? ==>
      w' == w.(visited := w.visited + {tgt})
    ensures tgt !in w.visited && EdgeShift(issues, w.shifted, src, tgt).Some? ==>
      |w'.updates| > |w.updates| && w'.updates[|w.updates|] == EdgeShift(issues, w.shifted, src, tgt).value
    decreases |universe - w.visited|, 0
  {
    if tgt in w.visited then w
    else
      var marked := w.visited + {tgt};
      var shift := EdgeShift(issues, w.shifted, src, tgt);
      if shift.None? then w.(visited := marked)
      else
        var u := shift.value;
        SmallerRemainder(universe, w.visited, marked, tgt);
        var w' := SuccsWalk(r, issues, tgt, Successors(r, tgt), universe, Walk(marked, Record(w.shifted, u), w.updates + [u]));
        SnocPrefix(w.updates, u, w'.updates);
        w'
  }

  /** Examine the edges from src to each of succs, in order, threading the walk. */
  function SuccsWalk(r: Relations, issues: map<Id, Issue>, src: Id, succs: seq<Id>, universe: set<Id>, w: Walk): (w': Walk)
    requires Nodes(r) <= universe && w.visited <= universe
    requires forall d | d in succs :: d in universe
    ensures w.visited <= w'.visited <= universe
    ensures forall d | d in succs :: d in w'.visited
    ensures |w.updates| <= |w'.updates| && w'.updates[..|w.updates|] == w.updates
    decreases |universe - w.visited|, 1, |succs|
  {
    if succs == [] then w
    else
      var w1 := EdgeWalk(r, issues, src, succs[0], universe, w);
      NoLargerRemainder(universe, w.visited, w1.visited);
      var w' := SuccsWalk(r, issues, src, succs[1..], universe, w1);
      assert w'.updates[..|w.updates|] == w'.updates[..|w1.updates|][..|w.updates|];
      w'
  }

  /** The ids a cascade can visit: every related id, and the start target. */
  function Universe(r: Relations, startTgt: Option<Id>): (u: set<Id>)
    ensures Nodes(r) <= u
  {
    Nodes(r) + (if startTgt.Some? then {startTgt.value} else {})
  }

  /**
   * The patches collectCascadeUpdates returns: the walk of the single edge
   * startSrc -> startTgt when a (truthy) target is given, otherwise of every
   * edge out of startSrc, from the seeded shifted-end map.
   */
  function Cascade(r: Relations, issues: map<Id, Issue>, startSrc: Id, startTgt: Option<Id>, overrideEnd: Option<Day>)
    : (updates: seq<DatePatch>)
    ensures HasTarget(startTgt) ==>
      (updates == [] <==> EdgeShift(issues, Seed(startSrc, overrideEnd), startSrc, startTgt.value).None?)
  {
    var w := Walk({}, Seed(startSrc, overrideEnd), []);
    if HasTarget(startTgt) then
      EdgeWalk(r, issues, startSrc, startTgt.value, Universe(r, startTgt), w).updates
    else
      SuccsWalk(r, issues, startSrc, Successors(r, startSrc), Universe(r, startTgt), w).updates
  }

  /** When no edge of succs shifts its (unvisited) target, the walk only marks targets. */
  lemma {:induction false} SuccsWalkQuiet(r: Relations, issues: map<Id, Issue>, src: Id, succs: seq<Id>,
                                          universe: set<Id>, w: Walk)
    requires Nodes(r) <= universe && w.visited <= universe
    requires forall d | d in succs :: d in universe
    requires forall d | d in succs :: d in w.visited || EdgeShift(issues, w.shifted, src, d).None?
    ensures SuccsWalk(r, issues, src, succs, universe, w).updates == w.updates
    ensures SuccsWalk(r, issues, src, succs, universe, w).shifted == w.shifted
    decreases |succs|
  {
    if succs != [] {
      var w1 := EdgeWalk(r, issues, src, succs[0], universe, w);
      assert w1.shifted == w.shifted && w1.updates == w.updates;
      SuccsWalkQuiet(r, issues, src, succs[1..], universe, w1);
    }
  }

  /**
   * Every edge of succs is examined: when one of them would shift its
   * target, unvisited at the start, the walk appends at least one patch.
   */
  lemma {:induction false} SuccsWalkGrows(r: Relations, issues: map<Id, Issue>, src: Id, succs: seq<Id>,
                                          universe: set<Id>, w: Walk, d: Id)
    requires Nodes(r) <= universe && w.visited <= universe
    requires forall x | x in succs :: x in universe
    requires d in succs && d !in w.visited && EdgeShift(issues, w.shifted, src, d).Some?
    ensures |SuccsWalk(r, issues, src, succs, universe, w).updates| > |w.updates|
    decreases |succs|
  {
    var h := succs[0];
    var w1 := EdgeWalk(r, issues, src, h, universe, w);
    if h !in w.visited && EdgeShift(issues, w.shifted, src, h).Some? {
      assert |w1.updates| > |w.updates|;
    } else {
      assert w1 == w.(visited := w.visited + {h});
      assert d in succs[1..];
      SuccsWalkGrows(r, issues, src, succs[1..], universe, w1, d);
    }
  }

  /**
   * The cascade goes past a shifted target: when one of its successors,
   * not yet visited, would in turn be shifted by the target's new end, the
   * walk appends a second patch after the target's own.
   */
  lemma ShiftedTargetPropagates(r: Relations, issues: map<Id, Issue>, src: Id, tgt: Id, universe: set<Id>,
                                w: Walk, d: Id)
    requires Nodes(r) <= universe && tgt in universe && w.visited <= universe
    requires tgt !in w.visited && EdgeShift(issues, w.shifted, src, tgt).Some?
    requires d in Successors(r, tgt) && d !in w.visited && d != tgt
    requires EdgeShift(issues, Record(w.shifted, EdgeShift(issues, w.shifted, src, tgt).value), tgt, d).Some?
    ensures |EdgeWalk(r, issues, src, tgt, universe, w).updates| >= |w.updates| + 2
  {
    var u := EdgeShift(issues, w.shifted, src, tgt).value;
    var w1 := Walk(w.visited + {tgt}, Record(w.shifted, u), w.updates + [u]);
    SuccsWalkGrows(r, issues, tgt, Successors(r, tgt), universe, w1, d);
  }

  /** A fan-out is empty exactly when no direct successor's edge shifts it from the seeded ends. */
  lemma FanOutEmptyIff(r: Relations, issues: map<Id, Issue>, startSrc: Id, startTgt: Option<Id>, overrideEnd: Option<Day>)
    requires !HasTarget(startTgt)
    ensures Cascade(r, issues, startSrc, startTgt, overrideEnd) == [] <==>
      forall d | d in Successors(r, startSrc) :: EdgeShift(issues, Seed(startSrc, overrideEnd), startSrc, d).None?
  {
    var w := Walk({}, Seed(startSrc, overrideEnd), []);
    if forall d | d in Successors(r, startSrc) :: EdgeShift(issues, Seed(startSrc, overrideEnd), startSrc, d).None? {
      SuccsWalkQuiet(r, issues, startSrc, Successors(r, startSrc), Universe(r, startTgt), w);
    } else {
      var d :| d in Successors(r, startSrc) && EdgeShift(issues, Seed(startSrc, overrideEnd), startSrc, d).Some?;
      SuccsWalkGrows(r, issues, startSrc, Successors(r, startSrc), Universe(r, startTgt), w, d);
    }
  }

  /**
   * A shift travels past the target: when the target is shifted and one of
   * its own successors would be shifted by the target's new end, the cascade
   * patches at least two issues.
   */
  lemma CascadePropagates(r: Relations, issues: map<Id, Issue>, startSrc: Id, startTgt: Option<Id>,
                          overrideEnd: Option<Day>, d: Id)
    requires HasTarget(startTgt)
    requires EdgeShift(issues, Seed(startSrc, overrideEnd), startSrc, startTgt.value).Some?
    requires d in Successors(r, startTgt.value) && d != startTgt.value
    requires EdgeShift(issues, Record(Seed(startSrc, overrideEnd),
                                      EdgeShift(issues, Seed(startSrc, overrideEnd), startSrc, startTgt.value).value),
                       startTgt.value, d).Some?
    ensures |Cascade(r, issues, startSrc, startTgt, overrideEnd)| >= 2
  {
    ShiftedTargetPropagates(r, issues, startSrc, startTgt.value, Universe(r, startTgt),
                            Walk({}, Seed(startSrc, overrideEnd), []), d);
  }

  /** A -> B -> C: linking A before B shifts B past A's end, and C past B's new end. */
  lemma CascadeShiftsChain()
    ensures var r := Relations(map["A" := ["B"], "B" := ["C"]], map["B" := ["A"], "C" := ["B"]]);
            var issues := map["A" := Issue(Some(0), Some(5)), "B" := Issue(Some(3), Some(7)),
                              "C" := Issue(Some(6), Some(8))];
            Cascade(r, issues, "A", Some("B"), None)
              == [DatePatch("B", Some(6), Some(10)), DatePatch("C", Some(11), Some(13))]
  {
    var r := Relations(map["A" := ["B"], "B" := ["C"]], map["B" := ["A"], "C" := ["B"]]);
    var issues := map["A" := Issue(Some(0), Some(5)), "B" := Issue(Some(3), Some(7)),
                      "C" := Issue(Some(6), Some(8))];
    var universe := Universe(r, Some("B"));
    var b := DatePatch("B", Some(6), Some(10));
    var c := DatePatch("C", Some(11), Some(13));
    assert EdgeShift(issues, map[], "A", "B") == Some(b);
    var w1 := Walk({"B"}, map["B" := 10], [b]);
    assert EdgeShift(issues, w1.shifted, "B", "C") == Some(c);
    var w2 := Walk({"B", "C"}, map["B" := 10, "C" := 13], [b, c]);
    assert EdgeWalk(r, issues, "B", "C", universe, w1) == SuccsWalk(r, issues, "C", [], universe, w2) == w2;
    assert SuccsWalk(r, issues, "B", ["C"], universe, w1) == SuccsWalk(r, issues, "B", [], universe, w2);
    assert Successors(r, "B") == ["C"] && Successors(r, "C") == [];
    assert Record(map[], b) == w1.shifted && {} + {"B"} == w1.visited && [] + [b] == w1.updates;
    assert EdgeWalk(r, issues, "A", "B", universe, Walk({}, map[], []))
        == SuccsWalk(r, issues, "B", ["C"], universe, w1);
    assert EdgeWalk(r, issues, "A", "B", universe, Walk({}, map[], [])) == w2;
  }

  /**
   * A target reached first through a path that does not shift it is marked
   * visited and never re-examined. Linking A before P shifts P, then X; D is
   * reached from X (which has no end) before the edge P -> D, which with P's
   * new end would shift D. So D stays unpatched.
   */
  lemma CascadeSkipsTargetReachedFirst()
    ensures var r := Relations(map["A" := ["P"], "P" := ["X", "D"], "X" := ["D"]],
                               map["P" := ["A"], "X" := ["P"], "D" := ["P", "X"]]);
            var issues := map["A" := Issue(Some(0), Some(5)), "P" := Issue(Some(3), Some(7)),
                              "X" := Issue(Some(3), None), "D" := Issue(Some(4), Some(6))];
            && Cascade(r, issues, "A", Some("P"), None)
                 == [DatePatch("P", Some(6), Some(10)), DatePatch("X", Some(11), None)]
            && "D" in Successors(r, "P")
            && EdgeShift(issues, map["P" := 10], "P", "D") == Some(DatePatch("D", Some(11), Some(13)))
  {
    var r := Relations(map["A" := ["P"], "P" := ["X", "D"], "X" := ["D"]],
                       map["P" := ["A"], "X" := ["P"], "D" := ["P", "X"]]);
    var issues := map["A" := Issue(Some(0), Some(5)), "P" := Issue(Some(3), Some(7)),
                      "X" := Issue(Some(3), None), "D" := Issue(Some(4), Some(6))];
    var universe := Universe(r, Some("P"));
    var p := DatePatch("P", Some(6), Some(10));
    var x := DatePatch("X", Some(11), None);
    assert Successors(r, "P") == ["X", "D"] && Successors(r, "X") == ["D"];
    assert EdgeShift(issues, map[], "A", "P") == Some(p);
    var w1 := Walk({"P"}, map["P" := 10], [p]);
    assert Record(map[], p) == w1.shifted && {} + {"P"} == w1.visited && [] + [p] == w1.updates;
    assert EdgeShift(issues, w1.shifted, "P", "X") == Some(x);
    var w2 := Walk({"P", "X"}, map["P" := 10], [p, x]);
    assert Record(w1.shifted, x) == w2.shifted && w1.visited + {"X"} == w2.visited && w1.updates + [x] == w2.updates;
    assert EdgeShift(issues, w2.shifted, "X", "D").None?;
    var w3 := Walk({"P", "X", "D"}, map["P" := 10], [p, x]);
    assert EdgeWalk(r, issues, "X", "D", universe, w2) == w3;
    assert SuccsWalk(r, issues, "X", ["D"], universe, w2) == SuccsWalk(r, issues, "X", [], universe, w3);
    assert EdgeWalk(r, issues, "P", "X", universe, w1) == SuccsWalk(r, issues, "X", ["D"], universe, w2);
    assert EdgeWalk(r, issues, "P", "D", universe, w3) == w3;
    assert SuccsWalk(r, issues, "P", ["D"], universe, w3) == SuccsWalk(r, issues, "P", [], universe, w3);
    assert SuccsWalk(r, issues, "P", ["X", "D"], universe, w1) == SuccsWalk(r, issues, "P", ["D"], universe, w3);
    assert EdgeWalk(r, issues, "A", "P", universe, Walk({}, map[], []))
        == SuccsWalk(r, issues, "P", ["X", "D"], universe, w1);
  }

  /**
   * processEdge: examine src -> tgt once. The target is marked visited
   * before it is examined; when it is shifted, its patch is recorded and the
   * walk descends into all of its "blocking" successors.
   */
  method ProcessEdge(r: Relations, issues: map<Id, Issue>, src: Id, tgt: Id, ghost universe: set<Id>,
                     visited: set<Id>, shifted: map<Id, Day>, updates: seq<DatePatch>)
    returns (visited': set<Id>, shifted': map<Id, Day>, updates': seq<DatePatch>)
    requires Nodes(r) <= universe && tgt in universe && visited <= universe
    requires CascadeState(issues, visited, shifted, updates)
    ensures CascadeState(issues, visited', shifted', updates')
    ensures visited <= visited' <= universe && tgt in visited'
    ensures |updates| <= |updates'| && updates'[..|updates|] == updates
    ensures forall i | |updates| <= i < |updates'| :: Reachable(r, tgt, updates'[i].id)
    ensures tgt in visited ==> visited' == visited && shifted' == shifted && updates' == updates
    ensures tgt !in visited && EdgeShift(issues, shifted, src, tgt).None? ==>
      visited' == visited + {tgt} && shifted' == shifted && updates' == updates
    ensures tgt !in visited && EdgeShift(issues, shifted, src, tgt).Some? ==>
      && |updates'| > |updates|
      && updates'[|updates|] == EdgeShift(issues, shifted, src, tgt).value
      && (forall d | d in Successors(r, tgt) :: d in visited')
    ensures Walk(visited', shifted', updates') == EdgeWalk(r, issues, src, tgt, universe, Walk(visited, shifted, updates))
    decreases |universe - visited|, 0
  {
    if tgt in visited {
      return visited, shifted, updates;
    }
    visited', shifted', updates' := visited + {tgt}, shifted, updates;
    var shift := EdgeShift(issues, shifted, src, tgt);
    if shift.None? {
      return;
    }
    var u := shift.value;
    if u.targetDate.Some? {
      shifted' := shifted'[tgt := u.targetDate.value];
    }
    assert shifted' == Record(shifted, u);
    updates' := updates' + [u];
    ghost var marked := visited';
    SmallerRemainder(universe, visited, marked, tgt);
    visited', shifted', updates' := Descend(r, issues, tgt, universe, visited', shifted', updates');
    DescentExtends(r, tgt, u, updates, updates');
  }

  /** The patches after a shifted target: its own first, then ones for nodes below it. */
  lemma DescentExtends(r: Relations, tgt: Id, u: DatePatch, updates: seq<DatePatch>, after: seq<DatePatch>)
    requires u.id == tgt
    requires |updates| + 1 <= |after| && after[..|updates| + 1] == updates + [u]
    requires forall i | |updates| + 1 <= i < |after| :: Downstream(r, tgt, after[i].id)
    ensures after[..|updates|] == updates && after[|updates|] == u
    ensures forall i | |updates| <= i < |after| :: Reachable(r, tgt, after[i].id)
  {
    assert after[..|updates|] == after[..|updates| + 1][..|updates|];
    assert after[|updates|] == after[..|updates| + 1][|updates|];
    ReachableRefl(r, tgt);
    forall i | |updates| <= i < |after|
      ensures Reachable(r, tgt, after[i].id)
    {
      if i > |updates| {
        DownstreamIsReachable(r, tgt, after[i].id);
      }
    }
  }

  /**
   * Examine the edges from src to each of its "blocking" successors, in
   * relation order: the descent below a shifted target, and the fan-out of
   * a cascade started without a target.
   */
  method Descend(r: Relations, issues: map<Id, Issue>, src: Id, ghost universe: set<Id>,
                 visited: set<Id>, shifted: map<Id, Day>, updates: seq<DatePatch>)
    returns (visited': set<Id>, shifted': map<Id, Day>, updates': seq<DatePatch>)
    requires Nodes(r) <= universe && visited <= universe
    requires CascadeState(issues, visited, shifted, updates)
    ensures CascadeState(issues, visited', shifted', updates')
    ensures visited <= visited' <= universe
    ensures forall d | d in Successors(r, src) :: d in visited'
    ensures |updates| <= |updates'| && updates'[..|updates|] == updates
    ensures forall i | |updates| <= i < |updates'| :: Downstream(r, src, updates'[i].id)
    ensures Walk(visited', shifted', updates') == SuccsWalk(r, issues, src, Successors(r, src), universe, Walk(visited, shifted, updates))
    decreases |universe - visited|, 1
  {
    visited', shifted', updates' := visited, shifted, updates;
    var downstream := Successors(r, src);
    for j := 0 to |downstream|
      invariant CascadeState(issues, visited', shifted', updates')
      invariant visited <= visited' <= universe
      invariant SuccsWalk(r, issues, src, downstream[j..], universe, Walk(visited', shifted', updates'))
                == SuccsWalk(r, issues, src, downstream, universe, Walk(visited, shifted, updates))
      invariant |updates| <= |updates'| && updates'[..|updates|] == updates
      invariant forall i | |updates| <= i < |updates'| :: Downstream(r, src, updates'[i].id)
      invariant forall k | 0 <= k < j :: downstream[k] in visited'
    {
      var d := downstream[j];
      assert Edge(r, src, d);
      NoLargerRemainder(universe, visited, visited');
      ghost var prev := updates';
      ghost var w := Walk(visited', shifted', updates');
      visited', shifted', updates' := ProcessEdge(r, issues, src, d, universe, visited', shifted', updates');
      SuccsWalkStep(r, issues, src, downstream, j, universe, w, Walk(visited', shifted', updates'));
      DescentStep(r, src, d, updates, prev, updates');
    }
  }

  /** Walking succs from index j equals examining succs[j], then walking from j + 1. */
  lemma SuccsWalkStep(r: Relations, issues: map<Id, Issue>, src: Id, succs: seq<Id>, j: nat, universe: set<Id>,
                      w: Walk, w': Walk)
    requires Nodes(r) <= universe && w.visited <= universe
    requires forall d | d in succs :: d in universe
    requires j < |succs|
    requires w' == EdgeWalk(r, issues, src, succs[j], universe, w)
    ensures forall d | d in succs[j + 1..] :: d in universe
    ensures SuccsWalk(r, issues, src, succs[j..], universe, w) == SuccsWalk(r, issues, src, succs[j + 1..], universe, w')
  {
    assert succs[j..][1..] == succs[j + 1..];
  }

  /** One edge of a descent keeps the earlier patches and adds only patches downstream of src. */
  lemma DescentStep(r: Relations, src: Id, d: Id, updates: seq<DatePatch>, prev: seq<DatePatch>, after: seq<DatePatch>)
    requires Edge(r, src, d)
    requires |updates| <= |prev| && prev[..|updates|] == updates
    requires forall i | |updates| <= i < |prev| :: Downstream(r, src, prev[i].id)
    requires |prev| <= |after| && after[..|prev|] == prev
    requires forall i | |prev| <= i < |after| :: Reachable(r, d, after[i].id)
    ensures |updates| <= |after| && after[..|updates|] == updates
    ensures forall i | |updates| <= i < |after| :: Downstream(r, src, after[i].id)
  {
    assert after[..|updates|] == after[..|prev|][..|updates|];
    forall i | |updates| <= i < |after|
      ensures Downstream(r, src, after[i].id)
    {
      if i < |prev| {
        assert after[i] == after[..|prev|][i];
      }
    }
  }

  /** A target id the cascade follows: present and not the empty string (which is falsy). */
  predicate HasTarget(startTgt: Option<Id>)
  {
    startTgt.Some? && startTgt.value != ""
  }

  /**
   * collectCascadeUpdates: the date patches needed after startSrc's end
   * moved. With a target it examines the single edge startSrc -> startTgt;
   * without one it examines every direct successor of startSrc, in relation
   * order. overrideEnd, when given, stands for startSrc's end.
   */
  method CollectCascadeUpdates(r: Relations, issues: map<Id, Issue>, startSrc: Id, startTgt: Option<Id>,
                               overrideEnd: Option<Day>)
    returns (updates: seq<DatePatch>)
    ensures DistinctIds(updates)
    ensures forall u | u in updates :: ForwardShift(issues, u)
    ensures HasTarget(startTgt) ==> forall u | u in updates :: Reachable(r, startTgt.value, u.id)
    ensures !HasTarget(startTgt) ==> forall u | u in updates :: Downstream(r, startSrc, u.id)
    ensures HasTarget(startTgt) ==>
      (updates == [] <==> EdgeShift(issues, Seed(startSrc, overrideEnd), startSrc, startTgt.value).None?)
    ensures HasTarget(startTgt) && updates != [] ==>
      updates[0] == EdgeShift(issues, Seed(startSrc, overrideEnd), startSrc, startTgt.value).value
    ensures !HasTarget(startTgt) ==>
      (updates == [] <==>
       forall d | d in Successors(r, startSrc) :: EdgeShift(issues, Seed(startSrc, overrideEnd), startSrc, d).None?)
    ensures updates == Cascade(r, issues, startSrc, startTgt, overrideEnd)
  {
    var shifted := Seed(startSrc, overrideEnd);
    ghost var universe := Universe(r, startTgt);
    var visited: set<Id> := {};
    updates := [];
    if HasTarget(startTgt) {
      visited, shifted, updates := ProcessEdge(r, issues, startSrc, startTgt.value, universe, visited, shifted, updates);
      forall u | u in updates
        ensures Reachable(r, startTgt.value, u.id)
      {
        var i :| 0 <= i < |updates| && updates[i] == u;
      }
    } else {
      visited, shifted, updates := Descend(r, issues, startSrc, universe, visited, shifted, updates);
      forall u | u in updates
        ensures Downstream(r, startSrc, u.id)
      {
        var i :| 0 <= i < |updates| && updates[i] == u;
      }
      FanOutEmptyIff(r, issues, startSrc, startTgt, overrideEnd);
    }
  }

  /**
   * autoSchedule, called once "blocking blocks blocked" has been created: the
   * batch of date updates it submits (an empty batch sends no request).
   */
  method AutoSchedule(r: Relations, issues: map<Id, Issue>, blocking: Id, blocked: Id)
    returns (batch: seq<DatePatch>)
    ensures DistinctIds(batch)
    ensures forall u | u in batch :: ForwardShift(issues, u)
    ensures blocked != "" ==> forall u | u in batch :: Reachable(r, blocked, u.id)
    ensures blocked != "" ==> (batch == [] <==> EdgeShift(issues, map[], blocking, blocked).None?)
    ensures blocked == "" ==> forall u | u in batch :: Downstream(r, blocking, u.id)
    ensures blocked == "" ==>
      (batch == [] <==> forall d | d in Successors(r, blocking) :: EdgeShift(issues, map[], blocking, d).None?)
    ensures batch == Cascade(r, issues, blocking, Some(blocked), None)
  {
    batch := CollectCascadeUpdates(r, issues, blocking, Some(blocked), None);
  }

  /**
   * cascadeFromBlock, called after a block was moved or resized: every issue
   * it shifts lies strictly downstream of the moved block.
   */
  method CascadeFromBlock(r: Relations, issues: map<Id, Issue>, blockId: Id, newTargetDate: Option<Day>)
    returns (batch: seq<DatePatch>)
    ensures DistinctIds(batch)
    ensures forall u | u in batch :: ForwardShift(issues, u) && Downstream(r, blockId, u.id)
    ensures batch == [] <==>
      forall d | d in Successors(r, blockId) :: EdgeShift(issues, Seed(blockId, newTargetDate), blockId, d).None?
    ensures batch == Cascade(r, issues, blockId, None, newTargetDate)
  {
    batch := CollectCascadeUpdates(r, issues, blockId, None, newTargetDate);
  }

  // ---------------------------------------------------------------------
  // Blocked-by constraint
  // ---------------------------------------------------------------------

  /** A blocker's end date, when the blocker is known and has one. */
  function BlockerEnd(issues: map<Id, Issue>, id: Id): Option<Day>
  {
    if id in issues then issues[id].targetDate else None
  }

  /** One step of the scan: a strictly later end replaces the latest so far. */
  function Later(latest: Option<Day>, e: Option<Day>): Option<Day>
  {
    if e.None? then latest
    else if latest.None? || e.value > latest.value then e
    else latest
  }

  /** The latest end among the blockers, scanned in relation order. */
  function LatestEnd(issues: map<Id, Issue>, blockers: seq<Id>): Option<Day>
  {
    if blockers == [] then None
    else Later(LatestEnd(issues, blockers[..|blockers| - 1]), BlockerEnd(issues, blockers[|blockers| - 1]))
  }

  /** LatestEnd is the maximum of the known blocker ends, and absent exactly when there are none. */
  lemma {:induction false} LatestEndIsMax(issues: map<Id, Issue>, blockers: seq<Id>)
    ensures LatestEnd(issues, blockers).None? <==> forall b | b in blockers :: BlockerEnd(issues, b).None?
    ensures forall b | b in blockers && BlockerEnd(issues, b).Some? ::
      LatestEnd(issues, blockers).Some? && BlockerEnd(issues, b).value <= LatestEnd(issues, blockers).value
    ensures LatestEnd(issues, blockers).Some? ==>
      exists b | b in blockers :: BlockerEnd(issues, b) == LatestEnd(issues, blockers)
  {
    if blockers != [] {
      var init := blockers[..|blockers| - 1];
      var last := blockers[|blockers| - 1];
      assert blockers == init + [last];
      LatestEndIsMax(issues, init);
      if LatestEnd(issues, init).Some? && LatestEnd(issues, blockers) == LatestEnd(issues, init) {
        var b :| b in init && BlockerEnd(issues, b) == LatestEnd(issues, init);
        assert b in blockers;
      }
    }
  }

  /** The scan of enforceBlockedByConstraint over one patch's direct blockers. */
  method LatestBlockerEnd(r: Relations, issues: map<Id, Issue>, id: Id) returns (latest: Option<Day>)
    ensures latest == LatestEnd(issues, Predecessors(r, id))
  {
    var blockerIds := Predecessors(r, id);
    latest := None;
    for k := 0 to |blockerIds|
      invariant latest == LatestEnd(issues, blockerIds[..k])
    {
      assert blockerIds[..k + 1][..k] == blockerIds[..k];
      var blocker := blockerIds[k];
      if blocker in issues && issues[blocker].targetDate.Some? {
        var blockerEnd := issues[blocker].targetDate.value;
        if latest.None? || blockerEnd > latest.value {
          latest := Some(blockerEnd);
        }
      }
    }
    assert blockerIds[..|blockerIds|] == blockerIds;
  }

  /**
   * One proposed patch after the clamp: unchanged without a start, without a
   * blocker end, or when it already starts on or after the day after the
   * latest blocker end; otherwise it starts that day and its end, when
   * present, moves by the same number of days.
   */
  function Clamp(u: DatePatch, latest: Option<Day>): (c: DatePatch)
    ensures c.id == u.id
    ensures (c.startDate.Some? <==> u.startDate.Some?) && (c.targetDate.Some? <==> u.targetDate.Some?)
    ensures u.startDate.None? || latest.None? || u.startDate.value >= latest.value + 1 ==> c == u
    ensures u.startDate.Some? && latest.Some? ==>
      c.startDate.value >= latest.value + 1 && c.startDate.value >= u.startDate.value
    ensures c != u ==>
      && c.startDate == Some(latest.value + 1)
      && (c.targetDate.Some? ==>
            c.targetDate.value - c.startDate.value == u.targetDate.value - u.startDate.value)
  {
    if u.startDate.None? || latest.None? then u
    else
      var minStart := latest.value + 1;
      if u.startDate.value >= minStart then u
      else
        var newEnd := match u.targetDate
          case Some(e) => Some(minStart + (e - u.startDate.value))
          case None => None;
        DatePatch(u.id, Some(minStart), newEnd)
  }

  /**
   * enforceBlockedByConstraint: the batch, in the same order, each patch
   * clamped against its own direct blockers only.
   */
  method EnforceBlockedByConstraint(r: Relations, issues: map<Id, Issue>, updates: seq<DatePatch>)
    returns (adjusted: seq<DatePatch>)
    ensures |adjusted| == |updates|
    ensures forall i | 0 <= i < |updates| ::
      adjusted[i] == Clamp(updates[i], LatestEnd(issues, Predecessors(r, updates[i].id)))
  {
    adjusted := [];
    for i := 0 to |updates|
      invariant |adjusted| == i
      invariant forall k | 0 <= k < i ::
        adjusted[k] == Clamp(updates[k], LatestEnd(issues, Predecessors(r, updates[k].id)))
    {
      var u := updates[i];
      var a := u;
      if u.startDate.Some? {
        var blockerIds := Predecessors(r, u.id);
        if |blockerIds| > 0 {
          var latest := LatestBlockerEnd(r, issues, u.id);
          if latest.Some? {
            var minStart := latest.value + 1;
            if u.startDate.value < minStart {
              var newEnd := match u.targetDate
                case Some(e) => Some(minStart + (e - u.startDate.value))
                case None => None;
              a := DatePatch(u.id, Some(minStart), newEnd);
            }
          }
        }
      }
      adjusted := adjusted + [a];
    }
  }

  /** After the clamp, a patch with a start begins after every direct blocker that has an end. */
  lemma ClampedStartsAfterBlockers(r: Relations, issues: map<Id, Issue>, u: DatePatch)
    requires u.startDate.Some?
    ensures var c := Clamp(u, LatestEnd(issues, Predecessors(r, u.id)));
      forall b | b in Predecessors(r, u.id) && BlockerEnd(issues, b).Some? ::
        c.startDate.value > BlockerEnd(issues, b).value
  {
    LatestEndIsMax(issues, Predecessors(r, u.id));
  }
}
