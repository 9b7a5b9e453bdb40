/**
 * Connector geometry of the timeline: the cubic Bézier drawn for every
 * "blocking" relation between two listed blocks, and the one that follows the
 * cursor while a dependency handle is dragged. A curve is returned as its
 * four points rather than as an SVG path string.
 */
module PathGeometry {
  import opened Common
  import opened Graph

  /** The smallest horizontal distance between an anchor and its control point. */
  const MIN_OFFSET: real := 30.0

  /** Length of the arrowhead drawn at a curve's end. */
  const ARROW_LENGTH: real := 8.0

  datatype Point = Point(x: real, y: real)

  /** `M start C c1, c2, end`. */
  datatype Curve = Curve(start: Point, c1: Point, c2: Point, end: Point)

  function Max(a: real, b: real): real
  {
    if a >= b then a else b
  }

  /** The curve with every x coordinate negated: its left-right mirror image. */
  function Mirror(c: Curve): Curve
  {
    Curve(Point(-c.start.x, c.start.y), Point(-c.c1.x, c.c1.y), Point(-c.c2.x, c.c2.y), Point(-c.end.x, c.end.y))
  }

  // ---------------------------------------------------------------------
  // Curves
  // ---------------------------------------------------------------------

  /**
   * computeDependencyPath: leave the source heading right and enter the
   * target heading right. With more than two offsets of room both control
   * points sit at the midpoint; otherwise they overshoot into an S-curve.
   */
  function ComputeDependencyPath(srcX: real, srcY: real, tgtX: real, tgtY: real): (c: Curve)
    ensures c.start == Point(srcX, srcY) && c.end == Point(tgtX, tgtY)
    ensures c.c1.y == srcY && c.c2.y == tgtY
    // the curve leaves rightwards and arrives rightwards, symmetrically, by at least the offset
    ensures c.c1.x - srcX == tgtX - c.c2.x >= MIN_OFFSET
    ensures tgtX - srcX > 2.0 * MIN_OFFSET ==> c.c1.x == c.c2.x == (srcX + tgtX) / 2.0
    ensures tgtX - srcX <= 2.0 * MIN_OFFSET ==> c.c1.x - srcX == Abs(tgtX - srcX) / 2.0 + MIN_OFFSET
  {
    var gap := tgtX - srcX;
    if gap > MIN_OFFSET * 2.0 then
      var midX := (srcX + tgtX) / 2.0;
      Curve(Point(srcX, srcY), Point(midX, srcY), Point(midX, tgtY), Point(tgtX, tgtY))
    else
      var offset := Max(MIN_OFFSET, Abs(gap) / 2.0 + MIN_OFFSET);
      Curve(Point(srcX, srcY), Point(srcX + offset, srcY), Point(tgtX - offset, tgtY), Point(tgtX, tgtY))
  }

  /**
   * computeDragPath: a right drag draws the dependency curve; a left drag
   * leaves the source heading left and enters the cursor heading left.
   */
  function ComputeDragPath(srcX: real, srcY: real, tgtX: real, tgtY: real, direction: Direction): (c: Curve)
    ensures direction == Right ==> c == ComputeDependencyPath(srcX, srcY, tgtX, tgtY)
    ensures direction == Left ==> c == Mirror(ComputeDependencyPath(-srcX, srcY, -tgtX, tgtY))
  {
    if direction == Left then
      var gap := srcX - tgtX;
      if gap > MIN_OFFSET * 2.0 then
        var midX := (srcX + tgtX) / 2.0;
        Curve(Point(srcX, srcY), Point(midX, srcY), Point(midX, tgtY), Point(tgtX, tgtY))
      else
        var offset := Max(MIN_OFFSET, Abs(gap) / 2.0 + MIN_OFFSET);
        Curve(Point(srcX, srcY), Point(srcX - offset, srcY), Point(tgtX + offset, tgtY), Point(tgtX, tgtY))
    else
      var gap := tgtX - srcX;
      if gap > MIN_OFFSET * 2.0 then
        var midX := (srcX + tgtX) / 2.0;
        Curve(Point(srcX, srcY), Point(midX, srcY), Point(midX, tgtY), Point(tgtX, tgtY))
      else
        var offset := Max(MIN_OFFSET, Abs(gap) / 2.0 + MIN_OFFSET);
        Curve(Point(srcX, srcY), Point(srcX + offset, srcY), Point(tgtX - offset, tgtY), Point(tgtX, tgtY))
  }

  /** A left drag's curve leaves leftwards and arrives leftwards, by at least the offset. */
  lemma LeftDragPathHeadsLeft(srcX: real, srcY: real, tgtX: real, tgtY: real)
    ensures var c := ComputeDragPath(srcX, srcY, tgtX, tgtY, Left);
            && c.start == Point(srcX, srcY) && c.end == Point(tgtX, tgtY)
            && srcX - c.c1.x == c.c2.x - tgtX >= MIN_OFFSET
  {
    var d := ComputeDependencyPath(-srcX, srcY, -tgtX, tgtY);
    assert d.c1.x - (-srcX) == (-tgtX) - d.c2.x >= MIN_OFFSET;
  }

  // ---------------------------------------------------------------------
  // Row index
  // ---------------------------------------------------------------------

  /** blockIndexMap: each listed id mapped to the index of its last occurrence. */
  method BuildIndexMap(blockIds: seq<Id>) returns (index: map<Id, nat>)
    ensures forall i | 0 <= i < |blockIds| :: blockIds[i] in index
    ensures forall id | id in index ::
      && index[id] < |blockIds|
      && blockIds[index[id]] == id
      && forall j | index[id] < j < |blockIds| :: blockIds[j] != id
  {
    index := map[];
    for i := 0 to |blockIds|
      invariant forall k | 0 <= k < i :: blockIds[k] in index
      invariant forall id | id in index ::
        && index[id] < i
        && blockIds[index[id]] == id
        && forall j | index[id] < j < i :: blockIds[j] != id
    {
      index := index[blockIds[i] := i];
    }
  }

  /** `blockIndexMap.get(id) ?? 0`. */
  function RowOf(index: map<Id, nat>, id: Id): nat
  {
    if id in index then index[id] else 0
  }

  /** The vertical centre of a row. */
  function RowCenter(row: nat, rowHeight: real): real
  {
    row as real * rowHeight + rowHeight / 2.0
  }

  // ---------------------------------------------------------------------
  // Edge list
  // ---------------------------------------------------------------------

  /** A drawn relation: the blocker and the block it blocks. */
  datatype Link = Link(srcId: Id, tgtId: Id)

  /** The links from src to those of targets that are listed, in relation order. */
  function LinksFrom(src: Id, targets: seq<Id>, listed: set<Id>): seq<Link>
  {
    if targets == [] then []
    else
      var last := targets[|targets| - 1];
      LinksFrom(src, targets[..|targets| - 1], listed) + (if last in listed then [Link(src, last)] else [])
  }

  /** The edge list: sources in row order, and each source's targets in relation order. */
  function EdgeList(r: Relations, sources: seq<Id>, listed: set<Id>): seq<Link>
  {
    if sources == [] then []
    else
      var last := sources[|sources| - 1];
      EdgeList(r, sources[..|sources| - 1], listed) + LinksFrom(last, Successors(r, last), listed)
  }

  lemma {:induction false} LinksFromMembership(src: Id, targets: seq<Id>, listed: set<Id>, l: Link)
    ensures l in LinksFrom(src, targets, listed) <==> l.srcId == src && l.tgtId in targets && l.tgtId in listed
  {
    if targets != [] {
      LinksFromMembership(src, targets[..|targets| - 1], listed, l);
      assert targets == targets[..|targets| - 1] + [targets[|targets| - 1]];
    }
  }

  /**
   * A link is drawn exactly when its source is listed, the relation store
   * records it, and its target is listed too.
   */
  lemma {:induction false} EdgeListMembership(r: Relations, sources: seq<Id>, listed: set<Id>, l: Link)
    ensures l in EdgeList(r, sources, listed) <==>
      l.srcId in sources && Edge(r, l.srcId, l.tgtId) && l.tgtId in listed
  {
    if sources != [] {
      var last := sources[|sources| - 1];
      EdgeListMembership(r, sources[..|sources| - 1], listed, l);
      LinksFromMembership(last, Successors(r, last), listed, l);
      assert sources == sources[..|sources| - 1] + [last];
    }
  }

  /** The nested loop that collects the edges between listed blocks. */
  method CollectEdges(r: Relations, blockIds: seq<Id>, index: map<Id, nat>) returns (edges: seq<Link>)
    requires forall id :: id in index <==> id in blockIds
    ensures edges == EdgeList(r, blockIds, set id | id in blockIds)
    ensures forall l | l in edges :: l.srcId in blockIds && l.tgtId in blockIds && Edge(r, l.srcId, l.tgtId)
  {
    ghost var listed := set id | id in blockIds;
    edges := [];
    for i := 0 to |blockIds|
      invariant edges == EdgeList(r, blockIds[..i], listed)
    {
      var blockId := blockIds[i];
      var blockingIds := Successors(r, blockId);
      ghost var before := edges;
      for k := 0 to |blockingIds|
        invariant edges == before + LinksFrom(blockId, blockingIds[..k], listed)
      {
        var targetId := blockingIds[k];
        assert blockingIds[..k + 1][..k] == blockingIds[..k];
        if targetId in index {
          edges := edges + [Link(blockId, targetId)];
        }
      }
      assert blockingIds[..|blockingIds|] == blockingIds;
      assert blockIds[..i + 1][..i] == blockIds[..i];
    }
    assert blockIds[..|blockIds|] == blockIds;
    forall l | l in edges
      ensures l.srcId in blockIds && l.tgtId in blockIds && Edge(r, l.srcId, l.tgtId)
    {
      EdgeListMembership(r, blockIds, listed, l);
    }
  }

  // ---------------------------------------------------------------------
  // Anchors
  // ---------------------------------------------------------------------

  /**
   * The curve drawn for one link: from the blocker's right edge to the
   * blocked block's left edge, each at its row's centre, stopping an
   * arrowhead short of the target. No curve when either block lacks a position.
   */
  function EdgeCurve(l: Link, positions: map<Id, Position>, index: map<Id, nat>, rowHeight: real): (c: Option<Curve>)
    ensures c.None? <==> l.srcId !in positions || l.tgtId !in positions
    ensures c.Some? ==>
      && c.value.start == Point(positions[l.srcId].marginLeft + positions[l.srcId].width,
                                RowCenter(RowOf(index, l.srcId), rowHeight))
      && c.value.end.x + ARROW_LENGTH == positions[l.tgtId].marginLeft
      && c.value.end.y == RowCenter(RowOf(index, l.tgtId), rowHeight)
      && c.value == ComputeDependencyPath(c.value.start.x, c.value.start.y,
                                          positions[l.tgtId].marginLeft - ARROW_LENGTH, c.value.end.y)
  {
    if l.srcId !in positions || l.tgtId !in positions then None
    else
      var src := positions[l.srcId];
      var tgt := positions[l.tgtId];
      var srcX := src.marginLeft + src.width;
      var srcY := RowOf(index, l.srcId) as real * rowHeight + rowHeight / 2.0;
      var tgtX := tgt.marginLeft;
      var tgtY := RowOf(index, l.tgtId) as real * rowHeight + rowHeight / 2.0;
      Some(ComputeDependencyPath(srcX, srcY, tgtX - ARROW_LENGTH, tgtY))
  }

  /** row is the last index at which id is listed, the row blockIndexMap keeps for it. */
  predicate LastRow(ids: seq<Id>, id: Id, row: nat)
  {
    row < |ids| && ids[row] == id && forall j | row < j < |ids| :: ids[j] != id
  }

  /**
   * TimelineDependencyPaths: nothing without listed blocks; otherwise one
   * entry per collected link, None where the link is not drawn. A drawn
   * curve runs from the blocker's right edge on the centre of its last
   * listed row to an arrowhead short of the blocked block's left edge, on
   * the centre of that block's last listed row.
   */
  method DependencyCurves(r: Relations, blockIds: Option<seq<Id>>, positions: map<Id, Position>, rowHeight: real)
    returns (edges: seq<Link>, curves: seq<Option<Curve>>)
    ensures blockIds.None? || blockIds.value == [] ==> edges == [] && curves == []
    ensures blockIds.Some? ==> edges == EdgeList(r, blockIds.value, set id | id in blockIds.value)
    ensures |curves| == |edges|
    ensures forall i | 0 <= i < |edges| ::
      && edges[i].srcId in blockIds.value && edges[i].tgtId in blockIds.value
      && (curves[i].None? <==> edges[i].srcId !in positions || edges[i].tgtId !in positions)
      && (curves[i].Some? ==>
            && curves[i].value.start.x == positions[edges[i].srcId].marginLeft + positions[edges[i].srcId].width
            && curves[i].value.end.x + ARROW_LENGTH == positions[edges[i].tgtId].marginLeft
            && (exists rs: nat :: LastRow(blockIds.value, edges[i].srcId, rs)
                                  && curves[i].value.start.y == RowCenter(rs, rowHeight))
            && (exists rt: nat :: LastRow(blockIds.value, edges[i].tgtId, rt)
                                  && curves[i].value.end.y == RowCenter(rt, rowHeight))
            && curves[i].value == ComputeDependencyPath(curves[i].value.start.x, curves[i].value.start.y,
                                                        curves[i].value.end.x, curves[i].value.end.y))
  {
    edges, curves := [], [];
    if blockIds.None? || blockIds.value == [] {
      return;
    }
    var index := BuildIndexMap(blockIds.value);
    edges := CollectEdges(r, blockIds.value, index);
    curves := seq(|edges|, i requires 0 <= i < |edges| => EdgeCurve(edges[i], positions, index, rowHeight));
    forall i | 0 <= i < |edges| && curves[i].Some?
      ensures exists rs: nat :: LastRow(blockIds.value, edges[i].srcId, rs)
                                && curves[i].value.start.y == RowCenter(rs, rowHeight)
      ensures exists rt: nat :: LastRow(blockIds.value, edges[i].tgtId, rt)
                                && curves[i].value.end.y == RowCenter(rt, rowHeight)
    {
      assert LastRow(blockIds.value, edges[i].srcId, index[edges[i].srcId]);
      assert LastRow(blockIds.value, edges[i].tgtId, index[edges[i].tgtId]);
    }
  }

  // ---------------------------------------------------------------------
  // Drag path
  // ---------------------------------------------------------------------

  /** The cursor end is snapped when a (truthy) target and both snap coordinates are set. */
  predicate IsSnapped(s: DragState)
  {
    s.targetBlockId.Some? && s.targetBlockId.value != "" && s.snapX.Some? && s.snapY.Some?
  }

  /** Where the arrow points: the snap point when snapped, the cursor otherwise. */
  function DragTarget(s: DragState): (p: Point)
    ensures IsSnapped(s) ==> p == Point(s.snapX.value, s.snapY.value)
    ensures !IsSnapped(s) ==> p == Point(s.mouseX, s.mouseY)
  {
    if IsSnapped(s) then Point(s.snapX.value, s.snapY.value) else Point(s.mouseX, s.mouseY)
  }

  /** How far the curve stops short of the tip: not at all under a snap dot, else an arrowhead behind the tip. */
  function ArrowOffset(s: DragState): (o: real)
    ensures IsSnapped(s) ==> o == 0.0
    ensures !IsSnapped(s) ==> Abs(o) == ARROW_LENGTH && (o > 0.0 <==> s.direction == Left)
  {
    if IsSnapped(s) then 0.0 else if s.direction == Left then ARROW_LENGTH else -ARROW_LENGTH
  }

  /** The handle the drag left from: the source's right edge for a right drag, its left edge for a left drag. */
  function SourceAnchorX(direction: Direction, p: Position): real
  {
    if direction == Right then p.marginLeft + p.width else p.marginLeft
  }

  /**
   * TimelineDraggablePath: no curve without a drag, without listed blocks or
   * without the source's position; otherwise the drag curve from the source
   * handle to the (snapped) cursor.
   */
  method DragCurve(state: Option<DragState>, blockIds: Option<seq<Id>>, positions: map<Id, Position>, rowHeight: real)
    returns (curve: Option<Curve>)
    ensures curve.None? <==>
      state.None? || blockIds.None? || blockIds.value == [] || state.value.sourceBlockId !in positions
    ensures curve.Some? ==>
      var s := state.value;
      var tip := DragTarget(s);
      && curve.value.start.x == SourceAnchorX(s.direction, positions[s.sourceBlockId])
      && (s.sourceBlockId in blockIds.value ==>
            exists row: nat :: LastRow(blockIds.value, s.sourceBlockId, row)
                               && curve.value.start.y == RowCenter(row, rowHeight))
      && (s.sourceBlockId !in blockIds.value ==> curve.value.start.y == RowCenter(0, rowHeight))
      && curve.value.end == Point(tip.x + ArrowOffset(s), tip.y)
      && curve.value == ComputeDragPath(curve.value.start.x, curve.value.start.y, tip.x + ArrowOffset(s), tip.y, s.direction)
  {
    if state.None? || blockIds.None? || blockIds.value == [] {
      return None;
    }
    var s := state.value;
    if s.sourceBlockId !in positions {
      return None;
    }
    var src := positions[s.sourceBlockId];
    var index := BuildIndexMap(blockIds.value);
    var srcIndex := RowOf(index, s.sourceBlockId);
    var srcX := SourceAnchorX(s.direction, src);
    var srcY := RowCenter(srcIndex, rowHeight);
    var tip := DragTarget(s);
    var arrowOffset := ArrowOffset(s);
    curve := Some(ComputeDragPath(srcX, srcY, tip.x + arrowOffset, tip.y, s.direction));
    if s.sourceBlockId in blockIds.value {
      assert LastRow(blockIds.value, s.sourceBlockId, srcIndex);
    } else {
      assert s.sourceBlockId !in index;
    }
  }
}
