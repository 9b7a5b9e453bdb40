/**
 * The drop-target resolver of a dependency drag: a linear scan over the
 * chart's rows that picks the block whose snap edge is nearest the cursor.
 */
module TargetResolver {
  import opened Common

  /** Magnetic snap radius, in pixels. */
  const SNAP_RADIUS: real := 40.0

  /** `{targetBlockId, snapX?, snapY?}`. */
  datatype TargetResult = TargetResult(targetBlockId: Option<Id>, snapX: Option<real>, snapY: Option<real>)

  function RowTop(i: nat, rowHeight: real): real
  {
    i as real * rowHeight
  }

  /** The vertical centre of row i, where a snapped arrow attaches. */
  function RowCenter(i: nat, rowHeight: real): real
  {
    RowTop(i, rowHeight) + rowHeight / 2.0
  }

  /** A right drag snaps to the candidate's left edge, a left drag to its right edge. */
  function SnapEdge(direction: Direction, p: Position): real
  {
    if direction == Right then p.marginLeft else p.marginLeft + p.width
  }

  /** Manhattan distance from the cursor to the candidate's snap point. */
  function Distance(mouseX: real, mouseY: real, direction: Direction, p: Position, i: nat, rowHeight: real): real
  {
    Abs(mouseX - SnapEdge(direction, p)) + Abs(mouseY - RowCenter(i, rowHeight))
  }

  /** The cursor lies within a snap radius above or below row i. */
  predicate NearRow(mouseY: real, i: nat, rowHeight: real)
  {
    RowTop(i, rowHeight) - SNAP_RADIUS <= mouseY <= RowTop(i, rowHeight) + rowHeight + SNAP_RADIUS
  }

  /**
   * The block listed at index i is a candidate: it is not the source, it has
   * a position, the cursor is near its row, and the cursor is either over
   * the block (widened by the snap radius horizontally, within the row
   * vertically) or in the magnetic zone around its snap edge.
   */
  predicate Accepted(mouseX: real, mouseY: real, blockIds: seq<Id>, positions: map<Id, Position>,
                     source: Id, direction: Direction, rowHeight: real, i: nat)
    requires i < |blockIds|
  {
    var id := blockIds[i];
    && id != source
    && id in positions
    && NearRow(mouseY, i, rowHeight)
    && var p := positions[id];
       var top := RowTop(i, rowHeight);
       var overBlock :=
         && p.marginLeft - SNAP_RADIUS <= mouseX <= p.marginLeft + p.width + SNAP_RADIUS
         && top <= mouseY <= top + rowHeight;
       var magnetic :=
         && Abs(mouseX - SnapEdge(direction, p)) < SNAP_RADIUS
         && Abs(mouseY - RowCenter(i, rowHeight)) < SNAP_RADIUS * 2.0;
       overBlock || magnetic
  }

  /**
   * Index k holds the winner: an accepted candidate no farther than any other
   * accepted one, and strictly nearer than every accepted one listed before it.
   */
  ghost predicate FirstNearest(mouseX: real, mouseY: real, blockIds: seq<Id>, positions: map<Id, Position>,
                               source: Id, direction: Direction, rowHeight: real, k: nat)
  {
    && k < |blockIds|
    && Accepted(mouseX, mouseY, blockIds, positions, source, direction, rowHeight, k)
    && var dk := Distance(mouseX, mouseY, direction, positions[blockIds[k]], k, rowHeight);
       && (forall j: nat | j < |blockIds| && Accepted(mouseX, mouseY, blockIds, positions, source, direction, rowHeight, j) ::
             dk <= Distance(mouseX, mouseY, direction, positions[blockIds[j]], j, rowHeight))
       && (forall j: nat | j < k && Accepted(mouseX, mouseY, blockIds, positions, source, direction, rowHeight, j) ::
             dk < Distance(mouseX, mouseY, direction, positions[blockIds[j]], j, rowHeight))
  }

  /** The result naming the block at index k, snapped to its edge and row centre. */
  function SnapTo(blockIds: seq<Id>, positions: map<Id, Position>, direction: Direction, rowHeight: real, k: nat): TargetResult
    requires k < |blockIds| && blockIds[k] in positions
  {
    TargetResult(Some(blockIds[k]), Some(SnapEdge(direction, positions[blockIds[k]])), Some(RowCenter(k, rowHeight)))
  }

  /**
   * One iteration of findTargetBlock's scan: the candidate's distance when
   * the block at index i is accepted, None when it is skipped.
   */
  method ScoreCandidate(mouseX: real, mouseY: real, blockIds: seq<Id>, positions: map<Id, Position>,
                        source: Id, direction: Direction, rowHeight: real, i: nat)
    returns (score: Option<real>)
    requires i < |blockIds|
    ensures score.Some? <==> Accepted(mouseX, mouseY, blockIds, positions, source, direction, rowHeight, i)
    ensures score.Some? ==> score.value == Distance(mouseX, mouseY, direction, positions[blockIds[i]], i, rowHeight)
  {
    var id := blockIds[i];
    if id == source || id !in positions {
      return None;
    }
    var blk := positions[id];
    var rowTop := i as real * rowHeight;
    var rowBottom := rowTop + rowHeight;
    var blockLeft := blk.marginLeft;
    var blockRight := blockLeft + blk.width;
    var blockCenterY := rowTop + rowHeight / 2.0;
    if mouseY < rowTop - SNAP_RADIUS || mouseY > rowBottom + SNAP_RADIUS {
      return None;
    }
    var edgeX := if direction == Right then blockLeft else blockRight;
    var dx := Abs(mouseX - edgeX);
    var dy := Abs(mouseY - blockCenterY);
    var isOnBlockX := mouseX >= blockLeft - SNAP_RADIUS && mouseX <= blockRight + SNAP_RADIUS;
    var isOnBlockY := mouseY >= rowTop && mouseY <= rowBottom;
    if (isOnBlockX && isOnBlockY) || (dx < SNAP_RADIUS && dy < SNAP_RADIUS * 2.0) {
      score := Some(dx + dy);
    } else {
      score := None;
    }
  }

  /**
   * findTargetBlock. positions holds the blocks that have a position;
   * rowHeight is the chart's block row height.
   */
  method FindTargetBlock(mouseX: real, mouseY: real, blockIds: seq<Id>, positions: map<Id, Position>,
                         source: Id, direction: Direction, rowHeight: real)
    returns (res: TargetResult)
    ensures res.targetBlockId.None? <==>
      forall i: nat | i < |blockIds| :: !Accepted(mouseX, mouseY, blockIds, positions, source, direction, rowHeight, i)
    ensures res.targetBlockId.None? ==> res == TargetResult(None, None, None)
    ensures res.targetBlockId.Some? ==>
      && res.targetBlockId.value != source
      && res.targetBlockId.value in positions
      && res.snapX.Some? && res.snapY.Some?
      && exists k: nat :: FirstNearest(mouseX, mouseY, blockIds, positions, source, direction, rowHeight, k)
                          && res == SnapTo(blockIds, positions, direction, rowHeight, k)
  {
    res := TargetResult(None, None, None);
    var bestDist: Option<real> := None;
    ghost var best: nat := 0;
    for i := 0 to |blockIds|
      invariant bestDist.None? <==>
        forall j: nat | j < i :: !Accepted(mouseX, mouseY, blockIds, positions, source, direction, rowHeight, j)
      invariant bestDist.None? ==> res == TargetResult(None, None, None)
      invariant bestDist.Some? ==>
        && best < i
        && Accepted(mouseX, mouseY, blockIds, positions, source, direction, rowHeight, best)
        && bestDist.value == Distance(mouseX, mouseY, direction, positions[blockIds[best]], best, rowHeight)
        && res == SnapTo(blockIds, positions, direction, rowHeight, best)
        && (forall j: nat | j < i && Accepted(mouseX, mouseY, blockIds, positions, source, direction, rowHeight, j) ::
              bestDist.value <= Distance(mouseX, mouseY, direction, positions[blockIds[j]], j, rowHeight))
        && (forall j: nat | j < best && Accepted(mouseX, mouseY, blockIds, positions, source, direction, rowHeight, j) ::
              bestDist.value < Distance(mouseX, mouseY, direction, positions[blockIds[j]], j, rowHeight))
    {
      var score := ScoreCandidate(mouseX, mouseY, blockIds, positions, source, direction, rowHeight, i);
      if score.Some? && (bestDist.None? || score.value < bestDist.value) {
        bestDist := score;
        best := i;
        res := SnapTo(blockIds, positions, direction, rowHeight, i);
      }
    }
    if res.targetBlockId.Some? {
      assert FirstNearest(mouseX, mouseY, blockIds, positions, source, direction, rowHeight, best);
    }
  }

  /** A cursor exactly on a candidate's snap point is accepted, at distance zero. */
  lemma CursorOnSnapPointIsAccepted(blockIds: seq<Id>, positions: map<Id, Position>, source: Id,
                                     direction: Direction, rowHeight: real, i: nat)
    requires i < |blockIds| && blockIds[i] != source && blockIds[i] in positions
    requires rowHeight >= 0.0
    ensures var mx := SnapEdge(direction, positions[blockIds[i]]);
            var my := RowCenter(i, rowHeight);
            && Accepted(mx, my, blockIds, positions, source, direction, rowHeight, i)
            && Distance(mx, my, direction, positions[blockIds[i]], i, rowHeight) == 0.0
  {
    var my := RowCenter(i, rowHeight);
    assert 0.0 <= i as real * rowHeight;
    assert RowTop(i, rowHeight) - SNAP_RADIUS <= my <= RowTop(i, rowHeight) + rowHeight + SNAP_RADIUS;
  }

  /**
   * A candidate at distance zero that no earlier accepted candidate ties is
   * the winner; in particular the winning index is unique.
   */
  lemma ZeroDistanceWins(mouseX: real, mouseY: real, blockIds: seq<Id>, positions: map<Id, Position>,
                         source: Id, direction: Direction, rowHeight: real, i: nat, k: nat)
    requires i < |blockIds| && Accepted(mouseX, mouseY, blockIds, positions, source, direction, rowHeight, i)
    requires Distance(mouseX, mouseY, direction, positions[blockIds[i]], i, rowHeight) == 0.0
    requires forall j: nat | j < i && Accepted(mouseX, mouseY, blockIds, positions, source, direction, rowHeight, j) ::
      Distance(mouseX, mouseY, direction, positions[blockIds[j]], j, rowHeight) > 0.0
    requires FirstNearest(mouseX, mouseY, blockIds, positions, source, direction, rowHeight, k)
    ensures k == i
  {
    var dk := Distance(mouseX, mouseY, direction, positions[blockIds[k]], k, rowHeight);
    assert dk == 0.0;
  }
}
