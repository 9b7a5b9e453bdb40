/**
 * The mouse-up decision of the two dependency drag handles. The right handle
 * drags from a blocker to the block it should block; the left handle drags
 * from a blocked block back to its blocker. A drop on another block creates
 * the "blocking" relation unless it would close a cycle, then cascades dates.
 */
module DragHandles {
  import opened Common
  import opened Graph
  import opened Scheduler
  import opened TargetResolver

  /** What a mouse-up did to the relation store. */
  datatype MouseUpOutcome = NoTarget | CycleRejected | Linked(blocker: Id, blocked: Id)

  /** The (blocker, blocked) pair a drop proposes; the left handle mirrors the right one. */
  function ProposedRelation(direction: Direction, block: Id, target: Id): (Id, Id)
  {
    if direction == Right then (block, target) else (target, block)
  }

  /** A drop target the handler acts on: present, non-empty (truthy) and not the dragged block. */
  predicate ActsOn(block: Id, targetBlockId: Option<Id>)
  {
    targetBlockId.Some? && targetBlockId.value != "" && targetBlockId.value != block
  }

  /**
   * The decision taken once the drop target is known. relations is the
   * store before the drop, issues the issue store's dates; batch is what the
   * follow-up autoSchedule submits.
   */
  method DecideMouseUp(relations: Relations, issues: map<Id, Issue>, direction: Direction, block: Id,
                       targetBlockId: Option<Id>)
    returns (outcome: MouseUpOutcome, relations': Relations, batch: seq<DatePatch>)
    ensures !ActsOn(block, targetBlockId) ==> outcome == NoTarget && relations' == relations && batch == []
    ensures ActsOn(block, targetBlockId) ==>
      var (blocker, blocked) := ProposedRelation(direction, block, targetBlockId.value);
      && (outcome == CycleRejected <==> Reachable(relations, blocked, blocker))
      && (outcome == CycleRejected ==> relations' == relations && batch == [])
      && (outcome != CycleRejected ==>
            && outcome == Linked(blocker, blocked)
            && relations' == AddRelation(relations, blocker, blocked))
    ensures Acyclic(relations) ==> Acyclic(relations')
    ensures outcome.Linked? ==> Edge(relations', outcome.blocker, outcome.blocked)
    ensures !outcome.Linked? ==> batch == []
    ensures DistinctIds(batch)
    ensures forall u | u in batch :: ForwardShift(issues, u)
    ensures outcome.Linked? && outcome.blocked != "" ==> forall u | u in batch :: Reachable(relations', outcome.blocked, u.id)
    ensures outcome.Linked? ==> batch == Cascade(relations', issues, outcome.blocker, Some(outcome.blocked), None)
    ensures outcome.Linked? && outcome.blocked != "" ==>
      (batch == [] <==> EdgeShift(issues, map[], outcome.blocker, outcome.blocked).None?)
    ensures outcome.Linked? && outcome.blocked == "" ==>
      (batch == [] <==>
       forall d | d in Successors(relations', outcome.blocker) :: EdgeShift(issues, map[], outcome.blocker, d).None?)
  {
    outcome, relations', batch := NoTarget, relations, [];
    if ActsOn(block, targetBlockId) {
      var (blocker, blocked) := ProposedRelation(direction, block, targetBlockId.value);
      var cycle := WouldCreateCycle(relations, blocker, blocked);
      if cycle {
        outcome := CycleRejected;
      } else {
        relations' := AddRelation(relations, blocker, blocked);
        if Acyclic(relations) {
          AddRelationKeepsAcyclic(relations, blocker, blocked);
        }
        outcome := Linked(blocker, blocked);
        batch := AutoSchedule(relations', issues, blocker, blocked);
      }
    }
  }

  /**
   * handleMouseUp of either handle: resolve the drop target when the chart
   * has a row list, decide, and clear the drag state. positions holds the
   * blocks that have a position; rowHeight is the chart's row height.
   */
  method HandleMouseUp(relations: Relations, issues: map<Id, Issue>, direction: Direction, block: Id,
                       mouseX: real, mouseY: real, blockIds: Option<seq<Id>>,
                       positions: map<Id, Position>, rowHeight: real)
    returns (target: TargetResult, outcome: MouseUpOutcome, relations': Relations, batch: seq<DatePatch>,
             dragState: Option<DragState>)
    ensures blockIds.None? ==> target.targetBlockId.None? && outcome == NoTarget && relations' == relations
    ensures blockIds.Some? ==>
      (target.targetBlockId.None? <==>
       forall i: nat | i < |blockIds.value| ::
         !Accepted(mouseX, mouseY, blockIds.value, positions, block, direction, rowHeight, i))
    ensures target.targetBlockId.Some? ==>
      && blockIds.Some?
      && target.targetBlockId.value != block
      && exists k: nat :: FirstNearest(mouseX, mouseY, blockIds.value, positions, block, direction, rowHeight, k)
                          && target.targetBlockId.value == blockIds.value[k]
    ensures outcome.Linked? ==>
      && target.targetBlockId.Some?
      && (outcome.blocker, outcome.blocked) == ProposedRelation(direction, block, target.targetBlockId.value)
      && !Reachable(relations, outcome.blocked, outcome.blocker)
      && relations' == AddRelation(relations, outcome.blocker, outcome.blocked)
    ensures !ActsOn(block, target.targetBlockId) ==> outcome == NoTarget
    ensures ActsOn(block, target.targetBlockId) ==>
      var (blocker, blocked) := ProposedRelation(direction, block, target.targetBlockId.value);
      && (outcome == CycleRejected <==> Reachable(relations, blocked, blocker))
      && (outcome != CycleRejected ==> outcome == Linked(blocker, blocked))
    ensures !outcome.Linked? ==> relations' == relations && batch == []
    ensures outcome.Linked? ==> batch == Cascade(relations', issues, outcome.blocker, Some(outcome.blocked), None)
    ensures outcome.Linked? && outcome.blocked != "" ==>
      (batch == [] <==> EdgeShift(issues, map[], outcome.blocker, outcome.blocked).None?)
    ensures Acyclic(relations) ==> Acyclic(relations')
    ensures dragState.None?
  {
    if blockIds.Some? {
      target := FindTargetBlock(mouseX, mouseY, blockIds.value, positions, block, direction, rowHeight);
    } else {
      target := TargetResult(None, None, None);
    }
    outcome, relations', batch := DecideMouseUp(relations, issues, direction, block, target.targetBlockId);
    dragState := None;
  }
}
