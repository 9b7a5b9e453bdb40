/**
 * The timeline chart's block store: the blocks shown on the chart keyed by
 * id, the ordered list of ids in the chart, whether a block is being dragged,
 * and the current view's scale. Pixel positions are reals, dates day numbers.
 */
module TimelineStore {
  import opened Common

  /** The record a block is built from (`BlockData`). */
  datatype BlockData = BlockData(id: Id, name: string, sortOrder: Option<int>,
                                 startDate: Option<Day>, targetDate: Option<Day>, projectId: Option<Id>)

  /** A chart block (`IGanttBlock`); `meta` holds the project id. */
  datatype Block = Block(data: BlockData, id: Id, name: string, sortOrder: Option<int>,
                         startDate: Option<Day>, targetDate: Option<Day>, projectId: Option<Id>,
                         position: Option<Position>)

  /** The current view's chart data: its first date and the width of a day in pixels. */
  datatype ViewData = ViewData(startDate: Option<Day>, dayWidth: real)

  /** The keys of a block record. */
  datatype Key = DataKey | IdKey | NameKey | SortOrderKey | StartDateKey | TargetDateKey | MetaKey | PositionKey

  /** One field write `set(blocksMap, [blockId, key], value[key])`. */
  datatype Patch = Patch(blockId: Id, key: Key, value: Block)

  /** The update payload produced after a drag (`IBlockUpdateDependencyData`). */
  datatype DragPayload = DragPayload(id: Id, projectId: Option<Id>, startDate: Option<Day>, targetDate: Option<Day>)

  // ---------------------------------------------------------------------
  // Building and merging blocks
  // ---------------------------------------------------------------------

  /** A block's position is (re)computed only when the view has a start date or a non-zero day width. */
  predicate HasLayout(view: Option<ViewData>)
  {
    view.Some? && (view.value.startDate.Some? || view.value.dayWidth != 0.0)
  }

  /** The keys a freshly built block carries: `position` only when it was computed. */
  function BuiltKeys(laidOut: bool): set<Key>
  {
    {DataKey, IdKey, NameKey, SortOrderKey, StartDateKey, TargetDateKey, MetaKey}
      + (if laidOut then {PositionKey} else {})
  }

  /** The block built from d; layout stands for the position helper. */
  function Build(d: BlockData, view: Option<ViewData>, layout: (ViewData, Block) -> Option<Position>): Block
  {
    var b := Block(d, d.id, d.name, d.sortOrder, d.startDate, d.targetDate, d.projectId, None);
    if HasLayout(view) then b.(position := layout(view.value, b)) else b
  }

  /** The two blocks agree at key k. */
  predicate SameAt(a: Block, b: Block, k: Key)
  {
    match k
    case DataKey => a.data == b.data
    case IdKey => a.id == b.id
    case NameKey => a.name == b.name
    case SortOrderKey => a.sortOrder == b.sortOrder
    case StartDateKey => a.startDate == b.startDate
    case TargetDateKey => a.targetDate == b.targetDate
    case MetaKey => a.projectId == b.projectId
    case PositionKey => a.position == b.position
  }

  /** b with key k taken from c. */
  function SetKey(b: Block, k: Key, c: Block): (r: Block)
    ensures SameAt(r, c, k)
  {
    match k
    case DataKey => b.(data := c.data)
    case IdKey => b.(id := c.id)
    case NameKey => b.(name := c.name)
    case SortOrderKey => b.(sortOrder := c.sortOrder)
    case StartDateKey => b.(startDate := c.startDate)
    case TargetDateKey => b.(targetDate := c.targetDate)
    case MetaKey => b.(projectId := c.projectId)
    case PositionKey => b.(position := c.position)
  }

  /** b with every key in ks taken from c. */
  function Overlay(b: Block, ks: set<Key>, c: Block): Block
  {
    Block(if DataKey in ks then c.data else b.data,
          if IdKey in ks then c.id else b.id,
          if NameKey in ks then c.name else b.name,
          if SortOrderKey in ks then c.sortOrder else b.sortOrder,
          if StartDateKey in ks then c.startDate else b.startDate,
          if TargetDateKey in ks then c.targetDate else b.targetDate,
          if MetaKey in ks then c.projectId else b.projectId,
          if PositionKey in ks then c.position else b.position)
  }

  /** The keys of a freshly built block whose value differs from the stored one. */
  function ChangedKeys(curr: Block, next: Block, laidOut: bool): set<Key>
  {
    set k | k in BuiltKeys(laidOut) && !SameAt(curr, next, k)
  }

  /** The stored block after a refresh: every key the built block carries, taken from it. */
  function Merge(curr: Block, next: Block, laidOut: bool): (m: Block)
    ensures forall k | k in BuiltKeys(laidOut) :: SameAt(m, next, k)
    ensures !laidOut ==> m.position == curr.position
  {
    Overlay(curr, BuiltKeys(laidOut), next)
  }

  /** Writing only the keys that changed gives the same block as overwriting every built key. */
  lemma ChangedKeysSuffice(curr: Block, next: Block, laidOut: bool)
    ensures Overlay(curr, ChangedKeys(curr, next, laidOut), next) == Merge(curr, next, laidOut)
  {
    var ks := ChangedKeys(curr, next, laidOut);
    assert DataKey in ks <==> curr.data != next.data;
    assert IdKey in ks <==> curr.id != next.id;
    assert NameKey in ks <==> curr.name != next.name;
    assert SortOrderKey in ks <==> curr.sortOrder != next.sortOrder;
    assert StartDateKey in ks <==> curr.startDate != next.startDate;
    assert TargetDateKey in ks <==> curr.targetDate != next.targetDate;
    assert MetaKey in ks <==> curr.projectId != next.projectId;
    assert PositionKey in ks <==> laidOut && curr.position != next.position;
  }

  /** Writing one more key on top of an overlay. */
  lemma OverlayAddKey(b: Block, ks: set<Key>, c: Block, k: Key)
    ensures Overlay(b, ks + {k}, c) == SetKey(Overlay(b, ks, c), k, c)
  {
    match k
    case DataKey =>
    case IdKey =>
    case NameKey =>
    case SortOrderKey =>
    case StartDateKey =>
    case TargetDateKey =>
    case MetaKey =>
    case PositionKey =>
  }

  /** The keys the patches write into block id. */
  function KeysFor(patches: seq<Patch>, id: Id): set<Key>
  {
    set p | p in patches && p.blockId == id :: p.key
  }

  lemma KeysForSnoc(patches: seq<Patch>, p: Patch, id: Id)
    ensures KeysFor(patches + [p], id) == KeysFor(patches, id) + (if id == p.blockId then {p.key} else {})
  {
  }

  // ---------------------------------------------------------------------
  // The refresh, as a function of the old map
  // ---------------------------------------------------------------------

  /** The listed id has data, so the refresh rebuilds it. */
  predicate Rebuilt(ids: seq<Id>, getDataById: Id -> Option<BlockData>, id: Id)
  {
    id in ids && getDataById(id).Some?
  }

  /** What each stored block is rebuilt into: its new block when listed with data, itself otherwise. */
  function Rebuilds(m: map<Id, Block>, ids: seq<Id>, getDataById: Id -> Option<BlockData>,
                    view: Option<ViewData>, layout: (ViewData, Block) -> Option<Position>): (t: map<Id, Block>)
    ensures t.Keys == m.Keys
  {
    map id | id in m :: if Rebuilt(ids, getDataById, id) then Build(getDataById(id).value, view, layout) else m[id]
  }

  /** One more field write keeps every stored block an overlay of its rebuilt value. */
  lemma WriteKeepsOverlay(m0: map<Id, Block>, cur: map<Id, Block>, done: seq<Patch>, p: Patch, target: map<Id, Block>)
    requires cur.Keys == m0.Keys == target.Keys && p.blockId in m0 && p.value == target[p.blockId]
    requires forall id | id in m0 :: cur[id] == Overlay(m0[id], KeysFor(done, id), target[id])
    ensures forall id | id in m0 ::
      cur[p.blockId := SetKey(cur[p.blockId], p.key, p.value)][id] == Overlay(m0[id], KeysFor(done + [p], id), target[id])
  {
    forall id | id in m0
      ensures cur[p.blockId := SetKey(cur[p.blockId], p.key, p.value)][id] == Overlay(m0[id], KeysFor(done + [p], id), target[id])
    {
      KeysForSnoc(done, p, id);
      if id == p.blockId {
        OverlayAddKey(m0[id], KeysFor(done, id), target[id], p.key);
      }
    }
  }

  /** The stored blocks after the field patches: listed blocks with data merged, the rest as they were. */
  function Merged(m: map<Id, Block>, ids: seq<Id>, getDataById: Id -> Option<BlockData>,
                  view: Option<ViewData>, layout: (ViewData, Block) -> Option<Position>): map<Id, Block>
  {
    map id | id in m ::
      if Rebuilt(ids, getDataById, id) then Merge(m[id], Build(getDataById(id).value, view, layout), HasLayout(view))
      else m[id]
  }

  /** The blocks built for listed ids that have data but no stored block, in list order. */
  function NewBlocks(m: map<Id, Block>, ids: seq<Id>, getDataById: Id -> Option<BlockData>,
                     view: Option<ViewData>, layout: (ViewData, Block) -> Option<Position>): seq<Block>
  {
    if ids == [] then []
    else
      var id := ids[|ids| - 1];
      NewBlocks(m, ids[..|ids| - 1], getDataById, view, layout)
        + (if id !in m && getDataById(id).Some? then [Build(getDataById(id).value, view, layout)] else [])
  }

  /** Insert the blocks one after another, each under its own id. */
  function InsertAll(m: map<Id, Block>, bs: seq<Block>): map<Id, Block>
  {
    if bs == [] then m
    else
      var b := bs[|bs| - 1];
      InsertAll(m, bs[..|bs| - 1])[b.id := b]
  }

  /** updateBlocks' effect on the block map when it is not frozen. */
  function Refresh(m: map<Id, Block>, ids: seq<Id>, getDataById: Id -> Option<BlockData>,
                   view: Option<ViewData>, layout: (ViewData, Block) -> Option<Position>): map<Id, Block>
  {
    InsertAll(Merged(m, ids, getDataById, view, layout), NewBlocks(m, ids, getDataById, view, layout))
  }

  lemma {:induction false} NewBlocksAreNew(m: map<Id, Block>, ids: seq<Id>, getDataById: Id -> Option<BlockData>,
                                           view: Option<ViewData>, layout: (ViewData, Block) -> Option<Position>, b: Block)
    ensures b in NewBlocks(m, ids, getDataById, view, layout) <==>
      exists id | id in ids :: id !in m && getDataById(id).Some? && b == Build(getDataById(id).value, view, layout)
  {
    if ids != [] {
      var init := ids[..|ids| - 1];
      NewBlocksAreNew(m, init, getDataById, view, layout, b);
      assert ids == init + [ids[|ids| - 1]];
    }
  }

  lemma {:induction false} InsertAllKeys(m: map<Id, Block>, bs: seq<Block>)
    ensures InsertAll(m, bs).Keys == m.Keys + set b | b in bs :: b.id
  {
    if bs != [] {
      var init := bs[..|bs| - 1];
      InsertAllKeys(m, init);
      assert bs == init + [bs[|bs| - 1]];
    }
  }

  /** A key that no inserted block carries keeps its value. */
  lemma {:induction false} InsertAllElsewhere(m: map<Id, Block>, bs: seq<Block>, k: Id)
    requires k in m
    requires forall b | b in bs :: b.id != k
    ensures k in InsertAll(m, bs) && InsertAll(m, bs)[k] == m[k]
  {
    if bs != [] {
      InsertAllElsewhere(m, bs[..|bs| - 1], k);
    }
  }

  /** When every inserted block carrying key k is v, and one does, k maps to v. */
  lemma {:induction false} InsertAllAgreeing(m: map<Id, Block>, bs: seq<Block>, k: Id, v: Block)
    requires forall b | b in bs && b.id == k :: b == v
    requires exists b | b in bs :: b.id == k
    ensures k in InsertAll(m, bs) && InsertAll(m, bs)[k] == v
  {
    var last := bs[|bs| - 1];
    if last.id != k {
      var init := bs[..|bs| - 1];
      var b :| b in bs && b.id == k;
      assert b in init by {
        var i :| 0 <= i < |bs| && bs[i] == b;
        assert i < |bs| - 1;
        assert init[i] == b;
      }
      InsertAllAgreeing(m, init, k, v);
    }
  }

  /** The refresh never deletes a block; the ids it adds are those of the new blocks built. */
  lemma RefreshKeys(m: map<Id, Block>, ids: seq<Id>, getDataById: Id -> Option<BlockData>,
                    view: Option<ViewData>, layout: (ViewData, Block) -> Option<Position>)
    ensures Refresh(m, ids, getDataById, view, layout).Keys ==
      m.Keys + set id | id in ids && id !in m && getDataById(id).Some? :: getDataById(id).value.id
  {
    var nb := NewBlocks(m, ids, getDataById, view, layout);
    InsertAllKeys(Merged(m, ids, getDataById, view, layout), nb);
    var added := set id | id in ids && id !in m && getDataById(id).Some? :: getDataById(id).value.id;
    forall x | x in set b | b in nb :: b.id
      ensures x in added
    {
      var b :| b in nb && b.id == x;
      NewBlocksAreNew(m, ids, getDataById, view, layout, b);
    }
    forall x | x in added
      ensures x in set b | b in nb :: b.id
    {
      var id :| id in ids && id !in m && getDataById(id).Some? && getDataById(id).value.id == x;
      NewBlocksAreNew(m, ids, getDataById, view, layout, Build(getDataById(id).value, view, layout));
    }
  }

  /**
   * A stored block that no new block lands on is merged with its rebuilt
   * self when it is listed with data, and left alone otherwise; without a
   * layout its position survives the refresh.
   */
  lemma RefreshStored(m: map<Id, Block>, ids: seq<Id>, getDataById: Id -> Option<BlockData>,
                      view: Option<ViewData>, layout: (ViewData, Block) -> Option<Position>, id: Id)
    requires id in m
    requires forall x | x in ids && x !in m && getDataById(x).Some? :: getDataById(x).value.id != id
    ensures id in Refresh(m, ids, getDataById, view, layout)
    ensures var r := Refresh(m, ids, getDataById, view, layout)[id];
      && (Rebuilt(ids, getDataById, id) ==>
            r == Merge(m[id], Build(getDataById(id).value, view, layout), HasLayout(view)))
      && (!Rebuilt(ids, getDataById, id) ==> r == m[id])
      && (!HasLayout(view) ==> r.position == m[id].position)
  {
    var nb := NewBlocks(m, ids, getDataById, view, layout);
    forall b | b in nb
      ensures b.id != id
    {
      NewBlocksAreNew(m, ids, getDataById, view, layout, b);
    }
    InsertAllElsewhere(Merged(m, ids, getDataById, view, layout), nb, id);
  }

  /**
   * When every record is stored under the id it was looked up by, a refresh
   * leaves each listed id with data holding exactly its rebuilt block (merged
   * into the stored one when there was one) and every other block unchanged.
   */
  lemma RefreshWellKeyed(m: map<Id, Block>, ids: seq<Id>, getDataById: Id -> Option<BlockData>,
                         view: Option<ViewData>, layout: (ViewData, Block) -> Option<Position>, id: Id)
    requires forall x | x in ids && getDataById(x).Some? :: getDataById(x).value.id == x
    ensures var r := Refresh(m, ids, getDataById, view, layout);
      && (id in r <==> id in m || Rebuilt(ids, getDataById, id))
      && (id in m && Rebuilt(ids, getDataById, id) ==>
            r[id] == Merge(m[id], Build(getDataById(id).value, view, layout), HasLayout(view)))
      && (id !in m && Rebuilt(ids, getDataById, id) ==> r[id] == Build(getDataById(id).value, view, layout))
      && (id in m && !Rebuilt(ids, getDataById, id) ==> r[id] == m[id])
  {
    RefreshKeys(m, ids, getDataById, view, layout);
    if id in m {
      RefreshStored(m, ids, getDataById, view, layout, id);
    } else if Rebuilt(ids, getDataById, id) {
      var v := Build(getDataById(id).value, view, layout);
      var nb := NewBlocks(m, ids, getDataById, view, layout);
      NewBlocksAreNew(m, ids, getDataById, view, layout, v);
      forall b | b in nb && b.id == id
        ensures b == v
      {
        NewBlocksAreNew(m, ids, getDataById, view, layout, b);
      }
      InsertAllAgreeing(Merged(m, ids, getDataById, view, layout), nb, id, v);
    }
  }

  // ---------------------------------------------------------------------
  // Translating and nudging blocks
  // ---------------------------------------------------------------------

  /** Move one block right by w when it is stored with a position. */
  function ShiftOne(m: map<Id, Block>, id: Id, w: real): (r: map<Id, Block>)
    ensures r.Keys == m.Keys
    ensures forall x | x in m && x != id :: r[x] == m[x]
    ensures id in m && m[id].position.None? ==> r[id] == m[id]
    ensures id in m && m[id].position.Some? ==>
      r[id] == m[id].(position := Some(Position(m[id].position.value.marginLeft + w, m[id].position.value.width)))
  {
    if id in m && m[id].position.Some? then
      var p := m[id].position.value;
      m[id := m[id].(position := Some(p.(marginLeft := p.marginLeft + w)))]
    else m
  }

  /** Move the listed blocks that have a position right by w, one step per listing. */
  function ShiftAll(m: map<Id, Block>, ids: seq<Id>, w: real): map<Id, Block>
  {
    if ids == [] then m
    else ShiftOne(ShiftAll(m, ids[..|ids| - 1], w), ids[|ids| - 1], w)
  }

  function Occurrences(ids: seq<Id>, id: Id): nat
  {
    if ids == [] then 0 else Occurrences(ids[..|ids| - 1], id) + (if ids[|ids| - 1] == id then 1 else 0)
  }

  lemma {:induction false} ShiftAllKeys(m: map<Id, Block>, ids: seq<Id>, w: real)
    ensures ShiftAll(m, ids, w).Keys == m.Keys
  {
    if ids != [] {
      ShiftAllKeys(m, ids[..|ids| - 1], w);
    }
  }

  /**
   * Shifting changes nothing but a positioned block's left margin, which
   * moves by w once for each time the block is listed.
   */
  lemma {:induction false} ShiftAllMoves(m: map<Id, Block>, ids: seq<Id>, w: real, id: Id)
    requires id in m
    ensures id in ShiftAll(m, ids, w)
    ensures m[id].position.None? ==> ShiftAll(m, ids, w)[id] == m[id]
    ensures m[id].position.Some? ==>
      ShiftAll(m, ids, w)[id] == m[id].(position := Some(Position(
        m[id].position.value.marginLeft + Times(Occurrences(ids, id), w), m[id].position.value.width)))
  {
    ShiftAllKeys(m, ids, w);
    if ids != [] {
      var init, last := ids[..|ids| - 1], ids[|ids| - 1];
      ShiftAllMoves(m, init, w, id);
      ShiftAllKeys(m, init, w);
      var s := ShiftAll(m, init, w);
      assert ShiftAll(m, ids, w) == ShiftOne(s, last, w);
      var c := Occurrences(init, id);
      assert Occurrences(ids, id) == c + (if last == id then 1 else 0);
      if m[id].position.Some? && last == id {
        var p := m[id].position.value;
        assert Times(c + 1, w) == Times(c, w) + w;
        assert ShiftOne(s, id, w)[id] == m[id].(position := Some(Position(p.marginLeft + Times(c, w) + w, p.width)));
      }
    }
  }

  /** w added n times. */
  function Times(n: nat, w: real): real
  {
    if n == 0 then 0.0 else Times(n - 1, w) + w
  }

  lemma {:induction false} TimesIsProduct(n: nat, w: real)
    ensures Times(n, w) == n as real * w
  {
    if n > 0 {
      TimesIsProduct(n - 1, w);
    }
  }

  /** updateBlockPosition's effect: move and resize one positioned block. */
  function Nudge(m: map<Id, Block>, id: Id, deltaLeft: real, deltaWidth: real): (r: map<Id, Block>)
    ensures r.Keys == m.Keys
    ensures forall x | x in m && x != id :: r[x] == m[x]
    ensures !(id in m && m[id].position.Some?) ==> r == m
    ensures id in m && m[id].position.Some? ==>
      && r[id].position.Some?
      && r[id].position.value.marginLeft == m[id].position.value.marginLeft + deltaLeft
      && r[id].position.value.width == m[id].position.value.width + deltaWidth
      && r[id].(position := m[id].position) == m[id]
  {
    if id in m && m[id].position.Some? then
      var p := m[id].position.value;
      m[id := m[id].(position := Some(Position(p.marginLeft + deltaLeft, p.width + deltaWidth)))]
    else m
  }

  /** Two nudges of a block add up, and a nudge is undone by its opposite. */
  lemma NudgesCompose(m: map<Id, Block>, id: Id, l1: real, w1: real, l2: real, w2: real)
    ensures Nudge(Nudge(m, id, l1, w1), id, l2, w2) == Nudge(m, id, l1 + l2, w1 + w2)
    ensures Nudge(Nudge(m, id, l1, w1), id, -l1, -w1) == m
  {
    if id in m && m[id].position.Some? {
      var p := m[id].position.value;
      assert Nudge(Nudge(m, id, l1, w1), id, -l1, -w1)[id] == m[id];
    }
  }

  /** Math.round: the nearest integer, halves rounded up. */
  function Round(x: real): (n: int)
    ensures -0.5 < n as real - x <= 0.5
  {
    (x + 0.5).Floor
  }

  // ---------------------------------------------------------------------
  // The store
  // ---------------------------------------------------------------------

  class BaseTimelineStore {
    var blocksMap: map<Id, Block>
    var blockIds: Option<seq<Id>>
    var isDragging: bool
    var currentViewData: Option<ViewData>

    /** The store as created: initGantt with the default view's data, not dragging. */
    constructor (initialView: Option<ViewData>)
      ensures blocksMap == map[] && blockIds.None? && !isDragging && currentViewData == initialView
    {
      blocksMap := map[];
      blockIds := None;
      isDragging := false;
      currentViewData := initialView;
    }

    /** initGantt: take the view's data, drop every block and forget the id list. */
    method InitGantt(viewData: Option<ViewData>)
      modifies this
      ensures currentViewData == viewData && blocksMap == map[] && blockIds.None?
      ensures isDragging == old(isDragging)
    {
      currentViewData := viewData;
      blocksMap := map[];
      blockIds := None;
    }

    method SetBlockIds(ids: seq<Id>)
      modifies this`blockIds
      ensures blockIds == Some(ids)
    {
      blockIds := Some(ids);
    }

    method SetIsDragging(dragging: bool)
      modifies this`isDragging
      ensures isDragging == dragging
    {
      isDragging := dragging;
    }

    /**
     * updateBlocks' first loop: the field patches for listed blocks already
     * stored, and the new blocks for listed ids not yet stored.
     */
    static method DiffBlocks(blocksMap: map<Id, Block>, ids: seq<Id>, currentViewData: Option<ViewData>,
                             getDataById: Id -> Option<BlockData>, layout: (ViewData, Block) -> Option<Position>)
      returns (patches: seq<Patch>, newBlocks: seq<Block>)
      ensures forall p | p in patches ::
        && p.blockId in blocksMap && Rebuilt(ids, getDataById, p.blockId)
        && p.value == Build(getDataById(p.blockId).value, currentViewData, layout)
        && !SameAt(blocksMap[p.blockId], p.value, p.key)
      ensures forall id | id in blocksMap && Rebuilt(ids, getDataById, id) ::
        KeysFor(patches, id) == ChangedKeys(blocksMap[id], Build(getDataById(id).value, currentViewData, layout), HasLayout(currentViewData))
      ensures newBlocks == NewBlocks(blocksMap, ids, getDataById, currentViewData, layout)
    {
      var laidOut := currentViewData.Some? && (currentViewData.value.startDate.Some? || currentViewData.value.dayWidth != 0.0);
      patches, newBlocks := [], [];
      for i := 0 to |ids|
        invariant forall p | p in patches ::
          && p.blockId in blocksMap && p.blockId in ids[..i] && getDataById(p.blockId).Some?
          && p.value == Build(getDataById(p.blockId).value, currentViewData, layout)
          && !SameAt(blocksMap[p.blockId], p.value, p.key)
        invariant forall id | id in blocksMap && id in ids[..i] && getDataById(id).Some? ::
          KeysFor(patches, id) == ChangedKeys(blocksMap[id], Build(getDataById(id).value, currentViewData, layout), laidOut)
        invariant newBlocks == NewBlocks(blocksMap, ids[..i], getDataById, currentViewData, layout)
      {
        assert ids[..i + 1][..i] == ids[..i];
        var blockId := ids[i];
        var blockData := getDataById(blockId);
        if blockData.None? {
          continue;
        }
        var block := Build(blockData.value, currentViewData, layout);
        if blockId in blocksMap {
          var added := DiffBlock(blockId, blocksMap[blockId], block, laidOut);
          patches := patches + added;
        } else {
          newBlocks := newBlocks + [block];
        }
      }
      assert ids[..|ids|] == ids;
    }

    /** The inner loop over the built block's keys: one patch per key whose value changed. */
    static method DiffBlock(blockId: Id, curr: Block, next: Block, laidOut: bool) returns (patches: seq<Patch>)
      ensures forall p | p in patches :: p.blockId == blockId && p.value == next && !SameAt(curr, next, p.key)
      ensures (set p | p in patches :: p.key) == ChangedKeys(curr, next, laidOut)
    {
      var keys := [DataKey, IdKey, NameKey, SortOrderKey, StartDateKey, TargetDateKey, MetaKey]
        + (if laidOut then [PositionKey] else []);
      patches := [];
      for j := 0 to |keys|
        invariant forall p | p in patches :: p.blockId == blockId && p.value == next && !SameAt(curr, next, p.key)
        invariant (set p | p in patches :: p.key) == set k | k in keys[..j] && !SameAt(curr, next, k)
      {
        assert keys[..j + 1] == keys[..j] + [keys[j]];
        ghost var done := set k | k in keys[..j] && !SameAt(curr, next, k);
        if !SameAt(curr, next, keys[j]) {
          ghost var before := patches;
          patches := patches + [Patch(blockId, keys[j], next)];
          assert (set p | p in patches :: p.key) == (set p | p in before :: p.key) + {keys[j]};
          assert (set k | k in keys[..j + 1] && !SameAt(curr, next, k)) == done + {keys[j]};
        } else {
          assert (set k | k in keys[..j + 1] && !SameAt(curr, next, k)) == done;
        }
      }
      assert keys[..|keys|] == keys;
      assert forall k :: k in keys <==> k in BuiltKeys(laidOut);
    }

    /**
     * updateBlocks: frozen while there is no id list or a drag is under way;
     * otherwise every listed id with data is rebuilt, written field by field
     * into its stored block when there is one, inserted whole when there is
     * not. Nothing is deleted.
     */
    method UpdateBlocks(getDataById: Id -> Option<BlockData>, layout: (ViewData, Block) -> Option<Position>)
      modifies this`blocksMap
      ensures old(blockIds).None? || old(isDragging) ==> blocksMap == old(blocksMap)
      ensures old(blockIds).Some? && !old(isDragging) ==>
        blocksMap == Refresh(old(blocksMap), blockIds.value, getDataById, currentViewData, layout)
    {
      if blockIds.None? || isDragging {
        return;
      }
      var patches, newBlocks := DiffBlocks(blocksMap, blockIds.value, currentViewData, getDataById, layout);
      ApplyPatches(patches, getDataById, layout);
      InsertBlocks(newBlocks);
    }

    /** updateBlocks' second phase, the field writes: together they merge each rebuilt block. */
    method ApplyPatches(patches: seq<Patch>, getDataById: Id -> Option<BlockData>,
                        layout: (ViewData, Block) -> Option<Position>)
      requires blockIds.Some?
      requires forall p | p in patches ::
        && p.blockId in blocksMap && Rebuilt(blockIds.value, getDataById, p.blockId)
        && p.value == Build(getDataById(p.blockId).value, currentViewData, layout)
      requires forall id | id in blocksMap && Rebuilt(blockIds.value, getDataById, id) ::
        KeysFor(patches, id) == ChangedKeys(blocksMap[id], Build(getDataById(id).value, currentViewData, layout), HasLayout(currentViewData))
      modifies this`blocksMap
      ensures blocksMap == Merged(old(blocksMap), blockIds.value, getDataById, currentViewData, layout)
    {
      ghost var m0 := blocksMap;
      ghost var target := Rebuilds(m0, blockIds.value, getDataById, currentViewData, layout);
      for j := 0 to |patches|
        invariant blocksMap.Keys == m0.Keys
        invariant forall id | id in m0 :: blocksMap[id] == Overlay(m0[id], KeysFor(patches[..j], id), target[id])
      {
        var p := patches[j];
        assert patches[..j + 1] == patches[..j] + [p];
        WriteKeepsOverlay(m0, blocksMap, patches[..j], p, target);
        blocksMap := blocksMap[p.blockId := SetKey(blocksMap[p.blockId], p.key, p.value)];
      }
      assert patches[..|patches|] == patches;
      forall id | id in m0
        ensures blocksMap[id] == Merged(m0, blockIds.value, getDataById, currentViewData, layout)[id]
      {
        if Rebuilt(blockIds.value, getDataById, id) {
          ChangedKeysSuffice(m0[id], target[id], HasLayout(currentViewData));
        } else {
          assert KeysFor(patches, id) == {};
        }
      }
    }

    /** updateBlocks' last phase: each new block is stored under its own id, in order. */
    method InsertBlocks(newBlocks: seq<Block>)
      modifies this`blocksMap
      ensures blocksMap == InsertAll(old(blocksMap), newBlocks)
    {
      ghost var m0 := blocksMap;
      for k := 0 to |newBlocks|
        invariant blocksMap == InsertAll(m0, newBlocks[..k])
      {
        assert newBlocks[..k + 1][..k] == newBlocks[..k];
        blocksMap := blocksMap[newBlocks[k].id := newBlocks[k]];
      }
      assert newBlocks[..|newBlocks|] == newBlocks;
    }

    /**
     * updateAllBlocksOnChartChangeWhileDragging: while dragging, move every
     * listed block that has a position right by addedWidth.
     */
    method UpdateAllBlocksOnChartChangeWhileDragging(addedWidth: real)
      modifies this`blocksMap
      ensures old(blockIds).None? || !old(isDragging) ==> blocksMap == old(blocksMap)
      ensures old(blockIds).Some? && old(isDragging) ==> blocksMap == ShiftAll(old(blocksMap), blockIds.value, addedWidth)
    {
      if blockIds.None? || !isDragging {
        return;
      }
      var ids := blockIds.value;
      ghost var m0 := blocksMap;
      for i := 0 to |ids|
        invariant blocksMap == ShiftAll(m0, ids[..i], addedWidth)
      {
        assert ids[..i + 1][..i] == ids[..i];
        var blockId := ids[i];
        if blockId in blocksMap && blocksMap[blockId].position.Some? {
          var currBlock := blocksMap[blockId];
          var p := currBlock.position.value;
          blocksMap := blocksMap[blockId := currBlock.(position := Some(p.(marginLeft := p.marginLeft + addedWidth)))];
        }
        assert ShiftAll(m0, ids[..i + 1], addedWidth) == ShiftOne(ShiftAll(m0, ids[..i], addedWidth), blockId, addedWidth);
      }
      assert ids[..|ids|] == ids;
    }

    /** updateBlockPosition: move and resize one positioned block; nothing else changes. */
    method UpdateBlockPosition(id: Id, deltaLeft: real, deltaWidth: real)
      modifies this`blocksMap
      ensures blocksMap == Nudge(old(blocksMap), id, deltaLeft, deltaWidth)
      ensures blocksMap.Keys == old(blocksMap).Keys
      ensures forall x | x in old(blocksMap) && x != id :: blocksMap[x] == old(blocksMap)[x]
      ensures !(id in old(blocksMap) && old(blocksMap)[id].position.Some?) ==> blocksMap == old(blocksMap)
      ensures id in old(blocksMap) && old(blocksMap)[id].position.Some? ==>
        && blocksMap[id].position.Some?
        && blocksMap[id].position.value.marginLeft == old(blocksMap)[id].position.value.marginLeft + deltaLeft
        && blocksMap[id].position.value.width == old(blocksMap)[id].position.value.width + deltaWidth
        && blocksMap[id].(position := old(blocksMap)[id].position) == old(blocksMap)[id]
    {
      if id !in blocksMap || blocksMap[id].position.None? {
        return;
      }
      var currBlock := blocksMap[id];
      var newMarginLeft := currBlock.position.value.marginLeft + deltaLeft;
      var newWidth := currBlock.position.value.width + deltaWidth;
      blocksMap := blocksMap[id := currBlock.(position := Some(Position(newMarginLeft, newWidth)))];
    }

    /**
     * getUpdatedPositionAfterDrag: nothing without a position or view data;
     * otherwise one payload whose start is the date at the block's left edge
     * and whose end is the day before the date at its right edge, each sent
     * when the half-block flag is set or the block already had that date.
     * dateAt(x, view, offsetDays) stands for the date helper.
     */
    function GetUpdatedPositionAfterDrag(id: Id, shouldUpdateHalfBlock: bool,
                                         dateAt: (real, ViewData, int) -> Day): (payloads: seq<DragPayload>)
      reads this
      ensures payloads == [] <==> id !in blocksMap || blocksMap[id].position.None? || currentViewData.None?
      ensures payloads != [] ==>
        var b := blocksMap[id];
        var p := b.position.value;
        && |payloads| == 1
        && payloads[0].id == id && payloads[0].projectId == b.projectId
        && (payloads[0].startDate.Some? <==> shouldUpdateHalfBlock || b.startDate.Some?)
        && (payloads[0].targetDate.Some? <==> shouldUpdateHalfBlock || b.targetDate.Some?)
        && (payloads[0].startDate.Some? ==> payloads[0].startDate.value == dateAt(p.marginLeft, currentViewData.value, 0))
        && (payloads[0].targetDate.Some? ==>
              payloads[0].targetDate.value == dateAt(p.marginLeft + p.width, currentViewData.value, -1))
    {
      if id !in blocksMap || blocksMap[id].position.None? || currentViewData.None? then []
      else
        var b := blocksMap[id];
        var p := b.position.value;
        var view := currentViewData.value;
        var start := if shouldUpdateHalfBlock || b.startDate.Some? then Some(dateAt(p.marginLeft, view, 0)) else None;
        var target := if shouldUpdateHalfBlock || b.targetDate.Some? then Some(dateAt(p.marginLeft + p.width, view, -1)) else None;
        [DragPayload(id, b.projectId, start, target)]
    }

    /**
     * getNumberOfDaysFromPosition: the whole number of days nearest to the
     * position, halves rounded up; nothing without view data or for a
     * missing or zero position.
     */
    function GetNumberOfDaysFromPosition(position: Option<real>): (days: Option<int>)
      reads this
      ensures days.None? <==>
        currentViewData.None? || position.None? || position.value == 0.0 || currentViewData.value.dayWidth == 0.0
      ensures days.Some? ==>
        var x := position.value / currentViewData.value.dayWidth;
        -0.5 < days.value as real - x <= 0.5
    {
      if currentViewData.None? || position.None? || position.value == 0.0 || currentViewData.value.dayWidth == 0.0 then None
      else Some(Round(position.value / currentViewData.value.dayWidth))
    }
  }
}
