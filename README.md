# Timeline dependencies and editor utilities, in Dafny

This project models two parts of the web client.

The first is the **dependency engine of the timeline (Gantt) chart**. It covers:

- the breadth-first cycle check run before a "blocking" relation is created;
- the date cascade that pushes blocked issues later when their blocker ends too late;
- the clamp that keeps proposed dates after the direct blockers' ends;
- the drop-target resolver and the mouse-up decision of the two drag handles;
- the connector curves between related blocks;
- the chart's block store, with its field-by-field refresh, drag-time shifts and drag payloads.

The second is a set of **editor and configuration utilities**:

- the upload guard `isFileValid`;
- the utility extension's storage (open dropbar extensions, the asset list and its ordering);
- the image node view's attachment test;
- the `joinUrlPath` / `basePath` helpers that build the router base path.

Modules, one file each:

- `Common`: `Option`, ids, day numbers, pixel positions, date patches, drag state.
- `Graph`: the "blocking" / "blocked_by" lookups, paths, reachability, acyclicity and the effect of creating a relation.
- `Scheduler` (`use-auto-schedule.ts`).
- `TargetResolver` (`find-target-block.ts`).
- `DragHandles`: the `handleMouseUp` of the right and left handles.
- `PathGeometry`: `dependency-paths.tsx` and `draggable-dependency-path.tsx`.
- `TimelineStore` (`base-timeline.store.ts`).
- `FileValidation`, `AttachmentKind`, `EditorUtility` and `UrlPath`.

Dates are day numbers (`int`) and pixels are `real`. Issue lookups are maps. Helpers whose code is not part of this model are parameters:

- the position helper;
- the date-at-pixel helper;
- the asset-metadata readers;
- the clock.

The cascade, the cycle walk, the clamp, the target scan, the store's refresh loops, the asset scan and sort, and the slash trimming are methods with loops. Each method's postcondition either equals a specification function or states its properties directly. The table below says what each contract states, and no more is claimed. The store and the editor storage are classes whose methods update their fields.

The code is followed where it is quirky. Each of these is stated in a contract rather than repaired:

- The cascade marks a target visited even when it does not shift it, so a later edge into that target is skipped, even one that would shift it (`CascadeSkipsTargetReachedFirst`).
- An empty-string target id is falsy. `autoSchedule` with an empty blocked id therefore fans out over all of the blocker's successors.
- `updateBlocks` inserts a new block under the id its data carries, not under the listed id.
- A block listed twice is shifted twice while dragging.
- `onUpdate` compares comma-joined id lists.
- Two assets with no document position compare as `Infinity - Infinity`, which is NaN. The sort reads NaN as equal, so such assets keep their set order at the end of the list.

## Model

| member | source | states |
|---|---|---|
| Graph.AddRelation | apps/web/ce/components/gantt-chart/dependency/blockDraggables/right-draggable.tsx:77-79 | Creating "a blocks b" adds exactly the edge a→b. b is appended to a's blocking list and a to b's blocked_by list. No other id's successors change. |
| Graph.AddRelationKeepsAcyclic | apps/web/ce/components/gantt-chart/dependency/blockDraggables/right-draggable.tsx:73-79 | The guarded insert keeps the graph acyclic. In an acyclic graph where a is not reachable from b, adding a→b leaves no cycle. |
| Graph.UnguardedAddCanCloseCycle | apps/web/ce/components/gantt-chart/dependency/blockDraggables/right-draggable.tsx:74-75 | The guard is needed. The acyclic graph a→b gets a cycle once b→a is added. |
| Scheduler.EnqueueUnvisited | apps/web/ce/components/gantt-chart/dependency/use-auto-schedule.ts:210-215 | The queue only grows. Every entry it gains is a successor of the current id. Every successor is either visited already or now queued. |
| Scheduler.WouldCreateCycle | apps/web/ce/components/gantt-chart/dependency/use-auto-schedule.ts:201-220 | The walk answers true exactly when srcId is reachable from tgtId over existing blocking edges, including srcId == tgtId. So adding src→tgt would close a cycle exactly when it answers true. The walk always terminates. |
| Scheduler.EdgeShift | apps/web/ce/components/gantt-chart/dependency/use-auto-schedule.ts:55-80 | Examining src→tgt yields no patch in these cases: either issue is unknown, the effective end or the start is missing, or the target already starts after that end. Otherwise the patch names the target and moves it strictly later, to the day after the source's effective end, keeping its duration. |
| Scheduler.ProcessEdge | apps/web/ce/components/gantt-chart/dependency/use-auto-schedule.ts:51-91 | Equals EdgeWalk on the same state. Patches stay unique per issue and each is a forward, duration-keeping shift. A visited target changes nothing. An unshifted target is only marked visited. A shifted target appends its patch first, then descends into every successor. Every new patch is reachable from the target. Terminates on any graph, cycles included. |
| Scheduler.Descend | apps/web/ce/components/gantt-chart/dependency/use-auto-schedule.ts:84-90 | Equals SuccsWalk over src's successors in relation order. Every successor of src is visited. Earlier patches are kept. Every added patch lies strictly downstream of src. The cascade invariant is preserved. |
| Scheduler.CollectCascadeUpdates | apps/web/ce/components/gantt-chart/dependency/use-auto-schedule.ts:37-109 | Returns exactly Cascade. At most one patch per issue, each a forward shift keeping duration. With a (truthy) target, every patch is reachable from the target, the batch is empty exactly when the first edge yields no shift, and otherwise the first patch is that shift. Without one, every patch is strictly downstream of the start, and the batch is empty exactly when no direct successor's edge yields a shift. |
| Scheduler.AutoSchedule | apps/web/ce/components/gantt-chart/dependency/use-auto-schedule.ts:128-134 | Returns exactly Cascade from blocking with target blocked. Each issue is patched at most once and moved forward with its duration. With a non-empty blocked id, only issues reachable from blocked are touched, and the batch is empty exactly when the edge itself needs no shift. With an empty (falsy) blocked id, only issues strictly downstream of blocking are touched, and the batch is empty exactly when no direct successor's edge needs a shift. |
| Scheduler.CascadeFromBlock | apps/web/ce/components/gantt-chart/dependency/use-auto-schedule.ts:137-144 | Returns exactly Cascade fanned out from the moved block with its new end. Every patched issue lies strictly downstream of it, appears once and moves forward with its duration. The batch is empty exactly when no direct successor's edge needs a shift from the new end. |
| Scheduler.EdgeWalk | apps/web/ce/components/gantt-chart/dependency/use-auto-schedule.ts:51-91 | The reference walk of one edge. It only adds to the visited set, always marks the target, and keeps earlier patches as a prefix. A visited target leaves the walk unchanged, an unshifted one is only marked, and a shifted one appends its patch next. |
| Scheduler.SuccsWalk | apps/web/ce/components/gantt-chart/dependency/use-auto-schedule.ts:84-90 | The reference walk over a list of successors. Every listed successor ends up visited, visited ids are kept, and earlier patches are kept as a prefix. |
| Scheduler.Cascade | apps/web/ce/components/gantt-chart/dependency/use-auto-schedule.ts:37-109 | collectCascadeUpdates as a function. With a truthy target, the result is empty exactly when the first edge yields no shift. |
| Scheduler.SuccsWalkQuiet | apps/web/ce/components/gantt-chart/dependency/use-auto-schedule.ts:84-90 | When every listed successor is visited already or unshifted by its edge, the walk adds no patch and records no end. |
| Scheduler.SuccsWalkGrows | apps/web/ce/components/gantt-chart/dependency/use-auto-schedule.ts:84-90 | When some listed successor is unvisited and shifted by its edge, the walk adds at least one patch. |
| Scheduler.ShiftedTargetPropagates | apps/web/ce/components/gantt-chart/dependency/use-auto-schedule.ts:76-90 | A shift travels on: when a shifted target has an unvisited successor that the target's new end would shift, the walk of that edge adds at least two patches. |
| Scheduler.FanOutEmptyIff | apps/web/ce/components/gantt-chart/dependency/use-auto-schedule.ts:97-104 | A cascade without a truthy target is empty exactly when no direct successor's edge shifts it from the seeded ends. |
| Scheduler.CascadePropagates | apps/web/ce/components/gantt-chart/dependency/use-auto-schedule.ts:76-95 | A cascade whose target shifts, and whose target then shifts one of its own successors, patches at least two issues. |
| Scheduler.CascadeShiftsChain | apps/web/ce/components/gantt-chart/dependency/use-auto-schedule.ts:51-95 | For A→B→C with overlapping dates, linking A before B moves B to the day after A's end and C to the day after B's new end, both keeping their durations. |
| Scheduler.CascadeSkipsTargetReachedFirst | apps/web/ce/components/gantt-chart/dependency/use-auto-schedule.ts:52-53 | The visited mark comes before the shift test. Linking A before P shifts P; P blocks X and D, and X blocks D. X is shifted but has no end, so D, reached through X first, is only marked, and the later P→D edge is skipped although P's new end would shift D. |
| Scheduler.LatestEndIsMax | apps/web/ce/components/gantt-chart/dependency/use-auto-schedule.ts:163-172 | The scanned latest end is absent exactly when no blocker has an end. Otherwise it is at least every blocker end and equal to one of them. |
| Scheduler.LatestBlockerEnd | apps/web/ce/components/gantt-chart/dependency/use-auto-schedule.ts:159-172 | The loop over the blocked_by list computes the latest blocker end in list order. |
| Scheduler.Clamp | apps/web/ce/components/gantt-chart/dependency/use-auto-schedule.ts:156-191 | The id is kept, and so is which dates are present. A patch without a start, without a blocker end, or already starting after that end is unchanged. Otherwise it starts the day after the latest blocker end and keeps its duration. The start never moves earlier. |
| Scheduler.EnforceBlockedByConstraint | apps/web/ce/components/gantt-chart/dependency/use-auto-schedule.ts:151-195 | The batch keeps its length and order. Each patch is clamped against its own direct blockers' latest end. |
| Scheduler.ClampedStartsAfterBlockers | apps/web/ce/components/gantt-chart/dependency/use-auto-schedule.ts:174-189 | After the clamp, a patch with a start begins strictly after every direct blocker that has an end. |
| TargetResolver.ScoreCandidate | apps/web/ce/components/gantt-chart/dependency/blockDraggables/find-target-block.ts:42-80 | A block is scored exactly when it is accepted: not the source, positioned, near its row, and either over the widened block or inside the magnetic zone of its snap edge. The score is the Manhattan distance to the snap point. |
| TargetResolver.FindTargetBlock | apps/web/ce/components/gantt-chart/dependency/blockDraggables/find-target-block.ts:30-95 | No target, and no snap, exactly when no listed block is accepted. Otherwise the result is another, positioned block snapped to its edge and row centre. It is the nearest accepted candidate, ties going to the first listed. |
| TargetResolver.CursorOnSnapPointIsAccepted | apps/web/ce/components/gantt-chart/dependency/blockDraggables/find-target-block.ts:59-80 | A cursor exactly on a positioned, non-source block's snap point is accepted, at distance zero. |
| TargetResolver.ZeroDistanceWins | apps/web/ce/components/gantt-chart/dependency/blockDraggables/find-target-block.ts:72-83 | A candidate at distance zero with no earlier zero-distance candidate is the unique winner. |
| DragHandles.DecideMouseUp | apps/web/ce/components/gantt-chart/dependency/blockDraggables/right-draggable.tsx:68-83 | A drop acts only on a truthy target other than the dragged block. It is rejected exactly when the proposed relation would close a cycle. Otherwise it records exactly that relation and keeps the graph acyclic. The submitted batch is exactly the Cascade of the new edge: its patches are forward shifts of issues reachable from the blocked one, each once, and it is empty exactly when the new edge needs no shift (with an empty blocked id: when no successor of the blocker needs one). |
| DragHandles.HandleMouseUp | apps/web/ce/components/gantt-chart/dependency/blockDraggables/left-draggable.tsx:67-92 | Without a row list nothing is linked. With one, there is no target exactly when no listed block is accepted; otherwise the target is the first accepted block at the least distance. It acts only on a truthy target other than the dragged block and is rejected exactly when the relation would close a cycle. A link mirrors the handle's direction (the left handle makes the target the blocker), never breaks acyclicity, and submits exactly the Cascade of the new edge, empty exactly when that edge needs no shift. The drag state is cleared. |
| PathGeometry.ComputeDependencyPath | apps/web/ce/components/gantt-chart/dependency/dependency-paths.tsx:25-45 | The curve runs from source to target. It leaves and arrives heading right, symmetrically, by at least the minimum offset. With enough room both control points sit at the midpoint. Otherwise they overshoot by half the gap plus the offset. |
| PathGeometry.ComputeDragPath | apps/web/ce/components/gantt-chart/dependency/draggable-dependency-path.tsx:16-46 | A right drag draws the dependency curve. A left drag draws its mirror image. |
| PathGeometry.LeftDragPathHeadsLeft | apps/web/ce/components/gantt-chart/dependency/draggable-dependency-path.tsx:23-34 | A left drag's curve leaves and arrives heading left, by at least the minimum offset. |
| PathGeometry.BuildIndexMap | apps/web/ce/components/gantt-chart/dependency/dependency-paths.tsx:89-91 | Every listed id is indexed, at the position of its last occurrence. |
| PathGeometry.EdgeListMembership | apps/web/ce/components/gantt-chart/dependency/dependency-paths.tsx:93-104 | A link is collected exactly when its source is listed, the relation store records it, and its target is listed. |
| PathGeometry.CollectEdges | apps/web/ce/components/gantt-chart/dependency/dependency-paths.tsx:93-104 | The nested loop yields the edge list in row order and relation order. Every collected link joins two listed blocks along a recorded relation. |
| PathGeometry.EdgeCurve | apps/web/ce/components/gantt-chart/dependency/dependency-paths.tsx:120-137 | No curve when either block lacks a position. Otherwise it starts at the blocker's right edge on its row centre and ends one arrowhead short of the blocked block's left edge, on that block's row centre. The curve is the dependency curve between those two anchors, control points included. |
| PathGeometry.DependencyCurves | apps/web/ce/components/gantt-chart/dependency/dependency-paths.tsx:87-137 | Nothing is drawn without listed blocks. Otherwise there is one entry per collected link, between listed blocks, drawn exactly when both blocks are positioned. A drawn curve leaves the blocker's right edge at the centre of the blocker's last listed row. It arrives an arrowhead short of the blocked block's left edge, at the centre of that block's last listed row. It is the dependency curve between those anchors. |
| PathGeometry.DragCurve | apps/web/ce/components/gantt-chart/dependency/draggable-dependency-path.tsx:61-86 | No curve without a drag, without listed blocks, or without the source's position. Otherwise the curve starts at the dragged handle. Its height is the centre of the source's last listed row, or of row 0 when the source is not listed. It ends at the snap point or cursor, an arrowhead short on the side matching the direction unless snapped. |
| TimelineStore.SetKey | apps/web/ce/store/timeline/base-timeline.store.ts:172-182 | One field write makes the stored block agree with the built one at that key. |
| TimelineStore.Merge | apps/web/ce/store/timeline/base-timeline.store.ts:172-193 | A merged block agrees with the rebuilt one on every key the rebuilt one carries. Without a layout its old position survives. |
| TimelineStore.ChangedKeysSuffice | apps/web/ce/store/timeline/base-timeline.store.ts:172-193 | Writing only the changed keys gives the same block as overwriting every built key. |
| TimelineStore.RefreshKeys | apps/web/ce/store/timeline/base-timeline.store.ts:147-194 | A refresh deletes no block. The keys it adds are the data ids of the listed ids that had data and no stored block. |
| TimelineStore.RefreshStored | apps/web/ce/store/timeline/base-timeline.store.ts:147-194 | A stored block that no new block lands on is merged with its rebuilt self when listed with data, and untouched otherwise. Without a layout its position is kept. |
| TimelineStore.RefreshWellKeyed | apps/web/ce/store/timeline/base-timeline.store.ts:147-194 | When records are stored under their own ids: each listed id with data holds its rebuilt block, merged when it was stored and inserted when it was not. Every other block is unchanged and nothing else appears. |
| TimelineStore.ShiftOne | apps/web/ce/store/timeline/base-timeline.store.ts:214-219 | Only the named block moves, and only if positioned. Its left margin grows by the width and its width is unchanged. |
| TimelineStore.ShiftAllMoves | apps/web/ce/store/timeline/base-timeline.store.ts:211-221 | The drag-time shift changes only positioned listed blocks. Each moves right by the added width once per listing and keeps its width. |
| TimelineStore.TimesIsProduct | apps/web/ce/store/timeline/base-timeline.store.ts:211-221 | Shifting n times by w moves a block by n·w. |
| TimelineStore.Nudge | apps/web/ce/store/timeline/base-timeline.store.ts:241-253 | Only the named block changes, and no block is added or removed. A missing or unpositioned block leaves the map unchanged. A positioned block gets deltaLeft added to its left margin and deltaWidth to its width, and keeps every other field. |
| TimelineStore.NudgesCompose | apps/web/ce/store/timeline/base-timeline.store.ts:241-253 | Two position updates add up, and an update is undone by its opposite. |
| TimelineStore.Round | apps/web/ce/store/timeline/base-timeline.store.ts:196-199 | Math.round: the nearest integer, halves rounded up. |
| TimelineStore.BaseTimelineStore.constructor | apps/web/ce/store/timeline/base-timeline.store.ts:80-103 | A new store has no blocks and no id list, is not dragging, and holds the default view's data. |
| TimelineStore.BaseTimelineStore.InitGantt | apps/web/ce/store/timeline/base-timeline.store.ts:135-143 | Takes the view data, drops every block and the id list, and leaves the drag flag alone. |
| TimelineStore.BaseTimelineStore.SetBlockIds | apps/web/ce/store/timeline/base-timeline.store.ts:105-107 | The id list becomes the given one; nothing else changes. |
| TimelineStore.BaseTimelineStore.SetIsDragging | apps/web/ce/store/timeline/base-timeline.store.ts:109-113 | The drag flag becomes the given one; nothing else changes. |
| TimelineStore.BaseTimelineStore.DiffBlocks | apps/web/ce/store/timeline/base-timeline.store.ts:153-183 | Each patch targets a listed, stored block with data. It carries the rebuilt block and names a key whose value differs. The keys patched per block are exactly its changed keys. New blocks are built for listed ids with data not yet stored, in list order. |
| TimelineStore.BaseTimelineStore.DiffBlock | apps/web/ce/store/timeline/base-timeline.store.ts:172-182 | One patch per key whose value changed, and no others. |
| TimelineStore.BaseTimelineStore.UpdateBlocks | apps/web/ce/store/timeline/base-timeline.store.ts:147-194 | Frozen without an id list or during a drag. Otherwise the map becomes the refresh of the old map: see RefreshKeys, RefreshStored and RefreshWellKeyed. |
| TimelineStore.BaseTimelineStore.ApplyPatches | apps/web/ce/store/timeline/base-timeline.store.ts:185-189 | The field writes, applied one by one, merge each rebuilt block into its stored one and leave the rest alone. |
| TimelineStore.BaseTimelineStore.InsertBlocks | apps/web/ce/store/timeline/base-timeline.store.ts:190-193 | Each new block is stored under its own id, in order. |
| TimelineStore.BaseTimelineStore.UpdateAllBlocksOnChartChangeWhileDragging | apps/web/ce/store/timeline/base-timeline.store.ts:211-221 | Nothing changes unless dragging with an id list. Otherwise every listed positioned block moves right by the added width (see ShiftAllMoves). |
| TimelineStore.BaseTimelineStore.UpdateBlockPosition | apps/web/ce/store/timeline/base-timeline.store.ts:241-253 | The map becomes Nudge of the old one. A missing or unpositioned block changes nothing. A positioned block's left margin grows by deltaLeft and its width by deltaWidth, with its other fields and every other block unchanged. |
| TimelineStore.BaseTimelineStore.GetUpdatedPositionAfterDrag | apps/web/ce/store/timeline/base-timeline.store.ts:223-239 | No payload without the block's position or view data. Otherwise exactly one payload. Its start is the date at the left edge and its end the day before the date at the right edge, each sent exactly when the half-block flag is set or the block had that date. |
| TimelineStore.BaseTimelineStore.GetNumberOfDaysFromPosition | apps/web/ce/store/timeline/base-timeline.store.ts:196-199 | Nothing without view data or for a missing or zero position. Otherwise the day count is within half a day of position / dayWidth, halves rounded up. |
| FileValidation.IsFileValid | packages/editor/src/core/helpers/file.ts:20-44 | Valid exactly when a file is selected, its type is accepted and a positive limit is respected. Valid exactly when no error is reported. At most one error is reported, and it is the first failing check's. |
| FileValidation.SizeLimitIsInclusive | packages/editor/src/core/helpers/file.ts:33-41 | A file of exactly the limit passes. A non-positive limit disables the check. Raising a positive limit never rejects a file that passed. |
| AttachmentKind.ToLower | packages/editor/src/core/extensions/custom-image/components/node-view.tsx:34-35 | Lower-casing keeps the length and maps each character. |
| AttachmentKind.AfterLastDot | packages/editor/src/core/extensions/custom-image/components/node-view.tsx:34-35 | The extension is the dot-free suffix after the last dot, or the whole name when there is no dot. |
| AttachmentKind.IsAttachmentFile | packages/editor/src/core/extensions/custom-image/components/node-view.tsx:31-50 | An attachment needs a non-empty source whose lower-cased extension is listed as an attachment and not as an image. A source ending in a dot is never one. |
| AttachmentKind.IsActuallyAttachment | packages/editor/src/core/extensions/custom-image/components/node-view.tsx:186 | A node is an attachment when its file type says so, and otherwise exactly when its source names an attachment file. |
| AttachmentKind.LowerCommutesWithAfterLastDot | packages/editor/src/core/extensions/custom-image/components/node-view.tsx:34-35 | Lower-casing and taking the extension commute. |
| AttachmentKind.CaseInsensitive | packages/editor/src/core/extensions/custom-image/components/node-view.tsx:31-50 | Two sources equal up to case get the same answer. |
| AttachmentKind.ListedExtensionIsAttachment | packages/editor/src/core/extensions/custom-image/components/node-view.tsx:38-49 | A name ending in a dot and a listed attachment extension, in any case, is an attachment. |
| AttachmentKind.ImageExtensionIsNotAttachment | packages/editor/src/core/extensions/custom-image/components/node-view.tsx:38-49 | A name ending in a dot and an image extension, in any case, is never an attachment. |
| EditorUtility.IndexOf | packages/editor/src/core/extensions/utility.ts:188-199 | indexOf: -1 exactly when absent. Otherwise the first index holding the value. |
| EditorUtility.DropbarAddIdempotent | packages/editor/src/core/extensions/utility.ts:188-193 | Adding an extension makes it present. Adding it twice is the same as once. The list stays free of duplicates. |
| EditorUtility.DropbarRemovePresent | packages/editor/src/core/extensions/utility.ts:194-199 | Removing a present extension drops exactly one occurrence. With no duplicates it is gone. |
| EditorUtility.DropbarRemoveAbsent | packages/editor/src/core/extensions/utility.ts:188-199 | Removing an absent extension changes nothing. Removing undoes adding an absent extension. |
| EditorUtility.ScanAssets | packages/editor/src/core/extensions/utility.ts:99-111 | The document walk collects the scanned asset list. |
| EditorUtility.ScannedDistinct | packages/editor/src/core/extensions/utility.ts:99-111 | Collected assets have distinct, non-empty ids. |
| EditorUtility.ScannedCovers | packages/editor/src/core/extensions/utility.ts:99-111 | An id is collected exactly when some node carries asset metadata with that id. |
| EditorUtility.ScannedFirst | packages/editor/src/core/extensions/utility.ts:99-111 | Each collected asset is the metadata of the first node carrying its id. |
| EditorUtility.JoinInjective | packages/editor/src/core/extensions/utility.ts:132-138 | For ids without commas, equal comma-joined strings mean equal id lists. |
| EditorUtility.Dedup | packages/editor/src/core/extensions/utility.ts:162 | The set built from the list holds the same assets, each once. |
| EditorUtility.FindById | packages/editor/src/core/extensions/utility.ts:163-172 | find by id: absent exactly when no asset has the id. Otherwise the first asset of the list with that id: no asset before it carries the id. |
| EditorUtility.Without | packages/editor/src/core/extensions/utility.ts:168-173 | Set.delete removes exactly that asset and keeps the rest unique. |
| EditorUtility.UpdatedAddContents | packages/editor/src/core/extensions/utility.ts:163-167 | Adding an asset with a new id adds it. Adding one whose id is known changes nothing. |
| EditorUtility.UpdatedRemoveContents | packages/editor/src/core/extensions/utility.ts:168-173 | Removing an unknown id changes nothing. Removing a known id drops the first asset with it. With distinct ids no asset with that id remains. |
| EditorUtility.UpdatedIsSet | packages/editor/src/core/extensions/utility.ts:161-173 | The asset set after an add or remove holds no asset twice. |
| EditorUtility.PositionMap | packages/editor/src/core/extensions/utility.ts:178-183 | The map of the descendants walk as a value. It holds exactly the ids some node carries, each at the position of its first node. |
| EditorUtility.BuildPositionMap | packages/editor/src/core/extensions/utility.ts:176-183 | The position map holds exactly the ids some node carries, each at the position of its first node. It equals PositionMap of the nodes. |
| EditorUtility.InsertByKeySorted | packages/editor/src/core/extensions/utility.ts:184 | Inserting into a sorted list keeps it sorted by position and adds exactly that asset. |
| EditorUtility.InsertByKeyStable | packages/editor/src/core/extensions/utility.ts:184 | Insertion is stable. Among the assets with any one key, the inserted asset comes after those already present, whose order is kept. |
| EditorUtility.SortByPosition | packages/editor/src/core/extensions/utility.ts:184 | The sorted list is a permutation of the set, ordered by first document position, with unplaced assets last. It is stable: the assets of each key, the unplaced ones included, keep their order from the set. |
| EditorUtility.UtilityStorage.constructor | packages/editor/src/core/extensions/utility.ts:141-150 | The storage starts with no assets, no open dropbar and no update time. |
| EditorUtility.UtilityStorage.AddActiveDropbarExtension | packages/editor/src/core/extensions/utility.ts:188-193 | The extension is appended when absent (see DropbarAddIdempotent). |
| EditorUtility.UtilityStorage.RemoveActiveDropbarExtension | packages/editor/src/core/extensions/utility.ts:194-199 | Its first occurrence is removed when present (see DropbarRemovePresent and DropbarRemoveAbsent). |
| EditorUtility.UtilityStorage.OnCreate | packages/editor/src/core/extensions/utility.ts:96-115 | The asset list becomes the scanned assets, stamped with the clock. |
| EditorUtility.UtilityStorage.OnUpdate | packages/editor/src/core/extensions/utility.ts:117-139 | The list and stamp are replaced exactly when the comma-joined id lists differ. With comma-free ids that is exactly when the id lists differ. |
| EditorUtility.UtilityStorage.UpdateAssetsList | packages/editor/src/core/extensions/utility.ts:161-187 | The new list is a permutation of the updated asset set and is sorted by first document position. Assets with equal keys, including all unplaced ones, keep their order in the set. The list is stamped with the clock. |
| UrlPath.Split | apps/space/vite.config.ts:19 | split("/") gives at least one part and no part holds a slash. |
| UrlPath.JoinSlashSplit | apps/space/vite.config.ts:18-19 | Joining the split parts with "/" gives back the string. |
| UrlPath.SplitAppend | apps/space/vite.config.ts:19 | Splitting a join splits each side. |
| UrlPath.NonEmpty | apps/space/vite.config.ts:8 | filter((segment) => segment !== "") keeps exactly the non-empty strings. The same filter on parts is at line 19. |
| UrlPath.AllParts | apps/space/vite.config.ts:18-19 | The final parts are non-empty and slash-free. |
| UrlPath.StripLeading | apps/space/vite.config.ts:12 | The leading-slash loop removes only slashes, from the front, leaving no leading slash. |
| UrlPath.StripTrailing | apps/space/vite.config.ts:14 | The trailing-slash loop removes only slashes, from the back, leaving no trailing slash. |
| UrlPath.TrimLeadingSlashes | apps/space/vite.config.ts:12 | The loop computes StripLeading. |
| UrlPath.TrimTrailingSlashes | apps/space/vite.config.ts:14 | The loop computes StripTrailing. |
| UrlPath.ProcessSegment | apps/space/vite.config.ts:10-17 | Trimming a segment keeps its path parts. It leaves no leading slash, and no trailing slash unless it is the last segment. |
| UrlPath.AllPartsSkipsEmpty | apps/space/vite.config.ts:8-9 | Dropping empty segments first does not change the parts. |
| UrlPath.StripLeadingKeepsParts | apps/space/vite.config.ts:12 | Leading slashes carry no path parts. |
| UrlPath.StripTrailingKeepsParts | apps/space/vite.config.ts:14 | Trailing slashes carry no path parts. |
| UrlPath.SlashesOnlyHaveNoParts | apps/space/vite.config.ts:18-19 | A string of slashes has no path parts. |
| UrlPath.JoinSlashShape | apps/space/vite.config.ts:18-19 | Joining non-empty, slash-free parts gives no doubled slash, no leading or trailing slash, and is empty only for no parts. |
| UrlPath.RootedJoinIsWellFormed | apps/space/vite.config.ts:18-19 | A "/" followed by the joined parts is a well-formed path. |
| UrlPath.JoinUrlPath | apps/space/vite.config.ts:6-20 | No segments, or only empty ones, give "". Otherwise the result is "/" followed by the segments' non-empty parts joined by single slashes. Every non-empty result is a well-formed path. |
| UrlPath.RootSegmentGivesRoot | apps/admin/react-router.config.ts:2-16 | Joining the single segment "/" gives the root path "/". |
| UrlPath.BasePath | apps/admin/react-router.config.ts:19 | The base path is always well formed. It is "/" followed by the configured value's non-empty parts, or "/" when nothing is configured. |

## Left out

- Persistence and I/O are left out: `submitUpdates`, its request and its error logging. A batch is modelled as the patches it would send.
- Relation creation in the drag handles is asynchronous. Its effect is modelled as immediate. A failed request and its alert are not modelled.
- `window.alert`, the event listeners, click suppression, the mouse-move and mouse-down handlers, and the cursor-to-chart coordinate conversion are not modelled.
- The position, date-at-pixel and view-data helpers are parameters. No round trip between dates and pixels is claimed, and the date-at-pixel helper is taken to be total.
- `formatDate`, JavaScript `Date` and time zones are not modelled. Dates are day numbers, so the cascade's millisecond shift is a whole number of days.
- The block row height comes from a constants file outside this model. It is a parameter.
- SVG path strings, rendering, the selected-relation state, relation deletion and the relation store's own code are not modelled. A curve is its four points.
- `null` and `undefined` are not distinguished. Both are `None`.
- The error messages passed to `onError`, and the `toFixed` formatting of the size limit in them, are left out. Only the error kinds are kept.
- The document tree is flattened into its nodes in document order. The node-type table of metadata readers is the `metadata` parameter, and `Date.now()` is the `now` parameter.
- The upload status, upload-in-progress flag, touch-device flag, restoring public images and `updateAssetsUploadStatus` are not modelled.
- The other store members are not modelled: `updateCurrentView`, the active block, the render view and position-from-date.
- The environment variable read by `basePath` is the `env` parameter. The `?? "/"` fallback after `joinUrlPath` can never apply: `??` acts only on `null` or `undefined`, and `joinUrlPath` always returns a string. It is not modelled separately.
- TimelineStore.BaseTimelineStore.GetNumberOfDaysFromPosition: returns nothing when the day width is zero, where the code divides by zero and yields a non-finite number.
- AttachmentKind.ToLower: lower-cases ASCII letters only; `toLowerCase` also folds other scripts.
- EditorUtility.UtilityStorage.UpdateAssetsList: its asset set is `Dedup` and `Without`, which compare by value, while the code's `Set` compares object references. See the next line.
- EditorUtility.Dedup: compares assets by value, while the code's `Set` compares object references. Two distinct but equal asset objects are one asset here.
