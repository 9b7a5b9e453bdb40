/**
 * The editor's utility extension storage: the dropbar extensions currently
 * open, and the list of assets (images, attachments) the document holds,
 * kept unique by id and ordered by where they first appear in the document.
 * The document is given as its nodes in document order.
 */
module EditorUtility {
  import opened Common

  /** An editor asset (`TEditorAsset`): its id and the rest of its metadata. */
  datatype Asset = Asset(id: string, info: string)

  /** A document node as the descendants walk visits it: its position and its `attrs.id`. */
  datatype DocNode = DocNode(nodeType: string, pos: nat, attrId: Option<string>)

  /** The argument of `updateAssetsList`. */
  datatype AssetsArg = AddAsset(asset: Asset) | RemoveAsset(idToRemove: string)

  // ---------------------------------------------------------------------
  // Dropbar extensions
  // ---------------------------------------------------------------------

  /** `indexOf`: the first index holding x, or -1. */
  function IndexOf(s: seq<string>, x: string): (i: int)
    ensures -1 <= i < |s|
    ensures i == -1 <==> x !in s
    ensures i >= 0 ==> s[i] == x && x !in s[..i]
  {
    if s == [] then -1
    else if s[0] == x then 0
    else
      var j := IndexOf(s[1..], x);
      assert s[1..][..j + 1] == s[1..j + 2];
      if j == -1 then -1 else j + 1
  }

  predicate NoDuplicates(s: seq<string>)
  {
    forall i, j | 0 <= i < j < |s| :: s[i] != s[j]
  }

  /** The list after adding x. */
  function WithDropbar(s: seq<string>, x: string): seq<string>
  {
    if IndexOf(s, x) == -1 then s + [x] else s
  }

  /** The list after removing x: its first occurrence goes, the rest keep their order. */
  function WithoutDropbar(s: seq<string>, x: string): seq<string>
  {
    var i := IndexOf(s, x);
    if i == -1 then s else s[..i] + s[i + 1..]
  }

  /** Adding is idempotent, keeps the list duplicate-free, and leaves x in the list. */
  lemma DropbarAddIdempotent(s: seq<string>, x: string)
    ensures WithDropbar(WithDropbar(s, x), x) == WithDropbar(s, x)
    ensures x in WithDropbar(s, x)
    ensures NoDuplicates(s) ==> NoDuplicates(WithDropbar(s, x))
  {
    assert x in WithDropbar(s, x);
  }

  /** Removing a present item drops exactly its first occurrence; with no duplicates none is left. */
  lemma DropbarRemovePresent(s: seq<string>, x: string)
    requires x in s
    ensures multiset(WithoutDropbar(s, x)) == multiset(s) - multiset{x}
    ensures NoDuplicates(s) ==> x !in WithoutDropbar(s, x)
  {
    var i := IndexOf(s, x);
    assert s == s[..i] + [x] + s[i + 1..];
  }

  /** Removing an absent item changes nothing, so removing undoes adding an absent item. */
  lemma DropbarRemoveAbsent(s: seq<string>, x: string)
    requires x !in s
    ensures WithoutDropbar(s, x) == s
    ensures WithoutDropbar(WithDropbar(s, x), x) == s
  {
    var t := s + [x];
    assert t[..|s|] == s;
    assert IndexOf(t, x) == |s|;
    assert t[..|s|] + t[|s| + 1..] == s;
  }

  // ---------------------------------------------------------------------
  // Scanning the document for assets
  // ---------------------------------------------------------------------

  function Ids(assets: seq<Asset>): (ids: seq<string>)
    ensures |ids| == |assets| && forall i | 0 <= i < |assets| :: ids[i] == assets[i].id
  {
    seq(|assets|, i requires 0 <= i < |assets| => assets[i].id)
  }

  predicate DistinctIds(assets: seq<Asset>)
  {
    forall i, j | 0 <= i < j < |assets| :: assets[i].id != assets[j].id
  }

  /** The node carries asset metadata with a non-empty id. */
  predicate Carries(metadata: DocNode -> Option<Asset>, n: DocNode)
  {
    metadata(n).Some? && metadata(n).value.id != ""
  }

  /**
   * The assets the walk collects: the metadata of each node that has some
   * with a non-empty id not collected before. metadata stands for the
   * node-type table of asset metadata readers.
   */
  function Scanned(nodes: seq<DocNode>, metadata: DocNode -> Option<Asset>): seq<Asset>
  {
    if nodes == [] then []
    else
      var prev := Scanned(nodes[..|nodes| - 1], metadata);
      var n := nodes[|nodes| - 1];
      if Carries(metadata, n) && metadata(n).value.id !in Ids(prev) then prev + [metadata(n).value] else prev
  }

  /** The walk shared by onCreate and onUpdate. */
  method ScanAssets(nodes: seq<DocNode>, metadata: DocNode -> Option<Asset>) returns (newAssets: seq<Asset>)
    ensures newAssets == Scanned(nodes, metadata)
  {
    newAssets := [];
    var seenIds: set<string> := {};
    for i := 0 to |nodes|
      invariant newAssets == Scanned(nodes[..i], metadata)
      invariant seenIds == set a | a in newAssets :: a.id
    {
      assert nodes[..i + 1][..i] == nodes[..i];
      var assetMetaData := metadata(nodes[i]);
      assert assetMetaData.Some? ==> (assetMetaData.value.id in seenIds <==> assetMetaData.value.id in Ids(newAssets));
      if assetMetaData.Some? && assetMetaData.value.id != "" && assetMetaData.value.id !in seenIds {
        newAssets := newAssets + [assetMetaData.value];
        seenIds := seenIds + {assetMetaData.value.id};
      }
    }
    assert nodes[..|nodes|] == nodes;
  }

  /** The collected ids are unique and non-empty. */
  lemma {:induction false} ScannedDistinct(nodes: seq<DocNode>, metadata: DocNode -> Option<Asset>)
    ensures DistinctIds(Scanned(nodes, metadata))
    ensures forall a | a in Scanned(nodes, metadata) :: a.id != ""
  {
    if nodes != [] {
      ScannedDistinct(nodes[..|nodes| - 1], metadata);
    }
  }

  /** Every id some node carries is collected, and only those. */
  lemma {:induction false} ScannedCovers(nodes: seq<DocNode>, metadata: DocNode -> Option<Asset>, id: string)
    ensures id in Ids(Scanned(nodes, metadata)) <==>
      exists k | 0 <= k < |nodes| :: Carries(metadata, nodes[k]) && metadata(nodes[k]).value.id == id
  {
    if nodes != [] {
      var init, n := nodes[..|nodes| - 1], nodes[|nodes| - 1];
      ScannedCovers(init, metadata, id);
      var prev := Scanned(init, metadata);
      if Carries(metadata, n) && metadata(n).value.id !in Ids(prev) {
        assert Ids(Scanned(nodes, metadata)) == Ids(prev) + [metadata(n).value.id];
      }
      assert id in Ids(prev) ==> id in Ids(Scanned(nodes, metadata));
      if exists k | 0 <= k < |init| :: Carries(metadata, init[k]) && metadata(init[k]).value.id == id {
        var k :| 0 <= k < |init| && Carries(metadata, init[k]) && metadata(init[k]).value.id == id;
        assert nodes[k] == init[k];
      }
      if id in Ids(Scanned(nodes, metadata)) && id !in Ids(prev) {
        assert Carries(metadata, nodes[|nodes| - 1]) && metadata(nodes[|nodes| - 1]).value.id == id;
      }
      if exists k | 0 <= k < |nodes| :: Carries(metadata, nodes[k]) && metadata(nodes[k]).value.id == id {
        var k :| 0 <= k < |nodes| && Carries(metadata, nodes[k]) && metadata(nodes[k]).value.id == id;
        if k < |init| {
          assert init[k] == nodes[k];
        }
      }
    }
  }

  /** Each collected asset is the metadata of the first node carrying its id. */
  lemma {:induction false} ScannedFirst(nodes: seq<DocNode>, metadata: DocNode -> Option<Asset>, a: Asset)
    requires a in Scanned(nodes, metadata)
    ensures exists k | 0 <= k < |nodes| ::
      && metadata(nodes[k]) == Some(a)
      && forall j | 0 <= j < k :: !(Carries(metadata, nodes[j]) && metadata(nodes[j]).value.id == a.id)
  {
    var init := nodes[..|nodes| - 1];
    var prev := Scanned(init, metadata);
    if a in prev {
      ScannedFirst(init, metadata, a);
      var k :| 0 <= k < |init| && metadata(init[k]) == Some(a)
        && forall j | 0 <= j < k :: !(Carries(metadata, init[j]) && metadata(init[j]).value.id == a.id);
      assert nodes[k] == init[k];
      assert forall j | 0 <= j < k :: nodes[j] == init[j];
    } else {
      var k := |nodes| - 1;
      assert metadata(nodes[k]) == Some(a);
      forall j | 0 <= j < k
        ensures !(Carries(metadata, nodes[j]) && metadata(nodes[j]).value.id == a.id)
      {
        if Carries(metadata, nodes[j]) && metadata(nodes[j]).value.id == a.id {
          assert init[j] == nodes[j];
          ScannedCovers(init, metadata, a.id);
        }
      }
    }
  }

  // ---------------------------------------------------------------------
  // Comparing id lists
  // ---------------------------------------------------------------------

  /** `join(",")`. */
  function Join(ids: seq<string>): string
  {
    if ids == [] then ""
    else if |ids| == 1 then ids[0]
    else ids[0] + "," + Join(ids[1..])
  }

  /** Every id is non-empty and has no comma. */
  predicate Plain(ids: seq<string>)
  {
    forall i | 0 <= i < |ids| :: ids[i] != "" && ',' !in ids[i]
  }

  /** The first comma of `x + "," + y` is the one after x when x has none. */
  lemma FirstComma(x: string, y: string)
    requires ',' !in x
    ensures (x + "," + y)[|x|] == ','
    ensures forall i | 0 <= i < |x| :: (x + "," + y)[i] != ','
  {
    forall i | 0 <= i < |x|
      ensures (x + "," + y)[i] != ','
    {
      assert (x + "," + y)[i] == x[i];
    }
  }

  lemma CommaSplit(x: string, y: string, x': string, y': string)
    requires ',' !in x && ',' !in x'
    requires x + "," + y == x' + "," + y'
    ensures x == x' && y == y'
  {
    var s := x + "," + y;
    FirstComma(x, y);
    FirstComma(x', y');
    assert |x| == |x'|;
    assert x == s[..|x|] == x';
    assert y == s[|x| + 1..] == y';
  }

  /** Joining plain ids loses nothing: equal joins mean equal id lists. */
  lemma {:induction false} JoinInjective(a: seq<string>, b: seq<string>)
    requires Plain(a) && Plain(b)
    requires Join(a) == Join(b)
    ensures a == b
  {
    if |a| >= 2 && |b| >= 2 {
      CommaSplit(a[0], Join(a[1..]), b[0], Join(b[1..]));
      JoinInjective(a[1..], b[1..]);
      assert a == [a[0]] + a[1..];
      assert b == [b[0]] + b[1..];
    }
  }

  // ---------------------------------------------------------------------
  // The asset list update
  // ---------------------------------------------------------------------

  /** `new Set(list)`: each distinct asset once, in first-occurrence order. */
  function Dedup(s: seq<Asset>): (u: seq<Asset>)
    ensures forall a :: a in u <==> a in s
    ensures Unique(u)
  {
    if s == [] then []
    else
      var prev := Dedup(s[..|s| - 1]);
      var last := s[|s| - 1];
      assert s == s[..|s| - 1] + [last];
      if last in prev then prev else prev + [last]
  }

  /** s[k] is the first asset of s carrying id. */
  predicate FirstWithId(s: seq<Asset>, id: string, k: nat)
  {
    k < |s| && s[k].id == id && forall j | 0 <= j < k :: s[j].id != id
  }

  lemma FirstWithIdShift(s: seq<Asset>, id: string, k: nat)
    requires s != [] && s[0].id != id && FirstWithId(s[1..], id, k)
    ensures FirstWithId(s, id, k + 1) && s[k + 1] == s[1..][k]
  {
    forall j | 0 <= j < k + 1
      ensures s[j].id != id
    {
      if j > 0 {
        assert s[j] == s[1..][j - 1];
      }
    }
  }

  /** `find(asset => asset.id === id)`. */
  function FindById(s: seq<Asset>, id: string): (r: Option<Asset>)
    ensures r.None? <==> id !in Ids(s)
    ensures r.Some? ==> exists k: nat :: FirstWithId(s, id, k) && s[k] == r.value
  {
    if s == [] then None
    else if s[0].id == id then
      assert FirstWithId(s, id, 0);
      Some(s[0])
    else
      var r := FindById(s[1..], id);
      assert Ids(s) == [s[0].id] + Ids(s[1..]);
      if r.Some? then
        var k: nat :| FirstWithId(s[1..], id, k) && s[1..][k] == r.value;
        FirstWithIdShift(s, id, k);
        r
      else r
  }

  /** The asset set after the command, before sorting. */
  function Updated(s: seq<Asset>, arg: AssetsArg): seq<Asset>
  {
    var unique := Dedup(s);
    match arg
    case AddAsset(a) =>
      if FindById(s, a.id).None? && a !in unique then unique + [a] else unique
    case RemoveAsset(id) =>
      var found := FindById(s, id);
      if found.Some? then Without(unique, found.value) else unique
  }

  /** No asset occurs twice. */
  predicate Unique(s: seq<Asset>)
  {
    forall i, j | 0 <= i < j < |s| :: s[i] != s[j]
  }

  /** `Set.delete`: x removed. */
  function Without(s: seq<Asset>, x: Asset): (r: seq<Asset>)
    ensures forall a :: a in r <==> a in s && a != x
    ensures Unique(s) ==> Unique(r)
  {
    if s == [] then []
    else
      var rest := Without(s[1..], x);
      assert forall a :: a in s <==> a == s[0] || a in s[1..];
      assert Unique(s) ==> s[0] !in s[1..];
      if s[0] == x then rest
      else
        assert Unique(s) ==> Unique([s[0]] + rest) by {
          if Unique(s) {
            assert Unique(s[1..]);
          }
        }
        [s[0]] + rest
  }

  /** Adding an asset whose id is new puts it in the set; adding one whose id is taken changes nothing. */
  lemma UpdatedAddContents(s: seq<Asset>, a: Asset, b: Asset)
    ensures a.id !in Ids(s) ==> (b in Updated(s, AddAsset(a)) <==> b in s || b == a)
    ensures a.id in Ids(s) ==> (b in Updated(s, AddAsset(a)) <==> b in s)
  {
  }

  /**
   * Removing an absent id changes nothing; removing a present one drops the
   * first asset carrying it, so with unique ids no asset with that id remains.
   */
  lemma UpdatedRemoveContents(s: seq<Asset>, id: string, b: Asset)
    ensures id !in Ids(s) ==> (b in Updated(s, RemoveAsset(id)) <==> b in s)
    ensures id in Ids(s) ==> (b in Updated(s, RemoveAsset(id)) <==> b in s && b != FindById(s, id).value)
    ensures DistinctIds(s) && b in Updated(s, RemoveAsset(id)) ==> b.id != id
  {
  }

  /** The updated set never repeats an asset. */
  lemma UpdatedIsSet(s: seq<Asset>, arg: AssetsArg)
    ensures Unique(Updated(s, arg))
  {
    var u := Dedup(s);
    if arg.AddAsset? && FindById(s, arg.asset.id).None? && arg.asset !in u {
      assert forall i | 0 <= i < |u| :: (u + [arg.asset])[i] == u[i];
    }
  }

  // ---------------------------------------------------------------------
  // Ordering by document position
  // ---------------------------------------------------------------------

  /** The position of the first node whose (non-empty) id is id. */
  function FirstPos(nodes: seq<DocNode>, id: string): Option<nat>
  {
    if nodes == [] || id == "" then None
    else if nodes[0].attrId == Some(id) then Some(nodes[0].pos)
    else FirstPos(nodes[1..], id)
  }

  /** Sort key order, where a missing position sorts after every present one. */
  predicate KeyLe(a: Option<nat>, b: Option<nat>)
  {
    b.None? || (a.Some? && a.value <= b.value)
  }

  function KeyOf(posMap: map<string, nat>, a: Asset): Option<nat>
  {
    if a.id in posMap then Some(posMap[a.id]) else None
  }

  predicate SortedBy(s: seq<Asset>, posMap: map<string, nat>)
  {
    forall i, j | 0 <= i < j < |s| :: KeyLe(KeyOf(posMap, s[i]), KeyOf(posMap, s[j]))
  }

  /** The position map as a value: an earlier node's position overrides a later one's. */
  function PositionMap(nodes: seq<DocNode>): (m: map<string, nat>)
    ensures forall id :: (id in m <==> FirstPos(nodes, id).Some?)
    ensures forall id | id in m :: m[id] == FirstPos(nodes, id).value
  {
    if nodes == [] then map[]
    else
      var m := PositionMap(nodes[1..]);
      var n := nodes[0];
      if n.attrId.Some? && n.attrId.value != "" then m[n.attrId.value := n.pos] else m
  }

  /** The position map walk: the first position of every non-empty node id. */
  method BuildPositionMap(nodes: seq<DocNode>) returns (posMap: map<string, nat>)
    ensures forall id :: (id in posMap <==> FirstPos(nodes, id).Some?)
    ensures forall id | id in posMap :: posMap[id] == FirstPos(nodes, id).value
    ensures posMap == PositionMap(nodes)
  {
    posMap := map[];
    for i := 0 to |nodes|
      invariant forall id :: FirstPos(nodes, id) == if id in posMap then Some(posMap[id]) else FirstPos(nodes[i..], id)
    {
      var n := nodes[i];
      assert nodes[i..][1..] == nodes[i + 1..];
      if n.attrId.Some? && n.attrId.value != "" && n.attrId.value !in posMap {
        posMap := posMap[n.attrId.value := n.pos];
      }
    }
    assert posMap.Keys == PositionMap(nodes).Keys;
  }

  /** Insert a into a sorted list after every element whose key is not larger. */
  function InsertByKey(s: seq<Asset>, a: Asset, posMap: map<string, nat>): seq<Asset>
  {
    if s == [] then [a]
    else if KeyLe(KeyOf(posMap, s[|s| - 1]), KeyOf(posMap, a)) then s + [a]
    else InsertByKey(s[..|s| - 1], a, posMap) + [s[|s| - 1]]
  }

  /** Inserting keeps a sorted list sorted and adds exactly a. */
  lemma {:induction false} InsertByKeySorted(s: seq<Asset>, a: Asset, posMap: map<string, nat>)
    requires SortedBy(s, posMap)
    ensures multiset(InsertByKey(s, a, posMap)) == multiset(s) + multiset{a}
    ensures SortedBy(InsertByKey(s, a, posMap), posMap)
  {
    if s != [] {
      var init, last := s[..|s| - 1], s[|s| - 1];
      assert s == init + [last];
      var ka, kl := KeyOf(posMap, a), KeyOf(posMap, last);
      if KeyLe(kl, ka) {
        forall i | 0 <= i < |s|
          ensures KeyLe(KeyOf(posMap, s[i]), ka)
        {
          assert i < |s| - 1 ==> KeyLe(KeyOf(posMap, s[i]), kl);
        }
      } else {
        InsertByKeySorted(init, a, posMap);
        var r := InsertByKey(init, a, posMap);
        forall x | x in r
          ensures KeyLe(KeyOf(posMap, x), kl)
        {
          assert x in multiset(r);
          if x != a {
            assert x in multiset(init);
            var i :| 0 <= i < |init| && init[i] == x;
            assert s[i] == x;
          }
        }
        forall i, j | 0 <= i < j < |r| + 1
          ensures KeyLe(KeyOf(posMap, (r + [last])[i]), KeyOf(posMap, (r + [last])[j]))
        {
          if j == |r| {
            assert r[i] in r;
          }
        }
      }
    }
  }

  /** The assets of s whose sort key is k, in their order in s. */
  function KeyFilter(s: seq<Asset>, posMap: map<string, nat>, k: Option<nat>): seq<Asset>
  {
    if s == [] then []
    else KeyFilter(s[..|s| - 1], posMap, k) + (if KeyOf(posMap, s[|s| - 1]) == k then [s[|s| - 1]] else [])
  }

  lemma {:induction false} KeyFilterAppend(x: seq<Asset>, y: seq<Asset>, posMap: map<string, nat>, k: Option<nat>)
    ensures KeyFilter(x + y, posMap, k) == KeyFilter(x, posMap, k) + KeyFilter(y, posMap, k)
  {
    if y != [] {
      assert (x + y)[..|x + y| - 1] == x + y[..|y| - 1];
      KeyFilterAppend(x, y[..|y| - 1], posMap, k);
    } else {
      assert x + y == x;
    }
  }

  /**
   * Insertion is stable: a goes after every element of the same key, and
   * the elements of each key keep their order.
   */
  lemma {:induction false} InsertByKeyStable(s: seq<Asset>, a: Asset, posMap: map<string, nat>, k: Option<nat>)
    ensures KeyFilter(InsertByKey(s, a, posMap), posMap, k)
            == KeyFilter(s, posMap, k) + (if KeyOf(posMap, a) == k then [a] else [])
  {
    if s != [] {
      var init, last := s[..|s| - 1], s[|s| - 1];
      assert KeyFilter([a], posMap, k) == (if KeyOf(posMap, a) == k then [a] else []) by {
        assert [a][..0] == [];
      }
      if KeyLe(KeyOf(posMap, last), KeyOf(posMap, a)) {
        KeyFilterAppend(s, [a], posMap, k);
      } else {
        InsertByKeyStable(init, a, posMap, k);
        var r := InsertByKey(init, a, posMap);
        assert r + [last] == InsertByKey(s, a, posMap);
        assert (r + [last])[..|r + [last]| - 1] == r;
        assert KeyOf(posMap, last) != KeyOf(posMap, a);
      }
    }
  }

  /** The in-place sort by first document position (a missing one sorts last). */
  method SortByPosition(assets: seq<Asset>, posMap: map<string, nat>) returns (sorted: seq<Asset>)
    ensures multiset(sorted) == multiset(assets)
    ensures SortedBy(sorted, posMap)
    ensures forall k :: KeyFilter(sorted, posMap, k) == KeyFilter(assets, posMap, k)
  {
    sorted := [];
    for i := 0 to |assets|
      invariant multiset(sorted) == multiset(assets[..i])
      invariant SortedBy(sorted, posMap)
      invariant forall k :: KeyFilter(sorted, posMap, k) == KeyFilter(assets[..i], posMap, k)
    {
      assert assets[..i + 1] == assets[..i] + [assets[i]];
      assert assets[..i + 1][..i] == assets[..i];
      InsertByKeySorted(sorted, assets[i], posMap);
      forall k
        ensures KeyFilter(InsertByKey(sorted, assets[i], posMap), posMap, k) == KeyFilter(assets[..i + 1], posMap, k)
      {
        InsertByKeyStable(sorted, assets[i], posMap, k);
      }
      sorted := InsertByKey(sorted, assets[i], posMap);
    }
    assert assets[..|assets|] == assets;
  }

  // ---------------------------------------------------------------------
  // The storage
  // ---------------------------------------------------------------------

  class UtilityStorage {
    var assetsList: seq<Asset>
    var activeDropbarExtensions: seq<string>
    var lastAssetsUpdate: int

    /** addStorage: no assets, no open dropbar, never updated. */
    constructor ()
      ensures assetsList == [] && activeDropbarExtensions == [] && lastAssetsUpdate == 0
    {
      assetsList := [];
      activeDropbarExtensions := [];
      lastAssetsUpdate := 0;
    }

    method AddActiveDropbarExtension(extension: string)
      modifies this`activeDropbarExtensions
      ensures activeDropbarExtensions == WithDropbar(old(activeDropbarExtensions), extension)
    {
      var index := IndexOf(activeDropbarExtensions, extension);
      if index == -1 {
        activeDropbarExtensions := activeDropbarExtensions + [extension];
      }
    }

    method RemoveActiveDropbarExtension(extension: string)
      modifies this`activeDropbarExtensions
      ensures activeDropbarExtensions == WithoutDropbar(old(activeDropbarExtensions), extension)
    {
      var index := IndexOf(activeDropbarExtensions, extension);
      if index != -1 {
        activeDropbarExtensions := activeDropbarExtensions[..index] + activeDropbarExtensions[index + 1..];
      }
    }

    /** onCreate: the scanned assets replace the list; now stands for the clock. */
    method OnCreate(nodes: seq<DocNode>, metadata: DocNode -> Option<Asset>, now: int)
      modifies this`assetsList, this`lastAssetsUpdate
      ensures assetsList == Scanned(nodes, metadata) && lastAssetsUpdate == now
    {
      var newAssets := ScanAssets(nodes, metadata);
      assetsList := newAssets;
      lastAssetsUpdate := now;
    }

    /**
     * onUpdate: the scanned assets replace the list, with a new timestamp,
     * only when the comma-joined id lists differ; with plain ids, exactly
     * when the id sequences differ.
     */
    method OnUpdate(nodes: seq<DocNode>, metadata: DocNode -> Option<Asset>, now: int)
      modifies this`assetsList, this`lastAssetsUpdate
      ensures Join(Ids(old(assetsList))) != Join(Ids(Scanned(nodes, metadata))) ==>
        assetsList == Scanned(nodes, metadata) && lastAssetsUpdate == now
      ensures Join(Ids(old(assetsList))) == Join(Ids(Scanned(nodes, metadata))) ==>
        assetsList == old(assetsList) && lastAssetsUpdate == old(lastAssetsUpdate)
      ensures Plain(Ids(old(assetsList))) && Plain(Ids(Scanned(nodes, metadata))) ==>
        (assetsList == old(assetsList) <==> Ids(old(assetsList)) == Ids(Scanned(nodes, metadata)))
    {
      var newAssets := ScanAssets(nodes, metadata);
      var currentIds := Join(Ids(assetsList));
      var newIds := Join(Ids(newAssets));
      if currentIds != newIds {
        assetsList := newAssets;
        lastAssetsUpdate := now;
      }
      if Plain(Ids(old(assetsList))) && Plain(Ids(newAssets)) && currentIds == newIds {
        JoinInjective(Ids(old(assetsList)), Ids(newAssets));
      }
    }

    /**
     * updateAssetsList: add or remove through the asset set, then order the
     * set by the first document position of each asset's id.
     */
    method UpdateAssetsList(arg: AssetsArg, nodes: seq<DocNode>, now: int)
      modifies this`assetsList, this`lastAssetsUpdate
      ensures multiset(assetsList) == multiset(Updated(old(assetsList), arg))
      ensures forall i, j | 0 <= i < j < |assetsList| ::
        KeyLe(FirstPos(nodes, assetsList[i].id), FirstPos(nodes, assetsList[j].id))
      ensures forall k :: KeyFilter(assetsList, PositionMap(nodes), k)
                          == KeyFilter(Updated(old(assetsList), arg), PositionMap(nodes), k)
      ensures lastAssetsUpdate == now
    {
      var uniqueAssets := Dedup(assetsList);
      match arg {
        case AddAsset(asset) =>
          var alreadyExists := FindById(assetsList, asset.id);
          if alreadyExists.None? && asset !in uniqueAssets {
            uniqueAssets := uniqueAssets + [asset];
          }
        case RemoveAsset(idToRemove) =>
          var found := FindById(assetsList, idToRemove);
          if found.Some? {
            uniqueAssets := Without(uniqueAssets, found.value);
          }
      }
      var posMap := BuildPositionMap(nodes);
      var assetArray := SortByPosition(uniqueAssets, posMap);
      assert forall a :: KeyOf(posMap, a) == FirstPos(nodes, a.id);
      assetsList := assetArray;
      lastAssetsUpdate := now;
    }
  }
}
