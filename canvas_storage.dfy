// engine/servers/rendering/canvas/storage.py and item.py: the records of the 2D canvas
// server (canvases, canvas items and canvas layers) and the storage that creates and
// frees them.
module CanvasStore {
  import opened Wrappers
  import opened Colors
  import opened DictOrder

  /** A draw command of an item, commands.py:29-98. Texture handles are plain ids. */
  datatype DrawCommand =
    | DrawRect(x: real, y: real, w: real, h: real, color: Color, filled: bool, borderWidth: real)
    | DrawTextureRect(texture: int, dstX: real, dstY: real, dstW: real, dstH: real,
                      srcX: Option<real>, srcY: Option<real>, srcW: Option<real>, srcH: Option<real>,
                      flipX: bool, flipY: bool, modulate: Color)

  /** CanvasItemData, item.py:9-27, without its two transforms. */
  datatype ItemData = ItemData(
    rid: int,
    parent: Option<int>,
    children: seq<int>,
    canvas: Option<int>,
    visible: bool,
    zIndex: int,
    zAsRelative: bool,
    modulate: Color,
    commands: seq<DrawCommand>)

  /** A new item: no parent, no children, on no canvas, visible, relative z 0, white. */
  function NewItem(rid: int): ItemData {
    ItemData(rid, None, [], None, true, 0, true, White, [])
  }

  /** CanvasLayerData, storage.py:12-16. */
  datatype LayerData = LayerData(rid: int, canvas: Option<int>, order: int)

  /** CanvasData, storage.py:19-22: the root items of the canvas, in order. */
  datatype CanvasData = CanvasData(rid: int, itemRids: seq<int>)

  /** The canvases and the items: the part of the storage the item tree lives in. */
  datatype Tree = Tree(canvases: map<int, CanvasData>, items: map<int, ItemData>)

  /** list.remove(x) on a list that holds x: its first occurrence goes, nothing else. */
  function ListRemove(s: seq<int>, x: int): (r: seq<int>)
    requires x in s
    ensures |r| == |s| - 1
    ensures multiset(r) == multiset(s) - multiset{x}
  {
    var i := Position(s, x);
    assert s == s[..i] + [x] + s[i + 1..];
    s[..i] + s[i + 1..]
  }

  /** Setting one field to None on the record of each listed id that has one, in turn.
      The listed ids need not all be items, and an id may repeat. */
  function UpdateEach(items: map<int, ItemData>, rids: seq<int>, upd: ItemData -> ItemData): (r: map<int, ItemData>)
    ensures r.Keys == items.Keys
    ensures (forall d :: upd(d).rid == d.rid) ==> forall k :: k in r ==> r[k].rid == items[k].rid
  {
    if |rids| == 0 then items
    else
      var m := UpdateEach(items, rids[..|rids| - 1], upd);
      var k := rids[|rids| - 1];
      if k in m then m[k := upd(m[k])] else m
  }

  /** The update canvas_free applies to the items of the canvas. */
  function DropCanvas(d: ItemData): ItemData {
    d.(canvas := None)
  }

  /** The update canvas_item_free applies to the children of the item. */
  function DropParent(d: ItemData): ItemData {
    d.(parent := None)
  }

  /** With an update that is idempotent, each listed item is updated once and every
      other item is left as it was. */
  lemma {:induction false} UpdateEachMeaning(items: map<int, ItemData>, rids: seq<int>, upd: ItemData -> ItemData, k: int)
    requires forall d :: upd(upd(d)) == upd(d)
    requires k in items
    ensures UpdateEach(items, rids, upd)[k] == if k in rids then upd(items[k]) else items[k]
  {
    if |rids| > 0 {
      var init := rids[..|rids| - 1];
      assert rids == init + [rids[|rids| - 1]];
      UpdateEachMeaning(items, init, upd, k);
    }
  }

  /** The loops of storage.py:48-51 and 77-80: each listed id that is an item gets the
      update. */
  method ForEachItem(items: map<int, ItemData>, rids: seq<int>, upd: ItemData -> ItemData) returns (r: map<int, ItemData>)
    ensures r == UpdateEach(items, rids, upd)
  {
    r := items;
    for i := 0 to |rids|
      invariant r == UpdateEach(items, rids[..i], upd)
    {
      assert rids[..i + 1][..i] == rids[..i];
      var k := rids[i];
      if k in r {
        r := r[k := upd(r[k])];
      }
    }
    assert rids[..|rids|] == rids;
  }

  /** canvas_free, storage.py:44-52: the canvas goes, and each of its root items that
      still exists is taken off every canvas. */
  function CanvasFreed(t: Tree, rid: int): (r: Tree)
    ensures r.items.Keys == t.items.Keys && r.canvases.Keys == t.canvases.Keys - {rid}
    ensures forall k :: k in r.items ==> r.items[k].rid == t.items[k].rid
    ensures forall c :: c in r.canvases ==> r.canvases[c] == t.canvases[c]
  {
    if rid !in t.canvases then t
    else Tree(t.canvases - {rid}, UpdateEach(t.items, t.canvases[rid].itemRids, DropCanvas))
  }

  /** Freeing an unknown canvas changes nothing. Freeing a canvas removes that canvas
      alone, clears the canvas of exactly the items it listed, and touches nothing else. */
  lemma CanvasFreedMeaning(t: Tree, rid: int)
    ensures rid !in t.canvases ==> CanvasFreed(t, rid) == t
    ensures rid in t.canvases ==>
              CanvasFreed(t, rid).canvases == t.canvases - {rid}
              && forall k :: k in t.items ==>
                   CanvasFreed(t, rid).items[k] == if k in t.canvases[rid].itemRids then t.items[k].(canvas := None) else t.items[k]
  {
    if rid in t.canvases {
      forall k | k in t.items
        ensures CanvasFreed(t, rid).items[k] == if k in t.canvases[rid].itemRids then t.items[k].(canvas := None) else t.items[k]
      {
        UpdateEachMeaning(t.items, t.canvases[rid].itemRids, DropCanvas, k);
      }
    }
  }

  /** canvas_item_free, storage.py:67-87, on the item tree: the record goes; its parent,
      if it still exists and lists it, loses one occurrence of it; every child that still
      exists loses its parent; its canvas, if it still exists and lists it, loses one
      occurrence of it. */
  function ItemFreed(t: Tree, rid: int): (r: Tree)
    ensures r.items.Keys == t.items.Keys - {rid} && r.canvases.Keys == t.canvases.Keys
    ensures forall k :: k in r.items ==> r.items[k].rid == t.items[k].rid
    ensures forall c :: c in r.canvases ==> r.canvases[c].rid == t.canvases[c].rid
  {
    if rid !in t.items then t
    else
      var d := t.items[rid];
      var items1 := t.items - {rid};
      var items2 :=
        if d.parent.Some? && d.parent.value in items1 && rid in items1[d.parent.value].children then
          items1[d.parent.value := items1[d.parent.value].(children := ListRemove(items1[d.parent.value].children, rid))]
        else items1;
      var items3 := UpdateEach(items2, d.children, DropParent);
      var canvases :=
        if d.canvas.Some? && d.canvas.value in t.canvases && rid in t.canvases[d.canvas.value].itemRids then
          t.canvases[d.canvas.value := t.canvases[d.canvas.value].(itemRids := ListRemove(t.canvases[d.canvas.value].itemRids, rid))]
        else t.canvases;
      Tree(canvases, items3)
  }

  /** The steps of canvas_item_free, storage.py:68-85, on a known item. */
  method FreeItem(t: Tree, rid: int) returns (r: Tree)
    requires rid in t.items
    ensures r == ItemFreed(t, rid)
  {
    var d := t.items[rid];
    var rest := t.items - {rid};
    if d.parent.Some? {
      var p := d.parent.value;
      if p in rest && rid in rest[p].children {
        rest := rest[p := rest[p].(children := ListRemove(rest[p].children, rid))];
      }
    }
    rest := ForEachItem(rest, d.children, DropParent);
    var roots := t.canvases;
    if d.canvas.Some? {
      var c := d.canvas.value;
      if c in roots && rid in roots[c].itemRids {
        roots := roots[c := roots[c].(itemRids := ListRemove(roots[c].itemRids, rid))];
      }
    }
    r := Tree(roots, rest);
  }

  /** What freeing an item does to each other item and canvas: the item is gone, the
      parent it named loses one occurrence of it from its children (and, if it is also
      one of the item's children, its parent too), each remaining child loses its
      parent, the canvas it named loses one occurrence of it from its roots, and every
      other record is as it was. */
  lemma ItemFreedMeaning(t: Tree, rid: int)
    requires rid in t.items
    ensures forall k :: k in t.items && k != rid ==> ItemFreed(t, rid).items[k] == ItemAfterFree(t, rid, k)
    ensures forall c :: c in t.canvases ==>
              var roots := t.canvases[c].itemRids;
              ItemFreed(t, rid).canvases[c].itemRids == if t.items[rid].canvas == Some(c) && rid in roots then ListRemove(roots, rid) else roots
  {
    var d := t.items[rid];
    var items1 := t.items - {rid};
    var items2 :=
      if d.parent.Some? && d.parent.value in items1 && rid in items1[d.parent.value].children then
        items1[d.parent.value := items1[d.parent.value].(children := ListRemove(items1[d.parent.value].children, rid))]
      else items1;
    assert ItemFreed(t, rid).items == UpdateEach(items2, d.children, DropParent);
    forall k | k in t.items && k != rid
      ensures ItemFreed(t, rid).items[k] == ItemAfterFree(t, rid, k)
    {
      UpdateEachMeaning(items2, d.children, DropParent, k);
    }
  }

  /** Item k once item rid is freed: it loses one occurrence of rid from its children if
      it is the parent rid named, and its own parent if it is one of rid's children. */
  function ItemAfterFree(t: Tree, rid: int, k: int): ItemData
    requires rid in t.items && k in t.items
  {
    var d := t.items[rid];
    var was := t.items[k];
    var unlinked := if d.parent == Some(k) && rid in was.children then was.(children := ListRemove(was.children, rid)) else was;
    if k in d.children then unlinked.(parent := None) else unlinked
  }

  /** Every key of the table is an id already handed out, and each record is stored
      under its own id. */
  ghost predicate CanvasesKeyed(m: map<int, CanvasData>, next: int) {
    forall r :: r in m ==> 1 <= r < next && m[r].rid == r
  }

  ghost predicate ItemsKeyed(m: map<int, ItemData>, next: int) {
    forall r :: r in m ==> 1 <= r < next && m[r].rid == r
  }

  ghost predicate LayersKeyed(m: map<int, LayerData>, next: int) {
    forall r :: r in m ==> 1 <= r < next && m[r].rid == r
  }

  /** CanvasStorage, storage.py:25-115. The three tables draw their ids from one
      counter, so no id names records of two kinds; the render state appears as its
      canvas_dirty flag alone. */
  class CanvasStorage {
    var canvases: map<int, CanvasData>
    var items: map<int, ItemData>
    var layers: map<int, LayerData>
    var nextRid: int
    var canvasDirty: bool

    ghost predicate Valid()
      reads this
    {
      nextRid >= 1
      && CanvasesKeyed(canvases, nextRid) && ItemsKeyed(items, nextRid) && LayersKeyed(layers, nextRid)
      && canvases.Keys !! items.Keys && canvases.Keys !! layers.Keys && items.Keys !! layers.Keys
    }

    /** The canvases and items as one value. */
    function Snapshot(): Tree
      reads this
    {
      Tree(canvases, items)
    }

    /** A new storage: empty tables, ids from 1, and the render state's initial dirty
        flag. */
    constructor(dirty: bool)
      ensures Valid()
      ensures canvases == map[] && items == map[] && layers == map[]
      ensures nextRid == 1 && canvasDirty == dirty
    {
      canvases, items, layers := map[], map[], map[];
      nextRid := 1;
      canvasDirty := dirty;
    }

    /** canvas_create, storage.py:37-42: a fresh id with an empty canvas under it. */
    method CanvasCreate() returns (rid: int)
      requires Valid()
      modifies this
      ensures Valid()
      ensures rid == old(nextRid) && nextRid == rid + 1
      ensures rid !in old(canvases) && rid !in items && rid !in layers
      ensures canvases == old(canvases)[rid := CanvasData(rid, [])]
      ensures items == old(items) && layers == old(layers) && canvasDirty
    {
      rid := nextRid;
      nextRid := nextRid + 1;
      canvases := canvases[rid := CanvasData(rid, [])];
      canvasDirty := true;
    }

    /** canvas_item_create, storage.py:60-65: a fresh id with a default item under it. */
    method CanvasItemCreate() returns (rid: int)
      requires Valid()
      modifies this
      ensures Valid()
      ensures rid == old(nextRid) && nextRid == rid + 1
      ensures rid !in old(items) && rid !in canvases && rid !in layers
      ensures items == old(items)[rid := NewItem(rid)]
      ensures canvases == old(canvases) && layers == old(layers) && canvasDirty
    {
      rid := nextRid;
      nextRid := nextRid + 1;
      items := items[rid := NewItem(rid)];
      canvasDirty := true;
    }

    /** canvas_layer_create, storage.py:95-100: a fresh id with a layer on no canvas. */
    method CanvasLayerCreate() returns (rid: int)
      requires Valid()
      modifies this
      ensures Valid()
      ensures rid == old(nextRid) && nextRid == rid + 1
      ensures rid !in old(layers) && rid !in canvases && rid !in items
      ensures layers == old(layers)[rid := LayerData(rid, None, 0)]
      ensures canvases == old(canvases) && items == old(items) && canvasDirty
    {
      rid := nextRid;
      nextRid := nextRid + 1;
      layers := layers[rid := LayerData(rid, None, 0)];
      canvasDirty := true;
    }

    /** canvas_free, storage.py:44-52; an unknown canvas does not mark the state dirty. */
    method CanvasFree(rid: int)
      requires Valid()
      modifies this
      ensures Valid()
      ensures Snapshot() == CanvasFreed(old(Snapshot()), rid)
      ensures layers == old(layers) && nextRid == old(nextRid)
      ensures canvasDirty == (old(canvasDirty) || rid in old(canvases))
    {
      if rid !in canvases {
        return;
      }
      var canvas := canvases[rid];
      var cleared := ForEachItem(items, canvas.itemRids, DropCanvas);
      canvases, items := canvases - {rid}, cleared;
      canvasDirty := true;
    }

    /** canvas_item_free, storage.py:67-87; an unknown item does not mark the state
        dirty. */
    method CanvasItemFree(rid: int)
      requires Valid()
      modifies this
      ensures Valid()
      ensures Snapshot() == ItemFreed(old(Snapshot()), rid)
      ensures layers == old(layers) && nextRid == old(nextRid)
      ensures canvasDirty == (old(canvasDirty) || rid in old(items))
    {
      if rid !in items {
        return;
      }
      var r := FreeItem(Tree(canvases, items), rid);
      canvases, items := r.canvases, r.items;
      canvasDirty := true;
    }

    /** canvas_layer_free, storage.py:102-104: marks the state dirty even for an unknown
        layer. */
    method CanvasLayerFree(rid: int)
      requires Valid()
      modifies this
      ensures Valid()
      ensures layers == old(layers) - {rid}
      ensures canvases == old(canvases) && items == old(items) && nextRid == old(nextRid) && canvasDirty
    {
      layers := layers - {rid};
      canvasDirty := true;
    }

    /** clear, storage.py:112-115: the tables empty, the id counter and the dirty flag
        kept. */
    method Clear()
      requires Valid()
      modifies this
      ensures Valid()
      ensures canvases == map[] && items == map[] && layers == map[]
      ensures nextRid == old(nextRid) && canvasDirty == old(canvasDirty)
    {
      canvases, items, layers := map[], map[], map[];
    }
  }
}
